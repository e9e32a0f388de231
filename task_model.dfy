/**
 * The Task document of backend/src/models/task.model.ts: its schema
 * (defaults, enumerations, length bounds, the owner reference, the `dueDate`
 * lower bound), the save pipeline (validation, then the pre-save hook that
 * asks the classifier for an urgency on the first save only) and the
 * `toJSON` projection.
 */
module TaskModel {
  import opened Wrappers
  import opened Errors
  import opened Tokens

  datatype Status = Pending | InProgress | Completed
  datatype Urgency = Urgent | Normal

  function StatusName(s: Status): string
  {
    match s
    case Pending => "pending"
    case InProgress => "in-progress"
    case Completed => "completed"
  }

  /** The `enum` check of `status`: the one member with that name, if any. */
  function ParseStatus(s: string): (r: Option<Status>)
    ensures r.Some? ==> StatusName(r.value) == s
    ensures r.None? ==> s != "pending" && s != "in-progress" && s != "completed"
  {
    if s == "pending" then Some(Pending)
    else if s == "in-progress" then Some(InProgress)
    else if s == "completed" then Some(Completed)
    else None
  }

  function UrgencyName(u: Urgency): string
  {
    match u
    case Urgent => "urgent"
    case Normal => "normal"
  }

  /** The `enum` check of `urgency`. */
  function ParseUrgency(s: string): (r: Option<Urgency>)
    ensures r.Some? ==> UrgencyName(r.value) == s
    ensures r.None? ==> s != "urgent" && s != "normal"
  {
    if s == "urgent" then Some(Urgent) else if s == "normal" then Some(Normal) else None
  }

  /** Every member of each enumeration passes its `enum` check. */
  lemma EnumsRoundTrip(s: Status, u: Urgency)
    ensures ParseStatus(StatusName(s)) == Some(s)
    ensures ParseUrgency(UrgencyName(u)) == Some(u)
  {
  }

  type TaskId = string

  /** A stored task; `dueDate` in milliseconds. */
  datatype Task = Task(
    id: TaskId,
    userId: Id,
    category: string,
    description: string,
    dueDate: int,
    status: Status,
    urgency: Urgency,
    userReminded: bool)

  /** A request body as the service receives it: the schema's paths, each optional (userId too, when a client sends it). */
  datatype TaskInput = TaskInput(
    userId: Option<Id>,
    category: Option<string>,
    description: Option<string>,
    dueDate: Option<int>,
    status: Option<string>,
    urgency: Option<string>,
    userReminded: Option<bool>)

  /** A document before validation: defaults filled in, nothing checked yet. */
  datatype Draft = Draft(
    userId: Option<Id>,
    category: Option<string>,
    description: Option<string>,
    dueDate: Option<int>,
    status: string,
    urgency: string,
    userReminded: bool)

  /** `new Task({ userId, ...taskData })` with the owner taken from the caller. */
  function NewDraft(owner: Id, input: TaskInput): (d: Draft)
    ensures d.userId == Some(owner)
    ensures d.status == input.status.GetOr("pending")
    ensures d.urgency == input.urgency.GetOr("normal")
    ensures d.userReminded == input.userReminded.GetOr(false)
    ensures d.category == input.category && d.description == input.description && d.dueDate == input.dueDate
  {
    Draft(Some(owner), input.category, input.description, input.dueDate,
          input.status.GetOr("pending"), input.urgency.GetOr("normal"), input.userReminded.GetOr(false))
  }

  /** `new Task({ userId, ...taskData })` as written: a `userId` in the body comes after, and wins. */
  function NewDraftAsWritten(owner: Id, input: TaskInput): (d: Draft)
    ensures d.userId == Some(input.userId.GetOr(owner))
  {
    Draft(Some(input.userId.GetOr(owner)), input.category, input.description, input.dueDate,
          input.status.GetOr("pending"), input.urgency.GetOr("normal"), input.userReminded.GetOr(false))
  }

  /** The document of a stored task. */
  function DraftOf(t: Task): Draft
  {
    Draft(Some(t.userId), Some(t.category), Some(t.description), Some(t.dueDate),
          StatusName(t.status), UrgencyName(t.urgency), t.userReminded)
  }

  /** `Object.assign(task, taskData)` for the task's own fields: each supplied field overwrites, the owner stays. */
  function Assign(t: Task, input: TaskInput): (d: Draft)
    ensures d.userId == Some(t.userId)
    ensures d.category == Some(input.category.GetOr(t.category))
    ensures d.description == Some(input.description.GetOr(t.description))
    ensures d.dueDate == Some(input.dueDate.GetOr(t.dueDate))
    ensures d.status == input.status.GetOr(StatusName(t.status))
    ensures d.urgency == input.urgency.GetOr(UrgencyName(t.urgency))
    ensures d.userReminded == input.userReminded.GetOr(t.userReminded)
  {
    Draft(Some(t.userId), Some(input.category.GetOr(t.category)), Some(input.description.GetOr(t.description)),
          Some(input.dueDate.GetOr(t.dueDate)), input.status.GetOr(StatusName(t.status)),
          input.urgency.GetOr(UrgencyName(t.urgency)), input.userReminded.GetOr(t.userReminded))
  }

  /** `Object.assign(task, taskData)` as written: a `userId` in the body is copied onto the document too. */
  function AssignAsWritten(t: Task, input: TaskInput): (d: Draft)
    ensures d.userId == Some(input.userId.GetOr(t.userId))
    ensures d == Assign(t, input).(userId := Some(input.userId.GetOr(t.userId)))
  {
    Assign(t, input).(userId := Some(input.userId.GetOr(t.userId)))
  }

  /** Supplying nothing changes nothing. */
  lemma AssignNothing(t: Task)
    ensures Assign(t, TaskInput(None, None, None, None, None, None, None)) == DraftOf(t)
  {
  }

  /** JavaScript's `length` of a string: a code point above U+FFFF takes two UTF-16 units. */
  function Utf16Length(s: string): (n: nat)
    ensures |s| <= n <= 2 * |s|
  {
    if s == [] then 0 else (if s[0] as int > 0xFFFF then 2 else 1) + Utf16Length(s[1..])
  }

  /**
   * The schema's validators: `userId` required and the id of an existing
   * user; `category` required with at least 3 UTF-16 units; `description`
   * required with at least 10; `dueDate` required and not before `minDue`,
   * the `Date.now()` read once when the module was loaded; `status` and
   * `urgency` within their enumerations.
   */
  predicate Valid(d: Draft, users: set<Id>, minDue: int)
  {
    && d.userId.Some? && d.userId.value in users
    && d.category.Some? && Utf16Length(d.category.value) >= 3
    && d.description.Some? && Utf16Length(d.description.value) >= 10
    && d.dueDate.Some? && d.dueDate.value >= minDue
    && ParseStatus(d.status).Some?
    && ParseUrgency(d.urgency).Some?
  }

  /** An emoji outside the basic plane counts twice: one such emoji and one letter make a long enough category. */
  lemma AstralCategoryIsLongEnough(d: Draft, users: set<Id>, minDue: int)
    requires Valid(d.(category := Some("abc")), users, minDue)
    ensures Valid(d.(category := Some("\U{1F600}a")), users, minDue)
  {
    var s := "\U{1F600}a";
    assert s[1..][1..] == [];
    assert Utf16Length(s) == 3;
  }

  /** The mongoose ValidationError a failed validation throws (no status code: the handler answers 500). */
  function ValidationFailed(): Error
  {
    Foreign("ValidationError", Some("Task validation failed"), None, None)
  }

  /** The urgency asked of the NLP service for a document, or None when that call fails. */
  type Classifier = Draft -> Option<Urgency>

  /**
   * `task.save()`: validation first, then the pre-save hook, which on the
   * first save of a new document replaces `urgency` with the classifier's
   * answer (and keeps it when the call fails, the hook's `finally` saving
   * the document anyway).
   */
  function Save(id: TaskId, d: Draft, isNew: bool, users: set<Id>, minDue: int, classify: Classifier): (r: Result<Task, Error>)
    ensures r.Success? <==> Valid(d, users, minDue)
    ensures r.Failure? ==> r.error == ValidationFailed()
    ensures r.Success? ==>
      && r.value.id == id && Some(r.value.userId) == d.userId
      && Some(r.value.category) == d.category && Some(r.value.description) == d.description
      && Some(r.value.dueDate) == d.dueDate && StatusName(r.value.status) == d.status
      && r.value.userReminded == d.userReminded
      && (isNew && classify(d).Some? ==> r.value.urgency == classify(d).value)
      && (!(isNew && classify(d).Some?) ==> UrgencyName(r.value.urgency) == d.urgency)
  {
    if !Valid(d, users, minDue) then Failure(ValidationFailed())
    else
      var urgency := if isNew && classify(d).Some? then classify(d).value else ParseUrgency(d.urgency).value;
      Success(Task(id, d.userId.value, d.category.value, d.description.value, d.dueDate.value,
                   ParseStatus(d.status).value, urgency, d.userReminded))
  }

  /** A document saved a second time keeps the urgency it has: the classifier is only asked once. */
  lemma ResaveKeepsUrgency(t: Task, users: set<Id>, minDue: int, classify: Classifier)
    requires Valid(DraftOf(t), users, minDue)
    ensures Save(t.id, DraftOf(t), false, users, minDue, classify) == Success(t)
  {
  }

  /**
   * The lower bound on `dueDate` is the load-time constant, not the clock of
   * the save: a due date already in the past at nowMs is still accepted
   * when it is not before minDue.
   */
  lemma PastDueDateAccepted(d: Draft, users: set<Id>, minDue: int, nowMs: int)
    requires Valid(d, users, minDue) && d.dueDate.value < nowMs
    ensures Save("id", d, true, users, minDue, _ => None).Success?
    ensures Save("id", d, true, users, minDue, _ => None).value.dueDate < nowMs
  {
  }

  /** A new task saved with nothing but the required fields gets the defaults pending and not reminded, and urgency normal unless classified. */
  lemma NewTaskDefaults(id: TaskId, owner: Id, category: string, description: string, dueDate: int,
                        users: set<Id>, minDue: int, classify: Classifier)
    requires owner in users && Utf16Length(category) >= 3 && Utf16Length(description) >= 10 && dueDate >= minDue
    ensures var d := NewDraft(owner, TaskInput(None, Some(category), Some(description), Some(dueDate), None, None, None));
      var r := Save(id, d, true, users, minDue, classify);
      && r.Success? && r.value.status == Pending && r.value.userReminded == false
      && r.value.urgency == (if classify(d).Some? then classify(d).value else Normal)
  {
    var d := NewDraft(owner, TaskInput(None, Some(category), Some(description), Some(dueDate), None, None, None));
    EnumsRoundTrip(Pending, Normal);
    assert ParseStatus(d.status) == Some(Pending) && ParseUrgency(d.urgency) == Some(Normal);
    assert Valid(d, users, minDue);
    var urgency := if classify(d).Some? then classify(d).value else Normal;
    assert Save(id, d, true, users, minDue, classify)
      == Success(Task(id, owner, category, description, dueDate, Pending, urgency, false));
  }

  /** What `toJSON` sends: `_id` renamed `id`, `__v` and `userId` dropped, the rest unchanged. */
  datatype TaskJson = TaskJson(
    id: TaskId,
    category: string,
    description: string,
    dueDate: int,
    status: Status,
    urgency: Urgency,
    userReminded: bool)

  function ToJson(t: Task): (j: TaskJson)
    ensures FromJson(j, t.userId) == t
  {
    TaskJson(t.id, t.category, t.description, t.dueDate, t.status, t.urgency, t.userReminded)
  }

  /** A task is its JSON plus its owner. */
  function FromJson(j: TaskJson, owner: Id): (t: Task)
    ensures t.id == j.id && t.userId == owner
  {
    Task(j.id, owner, j.category, j.description, j.dueDate, j.status, j.urgency, j.userReminded)
  }

  /** `toJSON` loses exactly the owner: adding it back restores the task, and tasks of one owner have distinct JSON. */
  lemma JsonRoundTrip(t: Task, u: Task)
    ensures FromJson(ToJson(t), t.userId) == t
    ensures t.userId == u.userId && t != u ==> ToJson(t) != ToJson(u)
  {
  }
}
