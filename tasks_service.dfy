/**
 * The task service of backend/src/services/tasks.service.ts over the Task
 * collection, modelled as a map from task id to task: the ownership guard
 * `get`, the owner's list `getAll`, and `create`, `update` and `remove`,
 * each answering with the caller's tasks.
 */
module TasksService {
  import opened Wrappers
  import opened Errors
  import opened Tokens
  import opened TaskModel

  function TaskNotFound(): Error { Http(NotFoundError, "Task not found") }
  function NotYourTask(): Error { Http(ForbiddenError, "You do not have permission to change this task") }

  /** `get(userId, taskId)`: NotFound for a missing id, checked before ownership; Forbidden for another user's task. */
  function Get(tasks: map<TaskId, Task>, userId: Id, taskId: TaskId): (r: Result<Task, Error>)
    ensures taskId !in tasks ==> r == Failure(TaskNotFound())
    ensures taskId in tasks && tasks[taskId].userId != userId ==> r == Failure(NotYourTask())
    ensures r.Success? <==> taskId in tasks && tasks[taskId].userId == userId
    ensures r.Success? ==> r.value == tasks[taskId]
  {
    if taskId !in tasks then Failure(TaskNotFound())
    else if tasks[taskId].userId != userId then Failure(NotYourTask())
    else Success(tasks[taskId])
  }

  /** `getAll(userId)`, `Task.find().byUserId(userId)`: exactly the tasks owned by userId. */
  function GetAll(tasks: map<TaskId, Task>, userId: Id): (r: map<TaskId, Task>)
    ensures forall id :: id in r <==> id in tasks && tasks[id].userId == userId
    ensures forall id :: id in r ==> r[id] == tasks[id]
  {
    map id | id in tasks && tasks[id].userId == userId :: tasks[id]
  }

  /** The collection. `minDue` is `Date.now()` at the time the model module was loaded. */
  class TaskStore {
    var tasks: map<TaskId, Task>
    const minDue: int

    ghost predicate Valid()
      reads this
    {
      forall id :: id in tasks ==> tasks[id].id == id
    }

    constructor (minDue: int)
      ensures Valid() && tasks == map[] && this.minDue == minDue
    {
      tasks := map[];
      this.minDue := minDue;
    }

    /**
     * `create(userId, taskData)` under the fresh ObjectId newId, corrected
     * to build the task with NewDraft (NewDraftAsWritten is the source's
     * spread, which lets the body's userId win): the new task belongs to the caller; on success the caller's list now holds it
     * and no other task changed; on a validation failure nothing changed.
     */
    method Create(userId: Id, input: TaskInput, users: set<Id>, classify: Classifier, newId: TaskId)
      returns (r: Result<map<TaskId, Task>, Error>)
      requires Valid() && newId !in tasks
      modifies this
      ensures Valid()
      ensures var saved := Save(newId, NewDraft(userId, input), true, users, minDue, classify);
        && (saved.Failure? ==> r == Failure(saved.error) && tasks == old(tasks))
        && (saved.Success? ==> tasks == old(tasks)[newId := saved.value] && r == Success(GetAll(tasks, userId)))
      ensures r.Success? ==> newId in r.value && r.value[newId].userId == userId
    {
      var saved := Save(newId, NewDraft(userId, input), true, users, minDue, classify);
      if saved.Failure? {
        return Failure(saved.error);
      }
      tasks := tasks[newId := saved.value];
      r := Success(GetAll(tasks, userId));
    }

    /**
     * `update(userId, taskId, taskData)`, corrected to apply the body with
     * Assign (AssignAsWritten is the source's `Object.assign`, which also
     * copies userId): the guard, then the supplied fields overwrite the stored ones and the document is saved again (validated,
     * not reclassified). A missing or foreign task, or a failed validation,
     * leaves the collection unchanged.
     */
    method Update(userId: Id, taskId: TaskId, input: TaskInput, users: set<Id>, classify: Classifier)
      returns (r: Result<map<TaskId, Task>, Error>)
      requires Valid()
      modifies this
      ensures Valid()
      ensures Get(old(tasks), userId, taskId).Failure? ==>
        r == Failure(Get(old(tasks), userId, taskId).error) && tasks == old(tasks)
      ensures Get(old(tasks), userId, taskId).Success? ==>
        var saved := Save(taskId, Assign(old(tasks)[taskId], input), false, users, minDue, classify);
        && (saved.Failure? ==> r == Failure(saved.error) && tasks == old(tasks))
        && (saved.Success? ==> tasks == old(tasks)[taskId := saved.value] && r == Success(GetAll(tasks, userId)))
      ensures r.Success? ==> tasks.Keys == old(tasks).Keys && taskId in r.value
    {
      var found := Get(tasks, userId, taskId);
      if found.Failure? {
        return Failure(found.error);
      }
      var saved := Save(taskId, Assign(found.value, input), false, users, minDue, classify);
      if saved.Failure? {
        return Failure(saved.error);
      }
      tasks := tasks[taskId := saved.value];
      r := Success(GetAll(tasks, userId));
    }

    /** `remove(userId, taskId)`: the guard, then exactly that task is deleted; the caller's remaining tasks are returned. */
    method Remove(userId: Id, taskId: TaskId) returns (r: Result<map<TaskId, Task>, Error>)
      requires Valid()
      modifies this
      ensures Valid()
      ensures Get(old(tasks), userId, taskId).Failure? ==>
        r == Failure(Get(old(tasks), userId, taskId).error) && tasks == old(tasks)
      ensures Get(old(tasks), userId, taskId).Success? ==>
        tasks == old(tasks) - {taskId} && r == Success(GetAll(tasks, userId))
      ensures r.Success? ==> taskId !in r.value && r.value == GetAll(old(tasks), userId) - {taskId}
    {
      var found := Get(tasks, userId, taskId);
      if found.Failure? {
        return Failure(found.error);
      }
      tasks := tasks - {taskId};
      r := Success(GetAll(tasks, userId));
    }
  }

  /** An update changes only the one task, and only in the fields supplied (its owner and id stay). */
  lemma UpdateTouchesOneTask(tasks: map<TaskId, Task>, userId: Id, taskId: TaskId, input: TaskInput,
                             users: set<Id>, minDue: int, classify: Classifier)
    requires Get(tasks, userId, taskId).Success?
    requires Save(taskId, Assign(tasks[taskId], input), false, users, minDue, classify).Success?
    ensures var t := Save(taskId, Assign(tasks[taskId], input), false, users, minDue, classify).value;
      && t.id == taskId && t.userId == userId
      && t.category == input.category.GetOr(tasks[taskId].category)
      && t.description == input.description.GetOr(tasks[taskId].description)
      && t.dueDate == input.dueDate.GetOr(tasks[taskId].dueDate)
      && StatusName(t.status) == input.status.GetOr(StatusName(tasks[taskId].status))
      && UrgencyName(t.urgency) == input.urgency.GetOr(UrgencyName(tasks[taskId].urgency))
      && t.userReminded == input.userReminded.GetOr(tasks[taskId].userReminded)
  {
  }

  // ---------------------------------------------------------------------------
  // Ownership as written
  // ---------------------------------------------------------------------------

  /**
   * As written, `create` spreads the body after the caller's id, so a body
   * naming another existing user creates a task that the caller does not own
   * and that does not appear in the list the caller gets back.
   */
  lemma CreateAsWrittenHandsTaskToOtherUser(tasks: map<TaskId, Task>, caller: Id, other: Id, newId: TaskId,
                                          category: string, description: string, users: set<Id>, minDue: int)
    requires caller != other && other in users && newId !in tasks
    requires Utf16Length(category) >= 3 && Utf16Length(description) >= 10
    ensures var input := TaskInput(Some(other), Some(category), Some(description), Some(minDue), None, None, None);
      var saved := Save(newId, NewDraftAsWritten(caller, input), true, users, minDue, _ => None);
      && saved.Success? && saved.value.userId == other
      && newId !in GetAll(tasks[newId := saved.value], caller)
  {
  }

  /** The model's `create` gives every new task to the caller, whatever the body says. */
  lemma CreateOwnedByCaller(caller: Id, input: TaskInput, newId: TaskId, users: set<Id>, minDue: int, classify: Classifier)
    requires Save(newId, NewDraft(caller, input), true, users, minDue, classify).Success?
    ensures Save(newId, NewDraft(caller, input), true, users, minDue, classify).value.userId == caller
  {
  }

  /**
   * As written, `update` copies a body's `userId` onto the document, so the
   * owner can hand the task to another user, after which it is gone from
   * the owner's list and the other user may change it.
   */
  lemma UpdateAsWrittenReassignsOwner(tasks: map<TaskId, Task>, owner: Id, other: Id, taskId: TaskId,
                                      input: TaskInput, users: set<Id>, minDue: int)
    requires Get(tasks, owner, taskId).Success? && owner != other && input.userId == Some(other)
    requires Valid(AssignAsWritten(tasks[taskId], input), users, minDue)
    ensures var saved := Save(taskId, AssignAsWritten(tasks[taskId], input), false, users, minDue, _ => None);
      && saved.Success? && saved.value.userId == other
      && taskId !in GetAll(tasks[taskId := saved.value], owner)
      && Get(tasks[taskId := saved.value], other, taskId).Success?
  {
  }

  /** The model's `update` never changes who owns a task. */
  lemma UpdateKeepsOwner(t: Task, input: TaskInput, users: set<Id>, minDue: int, classify: Classifier)
    requires Save(t.id, Assign(t, input), false, users, minDue, classify).Success?
    ensures Save(t.id, Assign(t, input), false, users, minDue, classify).value.userId == t.userId
  {
  }
}
