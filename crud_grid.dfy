/**
 * The editable task grid of frontend/src/pages/dashboard/components/FullFeaturedCrudGrid.tsx:
 * its row-mode model (which rows are being edited), the Edit, Save and
 * Cancel handlers, the edit-stop rule, the action buttons of a row, the
 * chip colours and the re-sync of `rows` from the context's `tasks`.
 */
module CrudGrid {
  import Wrappers
  import opened TaskModel
  import opened ClientTasks

  datatype RowMode = View | Edit
  /** A `rowModesModel` entry; `ignoreModifications` is false when the entry does not set it. */
  datatype ModeEntry = ModeEntry(mode: RowMode, ignoreModifications: bool)
  /** A grid row: a task, and whether it was added in the grid and never saved. */
  datatype Row = Row(task: ClientTask, isNew: bool)

  datatype Action = SaveAction | CancelAction | EditAction | DeleteAction

  /** `getActions`: Save and Cancel for a row in edit mode, Edit and Delete otherwise. */
  function GetActions(modes: map<TaskId, ModeEntry>, id: TaskId): (r: seq<Action>)
    ensures (id in modes && modes[id].mode == Edit) ==> r == [SaveAction, CancelAction]
    ensures !(id in modes && modes[id].mode == Edit) ==> r == [EditAction, DeleteAction]
  {
    if id in modes && modes[id].mode == Edit then [SaveAction, CancelAction] else [EditAction, DeleteAction]
  }

  /** The reasons the grid gives for stopping a row edit. */
  datatype EditStopReason = RowFocusOut | EscapeKeyDown | EnterKeyDown | TabKeyDown | ShiftTabKeyDown

  /** `handleRowEditStop`: whether the stop is prevented (`defaultMuiPrevented`); only a focus-out is. */
  function EditStopPrevented(reason: EditStopReason): (prevented: bool)
    ensures prevented <==> reason == RowFocusOut
  {
    reason.RowFocusOut?
  }

  datatype ChipColor = Warning | Primary | Success | Error

  /** The status chip: warning for pending, primary for in progress, success for completed. */
  function StatusColor(s: Status): (c: ChipColor)
    ensures c == Success <==> s == Completed
    ensures c != Error
  {
    match s
    case Pending => Warning
    case InProgress => Primary
    case Completed => Success
  }

  /** The urgency chip: error for urgent, success for normal. */
  function UrgencyColor(u: Urgency): (c: ChipColor)
    ensures c == Error <==> u == Urgent
    ensures c == Error || c == Success
  {
    match u
    case Normal => Success
    case Urgent => Error
  }

  /** Each chip colour map tells its values apart. */
  lemma ChipColorsDistinguish(s: Status, t: Status, u: Urgency, v: Urgency)
    ensures StatusColor(s) == StatusColor(t) ==> s == t
    ensures UrgencyColor(u) == UrgencyColor(v) ==> u == v
  {
  }

  /** The rows of a task list, none of them new. */
  function RowsOf(tasks: seq<ClientTask>): (rows: seq<Row>)
    ensures |rows| == |tasks|
    ensures forall i :: 0 <= i < |tasks| ==> rows[i] == Row(tasks[i], false)
  {
    seq(|tasks|, i requires 0 <= i < |tasks| => Row(tasks[i], false))
  }

  function RowIndex(rows: seq<Row>, id: TaskId): (r: Wrappers.Option<nat>)
    ensures r.Some? ==> r.value < |rows| && rows[r.value].task.id == id
    ensures r.Some? ==> forall j :: 0 <= j < r.value ==> rows[j].task.id != id
    ensures r.None? ==> forall j :: 0 <= j < |rows| ==> rows[j].task.id != id
  {
    if rows == [] then Wrappers.None
    else if rows[0].task.id == id then Wrappers.Some(0)
    else match RowIndex(rows[1..], id)
      case None => Wrappers.None
      case Some(k) => Wrappers.Some(k + 1)
  }

  /** `rows.filter((row) => row.id !== id)`. */
  function WithoutRow(rows: seq<Row>, id: TaskId): (r: seq<Row>)
    ensures |r| <= |rows|
  {
    if rows == [] then []
    else if rows[0].task.id != id then [rows[0]] + WithoutRow(rows[1..], id)
    else WithoutRow(rows[1..], id)
  }

  /** The rows kept are exactly those with another id. */
  lemma {:induction false} WithoutRowMembers(rows: seq<Row>, id: TaskId, row: Row)
    ensures row in WithoutRow(rows, id) <==> row in rows && row.task.id != id
    decreases |rows|
  {
    if rows != [] {
      WithoutRowMembers(rows[1..], id, row);
      assert rows == [rows[0]] + rows[1..];
    }
  }

  class Grid {
    var rows: seq<Row>
    var rowModes: map<TaskId, ModeEntry>

    /** `useState(tasks)` and an empty row-mode model. */
    constructor (tasks: seq<ClientTask>)
      ensures rows == RowsOf(tasks) && rowModes == map[]
    {
      rows := RowsOf(tasks);
      rowModes := map[];
    }

    /** `handleEditClick(id)`: that row into edit mode, every other entry unchanged. */
    method EditClick(id: TaskId)
      modifies this
      ensures rowModes == old(rowModes)[id := ModeEntry(Edit, false)] && rows == old(rows)
    {
      rowModes := rowModes[id := ModeEntry(Edit, false)];
    }

    /** `handleSaveClick(id)`: that row back to view mode, keeping its modifications. */
    method SaveClick(id: TaskId)
      modifies this
      ensures rowModes == old(rowModes)[id := ModeEntry(View, false)] && rows == old(rows)
    {
      rowModes := rowModes[id := ModeEntry(View, false)];
    }

    /**
     * `handleCancelClick(id)`: the row back to view mode discarding its
     * modifications, and removed when it is new. A row that is not in `rows`
     * makes `editedRow!.isNew` throw: `crashed`, after the mode update.
     */
    method CancelClick(id: TaskId) returns (crashed: bool)
      modifies this
      ensures rowModes == old(rowModes)[id := ModeEntry(View, true)]
      ensures crashed <==> RowIndex(old(rows), id).None?
      ensures !crashed && old(rows)[RowIndex(old(rows), id).value].isNew ==> rows == WithoutRow(old(rows), id)
      ensures crashed || !old(rows)[RowIndex(old(rows), id).value].isNew ==> rows == old(rows)
    {
      rowModes := rowModes[id := ModeEntry(View, true)];
      var found := RowIndex(rows, id);
      if found.None? {
        return true;
      }
      crashed := false;
      if rows[found.value].isNew {
        rows := WithoutRow(rows, id);
      }
    }

    /** `handleRowModesModelChange`: the grid's own model replaces the state. */
    method RowModesModelChange(modes: map<TaskId, ModeEntry>)
      modifies this
      ensures rowModes == modes && rows == old(rows)
    {
      rowModes := modes;
    }

    /** The effect on `[tasks]`: `rows` is replaced by the new task list. */
    method TasksChanged(tasks: seq<ClientTask>)
      modifies this
      ensures rows == RowsOf(tasks) && rowModes == old(rowModes)
    {
      rows := RowsOf(tasks);
    }
  }

  /** An edited row offers Save and Cancel; after a save or a cancel it offers Edit and Delete again. */
  lemma ActionsFollowModes(modes: map<TaskId, ModeEntry>, id: TaskId, other: TaskId, ignore: bool)
    requires other != id
    ensures GetActions(modes[id := ModeEntry(Edit, false)], id) == [SaveAction, CancelAction]
    ensures GetActions(modes[id := ModeEntry(View, ignore)], id) == [EditAction, DeleteAction]
    ensures GetActions(modes[id := ModeEntry(Edit, false)], other) == GetActions(modes, other)
  {
  }

  /** Removal works row by row: the other rows keep their order. */
  lemma {:induction false} WithoutRowConcat(a: seq<Row>, b: seq<Row>, id: TaskId)
    ensures WithoutRow(a + b, id) == WithoutRow(a, id) + WithoutRow(b, id)
    decreases |a|
  {
    if a == [] {
      assert a + b == b;
    } else {
      assert (a + b)[0] == a[0] && (a + b)[1..] == a[1..] + b;
      WithoutRowConcat(a[1..], b, id);
      if a[0].task.id != id {
        assert [a[0]] + (WithoutRow(a[1..], id) + WithoutRow(b, id)) == ([a[0]] + WithoutRow(a[1..], id)) + WithoutRow(b, id);
      }
    }
  }

  /** When no other row shares its id, cancelling the new row at k leaves exactly the rows before it followed by the rows after it. */
  lemma CancelRemovesOneRow(rows: seq<Row>, k: nat)
    requires k < |rows|
    requires forall j :: 0 <= j < |rows| && j != k ==> rows[j].task.id != rows[k].task.id
    ensures WithoutRow(rows, rows[k].task.id) == rows[..k] + rows[k + 1..]
  {
    var pre, post := rows[..k], rows[k + 1..];
    AroundRow(rows, k);
    NeighboursKept(rows, k);
    RemovesMiddle(pre, rows[k], post);
  }

  /** A row list is the rows before k, the row at k, and the rows after it. */
  lemma AroundRow(rows: seq<Row>, k: nat)
    requires k < |rows|
    ensures rows == rows[..k] + ([rows[k]] + rows[k + 1..])
  {
    assert rows[k..] == [rows[k]] + rows[k + 1..];
    assert rows == rows[..k] + rows[k..];
  }

  /** Filtering out the id of the middle row, when neither side holds it, joins the two sides. */
  lemma RemovesMiddle(pre: seq<Row>, r: Row, post: seq<Row>)
    requires WithoutRow(pre, r.task.id) == pre && WithoutRow(post, r.task.id) == post
    ensures WithoutRow(pre + ([r] + post), r.task.id) == pre + post
  {
    WithoutRowConcat(pre, [r] + post, r.task.id);
    assert ([r] + post)[0] == r && ([r] + post)[1..] == post;
  }

  lemma NeighboursKept(rows: seq<Row>, k: nat)
    requires k < |rows|
    requires forall j :: 0 <= j < |rows| && j != k ==> rows[j].task.id != rows[k].task.id
    ensures WithoutRow(rows[..k], rows[k].task.id) == rows[..k]
    ensures WithoutRow(rows[k + 1..], rows[k].task.id) == rows[k + 1..]
  {
    var id := rows[k].task.id;
    var pre, post := rows[..k], rows[k + 1..];
    forall j | 0 <= j < |pre|
      ensures pre[j].task.id != id
    {
      assert pre[j] == rows[j];
    }
    forall j | 0 <= j < |post|
      ensures post[j].task.id != id
    {
      assert post[j] == rows[k + 1 + j];
    }
    WithoutAbsent(pre, id);
    WithoutAbsent(post, id);
  }

  /** Removing an id no row has changes nothing. */
  lemma {:induction false} WithoutAbsent(rows: seq<Row>, id: TaskId)
    requires forall j :: 0 <= j < |rows| ==> rows[j].task.id != id
    ensures WithoutRow(rows, id) == rows
    decreases |rows|
  {
    if rows != [] {
      WithoutAbsent(rows[1..], id);
      assert rows == [rows[0]] + rows[1..];
    }
  }
}
