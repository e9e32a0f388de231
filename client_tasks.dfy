/**
 * A task as the dashboard holds it (frontend/src/pages/dashboard/internals/types.ts):
 * the JSON the backend sends, with `dueDate` as milliseconds since the epoch.
 */
module ClientTasks {
  import opened TaskModel

  datatype ClientTask = ClientTask(
    id: TaskId,
    category: string,
    description: string,
    status: Status,
    urgency: Urgency,
    dueDate: int,
    userReminded: bool)

  /** No two tasks of a list share an id (they are documents of one collection). */
  ghost predicate UniqueIds(tasks: seq<ClientTask>)
  {
    forall i, j :: 0 <= i < j < |tasks| ==> tasks[i].id != tasks[j].id
  }
}
