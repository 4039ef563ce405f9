/**
  `TaskEntity`: one task's private record and the methods that read it and
  move its status along the lifecycle of module `TaskStatus`.
*/
module Task {
  import opened Wrappers
  import opened TaskStatus

  /** The clock reading taken at construction; the model treats it as an input. */
  type Timestamp = int

  /** `ITaskCreate`: what a caller supplies to build a task. */
  datatype TaskCreate = TaskCreate(name: string, description: Option<string>)

  /** `ITaskData`: the record a task keeps privately. */
  datatype TaskData = TaskData(
    name: string,
    description: Option<string>,
    status: Status,
    createdAt: Timestamp)

  /**
    The value the `description` getter yields for a stored description: the
    stored text, unless it is absent or empty, in which case null (`None`).
  */
  function DescriptionOf(stored: Option<string>): (r: Option<string>)
    ensures r.Some? <==> stored.Some? && stored.value != ""
    ensures r.Some? ==> r == stored
  {
    match stored
    case None => None
    case Some(text) => if text == "" then None else Some(text)
  }

  class TaskEntity {
    /** The private record; every method below reads or replaces it. */
    var data: TaskData

    /** Stores the name and description unchecked, with status `wait`. */
    constructor (params: TaskCreate, now: Timestamp)
      ensures data == TaskData(params.name, params.description, Wait, now)
      ensures Name() == params.name && Status() == Wait && CreatedAt() == now
      ensures Description() == DescriptionOf(params.description)
    {
      data := TaskData(params.name, params.description, Wait, now);
    }

    function Name(): string
      reads this
    {
      data.name
    }

    /** Null when the stored description is absent or empty. */
    function Description(): (r: Option<string>)
      reads this
      ensures r == DescriptionOf(data.description)
    {
      DescriptionOf(data.description)
    }

    function Status(): Status
      reads this
    {
      data.status
    }

    function CreatedAt(): Timestamp
      reads this
    {
      data.createdAt
    }

    /**
      `wait -> inProgress`; from any other status throws `StartedAgain` and
      changes nothing. On success returns the entity itself.
    */
    method Start() returns (r: Result<TaskEntity, TransitionError>)
      modifies this
      ensures old(data.status) == Wait ==>
        r == Success(this) && data == old(data).(status := InProgress)
      ensures old(data.status) != Wait ==>
        r == Failure(StartedAgain) && data == old(data)
      ensures r.Failure? <==> Step(TaskStatus.Start, old(data.status)).Failure?
      ensures data.status == After(TaskStatus.Start, old(data.status))
    {
      if Status() != Wait {
        return Failure(StartedAgain);
      }
      data := data.(status := InProgress);
      return Success(this);
    }

    /**
      `inProgress -> done`; from any other status throws `CompleteNotStarted`
      and changes nothing. On success returns the entity itself.
    */
    method Done() returns (r: Result<TaskEntity, TransitionError>)
      modifies this
      ensures old(data.status) == InProgress ==>
        r == Success(this) && data == old(data).(status := TaskStatus.Done)
      ensures old(data.status) != InProgress ==>
        r == Failure(CompleteNotStarted) && data == old(data)
      ensures r.Failure? <==> Step(Complete, old(data.status)).Failure?
      ensures data.status == After(Complete, old(data.status))
    {
      if data.status != InProgress {
        return Failure(CompleteNotStarted);
      }
      data := data.(status := TaskStatus.Done);
      return Success(this);
    }

    /**
      Any status but `closed` -> `closed`; from `closed` throws `ClosedAgain`
      and changes nothing. On success returns the entity itself.
    */
    method Close() returns (r: Result<TaskEntity, TransitionError>)
      modifies this
      ensures old(data.status) != Closed ==>
        r == Success(this) && data == old(data).(status := Closed)
      ensures old(data.status) == Closed ==>
        r == Failure(ClosedAgain) && data == old(data)
      ensures r.Failure? <==> Step(TaskStatus.Close, old(data.status)).Failure?
      ensures data.status == After(TaskStatus.Close, old(data.status))
    {
      if data.status == Closed {
        return Failure(ClosedAgain);
      }
      data := data.(status := Closed);
      return Success(this);
    }
  }

  /**
    A caller's view of the lifecycle: a new task "Learn JS" without a
    description, started, started again (fails), completed, closed and
    closed again (fails); each success hands back the same task.
  */
  method LearnJsLifecycle(now: Timestamp) returns (task: TaskEntity)
    ensures task.Name() == "Learn JS" && task.Description() == None
    ensures task.Status() == Closed && task.CreatedAt() == now
  {
    task := new TaskEntity(TaskCreate("Learn JS", None), now);
    assert task.Status() == Wait;
    var early := task.Done();
    assert early == Failure(CompleteNotStarted);
    var r := task.Start();
    assert r == Success(task) && task.Status() == InProgress;
    r := task.Start();
    assert r == Failure(StartedAgain) && task.Status() == InProgress;
    r := task.Done();
    assert r == Success(task) && task.Status() == TaskStatus.Done;
    r := task.Close();
    assert r == Success(task) && task.Status() == Closed;
    r := task.Close();
    assert r == Failure(ClosedAgain) && task.Status() == Closed;
  }
}
