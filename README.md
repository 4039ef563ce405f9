# Task entity lifecycle

A Dafny model of `TaskEntity` from `src/domain/task/task.entity.ts`. The
entity is the domain object of a small to-do tracker. It keeps a private
record `data` with a name, an optional description, a status and a creation
time. Three methods change the status in place: `start` (wait to
inProgress), `done` (inProgress to done) and `close` (any status but closed
to closed). Each method checks its guard first. When the guard fails the
method throws and changes nothing. When it holds, the method assigns the new
status and returns the entity itself, so that calls can be chained.

Files:

- `wrappers.dfy`: `Option` (absent or present values) and `Result` (a value
  or a thrown error).
- `task_status.dfy`, module `TaskStatus`: the four statuses of
  `TaskStatusEnum` and their forward rank. It holds the transition table
  written edge by edge (`Edge`) and the guards as the methods write them
  (`Step`), and proves the two agree. It also proves what any sequence of
  calls can do (`Run`): status never moves back, `closed` is terminal, each
  method succeeds at most once, and every status is reachable from a new task.
- `task_entity.dfy`, module `Task`: the record `ITaskData` as the datatype
  `TaskData`, and the class `TaskEntity` with one mutable field `data`. Its
  constructor, its getters and its methods `Start`, `Done` and `Close` are
  in the class. The methods replace `data` by a copy with a new status, which
  is exactly what the source's field assignment does to the record.

The methods have no preconditions. The source's tests overwrite
`data.status` with an arbitrary status before calling a method. So every
method is specified for all four starting statuses, not only for the ones
reached from construction.

The repository's tests expect more of the class than it has. The tests at
`tests/domain/task/task-entity.test.ts:23-38` expect the constructor to
reject the name "a" and a 256-character name. The tests at lines 140-154
expect a `rename` method. The class at `src/domain/task/task.entity.ts:19-67`
has neither: the constructor stores any name unchecked, and there is no
`rename`. The model follows the class, so its constructor accepts every
string.

The getters `name`, `status` and `createdAt` are plain reads of the record.
They are the functions `Name`, `Status` and `CreatedAt`. What they return is
stated through the constructor's and the methods' contracts.

## Model

| member | source | states |
|---|---|---|
| `TaskStatus.Step` | src/domain/task/task.entity.ts:46-66 | A successful call follows an edge of the transition table, lands on the method's target status and strictly raises the rank. A failed call throws the method's own error kind, and the table has no edge for that method from that status. Every call on a closed task fails. |
| `TaskStatus.StepFollowsTable` | src/domain/task/task.entity.ts:46-66 | The guards and the edge-by-edge transition table agree in both directions. |
| `TaskStatus.StartLegality` | src/domain/task/task.entity.ts:46-52 | `start` succeeds if and only if the status is `wait`, and then yields `inProgress`. |
| `TaskStatus.CompleteLegality` | src/domain/task/task.entity.ts:53-59 | `done` succeeds if and only if the status is `inProgress`, and then yields `done`. |
| `TaskStatus.CloseLegality` | src/domain/task/task.entity.ts:60-66 | `close` fails if and only if the status is already `closed`; otherwise it yields `closed`. |
| `TaskStatus.After` | src/domain/task/task.entity.ts:47-64 | After one call, with any exception caught, the status is unchanged exactly when the call failed; otherwise its rank is strictly higher. |
| `TaskStatus.Run` | src/domain/task/task.entity.ts:46-66 | Over any sequence of calls from any status, the final rank is at least the initial one, and a closed task stays closed. |
| `TaskStatus.RunAppend` | src/domain/task/task.entity.ts:46-66 | Running two sequences of calls one after the other equals running their concatenation. |
| `TaskStatus.RunNeverMovesBack` | src/domain/task/task.entity.ts:47-64 | At any later point of a sequence of calls, the rank is at least what it was at any earlier point. |
| `TaskStatus.SuccessesBounded` | src/domain/task/task.entity.ts:46-66 | A task makes at most 3 minus its current rank successful transitions, so none once closed. |
| `TaskStatus.NoSuccessPastTarget` | src/domain/task/task.entity.ts:46-66 | Once a task's rank has reached the status a method leads to, that method never succeeds again. |
| `TaskStatus.EachActionSucceedsAtMostOnce` | src/domain/task/task.entity.ts:46-66 | In any sequence of calls, from any starting status, `start`, `done` and `close` each succeed at most once. |
| `TaskStatus.EveryStatusReachable` | src/domain/task/task.entity.ts:21-66 | Each of the four statuses can be reached from a newly constructed task through the public methods. |
| `Task.DescriptionOf` | src/domain/task/task.entity.ts:34-36 | The description read back is present exactly when the stored one is present and not empty, and then equals it. |
| `Task.TaskEntity.Description` | src/domain/task/task.entity.ts:34-36 | The `description` getter returns `DescriptionOf` of the stored description: null for an absent or empty one, the stored text otherwise. |
| `Task.TaskEntity.constructor` | src/domain/task/task.entity.ts:21-28 | A new task holds the given name and description unchanged, status `wait`, and the construction-time clock reading. |
| `Task.TaskEntity.Start` | src/domain/task/task.entity.ts:46-52 | From `wait`: the status becomes `inProgress`, every other field is unchanged, and the entity itself is returned. From any other status: throws `StartedAgain` and the record is unchanged. |
| `Task.TaskEntity.Done` | src/domain/task/task.entity.ts:53-59 | From `inProgress`: the status becomes `done`, every other field is unchanged, and the entity itself is returned. From any other status: throws `CompleteNotStarted` and the record is unchanged. |
| `Task.TaskEntity.Close` | src/domain/task/task.entity.ts:60-66 | From `wait`, `inProgress` or `done`: the status becomes `closed`, every other field is unchanged, and the entity itself is returned. From `closed`: throws `ClosedAgain` and the record is unchanged. |
| `Task.LearnJsLifecycle` | tests/domain/task/task-entity.test.ts:5-125 | A task "Learn JS" with no description is built with status `wait`. `done` then fails. `start` succeeds and a second `start` fails. `done` and `close` succeed, each returning the same task. A second `close` fails. |

## Left out

- Name-length validation and `rename`: the class has neither, although the tests expect them. See above.
- Error messages: the human-readable strings become the three error kinds `StartedAgain`, `CompleteNotStarted` and `ClosedAgain`, one per throw site.
- `createdAt = new Date()`: reading the clock becomes the constructor parameter `now`. A timestamp is an integer, and the model only relates it to that input. The `createdAt` getter hands out the internal mutable `Date` object itself, so a caller can change the stored creation time through it. The model treats the timestamp as a value and cannot show that aliasing. That `createdAt` never changes is proved only for `start`, `done` and `close`.
- `src/infrastructure/file-system/file-system.ts`: asynchronous file I/O with JSON parsing and printing, and a path normalisation that depends on the runtime's `path.normalize` and `__dirname`. It is not part of this model.
- `jest.config.ts`: test-runner configuration with no logic. It is not part of this model.
- How the tests replace `data` with a mock is not modelled. Its effect, an arbitrary starting status, is covered because no method has a precondition.
