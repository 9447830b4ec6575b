# Task synchronisation service — a verified model

This project models the core of a small task-synchronisation backend: the batch
reconciliation that an offline-capable client calls to push its local tasks, and the
single-task CRUD service beside it. Both work on a repository of tasks keyed by id.

Reconciliation (`Sync`) takes a batch of client tasks and classifies each one, in batch
order, against the store as the earlier tasks of the same batch left it:

- no id, or a blank one: the task gets a generated id and the current time, is saved and
  is acknowledged in `synced`;
- an id the store does not hold: the task is saved as a creation, keeping its id and its
  timestamp (or getting the current time when it has none);
- client strictly newer: the stored task takes the client's title, description and
  completion flag together (last writer wins, whole record) and the client's timestamp,
  or the current time when the client has none;
- server strictly newer: a conflict entry `{id, server, client}` is reported and nothing is written;
- equal timestamps: the server's copy is acknowledged and nothing is written;
- a save that faults: one line `Failed to sync task <id>: <message>` is added to `errors`
  and the batch goes on with the next task.

A missing timestamp counts as the epoch (instant 0), on either side. The code defaults a
missing timestamp to `Instant.EPOCH` (SyncService.java:79-80), not to the earliest
representable instant. So a stored task with a negative timestamp is older than a client
task with none.

Files and modules:

- `wrappers.dfy` (`Wrappers`): `Option` for nullable fields and `Result` for thrown exceptions.
- `tasks.dfy` (`Tasks`): the `Task` record, `Instant` as an integer, Java's `isBlank`,
  and the epoch default for comparisons.
- `repository.dfy` (`Repository`): the store as `map<string, Task>`. It has a well-keyedness
  invariant: every entity's id is its key. The class `TaskRepository` has `findById`,
  `findAll`, `save` and `deleteById`. Storage faults on `save` come from an injected oracle.
- `sync.dfy` (`Sync`): the decision procedure as functions (`SyncOne` for one task, `Run`
  for the batch), the lemmas about it, and the classes `SyncResult` and `SyncService`.
  The method `SyncService.Sync` is the source's loop. It is proved to leave exactly the store
  and the three lists that `Run` describes.
- `crud.dfy` (`Crud`): the class `TaskService` with `GetAll`, `GetById`, `Create`, `Update`
  and `Delete`, plus lemmas about the tasks that `create` and `update` save.

Injected collaborators. `Instant.now()` and `UUID.randomUUID()` are parameters. In `Sync`,
`clock(k)` and `newId(k)` are the values they give while the k-th task of the batch is
processed. In `Create` and `Update` they are the plain values `now` and `newId`. The
repository's `saveFault(t)` is the message of the exception that saving `t` raises, or
`None` when the save succeeds.

## Model

| member | source | states |
|---|---|---|
| `Repository.Put` | src/main/java/com/example/tasksync/repository/TaskRepository.java:19 | saving a task inserts or replaces it under its id, adds exactly that key, and keeps the store well keyed |
| `Repository.PutThenFind` | src/main/java/com/example/tasksync/repository/TaskRepository.java:18-19 | reading a key back after a save gives the saved task; every other key reads as before |
| `Repository.DeleteUndoesPut` | src/main/java/com/example/tasksync/repository/TaskRepository.java:19-20 | deleting the key of a task just saved under a fresh id restores the store exactly |
| `Repository.TaskRepository.FindById` | src/main/java/com/example/tasksync/repository/TaskRepository.java:18 | present exactly when the key is stored, with that entity, whose id is the key |
| `Repository.TaskRepository.FindAll` | src/main/java/com/example/tasksync/repository/TaskRepository.java:17 | exactly the stored entities, each of which `FindById` returns under its own id |
| `Repository.TaskRepository.Save` | src/main/java/com/example/tasksync/repository/TaskRepository.java:19 | either the oracle's fault with the store untouched, or the task stored under its id |
| `Repository.TaskRepository.DeleteById` | src/main/java/com/example/tasksync/repository/TaskRepository.java:20 | the key is gone and nothing else changes; a missing key is ignored |
| `Sync.SaveAndAck` | src/main/java/com/example/tasksync/service/SyncService.java:62-63 | the task is acknowledged exactly when its save does not fault |
| `Sync.ErrorLine` | src/main/java/com/example/tasksync/service/SyncService.java:106 | the error line is the text `Failed to sync task `, then the id, then `: `, then the message, and nothing else |
| `Sync.SyncOne` | src/main/java/com/example/tasksync/service/SyncService.java:57-107 | only an acknowledged task is written, under its own id, and nothing else changes; a fresh id is used exactly for a task without a usable id, any other id is kept verbatim; a conflict arises exactly when the store holds the id with a strictly later timestamp, and it carries both versions |
| `Sync.Record` | src/main/java/com/example/tasksync/service/SyncService.java:63-106 | an outcome is appended at the end of the list of its kind; the other two lists are unchanged |
| `Sync.Run` | src/main/java/com/example/tasksync/service/SyncService.java:53-111 | the batch keeps the store well keyed, and the three lists together hold exactly one entry per task |
| `Sync.RunStep` | src/main/java/com/example/tasksync/service/SyncService.java:56-68 | the k-th task is classified against the store the earlier tasks of the batch left behind |
| `Sync.OneEntryPerTask` | src/main/java/com/example/tasksync/service/SyncService.java:56-108 | each task appends exactly one entry to the end of exactly one list; the store changes only when that entry is in `synced` |
| `Sync.EarlierResultsKept` | src/main/java/com/example/tasksync/service/SyncService.java:56-108 | the lists after an earlier task are prefixes of those after a later one, so earlier results are never touched and batch order is kept |
| `Sync.PrefixReportExtended` | src/main/java/com/example/tasksync/service/SyncService.java:56-108 | the lists after a prefix of the batch are prefixes of the lists after the whole batch |
| `Sync.NewTaskIsCreated` | src/main/java/com/example/tasksync/service/SyncService.java:59-64 | a task without a usable id gets the generated id and the current time, even over its own timestamp; it is stored under that id and appended to `synced`; when the save faults, only an error line naming the generated id is added |
| `Sync.UnknownIdIsCreated` | src/main/java/com/example/tasksync/service/SyncService.java:68-74 | a task whose id the store lacks keeps its id verbatim and its timestamp, or gets the current time when it has none; it is stored and appended to `synced`, or on a fault only an error line is added |
| `Sync.ClientNewerWins` | src/main/java/com/example/tasksync/service/SyncService.java:79-89 | a strictly newer client replaces the stored task's title, description and completion flag and its timestamp, falling back to the current time; the stored id is kept and the merged task is appended to `synced` |
| `Sync.ServerNewerConflicts` | src/main/java/com/example/tasksync/service/SyncService.java:92-97 | a strictly newer server version adds one conflict entry with the id and both versions verbatim; the store and the other lists are unchanged |
| `Sync.EqualTimestampsAcknowledgeServer` | src/main/java/com/example/tasksync/service/SyncService.java:99-101 | with equal timestamps, where both may be absent, the server's copy and not the client's is appended to `synced`, and nothing is written |
| `Sync.SyncedIsStored` | src/main/java/com/example/tasksync/service/SyncService.java:59-101 | when generated ids are non-blank and the acknowledged tasks have distinct ids, the final store holds every acknowledged task verbatim under its id |
| `Sync.ResubmitHeldIsNoOp` | src/main/java/com/example/tasksync/service/SyncService.java:99-101 | re-submitting tasks the store holds verbatim acknowledges each of them in order, with no conflict, no error and no write |
| `Sync.Resubmission` | src/main/java/com/example/tasksync/service/SyncService.java:56-108 | idempotence: re-submitting the `synced` output against the resulting store gives back the same list as no-ops, with no conflicts, no errors and no change to the store |
| `Sync.AssignedId` | src/main/java/com/example/tasksync/service/SyncService.java:59-60 | a task is acknowledged under a present id; a usable client id is kept verbatim |
| `Sync.SyncedIdsAreAssigned` | src/main/java/com/example/tasksync/service/SyncService.java:56-108 | every acknowledged task carries the id assigned to some task of the batch, so distinct assigned ids give distinct acknowledged ids |
| `Sync.ResubmissionOfDistinctBatch` | src/main/java/com/example/tasksync/service/SyncService.java:56-108 | idempotence from conditions on the input alone: with non-blank generated ids and distinct assigned ids, re-submitting the `synced` output gives the same list as no-ops, with no conflicts, no errors and no write |
| `Sync.ResubmissionNeedsDistinctIds` | src/main/java/com/example/tasksync/service/SyncService.java:83-97 | in this value model, without distinct ids idempotence fails: two newer copies of one task are both acknowledged as separate values, and re-submitting them yields a conflict |
| `Sync.NewerClientThenNewTask` | src/main/java/com/example/tasksync/service/SyncService.java:56-108 | a stored task overtaken by a newer client copy, then a task without an id: both are acknowledged in order, with no conflicts and no errors |
| `Sync.OlderClientConflicts` | src/main/java/com/example/tasksync/service/SyncService.java:92-97 | an older client copy gives one conflict entry, nothing synced and the same store |
| `Sync.SyncResult.constructor` | src/main/java/com/example/tasksync/service/SyncService.java:37-41 | a fresh result has three empty lists |
| `Sync.SyncService.Sync` | src/main/java/com/example/tasksync/service/SyncService.java:52-112 | the loop leaves the store and returns the three lists exactly as `Run` describes them |
| `Sync.SyncService.SyncTask` | src/main/java/com/example/tasksync/service/SyncService.java:57-107 | one pass of the loop body changes the store and appends to the result exactly as `SyncOne` describes |
| `Sync.SyncService.SaveAndRecord` | src/main/java/com/example/tasksync/service/SyncService.java:62-63 | a save followed by an append to `synced`, or on a storage fault an error line instead, as `SaveAndAck` describes |
| `Crud.Prepared` | src/main/java/com/example/tasksync/service/TaskService.java:75-81 | the task `create` saves has an id and a timestamp; the generated id is used exactly when the id is missing or blank, a sent timestamp is kept, and the other fields are unchanged |
| `Crud.Updated` | src/main/java/com/example/tasksync/service/TaskService.java:106-114 | the task `update` saves keeps the stored id and gets the current time; the title is replaced only when supplied; the description and completion flag are always the request's |
| `Crud.CreateIsStable` | src/main/java/com/example/tasksync/service/TaskService.java:75-84 | creating again what `create` saved keeps its id and timestamp, so the task is unchanged |
| `Crud.UpdateIsIdempotent` | src/main/java/com/example/tasksync/service/TaskService.java:106-117 | repeating an update with the same data and time gives the same task |
| `Crud.UpdateTreatsTitleAndDescriptionDifferently` | src/main/java/com/example/tasksync/service/TaskService.java:106-111 | a missing title keeps the stored title, but a missing description clears the stored one |
| `Crud.SyncCreationAgreesWithCreate` | src/main/java/com/example/tasksync/service/TaskService.java:75-84 | for an id the store lacks, the reconciliation saves exactly the task `create` would save |
| `Crud.SyncRestampsWhereCreateKeeps` | src/main/java/com/example/tasksync/service/TaskService.java:80-81 | for a task without a usable id, the reconciliation always stamps the current time, while `create` keeps a timestamp the client sent |
| `Crud.TaskService.GetAll` | src/main/java/com/example/tasksync/service/TaskService.java:45-47 | exactly the stored tasks, each of which `GetById` returns under its own id |
| `Crud.TaskService.GetById` | src/main/java/com/example/tasksync/service/TaskService.java:57-60 | the stored task when the id is present, `null` otherwise |
| `Crud.TaskService.Create` | src/main/java/com/example/tasksync/service/TaskService.java:73-85 | the id is generated only when missing or blank and kept otherwise; the timestamp is set only when missing; the task is stored under its id with no other key changed, or on a storage fault the store is untouched |
| `Crud.TaskService.Update` | src/main/java/com/example/tasksync/service/TaskService.java:100-118 | an unknown id fails with `Task not found: <id>` and writes nothing; otherwise the id is kept, the title is replaced only when supplied, the description and completion flag are always replaced, the time is stamped, and only that key changes |
| `Crud.TaskService.Delete` | src/main/java/com/example/tasksync/service/TaskService.java:126-129 | that key is removed and every other entry is left as it was |

## Left out

- HTTP controllers and the global exception handler: they are transport, and only forward to the services.
- Transactions (`@Transactional`): commit and rollback depend on the framework and the database. In the model a faulting save writes nothing, and every successful save stays.
- Concurrent batches and their races on one id: the model runs one call at a time.
- Entity aliasing: tasks are values. In the source, `findById` can return the same managed object twice in one transaction. The setters then change objects already in `synced`, and a later task with the same id can also change the `server` object already held by a conflict entry. The model does not capture this sharing.
- Sync.ResubmissionNeedsDistinctIds: holds of the value model only. In the source both `synced` entries for the repeated id are one managed entity, which shows the last timestamp, so re-submitting them gives two equal-timestamp no-ops and no conflict.
- Storage faults other than on `save`: `findById` is modelled as never failing, and a fault is a fixed function of the task being saved.
- `null` elements in the batch list are not modelled. Every client task is a record.
- A `null` id passed to `getById`, `update` or `delete`: ids given to these operations are strings.
- Crud.TaskService.GetAll: returns a set, so the list order of `findAll` is not modelled. The database chooses that order.
- Repository.TaskRepository.FindAll: returns a set, for the same reason.
- Random ids and the wall clock: both are parameters. No freshness of generated ids and no monotonic clock is assumed. The idempotence lemmas instead require non-blank generated ids, and distinct acknowledged ids (`Resubmission`) or distinct assigned ids (`ResubmissionOfDistinctBatch`).
- Instants are integers in one fixed unit. The nanosecond structure of `java.time.Instant` is not modelled.
- Exception messages: only the shape of the error line and the "Task not found" message are modelled. Other messages come from the fault oracle.
- `Task.toString`, the JPA annotations and `existsById`: they are not used by the modelled operations.
