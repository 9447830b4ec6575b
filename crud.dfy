/**
 * Single-task operations (service/TaskService.java) over the same repository:
 * `getAll`, `getById`, `create`, `update` and `delete`. The clock and the id
 * generator are parameters (`now`, `newId`); a storage fault on `save` surfaces
 * as `Failure` with the exception's message.
 */
module Crud {
  import opened Wrappers
  import opened Tasks
  import opened Repository
  import Sync

  /** The task `create` saves: a generated id only in place of a missing or blank one,
      the current time only in place of a missing timestamp. */
  function Prepared(t: Task, newId: string, now: Instant): (r: Task)
    ensures r.id.Some? && r.updatedAt.Some?
    ensures NeedsId(t.id) ==> r.id == Some(newId)
    ensures !NeedsId(t.id) ==> r.id == t.id
    ensures t.updatedAt.Some? ==> r.updatedAt == t.updatedAt
    ensures t.updatedAt.None? ==> r.updatedAt == Some(now)
    ensures r.title == t.title && r.description == t.description && r.completed == t.completed
  {
    t.(id := if NeedsId(t.id) then Some(newId) else t.id,
       updatedAt := if t.updatedAt.None? then Some(now) else t.updatedAt)
  }

  /** The task `update` saves: the title only when one is supplied, the description and
      completion flag always, and the current time. */
  function Updated(existing: Task, t: Task, now: Instant): (r: Task)
    ensures r.id == existing.id && r.updatedAt == Some(now)
    ensures t.title.Some? ==> r.title == t.title
    ensures t.title.None? ==> r.title == existing.title
    ensures r.description == t.description && r.completed == t.completed
  {
    existing.(title := if t.title.Some? then t.title else existing.title,
              description := t.description,
              completed := t.completed,
              updatedAt := Some(now))
  }

  /** Creating again what `create` returned changes nothing: its id is kept and its timestamp too. */
  lemma CreateIsStable(t: Task, newId: string, now: Instant, newId2: string, now2: Instant)
    requires !IsBlank(newId)
    ensures Prepared(Prepared(t, newId, now), newId2, now2) == Prepared(t, newId, now)
  {
  }

  /** Repeating an update with the same data and time gives the same task. */
  lemma UpdateIsIdempotent(existing: Task, t: Task, now: Instant)
    ensures Updated(Updated(existing, t, now), t, now) == Updated(existing, t, now)
  {
  }

  /** A missing title in the update data keeps the stored title, while a missing
      description replaces the stored one: the two fields are treated differently. */
  lemma UpdateTreatsTitleAndDescriptionDifferently(existing: Task, t: Task, now: Instant)
    requires t.title.None? && t.description.None?
    ensures Updated(existing, t, now).title == existing.title
    ensures Updated(existing, t, now).description.None?
  {
  }

  /** For an id the store lacks, the reconciliation saves exactly the task `create` would save. */
  lemma SyncCreationAgreesWithCreate(store: Store, client: Task, now: Instant, newId: string,
                                     fault: Task -> Option<string>)
    requires WellKeyed(store) && !NeedsId(client.id) && client.id.value !in store
    ensures var step := Sync.SyncOne(store, client, now, newId, fault);
            step.outcome.Synced? ==> step.outcome.task == Prepared(client, newId, now)
  {
  }

  /** For a task without a usable id, the reconciliation stamps the current time even over a
      timestamp the client sent, where `create` keeps the client's timestamp. */
  lemma SyncRestampsWhereCreateKeeps(store: Store, client: Task, now: Instant, newId: string,
                                     fault: Task -> Option<string>)
    requires WellKeyed(store) && NeedsId(client.id)
    ensures var step := Sync.SyncOne(store, client, now, newId, fault);
            step.outcome.Synced? ==>
              step.outcome.task == Prepared(client, newId, now).(updatedAt := Some(now))
              && Prepared(client, newId, now).updatedAt
                 == if client.updatedAt.None? then Some(now) else client.updatedAt
  {
  }

  class TaskService {
    const repo: TaskRepository

    constructor (repo: TaskRepository)
      ensures this.repo == repo
    {
      this.repo := repo;
    }

    /** `getAll()`: exactly the stored tasks, each of which `getById` finds under its id. */
    function GetAll(): (r: set<Task>)
      reads repo
      ensures forall t :: t in r <==> t in repo.tasks.Values
      ensures repo.Valid() ==> forall t :: t in r ==> t.id.Some? && GetById(t.id.value) == Some(t)
    {
      repo.FindAll()
    }

    /** `getById(id)`: the stored task when the id is present, `null` otherwise. */
    function GetById(id: string): (r: Option<Task>)
      reads repo
      ensures r.Some? <==> id in repo.tasks
      ensures r.Some? ==> r.value == repo.tasks[id]
    {
      repo.FindById(id)
    }

    /** `create(t)`: the id is generated only when missing or blank, the timestamp set only
        when missing; the task is saved under its id and no other key changes. */
    method Create(t: Task, newId: string, now: Instant) returns (r: Result<Task, string>)
      requires repo.Valid()
      modifies repo
      ensures repo.Valid()
      ensures var saved := Prepared(t, newId, now);
              && saved.id == (if NeedsId(t.id) then Some(newId) else t.id)
              && saved.updatedAt == (if t.updatedAt.None? then Some(now) else t.updatedAt)
              && saved.title == t.title && saved.description == t.description && saved.completed == t.completed
              && match repo.saveFault(saved)
                 case None => r == Success(saved) && repo.tasks == old(repo.tasks)[saved.id.value := saved]
                 case Some(m) => r == Failure(m) && repo.tasks == old(repo.tasks)
    {
      var task := t;
      if task.id.None? || IsBlank(task.id.value) {
        task := task.(id := Some(newId));
      }
      if task.updatedAt.None? {
        task := task.(updatedAt := Some(now));
      }
      var fault := repo.Save(task);
      if fault.Some? {
        r := Failure(fault.value);
      } else {
        r := Success(task);
      }
    }

    /** `update(id, t)`: an unknown id fails with "Task not found: <id>" and writes nothing;
        otherwise the stored task keeps its id, takes the title only if one is supplied,
        always takes the description and completion flag, and is stamped with `now`. */
    method Update(id: string, t: Task, now: Instant) returns (r: Result<Task, string>)
      requires repo.Valid()
      modifies repo
      ensures repo.Valid()
      ensures id !in old(repo.tasks) ==>
                r == Failure("Task not found: " + id) && repo.tasks == old(repo.tasks)
      ensures id in old(repo.tasks) ==>
                var existing := old(repo.tasks)[id];
                var saved := Updated(existing, t, now);
                && saved.id == Some(id)
                && saved.title == (if t.title.Some? then t.title else existing.title)
                && saved.description == t.description && saved.completed == t.completed
                && saved.updatedAt == Some(now)
                && match repo.saveFault(saved)
                   case None => r == Success(saved) && repo.tasks == old(repo.tasks)[id := saved]
                   case Some(m) => r == Failure(m) && repo.tasks == old(repo.tasks)
    {
      var found := repo.FindById(id);
      if found.None? {
        r := Failure("Task not found: " + id);
        return;
      }
      var existing := found.value;
      if t.title.Some? {
        existing := existing.(title := t.title);
      }
      existing := existing.(description := t.description);
      existing := existing.(completed := t.completed);
      existing := existing.(updatedAt := Some(now));
      var fault := repo.Save(existing);
      if fault.Some? {
        r := Failure(fault.value);
      } else {
        r := Success(existing);
      }
    }

    /** `delete(id)`: that key is removed and every other entry is left as it was. */
    method Delete(id: string)
      requires repo.Valid()
      modifies repo
      ensures repo.Valid()
      ensures id !in repo.tasks
      ensures forall k :: k != id ==> (k in repo.tasks <==> k in old(repo.tasks))
      ensures forall k :: k in repo.tasks ==> repo.tasks[k] == old(repo.tasks)[k]
    {
      repo.DeleteById(id);
    }
  }
}
