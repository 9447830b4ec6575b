/**
 * The task repository (repository/TaskRepository.java), a Spring Data interface
 * whose behaviour is a keyed store: `findById`, `findAll`, `save` (insert or
 * replace under the entity's id) and `deleteById`. A storage fault on `save` is
 * an injected oracle: `saveFault(t)` is the message of the exception that saving
 * `t` raises, or `None` when the save succeeds.
 */
module Repository {
  import opened Wrappers
  import opened Tasks

  /** The table of tasks keyed by primary key. */
  type Store = map<string, Task>

  /** Every stored entity carries its own key as its id. */
  predicate WellKeyed(store: Store) {
    forall k :: k in store ==> store[k].id == Some(k)
  }

  /** `save(t)` on a task with an id: the entity is inserted or replaced under that id. */
  function Put(store: Store, t: Task): (r: Store)
    requires t.id.Some?
    ensures WellKeyed(store) ==> WellKeyed(r)
    ensures r.Keys == store.Keys + {t.id.value}
  {
    store[t.id.value := t]
  }

  /** Reading back a key just saved yields the saved task; other keys read as before. */
  lemma PutThenFind(store: Store, t: Task, k: string)
    requires t.id.Some?
    ensures k == t.id.value ==> k in Put(store, t) && Put(store, t)[k] == t
    ensures k != t.id.value ==> (k in Put(store, t) <==> k in store)
    ensures k != t.id.value && k in store ==> Put(store, t)[k] == store[k]
  {
  }

  /** Deleting the key of a task that was saved under a fresh id gives back the store as it was. */
  lemma DeleteUndoesPut(store: Store, t: Task)
    requires t.id.Some? && t.id.value !in store
    ensures Put(store, t) - {t.id.value} == store
  {
  }

  class TaskRepository {
    var tasks: Store
    const saveFault: Task -> Option<string>

    ghost predicate Valid()
      reads this
    {
      WellKeyed(tasks)
    }

    constructor (initial: Store, saveFault: Task -> Option<string>)
      requires WellKeyed(initial)
      ensures Valid()
      ensures tasks == initial && this.saveFault == saveFault
    {
      tasks := initial;
      this.saveFault := saveFault;
    }

    /** `findById(id)`: the entity stored under `id`, if any. */
    function FindById(id: string): (r: Option<Task>)
      reads this
      ensures r.Some? <==> id in tasks
      ensures r.Some? ==> r.value == tasks[id]
      ensures Valid() && r.Some? ==> r.value.id == Some(id)
    {
      if id in tasks then Some(tasks[id]) else None
    }

    /** `findAll()`: every stored entity (as a set; the list order is the database's). */
    function FindAll(): (r: set<Task>)
      reads this
      ensures forall t :: t in r <==> exists k :: k in tasks && tasks[k] == t
      ensures Valid() ==> forall t :: t in r ==> t.id.Some? && FindById(t.id.value) == Some(t)
    {
      tasks.Values
    }

    /** `save(t)`: either the storage fault the oracle names, with nothing written,
        or `t` stored under its id and every other entry left as it was. */
    method Save(t: Task) returns (fault: Option<string>)
      requires Valid() && t.id.Some?
      modifies this
      ensures Valid()
      ensures fault == saveFault(t)
      ensures tasks == if fault.Some? then old(tasks) else Put(old(tasks), t)
    {
      fault := saveFault(t);
      if fault.None? {
        tasks := Put(tasks, t);
      }
    }

    /** `deleteById(id)`: the key is removed; a missing key is ignored. */
    method DeleteById(id: string)
      requires Valid()
      modifies this
      ensures Valid()
      ensures tasks == old(tasks) - {id}
    {
      tasks := tasks - {id};
    }
  }
}
