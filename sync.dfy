/**
 * Batch reconciliation (service/SyncService.java). Each client task of a batch is
 * classified, in batch order, against the store as earlier tasks of the same batch
 * left it:
 *   - no usable id: it gets a fresh id and the current time and is saved;
 *   - an id the store does not hold: it is saved as a creation, stamped with the
 *     current time only if it has no timestamp;
 *   - client strictly newer: the stored task takes the client's title, description
 *     and completion flag (last writer wins, whole record) and is saved;
 *   - server strictly newer: a conflict is reported and nothing is written;
 *   - equal timestamps: the server's copy is acknowledged and nothing is written;
 * and a save that faults becomes one error line, after which the batch goes on.
 * A missing timestamp counts as the epoch on either side.
 *
 * `SyncOne` and `Run` are the decision procedure as functions; `SyncService.Sync`
 * is the source's loop, proved to compute `Run`.
 */
module Sync {
  import opened Wrappers
  import opened Tasks
  import opened Repository

  /** A conflict entry `{id, server, client}`. */
  datatype Conflict = Conflict(id: Option<string>, server: Task, client: Task)

  /** What processing one client task adds to the result. */
  datatype Outcome = Synced(task: Task) | Conflicted(conflict: Conflict) | Failed(message: string)

  /** The value of a `SyncResult`: its three lists. */
  datatype Report = Report(synced: seq<Task>, conflicts: seq<Conflict>, errors: seq<string>)

  /** The store and the result after a prefix of the batch. */
  datatype State = State(store: Store, report: Report)

  /** The store and the outcome after one client task. */
  datatype Step = Step(store: Store, outcome: Outcome)

  /** The injected collaborators: `clock(k)` is what `Instant.now()` returns and `newId(k)`
      what `UUID.randomUUID()` returns while the k-th task (from 0) of the batch is processed;
      `fault` is the repository's storage-fault oracle. */
  datatype Env = Env(clock: nat -> Instant, newId: nat -> string, fault: Task -> Option<string>)

  const EmptyReport := Report([], [], [])

  /** The line the catch block adds for a task whose processing threw. */
  function ErrorLine(id: string, message: string): (r: string)
    ensures |r| == 22 + |id| + |message|
    ensures r[..20] == "Failed to sync task " && r[20..20 + |id|] == id
    ensures r[20 + |id|..22 + |id|] == ": " && r[22 + |id|..] == message
  {
    "Failed to sync task " + id + ": " + message
  }

  /** `repo.save(t)` followed by `result.synced.add(t)`, inside the try block: a fault
      skips the append and becomes an error line naming the client's id `shownId`. */
  function SaveAndAck(store: Store, t: Task, shownId: string, fault: Task -> Option<string>): (r: Step)
    requires t.id.Some?
    ensures r.outcome.Synced? <==> fault(t).None?
  {
    match fault(t)
    case Some(message) => Step(store, Failed(ErrorLine(shownId, message)))
    case None => Step(Put(store, t), Synced(t))
  }

  /** One iteration of the loop of `sync`. */
  function SyncOne(store: Store, client: Task, now: Instant, newId: string, fault: Task -> Option<string>): (r: Step)
    requires WellKeyed(store)
    ensures WellKeyed(r.store)
    // only a synced task is ever written, under its own id, and nothing else changes
    ensures !r.outcome.Synced? ==> r.store == store
    ensures r.outcome.Synced? ==>
              r.outcome.task.id.Some? && r.store == Put(store, r.outcome.task)
    // a fresh id is used exactly for a client without a usable id; any other id is kept verbatim
    ensures r.outcome.Synced? ==>
              r.outcome.task.id == if NeedsId(client.id) then Some(newId) else client.id
    // a conflict exactly when the store holds the id with a strictly later timestamp
    ensures r.outcome.Conflicted? <==>
              !NeedsId(client.id) && client.id.value in store
              && OrEpoch(client.updatedAt) < OrEpoch(store[client.id.value].updatedAt)
    ensures r.outcome.Conflicted? ==>
              r.outcome.conflict == Conflict(client.id, store[client.id.value], client)
  {
    if NeedsId(client.id) then
      var created := client.(id := Some(newId), updatedAt := Some(now));
      SaveAndAck(store, created, newId, fault)
    else
      var id := client.id.value;
      if id !in store then
        var created := if client.updatedAt.None? then client.(updatedAt := Some(now)) else client;
        SaveAndAck(store, created, id, fault)
      else
        var server := store[id];
        var clientTime := OrEpoch(client.updatedAt);
        var serverTime := OrEpoch(server.updatedAt);
        if clientTime > serverTime then
          var merged := server.(title := client.title, description := client.description,
                                completed := client.completed,
                                updatedAt := if client.updatedAt.None? then Some(now) else client.updatedAt);
          SaveAndAck(store, merged, id, fault)
        else if clientTime < serverTime then
          Step(store, Conflicted(Conflict(server.id, server, client)))
        else
          assert Put(store, server) == store;
          Step(store, Synced(server))
  }

  /** Appending one outcome to the list it belongs to. */
  function Record(report: Report, outcome: Outcome): (r: Report)
    ensures r.synced == report.synced + (if outcome.Synced? then [outcome.task] else [])
    ensures r.conflicts == report.conflicts + (if outcome.Conflicted? then [outcome.conflict] else [])
    ensures r.errors == report.errors + (if outcome.Failed? then [outcome.message] else [])
  {
    match outcome
    case Synced(t) => report.(synced := report.synced + [t])
    case Conflicted(c) => report.(conflicts := report.conflicts + [c])
    case Failed(m) => report.(errors := report.errors + [m])
  }

  /** The batch processed in order, with the store threaded from task to task. */
  function Run(store: Store, batch: seq<Task>, env: Env): (r: State)
    requires WellKeyed(store)
    ensures WellKeyed(r.store)
    ensures |r.report.synced| + |r.report.conflicts| + |r.report.errors| == |batch|
    decreases |batch|
  {
    if batch == [] then State(store, EmptyReport)
    else
      var k := |batch| - 1;
      var before := Run(store, batch[..k], env);
      var step := SyncOne(before.store, batch[k], env.clock(k), env.newId(k), env.fault);
      State(step.store, Record(before.report, step.outcome))
  }

  /** The store and the result just before the k-th task is processed. */
  function Before(store: Store, batch: seq<Task>, env: Env, k: nat): State
    requires WellKeyed(store) && k <= |batch|
  {
    Run(store, batch[..k], env)
  }

  /** What the k-th task adds, given the store the earlier tasks left behind. */
  function StepAt(store: Store, batch: seq<Task>, env: Env, k: nat): Step
    requires WellKeyed(store) && k < |batch|
  {
    SyncOne(Before(store, batch, env, k).store, batch[k], env.clock(k), env.newId(k), env.fault)
  }

  /** Processing the k-th task turns the state before it into the state after it. */
  lemma RunStep(store: Store, batch: seq<Task>, env: Env, k: nat)
    requires WellKeyed(store) && k < |batch|
    ensures Before(store, batch, env, k + 1)
            == State(StepAt(store, batch, env, k).store,
                     Record(Before(store, batch, env, k).report, StepAt(store, batch, env, k).outcome))
  {
    var p := batch[..k + 1];
    assert p[..k] == batch[..k];
    assert p[k] == batch[k];
  }

  /** Each task adds exactly one entry, at the end of exactly one of the three lists,
      and the store changes only when that entry is in `synced`. */
  lemma OneEntryPerTask(store: Store, batch: seq<Task>, env: Env, k: nat)
    requires WellKeyed(store) && k < |batch|
    ensures var b := Before(store, batch, env, k);
            var a := Before(store, batch, env, k + 1);
            var o := StepAt(store, batch, env, k).outcome;
            && a.report.synced == b.report.synced + (if o.Synced? then [o.task] else [])
            && a.report.conflicts == b.report.conflicts + (if o.Conflicted? then [o.conflict] else [])
            && a.report.errors == b.report.errors + (if o.Failed? then [o.message] else [])
            && (a.store != b.store ==> o.Synced?)
  {
    RunStep(store, batch, env, k);
  }

  /** Report `a` is report `b` with entries appended at the ends of its lists. */
  predicate Extends(b: Report, a: Report) {
    b.synced <= a.synced && b.conflicts <= a.conflicts && b.errors <= a.errors
  }

  /** Appending to a list that extends another keeps it an extension. */
  lemma ExtendsThenRecord(b: Report, m: Report, o: Outcome)
    requires Extends(b, m)
    ensures Extends(b, Record(m, o))
  {
    var a := Record(m, o);
    assert a.synced[..|m.synced|] == m.synced;
    assert a.conflicts[..|m.conflicts|] == m.conflicts;
    assert a.errors[..|m.errors|] == m.errors;
  }

  /** The report of a prefix of the batch is extended by the report of the whole batch. */
  lemma {:induction false} PrefixReportExtended(store: Store, batch: seq<Task>, env: Env, j: nat)
    requires WellKeyed(store) && j <= |batch|
    ensures Extends(Run(store, batch[..j], env).report, Run(store, batch, env).report)
    decreases |batch|
  {
    if j == |batch| {
      assert batch[..j] == batch;
      ExtendsItself(Run(store, batch, env).report);
    } else {
      var k := |batch| - 1;
      var p := batch[..k];
      assert p[..j] == batch[..j];
      PrefixReportExtended(store, p, env, j);
      var before := Run(store, p, env);
      var step := SyncOne(before.store, batch[k], env.clock(k), env.newId(k), env.fault);
      assert Run(store, batch, env).report == Record(before.report, step.outcome);
      ExtendsThenRecord(Run(store, batch[..j], env).report, before.report, step.outcome);
    }
  }

  /** Results of earlier tasks are never touched: every list only grows at its end. */
  lemma EarlierResultsKept(store: Store, batch: seq<Task>, env: Env, j: nat, k: nat)
    requires WellKeyed(store) && j <= k <= |batch|
    ensures Extends(Before(store, batch, env, j).report, Before(store, batch, env, k).report)
  {
    var p := batch[..k];
    assert p[..j] == batch[..j];
    PrefixReportExtended(store, p, env, j);
  }

  /** Every report extends itself. */
  lemma ExtendsItself(r: Report)
    ensures Extends(r, r)
  {
  }

  /** A task without a usable id is given `newId(k)` and `clock(k)`, saved under that id and
      acknowledged in `synced`; or, when the save faults, only an error line naming the new id is added. */
  lemma NewTaskIsCreated(store: Store, batch: seq<Task>, env: Env, k: nat)
    requires WellKeyed(store) && k < |batch| && NeedsId(batch[k].id)
    ensures var b := Before(store, batch, env, k);
            var a := Before(store, batch, env, k + 1);
            var created := batch[k].(id := Some(env.newId(k)), updatedAt := Some(env.clock(k)));
            match env.fault(created)
            case None =>
              a == State(b.store[env.newId(k) := created], b.report.(synced := b.report.synced + [created]))
            case Some(m) =>
              a == State(b.store, b.report.(errors := b.report.errors + [ErrorLine(env.newId(k), m)]))
  {
    RunStep(store, batch, env, k);
  }

  /** A task whose id the store does not hold keeps that id and its timestamp (or gets
      `clock(k)` when it has none) and is saved as a creation. */
  lemma UnknownIdIsCreated(store: Store, batch: seq<Task>, env: Env, k: nat)
    requires WellKeyed(store) && k < |batch| && !NeedsId(batch[k].id)
    requires batch[k].id.value !in Before(store, batch, env, k).store
    ensures var b := Before(store, batch, env, k);
            var a := Before(store, batch, env, k + 1);
            var c := batch[k];
            var created := c.(updatedAt := if c.updatedAt.None? then Some(env.clock(k)) else c.updatedAt);
            match env.fault(created)
            case None =>
              a == State(b.store[c.id.value := created], b.report.(synced := b.report.synced + [created]))
            case Some(m) =>
              a == State(b.store, b.report.(errors := b.report.errors + [ErrorLine(c.id.value, m)]))
  {
    RunStep(store, batch, env, k);
  }

  /** A strictly newer client overwrites the stored task's title, description and
      completion flag, and its timestamp with the client's (or `clock(k)` when the client
      has none); the id is the stored one. */
  lemma ClientNewerWins(store: Store, batch: seq<Task>, env: Env, k: nat)
    requires WellKeyed(store) && k < |batch| && !NeedsId(batch[k].id)
    requires batch[k].id.value in Before(store, batch, env, k).store
    requires OrEpoch(batch[k].updatedAt) > OrEpoch(Before(store, batch, env, k).store[batch[k].id.value].updatedAt)
    ensures var b := Before(store, batch, env, k);
            var a := Before(store, batch, env, k + 1);
            var c := batch[k];
            var server := b.store[c.id.value];
            var merged := Task(Some(c.id.value), c.title, c.description, c.completed,
                               if c.updatedAt.None? then Some(env.clock(k)) else c.updatedAt);
            && server.id == c.id
            && match env.fault(merged)
               case None =>
                 a == State(b.store[c.id.value := merged], b.report.(synced := b.report.synced + [merged]))
               case Some(m) =>
                 a == State(b.store, b.report.(errors := b.report.errors + [ErrorLine(c.id.value, m)]))
  {
    RunStep(store, batch, env, k);
  }

  /** A strictly newer server version is reported as a conflict carrying both versions verbatim;
      the store and the other lists are untouched. */
  lemma ServerNewerConflicts(store: Store, batch: seq<Task>, env: Env, k: nat)
    requires WellKeyed(store) && k < |batch| && !NeedsId(batch[k].id)
    requires batch[k].id.value in Before(store, batch, env, k).store
    requires OrEpoch(batch[k].updatedAt) < OrEpoch(Before(store, batch, env, k).store[batch[k].id.value].updatedAt)
    ensures var b := Before(store, batch, env, k);
            var a := Before(store, batch, env, k + 1);
            var c := batch[k];
            a == State(b.store, b.report.(conflicts := b.report.conflicts + [Conflict(c.id, b.store[c.id.value], c)]))
  {
    RunStep(store, batch, env, k);
  }

  /** Equal timestamps (a missing one counting as the epoch) acknowledge the server's copy,
      not the client's, and write nothing. */
  lemma EqualTimestampsAcknowledgeServer(store: Store, batch: seq<Task>, env: Env, k: nat)
    requires WellKeyed(store) && k < |batch| && !NeedsId(batch[k].id)
    requires batch[k].id.value in Before(store, batch, env, k).store
    requires OrEpoch(batch[k].updatedAt) == OrEpoch(Before(store, batch, env, k).store[batch[k].id.value].updatedAt)
    ensures var b := Before(store, batch, env, k);
            var a := Before(store, batch, env, k + 1);
            a == State(b.store, b.report.(synced := b.report.synced + [b.store[batch[k].id.value]]))
  {
    RunStep(store, batch, env, k);
  }

  /** No two tasks of a list share an id. */
  predicate DistinctIds(ts: seq<Task>) {
    forall i, j :: 0 <= i < j < |ts| ==> ts[i].id != ts[j].id
  }

  /** `t` is what the store holds under its (usable) id. */
  predicate HeldBy(store: Store, t: Task) {
    t.id.Some? && !IsBlank(t.id.value) && t.id.value in store && store[t.id.value] == t
  }

  /** When generated ids are usable and the acknowledged tasks have distinct ids, the final
      store holds exactly what was appended to `synced`. */
  lemma {:induction false} SyncedIsStored(store: Store, batch: seq<Task>, env: Env)
    requires WellKeyed(store)
    requires forall k :: 0 <= k < |batch| ==> !IsBlank(env.newId(k))
    requires DistinctIds(Run(store, batch, env).report.synced)
    ensures forall t :: t in Run(store, batch, env).report.synced ==> HeldBy(Run(store, batch, env).store, t)
    decreases |batch|
  {
    if batch != [] {
      var k := |batch| - 1;
      var before := Run(store, batch[..k], env);
      var step := SyncOne(before.store, batch[k], env.clock(k), env.newId(k), env.fault);
      var r := Run(store, batch, env);
      assert r == State(step.store, Record(before.report, step.outcome));
      var earlier := before.report.synced;
      if step.outcome.Synced? {
        var t := step.outcome.task;
        assert r.report.synced == earlier + [t];
        assert DistinctIds(earlier) by {
          forall i, j | 0 <= i < j < |earlier| ensures earlier[i].id != earlier[j].id {
            assert r.report.synced[i] == earlier[i] && r.report.synced[j] == earlier[j];
          }
        }
        SyncedIsStored(store, batch[..k], env);
        assert forall x :: x in earlier ==> HeldBy(before.store, x);
        assert !IsBlank(env.newId(k));
        assert HeldBy(r.store, t);
        forall u | u in r.report.synced ensures HeldBy(r.store, u) {
          if u != t {
            var i :| 0 <= i < |earlier| && earlier[i] == u;
            assert r.report.synced[i] == u && r.report.synced[|earlier|] == t;
            assert HeldBy(before.store, u);
          }
        }
      } else {
        assert r.report.synced == earlier && r.store == before.store;
        SyncedIsStored(store, batch[..k], env);
      }
    }
  }

  /** Re-submitting tasks the store holds verbatim acknowledges each of them, in order,
      with no conflict, no error and no write. */
  lemma {:induction false} ResubmitHeldIsNoOp(store: Store, ts: seq<Task>, env: Env)
    requires WellKeyed(store)
    requires forall t :: t in ts ==> HeldBy(store, t)
    ensures Run(store, ts, env) == State(store, Report(ts, [], []))
    decreases |ts|
  {
    if ts != [] {
      var k := |ts| - 1;
      var earlier, last := ts[..k], ts[k];
      assert ts == earlier + [last];
      assert forall t :: t in earlier ==> t in ts;
      ResubmitHeldIsNoOp(store, earlier, env);
      assert HeldBy(store, last);
      var step := SyncOne(store, last, env.clock(k), env.newId(k), env.fault);
      assert step == Step(store, Synced(last));
    }
  }

  /** Idempotence: re-submitting the `synced` output of a batch against the store it left
      gives back the same acknowledgements as equal-timestamp no-ops, with no conflict,
      no error and the store unchanged, whatever the clock, id supply and fault oracle. */
  lemma Resubmission(store: Store, batch: seq<Task>, env: Env, env2: Env)
    requires WellKeyed(store)
    requires forall k :: 0 <= k < |batch| ==> !IsBlank(env.newId(k))
    requires DistinctIds(Run(store, batch, env).report.synced)
    ensures var r := Run(store, batch, env);
            Run(r.store, r.report.synced, env2) == State(r.store, Report(r.report.synced, [], []))
  {
    SyncedIsStored(store, batch, env);
    var r := Run(store, batch, env);
    ResubmitHeldIsNoOp(r.store, r.report.synced, env2);
  }

  /** The id a task is acknowledged under: the generated one in place of a missing or blank id,
      its own otherwise. */
  function AssignedId(client: Task, newId: string): (r: Option<string>)
    ensures r.Some?
    ensures !NeedsId(client.id) ==> r == client.id
  {
    if NeedsId(client.id) then Some(newId) else client.id
  }

  /** Every task acknowledged in `synced` carries the id assigned to some task of the batch;
      so distinct assigned ids give distinct acknowledged ids. */
  lemma {:induction false} SyncedIdsAreAssigned(store: Store, batch: seq<Task>, env: Env)
    requires WellKeyed(store)
    requires forall i, j :: 0 <= i < j < |batch| ==>
               AssignedId(batch[i], env.newId(i)) != AssignedId(batch[j], env.newId(j))
    ensures DistinctIds(Run(store, batch, env).report.synced)
    ensures forall t :: t in Run(store, batch, env).report.synced ==>
              exists k :: 0 <= k < |batch| && t.id == AssignedId(batch[k], env.newId(k))
    decreases |batch|
  {
    if batch != [] {
      var n := |batch| - 1;
      var prefix := batch[..n];
      forall i, j | 0 <= i < j < |prefix|
        ensures AssignedId(prefix[i], env.newId(i)) != AssignedId(prefix[j], env.newId(j))
      {
        assert prefix[i] == batch[i] && prefix[j] == batch[j];
      }
      SyncedIdsAreAssigned(store, prefix, env);
      var before := Run(store, prefix, env);
      var step := SyncOne(before.store, batch[n], env.clock(n), env.newId(n), env.fault);
      var earlier := before.report.synced;
      var synced := Run(store, batch, env).report.synced;
      assert synced == Record(before.report, step.outcome).synced;
      forall u | u in earlier
        ensures exists k :: 0 <= k < n && u.id == AssignedId(batch[k], env.newId(k))
      {
        var k :| 0 <= k < |prefix| && u.id == AssignedId(prefix[k], env.newId(k));
        assert prefix[k] == batch[k];
      }
      if step.outcome.Synced? {
        var t := step.outcome.task;
        assert t.id == AssignedId(batch[n], env.newId(n));
        assert synced == earlier + [t];
        forall i, j | 0 <= i < j < |synced| ensures synced[i].id != synced[j].id {
          if j < |earlier| {
            assert synced[i] == earlier[i] && synced[j] == earlier[j];
          } else {
            assert synced[i] == earlier[i] && synced[i] in earlier && synced[j] == t;
            var k :| 0 <= k < n && synced[i].id == AssignedId(batch[k], env.newId(k));
          }
        }
      }
    }
  }

  /** Idempotence for a batch whose tasks are assigned distinct, non-blank ids: re-submitting
      the acknowledged tasks gives only equal-timestamp no-ops, no conflicts and no errors. */
  lemma ResubmissionOfDistinctBatch(store: Store, batch: seq<Task>, env: Env, env2: Env)
    requires WellKeyed(store)
    requires forall k :: 0 <= k < |batch| ==> !IsBlank(env.newId(k))
    requires forall i, j :: 0 <= i < j < |batch| ==>
               AssignedId(batch[i], env.newId(i)) != AssignedId(batch[j], env.newId(j))
    ensures var r := Run(store, batch, env);
            Run(r.store, r.report.synced, env2) == State(r.store, Report(r.report.synced, [], []))
  {
    SyncedIdsAreAssigned(store, batch, env);
    Resubmission(store, batch, env, env2);
  }

  /** In this model, where tasks are values, distinct ids are needed for idempotence: two newer
      copies of one stored task are acknowledged as two different values, and re-submitting them
      reports the first as a conflict with the second. (In the source both entries would be one
      shared entity; see the README.) */
  lemma ResubmissionNeedsDistinctIds(env: Env, env2: Env)
    requires forall t :: env.fault(t).None?
    ensures var store := map["A" := Task(Some("A"), None, None, false, Some(1))];
            var batch := [Task(Some("A"), None, None, false, Some(5)), Task(Some("A"), None, None, false, Some(9))];
            var r := Run(store, batch, env);
            Run(r.store, r.report.synced, env2).report.conflicts != []
  {
    var store := map["A" := Task(Some("A"), None, None, false, Some(1))];
    var t5 := Task(Some("A"), None, None, false, Some(5));
    var t9 := Task(Some("A"), None, None, false, Some(9));
    var batch := [t5, t9];
    assert !NeedsId(Some("A")) by { assert !IsWhitespace("A"[0]); }
    assert batch[..1][..0] == [] && batch[..2] == batch;
    assert Run(store, batch[..1], env) == State(map["A" := t5], Report([t5], [], []));
    var r := Run(store, batch, env);
    assert r == State(map["A" := t9], Report([t5, t9], [], []));
    assert [t5, t9][..1] == [t5] && [t5][..0] == [];
    assert Run(r.store, [t5], env2).report.conflicts == [Conflict(Some("A"), t9, t5)];
  }

  /** A stored task overtaken by a newer client copy, followed by a task without an id:
      both are acknowledged, the first as merged and the second under the generated id. */
  lemma NewerClientThenNewTask(t1: Instant, env: Env)
    requires forall t :: env.fault(t).None?
    ensures var server := Task(Some("A"), None, None, false, Some(t1));
            var batch := [Task(Some("A"), None, None, true, Some(t1 + 10)), Task(None, Some("new"), None, false, None)];
            Run(map["A" := server], batch, env).report
            == Report([Task(Some("A"), None, None, true, Some(t1 + 10)),
                       Task(Some(env.newId(1)), Some("new"), None, false, Some(env.clock(1)))], [], [])
  {
    var store := map["A" := Task(Some("A"), None, None, false, Some(t1))];
    var batch := [Task(Some("A"), None, None, true, Some(t1 + 10)), Task(None, Some("new"), None, false, None)];
    assert !NeedsId(Some("A")) by { assert !IsWhitespace("A"[0]); }
    assert batch[..1][..0] == [];
    var merged := Task(Some("A"), None, None, true, Some(t1 + 10));
    assert Run(store, batch[..1], env) == State(store["A" := merged], Report([merged], [], []));
    assert batch[..2] == batch;
  }

  /** An older client copy of a stored task yields one conflict, nothing synced and an unchanged store. */
  lemma OlderClientConflicts(t1: Instant, t2: Instant, env: Env)
    requires t1 < t2
    ensures var server := Task(Some("A"), None, None, false, Some(t2));
            var client := Task(Some("A"), None, None, false, Some(t1));
            Run(map["A" := server], [client], env)
            == State(map["A" := server], Report([], [Conflict(Some("A"), server, client)], []))
  {
    var client := Task(Some("A"), None, None, false, Some(t1));
    assert !NeedsId(Some("A")) by { assert !IsWhitespace("A"[0]); }
    assert [client][..0] == [];
  }

  /** The value of the source's `SyncResult`: three lists that the loop appends to in place. */
  class SyncResult {
    var synced: seq<Task>
    var conflicts: seq<Conflict>
    var errors: seq<string>

    constructor ()
      ensures synced == [] && conflicts == [] && errors == []
    {
      synced, conflicts, errors := [], [], [];
    }

    function AsReport(): Report
      reads this
    {
      Report(synced, conflicts, errors)
    }
  }

  class SyncService {
    const repo: TaskRepository

    constructor (repo: TaskRepository)
      ensures this.repo == repo
    {
      this.repo := repo;
    }

    /** `sync(clientTasks)`: the store afterwards and the lists returned are exactly those of `Run`. */
    method Sync(clientTasks: seq<Task>, clock: nat -> Instant, newId: nat -> string) returns (result: SyncResult)
      requires repo.Valid()
      modifies repo
      ensures repo.Valid() && fresh(result)
      ensures var expected := Run(old(repo.tasks), clientTasks, Env(clock, newId, repo.saveFault));
              repo.tasks == expected.store && result.AsReport() == expected.report
    {
      ghost var store0 := repo.tasks;
      ghost var env := Env(clock, newId, repo.saveFault);
      result := new SyncResult();
      var i := 0;
      while i < |clientTasks|
        invariant 0 <= i <= |clientTasks|
        invariant repo.Valid() && fresh(result)
        invariant repo.tasks == Before(store0, clientTasks, env, i).store
        invariant result.AsReport() == Before(store0, clientTasks, env, i).report
      {
        RunStep(store0, clientTasks, env, i);
        SyncTask(clientTasks[i], clock(i), newId(i), result);
        i := i + 1;
      }
      assert clientTasks[..|clientTasks|] == clientTasks;
    }

    /** The body of the loop of `sync` for one client task: the try block and its catch. */
    method SyncTask(client: Task, now: Instant, newId: string, result: SyncResult)
      requires repo.Valid()
      modifies repo, result
      ensures repo.Valid()
      ensures var step := SyncOne(old(repo.tasks), client, now, newId, repo.saveFault);
              repo.tasks == step.store && result.AsReport() == Record(old(result.AsReport()), step.outcome)
    {
      var client := client;
      if client.id.None? || IsBlank(client.id.value) {
        client := client.(id := Some(newId));
        client := client.(updatedAt := Some(now));
        SaveAndRecord(client, client.id.value, result);
        return;
      }
      var serverOpt := repo.FindById(client.id.value);
      if serverOpt.None? {
        if client.updatedAt.None? {
          client := client.(updatedAt := Some(now));
        }
        SaveAndRecord(client, client.id.value, result);
      } else {
        var server := serverOpt.value;
        var clientTime := if client.updatedAt.None? then Epoch else client.updatedAt.value;
        var serverTime := if server.updatedAt.None? then Epoch else server.updatedAt.value;
        if clientTime > serverTime {
          server := server.(title := client.title);
          server := server.(description := client.description);
          server := server.(completed := client.completed);
          server := server.(updatedAt := if client.updatedAt.None? then Some(now) else client.updatedAt);
          SaveAndRecord(server, client.id.value, result);
        } else if clientTime < serverTime {
          result.conflicts := result.conflicts + [Conflict(server.id, server, client)];
        } else {
          assert Put(repo.tasks, server) == repo.tasks;
          result.synced := result.synced + [server];
        }
      }
    }

    /** `repo.save(t)` then `result.synced.add(t)`; a storage fault instead adds the error
        line naming the client's id `shownId`. */
    method SaveAndRecord(t: Task, shownId: string, result: SyncResult)
      requires repo.Valid() && t.id.Some?
      modifies repo, result
      ensures repo.Valid()
      ensures var step := SaveAndAck(old(repo.tasks), t, shownId, repo.saveFault);
              repo.tasks == step.store && result.AsReport() == Record(old(result.AsReport()), step.outcome)
    {
      var fault := repo.Save(t);
      if fault.Some? {
        result.errors := result.errors + [ErrorLine(shownId, fault.value)];
      } else {
        result.synced := result.synced + [t];
      }
    }
  }
}
