/** The schedule table and the request handlers that keep it in step with the scheduler, one request at a
    time, with any store call free to fail (a failed call changes nothing). */
module Schedules {
  import opened Text
  import opened Scheduler

  datatype Row = Row(name: string, expr: string, kind: string, enabled: bool)

  /** Rows by autoincrement id: `nextId` only grows, so ids are never used twice. */
  datatype Table = Table(rows: map<int, Row>, nextId: int)

  datatype World = World(table: Table, sched: Sched)

  // ---------- requests, as functions of the state ----------

  /** A request with the store calls that fail during it. */
  datatype Request =
    | Create(name: string, expr: string, kind: string, insertFails: bool, deleteFails: bool)
    | Delete(id: int, deleteFails: bool)
    | Toggle(id: int, enabled: bool, readFails: bool, updateFails: bool)

  function JobOf(id: int, r: Row): Job {
    Job(id, r.expr, r.kind)
  }

  function Inserted(t: Table, r: Row): Table {
    Table(t.rows[t.nextId := r], t.nextId + 1)
  }

  function Handled(w: World, valid: string -> bool, q: Request): World {
    match q
    case Create(name, expr, kind, insertFails, deleteFails) =>
      if name == "" || expr == "" || insertFails then w
      else
        var row := Row(name, expr, if kind == "" then "full" else kind, true);
        var id := w.table.nextId;
        var stored := Inserted(w.table, row);
        World(if valid(expr) || deleteFails then stored else stored.(rows := stored.rows - {id}),
              Registered(w.sched, valid, JobOf(id, row)))
    case Delete(id, deleteFails) =>
      World(if deleteFails then w.table else w.table.(rows := w.table.rows - {id}), Removed(w.sched, id))
    case Toggle(id, enabled, readFails, updateFails) =>
      if readFails || id !in w.table.rows || updateFails then w
      else
        World(w.table.(rows := w.table.rows[id := w.table.rows[id].(enabled := enabled)]),
              Called(w.sched, valid, Call.SetEnabled(JobOf(id, w.table.rows[id]), enabled)))
  }

  // ---------- the program's objects ----------

  class Store {
    var rows: map<int, Row>
    var nextId: int

    constructor ()
      ensures State() == Table(map[], 1)
    {
      rows, nextId := map[], 1;
    }

    function State(): Table
      reads this
    {
      Table(rows, nextId)
    }

    method CreateSchedule(row: Row, fails: bool) returns (id: Result<int>)
      modifies this
      ensures State() == if fails then old(State()) else Inserted(old(State()), row)
      ensures id == if fails then Err else Ok(old(nextId))
    {
      if fails {
        return Err;
      }
      rows := rows[nextId := row];
      nextId := nextId + 1;
      return Ok(nextId - 1);
    }

    method GetSchedule(id: int, fails: bool) returns (r: Result<Option<Row>>)
      ensures r == if fails then Err else if id in rows then Ok(Some(rows[id])) else Ok(None)
    {
      if fails {
        return Err;
      }
      return Ok(if id in rows then Some(rows[id]) else None);
    }

    method DeleteSchedule(id: int, fails: bool) returns (ok: bool)
      modifies this`rows
      ensures rows == if fails then old(rows) else old(rows) - {id}
      ensures ok == !fails
    {
      if !fails {
        rows := rows - {id};
      }
      return !fails;
    }

    method ToggleSchedule(id: int, enabled: bool, fails: bool) returns (ok: bool)
      modifies this`rows
      ensures rows == if fails || id !in old(rows) then old(rows) else old(rows)[id := old(rows)[id].(enabled := enabled)]
      ensures ok == !fails
    {
      if !fails && id in rows {
        rows := rows[id := rows[id].(enabled := enabled)];
      }
      return !fails;
    }
  }

  class Handler {
    const store: Store
    const scheduler: CronScheduler

    constructor (store: Store, scheduler: CronScheduler)
      ensures this.store == store && this.scheduler == scheduler
    {
      this.store := store;
      this.scheduler := scheduler;
    }

    function State(): World
      reads store, scheduler
    {
      World(store.State(), scheduler.State())
    }

    /** `CreateSchedule`, on trimmed fields: the row first, then the cron entry, and the row again removed when
        the expression is refused. Answers the status code. */
    method CreateSchedule(name: string, expr: string, kind: string, insertFails: bool, deleteFails: bool)
      returns (status: nat)
      modifies store, scheduler
      ensures State() == Handled(old(State()), scheduler.valid, Create(name, expr, kind, insertFails, deleteFails))
      ensures status == if name == "" || expr == "" then 400 else if insertFails then 500
                        else if scheduler.valid(expr) then 201 else 400
    {
      if name == "" || expr == "" {
        return 400;
      }
      var row := Row(name, expr, if kind == "" then "full" else kind, true);
      var id := store.CreateSchedule(row, insertFails);
      if id.Err? {
        return 500;
      }
      var added := scheduler.Register(JobOf(id.value, row));
      if !added {
        var _ := store.DeleteSchedule(id.value, deleteFails);
        return 400;
      }
      return 201;
    }

    /** `DeleteSchedule`: the cron entry first, then the row. */
    method DeleteSchedule(id: int, deleteFails: bool) returns (status: nat)
      modifies store, scheduler
      ensures State() == Handled(old(State()), scheduler.valid, Delete(id, deleteFails))
      ensures status == if deleteFails then 500 else 204
    {
      scheduler.Remove(id);
      var ok := store.DeleteSchedule(id, deleteFails);
      return if ok then 204 else 500;
    }

    /** `ToggleSchedule`: the row first, then the cron entry. */
    method ToggleSchedule(id: int, enabled: bool, readFails: bool, updateFails: bool) returns (status: nat)
      modifies store, scheduler
      ensures State() == Handled(old(State()), scheduler.valid, Toggle(id, enabled, readFails, updateFails))
      ensures status == if readFails || id !in old(store.rows) then 404 else if updateFails then 500
                        else if enabled && !scheduler.valid(old(store.rows)[id].expr) then 400 else 200
    {
      var found := store.GetSchedule(id, readFails);
      if found.Err? || found.value.None? {
        return 404;
      }
      var row := found.value.value;
      var stored := store.ToggleSchedule(id, enabled, updateFails);
      if !stored {
        return 500;
      }
      var ok := scheduler.SetEnabled(JobOf(id, row), enabled);
      return if ok then 200 else 400;
    }
  }

  // ---------- agreement ----------

  /** A live entry for a schedule, carrying what the row says. */
  ghost predicate Live(s: Sched, job: Job) {
    exists i :: i in s.live && s.live[i] == job
  }

  /** Every live cron entry belongs to a stored, enabled row and carries its expression and type. */
  ghost predicate Sound(w: World) {
    && Inv(w.sched)
    && (forall id :: id in w.table.rows ==> id < w.table.nextId)
    && (forall i :: i in w.sched.live ==> Backed(w.table, w.sched.live[i]))
  }

  /** The row ought to be live: enabled, with an expression cron accepts. */
  predicate Due(t: Table, valid: string -> bool, id: int) {
    id in t.rows && t.rows[id].enabled && valid(t.rows[id].expr)
  }

  /** Every row that ought to be live is. */
  ghost predicate Complete(w: World, valid: string -> bool) {
    forall id :: Due(w.table, valid, id) ==> Live(w.sched, JobOf(id, w.table.rows[id]))
  }

  /** The one failure that breaks agreement: a delete that has removed the cron entry and then cannot remove
      the row. */
  predicate LosesEntry(w: World, valid: string -> bool, q: Request) {
    q.Delete? && q.deleteFails && Due(w.table, valid, q.id)
  }

  /** The live entry `job` is what the table says. */
  predicate Backed(t: Table, job: Job) {
    job.schedule in t.rows && t.rows[job.schedule].enabled && job == JobOf(job.schedule, t.rows[job.schedule])
  }

  /** Only the entry of one schedule changes: the table must back the others, and the new one if it is accepted. */
  lemma CallKeepsSound(t: Table, s: Sched, valid: string -> bool, c: Call, about: int)
    requires Inv(s) && forall id :: id in t.rows ==> id < t.nextId
    requires about == match c case Register(j) => j.schedule case Remove(a) => a case SetEnabled(j, _) => j.schedule
    requires forall i :: i in s.live && s.live[i].schedule != about ==> Backed(t, s.live[i])
    requires c.Register? || (c.SetEnabled? && c.enabled) ==> !valid(c.job.expr) || Backed(t, c.job)
    ensures Sound(World(t, Called(s, valid, c)))
  {
    CalledKeepsInv(s, valid, c);
    var s' := Called(s, valid, c);
    forall i | i in s'.live ensures Backed(t, s'.live[i]) {
      EntryAfterCall(s, valid, c, about, i);
    }
  }

  /** A live entry after a call was live before and is about another schedule, or is the one just registered. */
  lemma EntryAfterCall(s: Sched, valid: string -> bool, c: Call, about: int, i: nat)
    requires Inv(s) && i in Called(s, valid, c).live
    requires about == match c case Register(j) => j.schedule case Remove(a) => a case SetEnabled(j, _) => j.schedule
    ensures var job := Called(s, valid, c).live[i];
            (i in s.live && s.live[i] == job && job.schedule != about)
            || ((c.Register? || (c.SetEnabled? && c.enabled)) && valid(c.job.expr) && job == c.job)
  {
  }

  lemma HandledKeepsSound(w: World, valid: string -> bool, q: Request)
    requires Sound(w)
    ensures Sound(Handled(w, valid, q))
  {
    var w' := Handled(w, valid, q);
    match q
    case Create(name, expr, kind, insertFails, _) =>
      if !(name == "" || expr == "" || insertFails) {
        var job := JobOf(w.table.nextId, Row(name, expr, if kind == "" then "full" else kind, true));
        CallKeepsSound(w'.table, w.sched, valid, Register(job), job.schedule);
      }
    case Delete(id, _) =>
      CallKeepsSound(w'.table, w.sched, valid, Remove(id), id);
    case Toggle(id, enabled, readFails, updateFails) =>
      if !(readFails || id !in w.table.rows || updateFails) {
        CallKeepsSound(w'.table, w.sched, valid, Call.SetEnabled(JobOf(id, w.table.rows[id]), enabled), id);
      }
  }

  lemma OthersStayLive(s: Sched, valid: string -> bool, c: Call, job: Job)
    requires Inv(s) && Live(s, job)
    requires job.schedule != (match c case Register(j) => j.schedule case Remove(a) => a case SetEnabled(j, _) => j.schedule)
    ensures Live(Called(s, valid, c), job)
  {
    var i :| i in s.live && s.live[i] == job;
    assert i in Called(s, valid, c).live && Called(s, valid, c).live[i] == job;
  }

  lemma RegisteredIsLive(s: Sched, valid: string -> bool, job: Job)
    requires valid(job.expr)
    ensures Live(Registered(s, valid, job), job)
  {
    assert Registered(s, valid, job).live[s.next] == job;
  }

  /** One request leaves table and cron in full agreement, or breaks it, exactly as the guard says. */
  lemma HandledKeepsComplete(w: World, valid: string -> bool, q: Request)
    requires Sound(w) && Complete(w, valid)
    ensures Complete(Handled(w, valid, q), valid) <==> !LosesEntry(w, valid, q)
  {
    var w' := Handled(w, valid, q);
    if LosesEntry(w, valid, q) {
      assert Due(w'.table, valid, q.id);
      assert !Live(w'.sched, JobOf(q.id, w'.table.rows[q.id]));
    } else {
      forall id | Due(w'.table, valid, id) ensures Live(w'.sched, JobOf(id, w'.table.rows[id])) {
        StillLive(w, valid, q, id);
      }
    }
  }

  lemma StillLive(w: World, valid: string -> bool, q: Request, id: int)
    requires Sound(w) && Complete(w, valid) && !LosesEntry(w, valid, q)
    requires Due(Handled(w, valid, q).table, valid, id)
    ensures var w' := Handled(w, valid, q); Live(w'.sched, JobOf(id, w'.table.rows[id]))
  {
    var w' := Handled(w, valid, q);
    var job := JobOf(id, w'.table.rows[id]);
    match q
    case Create(name, expr, kind, insertFails, _) =>
      if !(name == "" || expr == "" || insertFails) {
        var added := JobOf(w.table.nextId, Row(name, expr, if kind == "" then "full" else kind, true));
        if id == w.table.nextId {
          RegisteredIsLive(w.sched, valid, added);
        } else {
          assert Due(w.table, valid, id);
          OthersStayLive(w.sched, valid, Register(added), job);
        }
      } else {
        assert Due(w.table, valid, id);
      }
    case Delete(gone, deleteFails) =>
      assert Due(w.table, valid, id);
      if id != gone { OthersStayLive(w.sched, valid, Remove(gone), job); }
    case Toggle(changed, enabled, readFails, updateFails) =>
      if !(readFails || changed !in w.table.rows || updateFails) {
        if id == changed {
          RegisteredIsLive(w.sched, valid, job);
        } else {
          assert Due(w.table, valid, id);
          OthersStayLive(w.sched, valid, Call.SetEnabled(JobOf(changed, w.table.rows[changed]), enabled), job);
        }
      } else {
        assert Due(w.table, valid, id);
      }
  }

  // ---------- what each request does, field by field ----------

  /** The live entries of all schedules but one are the same. */
  ghost predicate SameBeside(s: Sched, t: Sched, id: int) {
    && (forall i :: i in s.live && s.live[i].schedule != id ==> i in t.live && t.live[i] == s.live[i])
    && (forall i :: i in t.live && t.live[i].schedule != id ==> i in s.live)
  }

  /** The schedule has exactly one live entry, with that expression and type. */
  ghost predicate RunsOnce(s: Sched, id: int, expr: string, kind: string) {
    && (exists i :: i in s.live && s.live[i].schedule == id)
    && (forall i :: i in s.live && s.live[i].schedule == id ==> s.live[i].expr == expr && s.live[i].kind == kind)
    && (forall i, j :: i in s.live && j in s.live && s.live[i].schedule == id && s.live[j].schedule == id ==> i == j)
  }

  ghost predicate NotLive(s: Sched, id: int) {
    forall i :: i in s.live ==> s.live[i].schedule != id
  }

  lemma RegisteredRuns(s: Sched, valid: string -> bool, job: Job)
    requires Inv(s)
    ensures SameBeside(s, Registered(s, valid, job), job.schedule)
    ensures valid(job.expr) ==> RunsOnce(Registered(s, valid, job), job.schedule, job.expr, job.kind)
    ensures !valid(job.expr) ==> NotLive(Registered(s, valid, job), job.schedule)
  {
    CallEffects(s, valid, job);
    var t := Registered(s, valid, job);
    if valid(job.expr) { assert s.next in t.live && t.live[s.next].schedule == job.schedule; }
  }

  /** A schedule that is created is stored, once, as it was asked for, and runs. */
  lemma CreateTakesEffect(w: World, valid: string -> bool, name: string, expr: string, kind: string, deleteFails: bool)
    requires Sound(w) && name != "" && expr != "" && valid(expr)
    ensures var v, id := Handled(w, valid, Create(name, expr, kind, false, deleteFails)), w.table.nextId;
            && id !in w.table.rows && v.table.rows.Keys == w.table.rows.Keys + {id} && v.table.nextId == id + 1
            && v.table.rows[id].name == name && v.table.rows[id].expr == expr && v.table.rows[id].enabled
            && v.table.rows[id].kind == (if kind == "" then "full" else kind)
            && (forall i :: i in w.table.rows ==> v.table.rows[i] == w.table.rows[i])
            && RunsOnce(v.sched, id, expr, if kind == "" then "full" else kind) && SameBeside(w.sched, v.sched, id)
  {
    RegisteredRuns(w.sched, valid, Job(w.table.nextId, expr, if kind == "" then "full" else kind));
  }

  /** A schedule whose expression is refused is not stored, if its row can be removed again, and never runs; one that
      is incomplete or cannot be stored changes nothing. */
  lemma CreateRefused(w: World, valid: string -> bool, name: string, expr: string, kind: string, insertFails: bool, deleteFails: bool)
    requires Sound(w)
    ensures var v := Handled(w, valid, Create(name, expr, kind, insertFails, deleteFails));
            && (name == "" || expr == "" || insertFails ==> v == w)
            && (name != "" && expr != "" && !insertFails && !valid(expr) ==>
                  && NotLive(v.sched, w.table.nextId) && SameBeside(w.sched, v.sched, w.table.nextId)
                  && (!deleteFails ==> v.table.rows == w.table.rows))
  {
    RegisteredRuns(w.sched, valid, Job(w.table.nextId, expr, if kind == "" then "full" else kind));
  }

  /** A deleted schedule stops at once and its row goes, unless the store fails; no other is touched. */
  lemma DeleteTakesEffect(w: World, valid: string -> bool, id: int, deleteFails: bool)
    requires Sound(w)
    ensures var v := Handled(w, valid, Delete(id, deleteFails));
            && NotLive(v.sched, id) && SameBeside(w.sched, v.sched, id)
            && (id in v.table.rows <==> deleteFails && id in w.table.rows)
            && (forall i :: i != id || deleteFails ==> (i in v.table.rows <==> i in w.table.rows))
            && (forall i :: i in v.table.rows ==> v.table.rows[i] == w.table.rows[i])
  {
    CallEffects(w.sched, valid, Job(id, "", ""));
  }

  /** A schedule that is switched on or off reads so and runs or does not; nothing else about it changes, nor any other
      schedule. */
  lemma ToggleTakesEffect(w: World, valid: string -> bool, id: int, enabled: bool)
    requires Sound(w) && id in w.table.rows
    ensures var v, row := Handled(w, valid, Toggle(id, enabled, false, false)), w.table.rows[id];
            && v.table.rows.Keys == w.table.rows.Keys
            && v.table.rows[id].enabled == enabled && v.table.rows[id].name == row.name
            && v.table.rows[id].expr == row.expr && v.table.rows[id].kind == row.kind
            && (forall i :: i in w.table.rows && i != id ==> v.table.rows[i] == w.table.rows[i])
            && SameBeside(w.sched, v.sched, id)
            && (enabled && valid(row.expr) ==> RunsOnce(v.sched, id, row.expr, row.kind))
            && (!enabled || !valid(row.expr) ==> NotLive(v.sched, id))
  {
    var job := Job(id, w.table.rows[id].expr, w.table.rows[id].kind);
    RegisteredRuns(w.sched, valid, job);
    CallEffects(w.sched, valid, job);
  }

  /** A toggle of a missing row, or one whose row cannot be read or written, changes nothing. */
  lemma ToggleRefused(w: World, valid: string -> bool, id: int, enabled: bool, readFails: bool, updateFails: bool)
    requires readFails || updateFails || id !in w.table.rows
    ensures Handled(w, valid, Toggle(id, enabled, readFails, updateFails)) == w
  {
  }

  // ---------- start-up ----------

  /** The loop of `LoadAndStart` over the listed schedules. */
  function Loaded(s: Sched, valid: string -> bool, t: Table, ids: seq<int>): Sched
    requires forall id :: id in ids ==> id in t.rows
  {
    if ids == [] then s
    else
      var id := ids[|ids|-1];
      assert id in ids;
      var before := Loaded(s, valid, t, ids[..|ids|-1]);
      if t.rows[id].enabled then Registered(before, valid, JobOf(id, t.rows[id])) else before
  }

  method LoadAndStart(table: Table, ids: seq<int>, scheduler: CronScheduler)
    requires forall id :: id in ids ==> id in table.rows
    modifies scheduler
    ensures scheduler.State() == Loaded(old(scheduler.State()), scheduler.valid, table, ids)
  {
    var i := 0;
    while i < |ids|
      invariant 0 <= i <= |ids|
      invariant scheduler.State() == Loaded(old(scheduler.State()), scheduler.valid, table, ids[..i])
    {
      var id := ids[i];
      assert id in ids && id in table.rows;
      assert ids[..i+1][..i] == ids[..i];
      if table.rows[id].enabled {
        var _ := scheduler.Register(JobOf(id, table.rows[id]));
      }
      i := i + 1;
    }
    assert ids[..i] == ids;
  }

  lemma {:induction false} LoadedAgrees(valid: string -> bool, t: Table, ids: seq<int>)
    requires (forall id :: id in t.rows ==> id < t.nextId) && Distinct(ids)
    requires forall id :: id in ids ==> id in t.rows
    ensures Sound(World(t, Loaded(EMPTY, valid, t, ids)))
    ensures forall id :: id in ids && Due(t, valid, id) ==> Live(Loaded(EMPTY, valid, t, ids), JobOf(id, t.rows[id]))
  {
    if ids != [] {
      var first, last := ids[..|ids|-1], ids[|ids|-1];
      assert ids == first + [last] && last in ids && last !in first;
      LoadedAgrees(valid, t, first);
      var before := Loaded(EMPTY, valid, t, first);
      var job := JobOf(last, t.rows[last]);
      if t.rows[last].enabled {
        CallKeepsSound(t, before, valid, Register(job), last);
        if valid(job.expr) { RegisteredIsLive(before, valid, job); }
        forall id | id in first && Due(t, valid, id) ensures Live(Registered(before, valid, job), JobOf(id, t.rows[id])) {
          OthersStayLive(before, valid, Register(job), JobOf(id, t.rows[id]));
        }
      }
    }
  }

  // ---------- runs ----------

  function After(w: World, valid: string -> bool, qs: seq<Request>): World {
    if qs == [] then w else Handled(After(w, valid, qs[..|qs|-1]), valid, qs[|qs|-1])
  }

  /** The schedules that ought to run but do not, after one more request: a delete that fails in the store loses its
      schedule, a delete or toggle that reaches the store settles it again. */
  function LostAfter(w: World, valid: string -> bool, lost: set<int>, q: Request): set<int> {
    match q
    case Create(_, _, _, _, _) => lost
    case Delete(id, deleteFails) =>
      if !deleteFails then lost - {id} else if Due(w.table, valid, id) then lost + {id} else lost
    case Toggle(id, _, readFails, updateFails) =>
      if readFails || updateFails then lost else lost - {id}
  }

  /** The schedules lost over a run and not settled since. */
  function Lost(w: World, valid: string -> bool, qs: seq<Request>): set<int> {
    if qs == [] then {}
    else LostAfter(After(w, valid, qs[..|qs|-1]), valid, Lost(w, valid, qs[..|qs|-1]), qs[|qs|-1])
  }

  /** Exactly the lost ones among the schedules that ought to run have no live entry. */
  ghost predicate AllButLost(w: World, valid: string -> bool, lost: set<int>) {
    && (forall id :: id in lost ==> Due(w.table, valid, id))
    && (forall id :: Due(w.table, valid, id) ==> (Live(w.sched, JobOf(id, w.table.rows[id])) <==> id !in lost))
  }

  /** A call about one schedule changes nothing for the entries of another. */
  lemma OthersKeep(s: Sched, valid: string -> bool, c: Call, job: Job)
    requires Inv(s)
    requires job.schedule != (match c case Register(j) => j.schedule case Remove(a) => a case SetEnabled(j, _) => j.schedule)
    ensures Live(Called(s, valid, c), job) <==> Live(s, job)
  {
    if Live(s, job) { OthersStayLive(s, valid, c, job); }
    if Live(Called(s, valid, c), job) {
      var i :| i in Called(s, valid, c).live && Called(s, valid, c).live[i] == job;
      assert i in s.live && s.live[i] == job;
    }
  }

  lemma RemovedIsDead(s: Sched, valid: string -> bool, job: Job)
    requires Inv(s)
    ensures !Live(Called(s, valid, Remove(job.schedule)), job)
  {
  }

  lemma CreateKeepsLost(w: World, valid: string -> bool, lost: set<int>, q: Request)
    requires Sound(w) && AllButLost(w, valid, lost) && q.Create?
    ensures AllButLost(Handled(w, valid, q), valid, lost)
  {
    if !(q.name == "" || q.expr == "" || q.insertFails) {
      var w' := Handled(w, valid, q);
      var added := JobOf(w.table.nextId, Row(q.name, q.expr, if q.kind == "" then "full" else q.kind, true));
      if valid(q.expr) { RegisteredIsLive(w.sched, valid, added); }
      forall id | id != w.table.nextId
        ensures Due(w'.table, valid, id) <==> Due(w.table, valid, id)
        ensures Due(w.table, valid, id) ==>
                  (Live(w'.sched, JobOf(id, w.table.rows[id])) <==> Live(w.sched, JobOf(id, w.table.rows[id])))
      {
        if Due(w.table, valid, id) { OthersKeep(w.sched, valid, Register(added), JobOf(id, w.table.rows[id])); }
      }
    }
  }

  lemma DeleteKeepsLost(w: World, valid: string -> bool, lost: set<int>, q: Request)
    requires Sound(w) && AllButLost(w, valid, lost) && q.Delete?
    ensures AllButLost(Handled(w, valid, q), valid, LostAfter(w, valid, lost, q))
  {
    var w' := Handled(w, valid, q);
    forall id | Due(w'.table, valid, id)
      ensures Live(w'.sched, JobOf(id, w'.table.rows[id])) <==> id !in LostAfter(w, valid, lost, q)
    {
      var job := JobOf(id, w.table.rows[id]);
      if id == q.id { RemovedIsDead(w.sched, valid, job); } else { OthersKeep(w.sched, valid, Remove(q.id), job); }
    }
  }

  lemma ToggleKeepsLost(w: World, valid: string -> bool, lost: set<int>, q: Request)
    requires Sound(w) && AllButLost(w, valid, lost) && q.Toggle?
    ensures AllButLost(Handled(w, valid, q), valid, LostAfter(w, valid, lost, q))
  {
    if !(q.readFails || q.id !in w.table.rows || q.updateFails) {
      var w' := Handled(w, valid, q);
      forall id | Due(w'.table, valid, id)
        ensures Live(w'.sched, JobOf(id, w'.table.rows[id])) <==> id !in LostAfter(w, valid, lost, q)
      {
        var job := JobOf(id, w.table.rows[id]);
        if id == q.id {
          RegisteredIsLive(w.sched, valid, job);
        } else {
          OthersKeep(w.sched, valid, Call.SetEnabled(JobOf(q.id, w.table.rows[q.id]), q.enabled), job);
        }
      }
    }
  }

  lemma {:induction false} AfterAgrees(w: World, valid: string -> bool, qs: seq<Request>)
    requires Sound(w) && Complete(w, valid)
    ensures Sound(After(w, valid, qs))
    ensures AllButLost(After(w, valid, qs), valid, Lost(w, valid, qs))
  {
    if qs != [] {
      var before, lost, q := After(w, valid, qs[..|qs|-1]), Lost(w, valid, qs[..|qs|-1]), qs[|qs|-1];
      AfterAgrees(w, valid, qs[..|qs|-1]);
      HandledKeepsSound(before, valid, q);
      match q
      case Create(_, _, _, _, _) => CreateKeepsLost(before, valid, lost, q);
      case Delete(_, _) => DeleteKeepsLost(before, valid, lost, q);
      case Toggle(_, _, _, _) => ToggleKeepsLost(before, valid, lost, q);
    }
  }

  /** No schedule has two live entries. */
  ghost predicate NoneDoubled(s: Sched) {
    forall i, j :: i in s.live && j in s.live && s.live[i].schedule == s.live[j].schedule ==> i == j
  }

  /** The entry belongs to an enabled row and has its expression and type. */
  predicate CarriesRow(t: Table, job: Job) {
    && job.schedule in t.rows && t.rows[job.schedule].enabled
    && job.expr == t.rows[job.schedule].expr && job.kind == t.rows[job.schedule].kind
  }

  /** From start-up through any requests with any store failures, each live cron entry belongs to a stored,
      enabled row and carries that row's expression and type, and no schedule has two. An enabled row with a valid
      expression is live unless it is lost, so table and cron agree in full exactly when no schedule is lost. */
  lemma SchedulesAgree(valid: string -> bool, t: Table, ids: seq<int>, qs: seq<Request>)
    requires (forall id :: id in t.rows ==> id < t.nextId) && Distinct(ids) && (forall id :: id in ids <==> id in t.rows)
    ensures var start := World(t, Loaded(EMPTY, valid, t, ids));
            var w, lost := After(start, valid, qs), Lost(start, valid, qs);
            && (forall i :: i in w.sched.live ==> Backed(w.table, w.sched.live[i]))
            && (forall i :: i in w.sched.live ==> CarriesRow(w.table, w.sched.live[i]))
            && NoneDoubled(w.sched)
            && (forall id :: id in w.table.rows ==>
                  (Live(w.sched, JobOf(id, w.table.rows[id])) <==> Due(w.table, valid, id) && id !in lost))
            && (Complete(w, valid) <==> lost == {})
  {
    LoadedAgrees(valid, t, ids);
    var start := World(t, Loaded(EMPTY, valid, t, ids));
    assert Complete(start, valid);
    AfterAgrees(start, valid, qs);
    LiveIsValid(valid, t, ids, qs);
    var w, lost := After(start, valid, qs), Lost(start, valid, qs);
    if Complete(w, valid) {
      forall id ensures id !in lost {}
    }
  }

  /** A failed delete stops an enabled schedule; switching it on once more starts it again without a restart. */
  lemma ToggleRevives(w: World, valid: string -> bool, id: int)
    requires Sound(w) && Complete(w, valid) && Due(w.table, valid, id)
    ensures var lost := Handled(w, valid, Delete(id, true));
            var revived := Handled(lost, valid, Toggle(id, true, false, false));
            !Live(lost.sched, JobOf(id, w.table.rows[id])) && Live(revived.sched, JobOf(id, w.table.rows[id]))
            && Complete(revived, valid)
  {
    var qs := [Delete(id, true), Toggle(id, true, false, false)];
    assert qs[..1] == [Delete(id, true)] && qs[..1][..0] == [] && qs[..|qs|-1] == qs[..1];
    assert qs[..1][|qs[..1]|-1] == Delete(id, true);
    assert After(w, valid, qs[..1]) == Handled(w, valid, Delete(id, true));
    AfterAgrees(w, valid, qs[..1]);
    AfterAgrees(w, valid, qs);
    assert Lost(w, valid, qs[..1]) == {id};
    assert Lost(w, valid, qs) == {};
  }

  predicate AllValid(s: Sched, valid: string -> bool) {
    forall i :: i in s.live ==> valid(s.live[i].expr)
  }

  /** Only accepted expressions are ever live. */
  lemma {:induction false} LiveIsValid(valid: string -> bool, t: Table, ids: seq<int>, qs: seq<Request>)
    requires forall id :: id in ids ==> id in t.rows
    ensures AllValid(After(World(t, Loaded(EMPTY, valid, t, ids)), valid, qs).sched, valid)
    decreases |qs|, |ids|
  {
    if qs != [] {
      LiveIsValid(valid, t, ids, qs[..|qs|-1]);
      var w := After(World(t, Loaded(EMPTY, valid, t, ids)), valid, qs[..|qs|-1]);
      assert AllValid(Handled(w, valid, qs[|qs|-1]).sched, valid);
    } else if ids != [] {
      LiveIsValid(valid, t, ids[..|ids|-1], []);
    }
  }
}
