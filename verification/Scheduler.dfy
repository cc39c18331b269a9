/** The scheduler: live cron entries and the map from schedules to entry ids. */
module Scheduler {
  import opened Text

  datatype Job = Job(schedule: int, expr: string, kind: string)

  /** `live` is the cron table, `next` its id counter, `entries` the scheduler's own map. */
  datatype Sched = Sched(next: nat, live: map<nat, Job>, entries: map<int, nat>)

  const EMPTY := Sched(1, map[], map[])

  // ---------- one call, as a function of the state ----------

  /** The old entry goes first; a bad expression then leaves the schedule without one, and with a stale id. */
  function Registered(s: Sched, valid: string -> bool, job: Job): Sched {
    var live := if job.schedule in s.entries then s.live - {s.entries[job.schedule]} else s.live;
    if valid(job.expr) then Sched(s.next + 1, live[s.next := job], s.entries[job.schedule := s.next])
    else s.(live := live)
  }

  function Removed(s: Sched, schedule: int): Sched {
    if schedule in s.entries then s.(live := s.live - {s.entries[schedule]}, entries := s.entries - {schedule})
    else s
  }

  datatype Call = Register(job: Job) | Remove(schedule: int) | SetEnabled(job: Job, enabled: bool)

  function Called(s: Sched, valid: string -> bool, c: Call): Sched {
    match c
    case Register(job) => Registered(s, valid, job)
    case Remove(schedule) => Removed(s, schedule)
    case SetEnabled(job, enabled) => if enabled then Registered(s, valid, job) else Removed(s, job.schedule)
  }

  // ---------- the program's object ----------

  class CronScheduler {
    var next: nat
    var live: map<nat, Job>
    var entries: map<int, nat>
    /** Which expressions the cron parser accepts. */
    const valid: string -> bool

    constructor (valid: string -> bool)
      ensures State() == EMPTY && this.valid == valid
    {
      next, live, entries := 1, map[], map[];
      this.valid := valid;
    }

    function State(): Sched
      reads this
    {
      Sched(next, live, entries)
    }

    /** `cron.AddFunc`: a fresh entry id, or an error for a bad expression. */
    method AddFunc(job: Job) returns (id: Result<nat>)
      modifies this`next, this`live
      ensures id == if valid(job.expr) then Ok(old(next)) else Err
      ensures next == if id.Ok? then old(next) + 1 else old(next)
      ensures live == if id.Ok? then old(live)[old(next) := job] else old(live)
    {
      if !valid(job.expr) {
        return Err;
      }
      live := live[next := job];
      next := next + 1;
      return Ok(next - 1);
    }

    /** `cron.Remove`: an unknown id is ignored. */
    method RemoveEntry(id: nat)
      modifies this`live
      ensures live == old(live) - {id}
    {
      live := live - {id};
    }

    /** `register`, also behind `Add`. */
    method Register(job: Job) returns (ok: bool)
      modifies this
      ensures State() == Registered(old(State()), valid, job)
      ensures ok <==> valid(job.expr)
    {
      if job.schedule in entries {
        RemoveEntry(entries[job.schedule]);
      }
      var id := AddFunc(job);
      if id.Err? {
        return false;
      }
      entries := entries[job.schedule := id.value];
      return true;
    }

    method Remove(schedule: int)
      modifies this
      ensures State() == Removed(old(State()), schedule)
    {
      if schedule in entries {
        RemoveEntry(entries[schedule]);
        entries := entries - {schedule};
      }
    }

    method SetEnabled(job: Job, enabled: bool) returns (ok: bool)
      modifies this
      ensures State() == Called(old(State()), valid, Call.SetEnabled(job, enabled))
      ensures ok <==> !enabled || valid(job.expr)
    {
      if enabled {
        ok := Register(job);
      } else {
        Remove(job.schedule);
        ok := true;
      }
    }
  }

  // ---------- what every interleaving keeps ----------

  /** Every live entry is the one its schedule maps to; ids in use, live or stale, are below the counter and
      belong to one schedule. */
  ghost predicate Inv(s: Sched) {
    && (forall id :: id in s.live ==> id < s.next)
    && (forall id :: id in s.live ==> s.live[id].schedule in s.entries && s.entries[s.live[id].schedule] == id)
    && (forall a :: a in s.entries ==> s.entries[a] < s.next)
    && (forall a, b :: a in s.entries && b in s.entries && s.entries[a] == s.entries[b] ==> a == b)
  }

  /** A valid registration takes effect under a fresh id, an invalid one and a removal leave the schedule without an
      entry; the entries of other schedules stay. */
  lemma CallEffects(s: Sched, valid: string -> bool, job: Job)
    requires Inv(s)
    ensures var t := Registered(s, valid, job);
            && (valid(job.expr) ==>
                  && s.next !in s.live && s.next in t.live && t.live[s.next] == job && t.next == s.next + 1
                  && job.schedule in t.entries && t.entries[job.schedule] == s.next)
            && (!valid(job.expr) ==> t.next == s.next)
            && (forall i :: i in t.live && t.live[i].schedule == job.schedule ==> valid(job.expr) && i == s.next)
            && (forall i :: i in s.live && s.live[i].schedule != job.schedule ==> i in t.live && t.live[i] == s.live[i])
            && (forall i :: i in t.live && t.live[i].schedule != job.schedule ==> i in s.live && s.live[i] == t.live[i])
    ensures var t := Removed(s, job.schedule);
            && t.next == s.next && job.schedule !in t.entries
            && (forall i :: i in t.live <==> i in s.live && s.live[i].schedule != job.schedule)
            && (forall i :: i in t.live ==> t.live[i] == s.live[i])
  {
  }

  /** Each call runs under the one lock, so an interleaving is a sequence of calls. */
  function After(s: Sched, valid: string -> bool, calls: seq<Call>): Sched {
    if calls == [] then s else Called(After(s, valid, calls[..|calls|-1]), valid, calls[|calls|-1])
  }

  lemma RemovedKeepsInv(s: Sched, schedule: int)
    requires Inv(s)
    ensures Inv(Removed(s, schedule))
  {
  }

  lemma RegisteredKeepsInv(s: Sched, valid: string -> bool, job: Job)
    requires Inv(s)
    ensures Inv(Registered(s, valid, job))
  {
    var live := if job.schedule in s.entries then s.live - {s.entries[job.schedule]} else s.live;
    assert forall id :: id in live ==> id in s.live && s.live[id].schedule != job.schedule;
  }

  lemma CalledKeepsInv(s: Sched, valid: string -> bool, c: Call)
    requires Inv(s)
    ensures Inv(Called(s, valid, c))
  {
    match c
    case Register(job) => RegisteredKeepsInv(s, valid, job);
    case Remove(schedule) => RemovedKeepsInv(s, schedule);
    case SetEnabled(job, _) =>
      RegisteredKeepsInv(s, valid, job);
      RemovedKeepsInv(s, job.schedule);
  }

  lemma {:induction false} InvAlways(s: Sched, valid: string -> bool, calls: seq<Call>)
    requires Inv(s)
    ensures Inv(After(s, valid, calls))
  {
    if calls != [] {
      InvAlways(s, valid, calls[..|calls|-1]);
      CalledKeepsInv(After(s, valid, calls[..|calls|-1]), valid, calls[|calls|-1]);
    }
  }

  /** Never two live entries for one schedule, from the start and through any calls, bad expressions included. */
  lemma AtMostOneLiveJob(valid: string -> bool, calls: seq<Call>, i: nat, j: nat)
    requires var s := After(EMPTY, valid, calls); i in s.live && j in s.live && s.live[i].schedule == s.live[j].schedule
    ensures i == j
    ensures var s := After(EMPTY, valid, calls); forall a :: a in s.entries && s.entries[a] == i ==> a == s.live[i].schedule
  {
    InvAlways(EMPTY, valid, calls);
  }

  /** An entry id that has been removed, be it still in `entries` or not, is never live again. */
  lemma {:induction false} DeadStaysDead(s: Sched, valid: string -> bool, calls: seq<Call>, id: nat)
    requires Inv(s) && id < s.next && id !in s.live
    ensures id !in After(s, valid, calls).live && id < After(s, valid, calls).next
  {
    if calls != [] {
      DeadStaysDead(s, valid, calls[..|calls|-1], id);
    }
  }

  /** A registration that fails has removed the old entry: the schedule is no longer live, its id is stale. */
  lemma FailedRegistration(s: Sched, valid: string -> bool, job: Job)
    requires Inv(s) && !valid(job.expr)
    ensures var t := Registered(s, valid, job);
            Inv(t) && t.entries == s.entries && (forall id :: id in t.live ==> t.live[id].schedule != job.schedule)
            && (forall id :: id in s.live && s.live[id].schedule != job.schedule ==> id in t.live && t.live[id] == s.live[id])
  {
  }
}
