/** One backup job: validation, its row in the jobs table, the two producers, and the retention pass after it. */
module Runner {
  import opened Text
  import opened Calendar
  import opened Settings
  import Decimal
  import Retention
  import SettingsRuns

  // ---------- what a job is allowed to do, and what it does ----------

  datatype Problem = NoURL | NoServiceKey | NoDatabaseURL | NoBucket | NoCredentials

  /** `Validate`: the first missing field, if any. */
  function Validate(c: Config): Option<Problem> {
    if c.supabase.url == "" then Some(NoURL)
    else if c.supabase.serviceKey == "" then Some(NoServiceKey)
    else if c.backup.includeDatabase && c.supabase.databaseURL == "" then Some(NoDatabaseURL)
    else if c.destination.kind == "s3" && c.destination.s3.bucket == "" then Some(NoBucket)
    else if c.destination.kind == "s3" && (c.destination.s3.accessKeyID == "" || c.destination.s3.secretAccessKey == "") then
      Some(NoCredentials)
    else None
  }

  /** `ForType`: a requested kind only ever switches the other producer off. */
  function ForType(c: Config, kind: string): Config {
    if kind == "database" then c.(backup := c.backup.(includeStorage := false))
    else if kind == "storage" then c.(backup := c.backup.(includeDatabase := false))
    else c
  }

  /** A job is refused exactly when one of the fields it needs is empty; the first such field is the one named. */
  lemma RefusedByFields(c: Config)
    ensures Validate(c).Some? <==>
              c.supabase.url == "" || c.supabase.serviceKey == ""
              || (c.backup.includeDatabase && c.supabase.databaseURL == "")
              || (c.destination.kind == "s3"
                  && (c.destination.s3.bucket == "" || c.destination.s3.accessKeyID == "" || c.destination.s3.secretAccessKey == ""))
    ensures Validate(c) == Some(NoURL) <==> c.supabase.url == ""
    ensures Validate(c) == Some(NoServiceKey) <==> c.supabase.url != "" && c.supabase.serviceKey == ""
    ensures Validate(c) == Some(NoDatabaseURL) <==>
              c.supabase.url != "" && c.supabase.serviceKey != "" && c.backup.includeDatabase && c.supabase.databaseURL == ""
    ensures Validate(c) == Some(NoBucket) ==> c.destination.kind == "s3" && c.destination.s3.bucket == ""
    ensures Validate(c) == Some(NoCredentials) ==> c.destination.kind == "s3" && c.destination.s3.bucket != ""
  {
  }

  /** A requested kind decides the two include flags and nothing else. */
  lemma KindSetsFlags(c: Config, kind: string)
    ensures ForType(c, kind) ==
              c.(backup := c.backup.(includeDatabase := c.backup.includeDatabase && kind != "storage",
                                     includeStorage := c.backup.includeStorage && kind != "database"))
  {
    assert |"database"| == 8 && |"storage"| == 7;
  }

  /** `jobType`. */
  function JobType(c: Config): string {
    if c.backup.includeDatabase && c.backup.includeStorage then "full"
    else if c.backup.includeDatabase then "database"
    else "storage"
  }

  /** Asked for a full or a database job, the program files a job of that kind exactly when the settings include
      what the kind needs; asked for a storage job it always files one. */
  lemma KindIsKept(c: Config, kind: string)
    requires kind in {"full", "database", "storage"}
    ensures JobType(ForType(c, kind)) == kind <==>
              (kind == "full" ==> c.backup.includeDatabase && c.backup.includeStorage)
              && (kind == "database" ==> c.backup.includeDatabase)
    ensures EmptyJob(ForType(c, kind)) ==> JobType(ForType(c, kind)) == "storage"
  {
    var scoped := ForType(c, kind);
    assert kind == "database" ==> !scoped.backup.includeStorage;
    assert |"database"| == 8 && |"storage"| == 7 && |"full"| == 4;
  }

  /** A job backs up nothing at all exactly when the settings switch off every part its kind would run. */
  lemma EmptyJobs(c: Config, kind: string)
    requires kind in {"full", "database", "storage"}
    ensures EmptyJob(ForType(c, kind)) <==>
              (kind != "storage" ==> !c.backup.includeDatabase) && (kind != "database" ==> !c.backup.includeStorage)
  {
    assert |"database"| == 8 && |"storage"| == 7 && |"full"| == 4;
  }

  predicate EmptyJob(c: Config) {
    !c.backup.includeDatabase && !c.backup.includeStorage
  }

  // ---------- the jobs table ----------

  datatype Status = Running | Success | Failed
  datatype Job = Job(kind: string, destination: string, status: Status, bytes: nat)

  /** Rows by id; AUTOINCREMENT never gives an id out twice. */
  datatype Table = Table(rows: map<nat, Job>, next: nat)

  class JobStore {
    var rows: map<nat, Job>
    var next: nat

    constructor (t: Table)
      ensures State() == t
    {
      rows, next := t.rows, t.next;
    }

    function State(): Table
      reads this
    {
      Table(rows, next)
    }

    method CreateJob(kind: string, destination: string, fails: bool) returns (id: Result<nat>)
      modifies this
      ensures fails ==> id == Err && State() == old(State())
      ensures !fails ==> id == Ok(old(next))
                         && State() == Table(old(rows)[old(next) := Job(kind, destination, Running, 0)], old(next) + 1)
    {
      if fails {
        return Err;
      }
      id := Ok(next);
      rows := rows[next := Job(kind, destination, Running, 0)];
      next := next + 1;
    }

    method CompleteJob(id: nat, status: Status, bytes: nat, fails: bool)
      modifies this`rows
      ensures rows == if fails || id !in old(rows) then old(rows)
                      else old(rows)[id := old(rows)[id].(status := status, bytes := bytes)]
    {
      if !fails && id in rows {
        rows := rows[id := rows[id].(status := status, bytes := bytes)];
      }
    }
  }

  // ---------- one run ----------

  /** What one producer does: the top-level names its writes added (also when it fails half way), and its result. */
  datatype Produced = Produced(added: set<string>, result: Result<nat>)

  datatype Outcome = NotConfigured(problem: Problem) | NotRecorded | DatabaseFailed | StorageFailed | Succeeded

  /** Everything outside the program during one run. */
  datatype Circumstances = Circumstances(
    dump: Produced, objects: Produced, now: int, createFails: bool, completeFails: bool)

  function Judged(c: Config, w: Circumstances): Outcome {
    if Validate(c).Some? then NotConfigured(Validate(c).value)
    else if w.createFails then NotRecorded
    else if c.backup.includeDatabase && w.dump.result == Err then DatabaseFailed
    else if c.backup.includeStorage && w.objects.result == Err then StorageFailed
    else Succeeded
  }

  predicate Recorded(o: Outcome) {
    !o.NotConfigured? && !o.NotRecorded?
  }

  /** The bytes of the producers that succeeded, even when the other one failed. */
  function Bytes(c: Config, w: Circumstances): nat {
    var dump := if c.backup.includeDatabase && w.dump.result.Ok? then w.dump.result.value else 0;
    var runsStorage := c.backup.includeStorage && !(c.backup.includeDatabase && w.dump.result == Err);
    dump + if runsStorage && w.objects.result.Ok? then w.objects.result.value else 0
  }

  function Added(c: Config, w: Circumstances): set<string> {
    (if c.backup.includeDatabase then w.dump.added else {})
    + if c.backup.includeStorage && !(c.backup.includeDatabase && w.dump.result == Err) then w.objects.added else {}
  }

  /** The table after a run. */
  function Filed(t: Table, c: Config, destination: string, w: Circumstances): Table {
    var o := Judged(c, w);
    if !Recorded(o) then t
    else
      var row := if w.completeFails then Job(JobType(c), destination, Running, 0)
                 else Job(JobType(c), destination, if o.Succeeded? then Success else Failed, Bytes(c, w));
      Table(t.rows[t.next := row], t.next + 1)
  }

  function PolicyOf(c: Config): Retention.Policy {
    Retention.Policy(c.backup.retention.keepLast, c.backup.retention.keepDays)
  }

  /** The guard of the retention pass. */
  predicate HasRule(c: Config) {
    c.backup.retention.keepLast > 0 || c.backup.retention.keepDays > 0
  }

  ghost function Pruned(c: Config, dest: Retention.Dest, now: int): set<string> {
    if dest.listing.None? then {}
    else Retention.Doomed(PolicyOf(c), Retention.DatesIn(dest.listing.value), now) - dest.sticky
  }

  /** The names the included producers write. */
  function Wrote(c: Config, w: Circumstances): set<string> {
    (if c.backup.includeDatabase then w.dump.added else {}) + (if c.backup.includeStorage then w.objects.added else {})
  }

  lemma AddedByOutcome(c: Config, w: Circumstances)
    ensures Judged(c, w).Succeeded? || Judged(c, w).StorageFailed? ==> Added(c, w) == Wrote(c, w)
    ensures Judged(c, w).DatabaseFailed? ==> Added(c, w) == w.dump.added
  {
  }

  /** What a pass with everything listed and no failing delete leaves of `all`. */
  lemma PassLeaves(c: Config, all: set<string>, names: seq<string>, now: int)
    requires Elements(names) == all
    ensures var left := all - Retention.Doomed(PolicyOf(c), Retention.DatesIn(names), now);
            var p := Retention.Policy(c.backup.retention.keepLast, c.backup.retention.keepDays);
            && Retention.DatesOf(left) == Retention.Keep(p, Retention.DatesOf(all), now)
            && left - Retention.DatesOf(left) == all - Retention.DatesOf(all)
  {
  }

  /** The bytes of a producer that ran and succeeded. */
  function Counted(runs: bool, p: Produced): nat {
    if runs && p.result.Ok? then p.result.value else 0
  }

  /** The row a recorded job ends with, by its fields. */
  ghost predicate RowSays(row: Job, c: Config, destination: string, w: Circumstances, o: Outcome) {
    && row.destination == destination
    && (row.kind == "full" <==> c.backup.includeDatabase && c.backup.includeStorage)
    && (row.kind == "database" <==> c.backup.includeDatabase && !c.backup.includeStorage)
    && (row.kind == "storage" <==> !c.backup.includeDatabase)
    && (row.status == Running <==> w.completeFails)
    && (row.status == Success <==> !w.completeFails && o.Succeeded?)
    && (!w.completeFails && o.DatabaseFailed? ==> row.bytes == 0)
    && (!w.completeFails && !o.DatabaseFailed? ==>
          row.bytes == Counted(c.backup.includeDatabase, w.dump) + Counted(c.backup.includeStorage, w.objects))
  }

  lemma FiledRow(t: Table, c: Config, destination: string, w: Circumstances)
    requires Recorded(Judged(c, w))
    ensures t.next in Filed(t, c, destination, w).rows
    ensures RowSays(Filed(t, c, destination, w).rows[t.next], c, destination, w, Judged(c, w))
  {
    assert |"database"| == 8 && |"storage"| == 7 && |"full"| == 4;
  }

  /** The retention counts that a complete save sends are the policy of the next job. */
  lemma SavedPolicy(a: SettingsRuns.App, q: SettingsRuns.Save, last: int, days: int)
    requires SettingsRuns.IsComplete(q)
    requires Decimal.MIN_INT <= last <= Decimal.MAX_INT && Decimal.MIN_INT <= days <= Decimal.MAX_INT
    requires Given(q.incoming, RetentionKeepLast) && q.incoming[RetentionKeepLast] == Decimal.Itoa(last)
    requires Given(q.incoming, RetentionKeepDays) && q.incoming[RetentionKeepDays] == Decimal.Itoa(days)
    ensures PolicyOf(SettingsRuns.Saved(a, q).cfg) == Retention.Policy(last, days)
  {
    SettingsRuns.SavedCounts(a, q, last, days);
  }

  class Runner {
    const cfg: Config
    const store: JobStore
    const dest: Retention.Dest
    const destination: string

    constructor (cfg: Config, store: JobStore, dest: Retention.Dest, destination: string)
      ensures this.cfg == cfg && this.store == store && this.dest == dest && this.destination == destination
    {
      this.cfg, this.store, this.dest, this.destination := cfg, store, dest, destination;
    }

    /** One producer at work. */
    method Produce(p: Produced) returns (r: Result<nat>)
      modifies dest`entries
      ensures dest.entries == old(dest.entries) + p.added && r == p.result
    {
      dest.entries := dest.entries + p.added;
      r := p.result;
    }

    /** The two producers in order; the second starts only if the first did not fail. */
    method Produces(w: Circumstances) returns (o: Outcome, total: nat)
      modifies dest`entries
      ensures o == if cfg.backup.includeDatabase && w.dump.result == Err then DatabaseFailed
                   else if cfg.backup.includeStorage && w.objects.result == Err then StorageFailed
                   else Succeeded
      ensures total == Bytes(cfg, w)
      ensures dest.entries == old(dest.entries) + Added(cfg, w)
    {
      total := 0;
      o := Succeeded;
      if cfg.backup.includeDatabase {
        var n := Produce(w.dump);
        if n == Err {
          o := DatabaseFailed;
        } else {
          total := total + n.value;
        }
      }
      if o == Succeeded && cfg.backup.includeStorage {
        var n := Produce(w.objects);
        if n == Err {
          o := StorageFailed;
        } else {
          total := total + n.value;
        }
      }
    }

    /** `Run`: the row ends as the job did unless completing it fails; retention runs only after a success and
        only under a positive rule, so a failed job never deletes anything. */
    method Run(w: Circumstances) returns (o: Outcome)
      requires dest.listing.Some? ==> Distinct(dest.listing.value)
      modifies store, dest`entries
      ensures o == Judged(cfg, w)
      ensures store.State() == Filed(old(store.State()), cfg, destination, w)
      ensures !Recorded(o) ==> dest.entries == old(dest.entries)
      ensures Recorded(o) ==>
                dest.entries == old(dest.entries) + Added(cfg, w)
                                - (if o.Succeeded? && HasRule(cfg) then Pruned(cfg, dest, w.now) else {})
      ensures Recorded(o) ==> old(store.next) in store.rows && RowSays(store.rows[old(store.next)], cfg, destination, w, o)
      ensures o.DatabaseFailed? ==> dest.entries == old(dest.entries) + w.dump.added
      ensures o.StorageFailed? ==> dest.entries == old(dest.entries) + Wrote(cfg, w)
      ensures o.Succeeded? && cfg.backup.retention.keepLast <= 0 && cfg.backup.retention.keepDays <= 0 ==>
                dest.entries == old(dest.entries) + Wrote(cfg, w)
      ensures o.Succeeded? && (cfg.backup.retention.keepLast > 0 || cfg.backup.retention.keepDays > 0)
              && dest.listing.Some? && Elements(dest.listing.value) == old(dest.entries) + Wrote(cfg, w) && dest.sticky == {} ==>
                var all := old(dest.entries) + Wrote(cfg, w);
                var p := Retention.Policy(cfg.backup.retention.keepLast, cfg.backup.retention.keepDays);
                && Retention.DatesOf(dest.entries) == Retention.Keep(p, Retention.DatesOf(all), w.now)
                && dest.entries - Retention.DatesOf(dest.entries) == all - Retention.DatesOf(all)
    {
      AddedByOutcome(cfg, w);
      if Recorded(Judged(cfg, w)) {
        FiledRow(store.State(), cfg, destination, w);
      }
      if dest.listing.Some? {
        PassLeaves(cfg, Elements(dest.listing.value), dest.listing.value, w.now);
      }
      var problem := Validate(cfg);
      if problem.Some? {
        return NotConfigured(problem.value);
      }
      var id := store.CreateJob(JobType(cfg), destination, w.createFails);
      if id == Err {
        return NotRecorded;
      }
      var total;
      o, total := Produces(w);
      store.CompleteJob(id.value, if o == Succeeded then Success else Failed, total, w.completeFails);
      if o == Succeeded && HasRule(cfg) {
        var _ := Retention.Apply(dest, PolicyOf(cfg), w.now);
      }
    }

    /** A configured, recorded job that backs up nothing: whatever its producers would have met, it is filed as a
        successful storage job of no bytes, adds nothing, and under a positive rule still deletes old dates. */
    method RunNothing(w: Circumstances) returns (o: Outcome)
      requires EmptyJob(cfg) && Validate(cfg).None? && !w.createFails
      requires dest.listing.Some? ==> Distinct(dest.listing.value)
      modifies store, dest`entries
      ensures o == Succeeded
      ensures !w.completeFails ==> store.rows == old(store.rows)[old(store.next) := Job("storage", destination, Success, 0)]
      ensures cfg.backup.retention.keepLast <= 0 && cfg.backup.retention.keepDays <= 0 ==> dest.entries == old(dest.entries)
      ensures cfg.backup.retention.keepLast > 0 || cfg.backup.retention.keepDays > 0 ==>
                dest.entries == old(dest.entries) - Pruned(cfg, dest, w.now)
    {
      o := Run(w);
    }

    /** A whole job under its own retention: started at `taken`, pruned at `w.now`, with everything listed and no
        delete failing, its directory is there afterwards exactly when no pass ran, the prefix is no date the pass
        knows (a year beyond 9999), fewer than KeepLast listed dates are newer, or midnight before the start is inside
        the window. */
    method RunAndKeep(w: Circumstances, taken: nat) returns (o: Outcome)
      requires Validate(cfg).None? && !w.createFails
      requires Prefix(taken) in Added(cfg, w) && taken <= w.now
      requires dest.listing.Some? && Distinct(dest.listing.value) && Elements(dest.listing.value) == dest.entries + Added(cfg, w)
      requires dest.sticky == {}
      modifies store, dest`entries
      ensures var ret := cfg.backup.retention;
              Prefix(taken) in dest.entries <==>
                !o.Succeeded? || (ret.keepLast <= 0 && ret.keepDays <= 0) || !IsDate(Prefix(taken))
                || |Retention.Newer(Retention.DatesIn(dest.listing.value), Prefix(taken))| < ret.keepLast
                || (ret.keepDays > 0 && w.now - taken / DAY * DAY <= ret.keepDays * DAY)
    {
      o := Run(w);
      var dates := Retention.DatesIn(dest.listing.value);
      if IsDate(Prefix(taken)) {
        Retention.FreshBackupSurvives(PolicyOf(cfg), dates, taken, w.now);
      }
    }
  }

  // ---------- the table over many runs ----------

  datatype Started = Started(cfg: Config, destination: string, around: Circumstances)

  function After(t: Table, jobs: seq<Started>): Table {
    if jobs == [] then t
    else
      var j := jobs[|jobs|-1];
      Filed(After(t, jobs[..|jobs|-1]), j.cfg, j.destination, j.around)
  }

  ghost predicate Inv(t: Table) {
    forall id :: id in t.rows ==> id < t.next
  }

  /** A row is never touched by a later job: what one run filed stays, and a row whose completion failed reads
      "running" for ever. */
  lemma {:induction false} RowsStand(t: Table, jobs: seq<Started>)
    requires Inv(t)
    ensures Inv(After(t, jobs)) && t.next <= After(t, jobs).next
    ensures forall id :: id in t.rows ==> id in After(t, jobs).rows && After(t, jobs).rows[id] == t.rows[id]
  {
    if jobs != [] {
      RowsStand(t, jobs[..|jobs|-1]);
    }
  }

  lemma {:induction false} Splice(t: Table, jobs: seq<Started>, i: nat)
    requires i <= |jobs|
    ensures After(t, jobs) == After(After(t, jobs[..i]), jobs[i..])
  {
    if i == |jobs| {
      assert jobs[..i] == jobs;
    } else {
      var init := jobs[..|jobs|-1];
      Splice(t, init, i);
      assert init[..i] == jobs[..i] && jobs[i..][..|jobs[i..]|-1] == init[i..];
    }
  }

  /** The i-th job's row, however many jobs follow: present under its own id exactly when the job got as far as its
      record, and then "success" exactly when the job succeeded and could be completed. */
  lemma RowTellsOutcome(t: Table, jobs: seq<Started>, i: nat)
    requires Inv(t) && i < |jobs|
    ensures var id, j := After(t, jobs[..i]).next, jobs[i];
            var o := Judged(j.cfg, j.around);
            && After(t, jobs[..i+1]).next == id + (if Recorded(o) then 1 else 0)
            && (Recorded(o) ==>
                  && id in After(t, jobs).rows
                  && (After(t, jobs).rows[id].status == Success <==> o.Succeeded? && !j.around.completeFails)
                  && (After(t, jobs).rows[id].status == Running <==> j.around.completeFails))
  {
    var first := jobs[..i+1];
    assert first[..|first|-1] == jobs[..i];
    RowsStand(t, first);
    RowsStand(After(t, first), jobs[i+1..]);
    Splice(t, jobs, i + 1);
  }

  // ---------- jobs that overlap ----------

  /** A job creates its row and, once, completes it; between the two any number of other jobs may do the same. */
  datatype Event = Begin(job: nat) | Finish(job: nat)

  /** The table, the row ids of the jobs that have one, and the jobs that have begun and finished. */
  datatype Jobs = Jobs(table: Table, ids: map<nat, nat>, begun: set<nat>, finished: set<nat>)

  predicate Enabled(s: Jobs, e: Event) {
    match e
    case Begin(j) => j !in s.begun
    case Finish(j) => j in s.ids && j !in s.finished
  }

  predicate GetsRow(j: Started) {
    Recorded(Judged(j.cfg, j.around))
  }

  /** The row of a job that is still running. */
  function Opening(j: Started): Job {
    Job(JobType(j.cfg), j.destination, Running, 0)
  }

  /** The row of a job that has finished. */
  function Closing(j: Started): Job {
    if j.around.completeFails then Opening(j)
    else
      Opening(j).(status := if Judged(j.cfg, j.around).Succeeded? then Success else Failed, bytes := Bytes(j.cfg, j.around))
  }

  /** `CreateJob` and `CompleteJob`, as the jobs issue them. */
  function Next(s: Jobs, e: Event, job: nat -> Started): Jobs {
    match e
    case Begin(j) =>
      var started := s.(begun := s.begun + {j});
      if !GetsRow(job(j)) then started
      else
        started.(table := Table(s.table.rows[s.table.next := Opening(job(j))], s.table.next + 1), ids := s.ids[j := s.table.next])
    case Finish(j) =>
      if j !in s.ids then s
      else
        s.(table := s.table.(rows := s.table.rows[s.ids[j] := Closing(job(j))]), finished := s.finished + {j})
  }

  ghost predicate HasRow(before: Table, s: Jobs, j: nat, started: Started)
    requires j in s.ids
  {
    && before.next <= s.ids[j] && s.ids[j] in s.table.rows
    && s.table.rows[s.ids[j]] == if j in s.finished then Closing(started) else Opening(started)
  }

  /** Every recorded job owns one row, which says what the job has come to; all other rows are those there were. */
  ghost predicate Owned(before: Table, s: Jobs, job: nat -> Started) {
    && Inv(s.table) && before.next <= s.table.next
    && s.ids.Keys <= s.begun && s.finished <= s.ids.Keys
    && (forall j :: j in s.begun ==> (j in s.ids <==> GetsRow(job(j))))
    && (forall j :: j in s.ids ==> HasRow(before, s, j, job(j)))
    && (forall i, j :: i in s.ids && j in s.ids && s.ids[i] == s.ids[j] ==> i == j)
    && (forall id :: id in before.rows ==> id in s.table.rows && s.table.rows[id] == before.rows[id])
  }

  lemma BeginKeepsOwned(before: Table, s: Jobs, j: nat, job: nat -> Started)
    requires Inv(before) && Owned(before, s, job) && Enabled(s, Begin(j))
    ensures Owned(before, Next(s, Begin(j), job), job)
  {
    var t := Next(s, Begin(j), job);
    forall i | i in t.ids ensures HasRow(before, t, i, job(i)) {
      if i != j { assert HasRow(before, s, i, job(i)); }
    }
  }

  lemma FinishKeepsOwned(before: Table, s: Jobs, j: nat, job: nat -> Started)
    requires Inv(before) && Owned(before, s, job) && Enabled(s, Finish(j))
    ensures Owned(before, Next(s, Finish(j), job), job)
  {
    var t := Next(s, Finish(j), job);
    forall i | i in t.ids ensures HasRow(before, t, i, job(i)) {
      assert HasRow(before, s, i, job(i));
    }
  }

  /** The jobs after some events, each enabled when it happens; None otherwise. */
  function Overlapped(t: Table, events: seq<Event>, job: nat -> Started): Option<Jobs> {
    if events == [] then Some(Jobs(t, map[], {}, {}))
    else
      var before := Overlapped(t, events[..|events|-1], job);
      var e := events[|events|-1];
      if before.None? || !Enabled(before.value, e) then None else Some(Next(before.value, e, job))
  }

  /** In every interleaving of jobs that overlap, each recorded job has a row of its own, no job touches another's
      row or an older one, and a row reads "success" exactly when its job has finished, succeeded and could be
      completed; a job whose completion failed reads "running" for good. */
  lemma {:induction false} OverlappingJobs(t: Table, events: seq<Event>, job: nat -> Started)
    requires Inv(t) && Overlapped(t, events, job).Some?
    ensures var s := Overlapped(t, events, job).value;
            && Owned(t, s, job)
            && (forall j :: j in s.ids ==>
                  var status, a := s.table.rows[s.ids[j]].status, job(j).around;
                  && (status == Success <==> j in s.finished && !a.completeFails && Judged(job(j).cfg, a).Succeeded?)
                  && (status == Running <==> j !in s.finished || a.completeFails))
  {
    if events != [] {
      var e := events[|events|-1];
      var s := Overlapped(t, events[..|events|-1], job).value;
      OverlappingJobs(t, events[..|events|-1], job);
      match e
      case Begin(j) => BeginKeepsOwned(t, s, j, job);
      case Finish(j) => FinishKeepsOwned(t, s, j, job);
    }
  }

  /** A job that runs alone files what its two steps file. */
  lemma AloneIsOverlapped(t: Table, job: nat -> Started)
    requires Inv(t)
    ensures var s := Overlapped(t, if GetsRow(job(0)) then [Begin(0), Finish(0)] else [Begin(0)], job);
            s.Some? && s.value.table == Filed(t, job(0).cfg, job(0).destination, job(0).around)
  {
    var one, two := [Begin(0)], [Begin(0), Finish(0)];
    assert one[..|one|-1] == [] && two[..|two|-1] == one;
    assert Overlapped(t, [], job) == Some(Jobs(t, map[], {}, {}));
    var begun := Next(Jobs(t, map[], {}, {}), Begin(0), job);
    assert Overlapped(t, one, job) == Some(begun);
    if GetsRow(job(0)) {
      assert Overlapped(t, two, job) == Some(Next(begun, Finish(0), job));
      assert Next(begun, Finish(0), job).table.rows == t.rows[t.next := Closing(job(0))];
    }
  }
}
