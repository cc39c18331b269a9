/** Retention over whole histories: jobs that add dates, passes that list (perhaps only a part), read the
    clock and then delete one date at a time, all interleaved, with deletes failing at will and a clock
    that never goes back. */
module RetentionHistory {
  import opened Text
  import opened Calendar
  import opened Retention

  /** A pass has listed some dates, or has also read the clock and is working through its deletes. */
  datatype Pass = Listed(dates: set<string>) | Deleting(dates: set<string>, now: int, todo: set<string>)

  /** `written` is every date ever written, `present` the date directories now at the destination. */
  datatype State = State(written: set<string>, present: set<string>, clock: int, passes: map<nat, Pass>)

  datatype Event =
    | Tick(now: int)
    | Write(date: string)
    | List(id: nat, dates: set<string>)
    | ReadClock(id: nat)
    | TryDelete(id: nat, date: string, gone: bool)

  ghost predicate Enabled(s: State, e: Event) {
    match e
    case Tick(now) => s.clock <= now
    case Write(date) => IsDate(date)
    case List(id, dates) => id !in s.passes && dates <= s.present
    case ReadClock(id) => id in s.passes && s.passes[id].Listed?
    case TryDelete(id, date, _) => id in s.passes && s.passes[id].Deleting? && date in s.passes[id].todo
  }

  ghost function Next(p: Policy, s: State, e: Event): State
    requires AllDates(s.written) && s.present <= s.written && PassesListWritten(s)
    requires Enabled(s, e)
  {
    match e
    case Tick(now) => s.(clock := now)
    case Write(date) => s.(written := s.written + {date}, present := s.present + {date})
    case List(id, dates) => s.(passes := s.passes[id := Listed(dates)])
    case ReadClock(id) =>
      var dates := s.passes[id].dates;
      s.(passes := s.passes[id := Deleting(dates, s.clock, Doomed(p, dates, s.clock))])
    case TryDelete(id, date, gone) =>
      var pass := s.passes[id];
      s.(present := if gone then s.present - {date} else s.present,
         passes := s.passes[id := pass.(todo := pass.todo - {date})])
  }

  ghost predicate PassesListWritten(s: State) {
    forall id :: id in s.passes ==> s.passes[id].dates <= s.written
  }

  /** Everything still to be deleted by a running pass was outside the policy when the pass read the clock. */
  ghost predicate PassSound(p: Policy, s: State, pass: Pass)
    requires AllDates(s.written)
  {
    && pass.dates <= s.written
    && (pass.Deleting? ==> pass.now <= s.clock && pass.todo <= Doomed(p, pass.dates, pass.now))
  }

  ghost predicate Inv(p: Policy, s: State) {
    && AllDates(s.written) && s.present <= s.written
    && Keep(p, s.written, s.clock) <= s.present
    && (forall id :: id in s.passes ==> PassSound(p, s, s.passes[id]))
  }

  /** The heart of every argument: a date the policy keeps among all dates at a later instant is kept
      among any of them at an earlier one. */
  lemma KeptInPart(p: Policy, part: set<string>, whole: set<string>, now: int, later: int, d: string)
    requires AllDates(whole) && part <= whole && now <= later && d in part
    requires d in Keep(p, whole, later)
    ensures d in Keep(p, part, now)
  {
    SubsetIsSmaller(Newer(part, d), Newer(whole, d));
  }

  lemma NextKeepsInv(p: Policy, s: State, e: Event)
    requires Inv(p, s) && Enabled(s, e)
    ensures Inv(p, Next(p, s, e))
  {
    var s' := Next(p, s, e);
    forall d | d in Keep(p, s'.written, s'.clock) ensures d in s'.present {
      if d in s.written {
        KeptInPart(p, s.written, s'.written, s.clock, s'.clock, d);
      }
      if e.TryDelete? && d == e.date {
        var pass := s.passes[e.id];
        KeptInPart(p, pass.dates, s.written, pass.now, s.clock, d);
      }
    }
    forall id | id in s'.passes ensures PassSound(p, s', s'.passes[id]) {
      if id in s.passes { assert PassSound(p, s, s.passes[id]); }
    }
  }

  // ---------- runs ----------

  ghost predicate Start(s: State) {
    AllDates(s.written) && s.present == s.written && s.passes == map[]
  }

  /** The state after the events, each of which must be enabled when it happens; None otherwise. */
  ghost function After(p: Policy, start: State, events: seq<Event>): (r: Option<State>)
    requires Start(start)
    ensures r.Some? ==> Inv(p, r.value)
  {
    if events == [] then Some(start)
    else
      var before := After(p, start, events[..|events|-1]);
      var e := events[|events|-1];
      if before.None? || !Enabled(before.value, e) then None
      else
        NextKeepsInv(p, before.value, e);
        Some(Next(p, before.value, e))
  }

  /** What each event does to the destination, the record of dates written and the clock. */
  lemma EventEffects(p: Policy, s: State, e: Event)
    requires Inv(p, s) && Enabled(s, e)
    ensures var t := Next(p, s, e);
            && t.written == (if e.Write? then s.written + {e.date} else s.written)
            && t.present == (if e.Write? then s.present + {e.date}
                             else if e.TryDelete? && e.gone then s.present - {e.date} else s.present)
            && t.clock == (if e.Tick? then e.now else s.clock)
            && (forall id :: id in s.passes && (e.Tick? || e.Write? || e.id != id) ==> id in t.passes && t.passes[id] == s.passes[id])
  {
  }

  /** The dates a pass has tried to delete. */
  ghost function Tried(events: seq<Event>, id: nat): set<string> {
    if events == [] then {}
    else
      var e := events[|events|-1];
      Tried(events[..|events|-1], id) + if e.TryDelete? && e.id == id then {e.date} else {}
  }

  lemma {:induction false} UnknownHasNotTried(p: Policy, start: State, events: seq<Event>, id: nat)
    requires Start(start) && After(p, start, events).Some?
    requires id in After(p, start, events).value.passes ==> After(p, start, events).value.passes[id].Listed?
    ensures Tried(events, id) == {}
  {
    if events != [] {
      UnknownHasNotTried(p, start, events[..|events|-1], id);
    }
  }

  /** What a pass still has to do, in every interleaving: every date it listed and the policy did not keep, among the
      dates listed and at the clock it read, but for those it has tried. */
  lemma {:induction false} TodoUntilTried(p: Policy, start: State, events: seq<Event>, id: nat)
    requires Start(start) && After(p, start, events).Some?
    requires id in After(p, start, events).value.passes && After(p, start, events).value.passes[id].Deleting?
    ensures var pass := After(p, start, events).value.passes[id];
            AllDates(pass.dates) && pass.todo == pass.dates - Keep(p, pass.dates, pass.now) - Tried(events, id)
  {
    var init, e := events[..|events|-1], events[|events|-1];
    var before := After(p, start, init).value;
    assert PassSound(p, After(p, start, events).value, After(p, start, events).value.passes[id]);
    if e.ReadClock? && e.id == id {
      UnknownHasNotTried(p, start, init, id);
    } else {
      TodoUntilTried(p, start, init, id);
    }
  }

  // ---------- one pass without interruption ----------

  /** One attempt for each date in the order given; those that stick are not removed. */
  function Attempts(id: nat, order: seq<string>, sticky: set<string>): seq<Event> {
    seq(|order|, i requires 0 <= i < |order| => TryDelete(id, order[i], order[i] !in sticky))
  }

  /** The events of one pass: list, read the clock, try. */
  function PassEvents(id: nat, dates: set<string>, order: seq<string>, sticky: set<string>): seq<Event> {
    [List(id, dates), ReadClock(id)] + Attempts(id, order, sticky)
  }

  lemma OneMoreEvent(p: Policy, start: State, events: seq<Event>, e: Event)
    requires Start(start) && After(p, start, events).Some? && Enabled(After(p, start, events).value, e)
    ensures After(p, start, events + [e]) == Some(Next(p, After(p, start, events).value, e))
  {
    assert (events + [e])[..|events|] == events;
  }

  /** A pass that was at its beginning in `s` has tried the dates `tried` and nothing else has happened. */
  ghost predicate Midway(s: State, r: State, id: nat, tried: set<string>, sticky: set<string>)
    requires id in s.passes && s.passes[id].Deleting?
  {
    && r.written == s.written && r.clock == s.clock && r.present == s.present - (tried - sticky)
    && r.passes.Keys == s.passes.Keys && r.passes[id].Deleting? && r.passes[id].todo == s.passes[id].todo - tried
  }

  lemma {:induction false} OneAttempt(p: Policy, s: State, r: State, id: nat, tried: set<string>, sticky: set<string>, date: string)
    requires id in s.passes && s.passes[id].Deleting? && Midway(s, r, id, tried, sticky) && Inv(p, r)
    requires date in s.passes[id].todo && date !in tried
    ensures Enabled(r, TryDelete(id, date, date !in sticky))
    ensures Midway(s, Next(p, r, TryDelete(id, date, date !in sticky)), id, tried + {date}, sticky)
  {
  }

  lemma {:induction false} AttemptsGrow(events: seq<Event>, id: nat, order: seq<string>, sticky: set<string>, n: nat)
    requires 0 < n <= |order|
    ensures events + Attempts(id, order, sticky)[..n] ==
              events + Attempts(id, order, sticky)[..n-1] + [TryDelete(id, order[n-1], order[n-1] !in sticky)]
  {
    var tries := Attempts(id, order, sticky);
    assert tries[..n] == tries[..n-1] + [tries[n-1]];
  }

  /** The events have happened, and the pass that was at its beginning in `s` has tried the dates `tried`. */
  ghost predicate HasTried(p: Policy, start: State, events: seq<Event>, s: State, id: nat, tried: set<string>, sticky: set<string>)
    requires Start(start) && id in s.passes && s.passes[id].Deleting?
  {
    After(p, start, events).Some? && Midway(s, After(p, start, events).value, id, tried, sticky)
  }

  lemma {:induction false} AttemptRuns(
      p: Policy, start: State, events: seq<Event>, s: State, id: nat, tried: set<string>, sticky: set<string>, date: string)
    requires Start(start) && id in s.passes && s.passes[id].Deleting? && date in s.passes[id].todo && date !in tried
    requires HasTried(p, start, events, s, id, tried, sticky)
    ensures HasTried(p, start, events + [TryDelete(id, date, date !in sticky)], s, id, tried + {date}, sticky)
  {
    OneAttempt(p, s, After(p, start, events).value, id, tried, sticky, date);
    OneMoreEvent(p, start, events, TryDelete(id, date, date !in sticky));
  }

  /** The first `n` attempts of a pass that has read the clock. */
  lemma {:induction false} AttemptsRun(
      p: Policy, start: State, events: seq<Event>, s: State, id: nat, order: seq<string>, sticky: set<string>, n: nat)
    requires Start(start) && id in s.passes && s.passes[id].Deleting?
    requires HasTried(p, start, events, s, id, {}, sticky) && Distinct(order) && n <= |order|
    requires Elements(order) == s.passes[id].todo
    ensures HasTried(p, start, events + Attempts(id, order, sticky)[..n], s, id, Elements(order[..n]), sticky)
  {
    if n == 0 {
      assert events + Attempts(id, order, sticky)[..0] == events;
      assert Elements(order[..0]) == {};
    } else {
      AttemptsRun(p, start, events, s, id, order, sticky, n - 1);
      TakeOneMore(order, n - 1);
      AttemptsGrow(events, id, order, sticky, n);
      AttemptRuns(p, start, events + Attempts(id, order, sticky)[..n-1], s, id, Elements(order[..n-1]), sticky, order[n-1]);
    }
  }

  /** A pass lists some dates and reads the clock: it then has to try every listed date the policy does not keep. */
  lemma PassBegins(p: Policy, start: State, events: seq<Event>, id: nat, dates: set<string>)
    requires Start(start) && After(p, start, events).Some?
    requires var s := After(p, start, events).value; id !in s.passes && dates <= s.present && AllDates(dates)
    ensures var s, r := After(p, start, events).value, After(p, start, events + [List(id, dates)] + [ReadClock(id)]);
            && r.Some? && r.value.written == s.written && r.value.clock == s.clock && r.value.present == s.present
            && id in r.value.passes && r.value.passes[id] == Deleting(dates, s.clock, dates - Keep(p, dates, s.clock))
  {
    OneMoreEvent(p, start, events, List(id, dates));
    OneMoreEvent(p, start, events + [List(id, dates)], ReadClock(id));
  }

  lemma PassInParts(events: seq<Event>, id: nat, dates: set<string>, order: seq<string>, sticky: set<string>)
    ensures events + [List(id, dates)] + [ReadClock(id)] + Attempts(id, order, sticky)[..|order|] ==
            events + PassEvents(id, dates, order, sticky)
    ensures order[..|order|] == order
  {
    var tries := Attempts(id, order, sticky);
    assert tries[..|order|] == tries;
  }

  /** From any state that any history has led to, one pass can run without interruption: it lists some of the dates
      present, reads the clock and tries, in any order, every listed date the policy does not keep. It removes exactly
      those of them that do not stick. */
  lemma PassRuns(p: Policy, start: State, events: seq<Event>, id: nat, dates: set<string>, order: seq<string>, sticky: set<string>)
    requires Start(start) && After(p, start, events).Some?
    requires var s := After(p, start, events).value;
             && id !in s.passes && dates <= s.present && AllDates(dates)
             && Distinct(order) && Elements(order) == dates - Keep(p, dates, s.clock)
    ensures var s, r := After(p, start, events).value, After(p, start, events + PassEvents(id, dates, order, sticky));
            && r.Some? && r.value.written == s.written && r.value.clock == s.clock
            && r.value.present == s.present - (dates - Keep(p, dates, s.clock) - sticky)
            && id in r.value.passes && r.value.passes[id].Deleting? && r.value.passes[id].todo == {}
  {
    PassBegins(p, start, events, id, dates);
    var begun := events + [List(id, dates)] + [ReadClock(id)];
    AttemptsRun(p, start, begun, After(p, start, begun).value, id, order, sticky, |order|);
    PassInParts(events, id, dates, order, sticky);
  }

  /** The program's pass does to a destination exactly what those events do to the history's dates, for the same
      listing, clock and names that stick. */
  method ApplyIsPass(dest: Dest, p: Policy, ghost start: State, ghost events: seq<Event>, ghost id: nat, ghost order: seq<string>,
                     now: int)
    returns (ok: bool)
    requires Start(start) && After(p, start, events).Some?
    requires dest.listing.Some? && Distinct(dest.listing.value) && (p.keepLast > 0 || p.keepDays > 0)
    requires var s := After(p, start, events).value;
             && now == s.clock && id !in s.passes && DatesOf(dest.entries) == s.present
             && DatesIn(dest.listing.value) <= s.present && Distinct(order)
             && Elements(order) == DatesIn(dest.listing.value) - Keep(p, DatesIn(dest.listing.value), now)
    modifies dest`entries
    ensures var r := After(p, start, events + PassEvents(id, DatesIn(dest.listing.value), order, dest.sticky));
            ok && r.Some? && DatesOf(dest.entries) == r.value.present
  {
    PassRuns(p, start, events, id, DatesIn(dest.listing.value), order, dest.sticky);
    ok := Apply(dest, p, now);
  }

  // ---------- safety and collapse ----------

  /** However passes, writes and failures interleave, no delete attempt is ever aimed at one of the KeepLast
      newest dates written so far, nor at a date inside the window when its pass read the clock. */
  lemma DeletesAreSafe(p: Policy, start: State, events: seq<Event>, id: nat, date: string)
    requires Start(start) && After(p, start, events).Some?
    requires Enabled(After(p, start, events).value, TryDelete(id, date, true))
    ensures var s := After(p, start, events).value;
            && IsDate(date)
            && |Newer(s.written, date)| >= p.keepLast
            && !Recent(p, s.passes[id].now, date)
            && date !in Keep(p, s.written, s.clock)
  {
    var s := After(p, start, events).value;
    var pass := s.passes[id];
    assert PassSound(p, s, pass);
    SubsetIsSmaller(Newer(pass.dates, date), Newer(s.written, date));
    if date in Keep(p, s.written, s.clock) {
      KeptInPart(p, pass.dates, s.written, pass.now, s.clock, date);
    }
  }

  /** Dates already lost do not change what the policy keeps. */
  lemma KeepForgetsTheLost(p: Policy, present: set<string>, written: set<string>, now: int)
    requires AllDates(written) && Keep(p, written, now) <= present <= written
    ensures Keep(p, present, now) == Keep(p, written, now)
  {
    forall d | d in Keep(p, written, now) ensures d in Keep(p, present, now) {
      KeptInPart(p, present, written, now, now, d);
    }
    forall d | d in Keep(p, present, now) ensures d in Keep(p, written, now) {
      if |Newer(present, d)| < p.keepLast {
        var all := Listing(written);
        var i :| 0 <= i < |all| && all[i] == d;
        RankIsPosition(all, i);
        if p.keepLast <= i {
          OldRankSeesNewest(p, all, present, i, now);
        }
      }
    }
  }

  /** A date ranked KeepLast or worse among all dates has the KeepLast newest ones above it in any part
      that holds them. */
  lemma OldRankSeesNewest(p: Policy, all: seq<string>, present: set<string>, i: nat, now: int)
    requires NewestFirst(all) && AllDates(Elements(all)) && Keep(p, Elements(all), now) <= present
    requires 0 < p.keepLast <= i < |all|
    ensures |Newer(present, all[i])| >= p.keepLast
  {
    var first := Elements(all[..p.keepLast]);
    FirstCount(all, p.keepLast);
    forall d | d in first ensures d in Newer(present, all[i]) {
      var j :| 0 <= j < p.keepLast && all[..p.keepLast][j] == d;
      RankIsPosition(all, j);
      assert d in Keep(p, Elements(all), now);
    }
    SubsetIsSmaller(first, Newer(present, all[i]));
  }

  /** Retention collapses: after any history, with any pattern of failed or partial earlier passes, one
      complete pass leaves exactly what the policy, applied once and now, keeps of all dates ever written. */
  lemma HistoryCollapses(p: Policy, start: State, events: seq<Event>, now: int)
    requires Start(start) && After(p, start, events).Some?
    requires now >= After(p, start, events).value.clock
    ensures var s := After(p, start, events).value;
            s.present - Doomed(p, s.present, now) == Keep(p, s.written, now)
  {
    var s := After(p, start, events).value;
    NextKeepsInv(p, s, Tick(now));
    KeepForgetsTheLost(p, s.present, s.written, now);
  }

  /** The collapse, for the program's own pass over a destination that any history left behind. */
  method CompletePass(dest: Dest, p: Policy, now: int, ghost start: State, ghost events: seq<Event>) returns (ok: bool)
    requires Start(start) && After(p, start, events).Some?
    requires DatesOf(dest.entries) == After(p, start, events).value.present
    requires now >= After(p, start, events).value.clock
    requires dest.listing.Some? && Distinct(dest.listing.value) && Elements(dest.listing.value) == dest.entries
    requires dest.sticky == {}
    requires p.keepLast > 0 || p.keepDays > 0
    modifies dest`entries
    ensures ok && DatesOf(dest.entries) == Keep(p, After(p, start, events).value.written, now)
    ensures dest.entries - DatesOf(dest.entries) == old(dest.entries - DatesOf(dest.entries))
  {
    ok := Apply(dest, p, now);
    HistoryCollapses(p, start, events, now);
    assert DatesIn(dest.listing.value) == old(DatesOf(dest.entries));
  }
}
