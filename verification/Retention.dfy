/** The retention policy: which date directories one pass keeps, and the pass itself. */
module Retention {
  import opened Text
  import opened Calendar

  datatype Policy = Policy(keepLast: int, keepDays: int)

  function Min(a: int, b: int): int {
    if a < b then a else b
  }

  function Max(a: int, b: int): int {
    if a > b then a else b
  }

  // ---------- what the policy means ----------

  ghost predicate AllDates(s: set<string>) {
    forall d :: d in s ==> IsDate(d)
  }

  /** The members of `s` that are newer than `d`. */
  ghost function Newer(s: set<string>, d: string): set<string> {
    set e | e in s && Less(d, e)
  }

  /** Rule 2: midnight of the date is not before `now` minus K days. */
  predicate Recent(p: Policy, now: int, d: string)
    requires IsDate(d)
  {
    p.keepDays > 0 && DayOf(d) * DAY >= now - p.keepDays * DAY
  }

  ghost function Window(p: Policy, s: set<string>, now: int): set<string>
    requires AllDates(s)
  {
    set d | d in s && Recent(p, now, d)
  }

  /** A date is kept when fewer than KeepLast members are newer, or when rule 2 holds. */
  ghost predicate Kept(p: Policy, s: set<string>, now: int, d: string)
    requires IsDate(d)
  {
    |Newer(s, d)| < p.keepLast || Recent(p, now, d)
  }

  ghost function Keep(p: Policy, s: set<string>, now: int): set<string>
    requires AllDates(s)
  {
    set d | d in s && Kept(p, s, now, d)
  }

  // ---------- newest first ----------

  predicate Descending(s: seq<string>) {
    forall i, j :: 0 <= i < j < |s| ==> !Less(s[i], s[j])
  }

  function Insert(x: string, s: seq<string>): seq<string> {
    if s == [] || !Less(x, s[0]) then [x] + s else [s[0]] + Insert(x, s[1..])
  }

  /** `sort.Sort(sort.Reverse(sort.StringSlice(s)))`. */
  function SortDesc(s: seq<string>): seq<string> {
    if s == [] then [] else Insert(s[0], SortDesc(s[1..]))
  }

  lemma {:induction false} InsertKeeps(x: string, s: seq<string>)
    requires Descending(s)
    ensures Descending(Insert(x, s))
    ensures multiset(Insert(x, s)) == multiset([x]) + multiset(s)
  {
    if s == [] {
    } else if !Less(x, s[0]) {
      forall j | 0 <= j < |s| ensures !Less(x, s[j]) {
        if Less(x, s[j]) {
          LessTotal(s[0], s[j]);
          LessTotal(x, s[0]);
          if s[0] != s[j] && s[0] != x { LessTransitive(x, s[j], s[0]); }
        }
      }
    } else {
      InsertKeeps(x, s[1..]);
      var rest := Insert(x, s[1..]);
      assert s == [s[0]] + s[1..];
      LessTotal(x, s[0]);
      forall j | 0 <= j < |rest| ensures !Less(s[0], rest[j]) {
        assert rest[j] in multiset(rest);
        assert rest[j] == x || rest[j] in s[1..];
      }
    }
  }

  lemma SameMembers(s: seq<string>, t: seq<string>)
    requires multiset(s) == multiset(t)
    ensures Elements(s) == Elements(t)
  {
    forall x ensures x in s <==> x in t {
      assert x in s <==> x in multiset(s);
      assert x in t <==> x in multiset(t);
    }
  }

  lemma {:induction false} SortDescArranges(s: seq<string>)
    ensures Descending(SortDesc(s)) && multiset(SortDesc(s)) == multiset(s)
  {
    if s != [] {
      SortDescArranges(s[1..]);
      InsertKeeps(s[0], SortDesc(s[1..]));
      assert s == [s[0]] + s[1..];
    }
  }

  lemma SortDescSorts(s: seq<string>)
    ensures Descending(SortDesc(s))
    ensures multiset(SortDesc(s)) == multiset(s)
    ensures Elements(SortDesc(s)) == Elements(s)
  {
    SortDescArranges(s);
    SameMembers(SortDesc(s), s);
  }

  lemma HeadIsGreatest(s: seq<string>, x: string)
    requires Descending(s) && x in multiset(s)
    ensures s != [] && !Less(s[0], x)
  {
    var i :| 0 <= i < |s| && s[i] == x;
    LessTotal(x, x);
  }

  lemma TailCounts(s: seq<string>)
    requires s != []
    ensures multiset(s[1..]) == multiset(s) - multiset{s[0]}
  {
    assert s == [s[0]] + s[1..];
    assert multiset(s) == multiset{s[0]} + multiset(s[1..]);
  }

  /** Any sort at all gives this answer: a descending arrangement is unique. */
  lemma {:induction false} SortDescUnique(s: seq<string>, t: seq<string>)
    requires Descending(s) && Descending(t) && multiset(s) == multiset(t)
    ensures s == t
  {
    if s == [] {
      assert |t| == |multiset(t)|;
    } else {
      assert s[0] in multiset(s);
      HeadIsGreatest(t, s[0]);
      assert t[0] in multiset(t);
      HeadIsGreatest(s, t[0]);
      LessTotal(s[0], t[0]);
      TailCounts(s);
      TailCounts(t);
      SortDescUnique(s[1..], t[1..]);
      assert s == [s[0]] + s[1..] && t == [t[0]] + t[1..];
    }
  }

  predicate NewestFirst(s: seq<string>) {
    forall i, j :: 0 <= i < j < |s| ==> Less(s[j], s[i])
  }

  lemma DistinctDescends(s: seq<string>)
    requires Descending(s) && Distinct(s)
    ensures NewestFirst(s)
  {
    forall i, j | 0 <= i < j < |s| ensures Less(s[j], s[i]) {
      LessTotal(s[i], s[j]);
    }
  }

  lemma {:induction false} SortKeepsDistinct(s: seq<string>)
    requires Distinct(s)
    ensures Distinct(SortDesc(s))
  {
    SortDescSorts(s);
    CountsAtMostOne(s);
    var t := SortDesc(s);
    forall i, j | 0 <= i < j < |t| ensures t[i] != t[j] {
      RepeatCountsTwice(t, i, j);
    }
  }

  lemma RepeatCountsTwice(t: seq<string>, i: nat, j: nat)
    requires i < j < |t|
    ensures t[i] == t[j] ==> multiset(t)[t[i]] >= 2
  {
    assert t == t[..j] + [t[j]] + t[j+1..];
    assert t[i] == t[..j][i];
    assert multiset(t) == multiset(t[..j]) + multiset([t[j]]) + multiset(t[j+1..]);
    assert t[i] in multiset(t[..j]);
  }

  lemma {:induction false} CountsAtMostOne(s: seq<string>)
    requires Distinct(s)
    ensures forall x :: multiset(s)[x] <= 1
  {
    if s != [] {
      CountsAtMostOne(s[1..]);
      assert s == [s[0]] + s[1..];
      assert forall i :: 0 <= i < |s[1..]| ==> s[1..][i] == s[i+1];
      assert s[0] !in multiset(s[1..]);
    }
  }

  /** Every finite set of names has a newest-first listing. */
  ghost function Listing(s: set<string>): (r: seq<string>)
    ensures NewestFirst(r) && Elements(r) == s
  {
    if s == {} then []
    else
      var m := Least(s);
      var r := Listing(s - {m});
      assert s == (s - {m}) + {m};
      assert forall x :: x in r ==> x in s - {m} && Less(m, x);
      r + [m]
  }

  lemma {:induction false} FirstCount(s: seq<string>, i: nat)
    requires NewestFirst(s) && i <= |s|
    ensures |Elements(s[..i])| == i
  {
    if i > 0 {
      FirstCount(s, i - 1);
      var rest, last := s[..i-1], s[i-1];
      assert s[..i] == rest + [last];
      forall j | 0 <= j < |rest| ensures rest[j] != last {
        LessTotal(last, last);
        assert rest[j] == s[j] && Less(last, s[j]);
      }
      AddedElement(rest, last);
    }
  }

  lemma AddedElement(s: seq<string>, x: string)
    requires x !in s
    ensures |Elements(s + [x])| == |Elements(s)| + 1
  {
    assert Elements(s + [x]) == Elements(s) + {x};
  }

  /** In a newest-first list a member's rank is its position. */
  lemma RankIsPosition(s: seq<string>, i: nat)
    requires NewestFirst(s) && i < |s|
    ensures Newer(Elements(s), s[i]) == Elements(s[..i])
    ensures |Newer(Elements(s), s[i])| == i
  {
    FirstCount(s, i);
    forall j | 0 <= j < |s| ensures Less(s[i], s[j]) <==> j < i {
      LessTotal(s[i], s[j]);
    }
    assert forall j :: 0 <= j < i ==> s[..i][j] == s[j];
    forall x | x in Newer(Elements(s), s[i]) ensures x in s[..i] {
      var j :| 0 <= j < |s| && s[j] == x;
      assert s[..i][j] == x;
    }
  }

  // ---------- the keep set as the program computes it ----------

  /** The first `k` members are those with fewer than `k` newer ones. */
  lemma FirstByRank(dates: seq<string>, k: int)
    requires NewestFirst(dates)
    ensures forall d :: d in dates ==>
              (d in Elements(dates[..Max(0, Min(k, |dates|))]) <==> |Newer(Elements(dates), d)| < k)
  {
    var n := Max(0, Min(k, |dates|));
    forall d | d in dates ensures d in Elements(dates[..n]) <==> |Newer(Elements(dates), d)| < k {
      var j :| 0 <= j < |dates| && dates[j] == d;
      RankIsPosition(dates, j);
      if j < n {
        assert dates[..n][j] == d;
      } else if d in dates[..n] {
        var i :| 0 <= i < n && dates[..n][i] == d;
        LessTotal(d, d);
      }
    }
  }

  /** Rule 1's loop. */
  method KeepFirst(dates: seq<string>, k: int) returns (keep: set<string>)
    ensures keep == Elements(dates[..Max(0, Min(k, |dates|))])
  {
    keep := {};
    var i := 0;
    while i < k && i < |dates|
      invariant 0 <= i <= Max(0, Min(k, |dates|))
      invariant keep == Elements(dates[..i])
    {
      assert dates[..i+1] == dates[..i] + [dates[i]];
      keep := keep + {dates[i]};
      i := i + 1;
    }
  }

  /** Rule 2's loop, adding to the set of rule 1. */
  method KeepRecent(dates: seq<string>, p: Policy, now: int, first: set<string>) returns (keep: set<string>)
    requires AllDates(Elements(dates)) && p.keepDays > 0
    ensures keep == first + Window(p, Elements(dates), now)
  {
    keep := first;
    var cutoff := now - p.keepDays * DAY;
    var i := 0;
    while i < |dates|
      invariant 0 <= i <= |dates|
      invariant keep == first + Window(p, Elements(dates[..i]), now)
    {
      assert dates[..i+1] == dates[..i] + [dates[i]];
      assert Elements(dates[..i+1]) == Elements(dates[..i]) + {dates[i]};
      assert dates[i] in Elements(dates);
      if DayOf(dates[i]) * DAY >= cutoff {
        keep := keep + {dates[i]};
      }
      i := i + 1;
    }
    assert dates[..i] == dates;
  }

  /** `buildKeepSet`: both rules over the newest-first slice give the policy. */
  method BuildKeepSet(dates: seq<string>, p: Policy, now: int) returns (keep: set<string>)
    requires AllDates(Elements(dates)) && NewestFirst(dates)
    ensures keep == Keep(p, Elements(dates), now)
  {
    keep := {};
    if p.keepLast > 0 {
      keep := KeepFirst(dates, p.keepLast);
    }
    if p.keepDays > 0 {
      keep := KeepRecent(dates, p, now, keep);
    }
    FirstByRank(dates, p.keepLast);
  }

  // ---------- one pass ----------

  /** What `Apply` needs of a destination. `listing` is what the next `List("")` answers, None for an
      error; `sticky` holds the names that a delete attempt leaves in place. */
  class Dest {
    var entries: set<string>
    const listing: Option<seq<string>>
    const sticky: set<string>

    constructor (entries: set<string>, listing: Option<seq<string>>, sticky: set<string>)
      ensures this.entries == entries && this.listing == listing && this.sticky == sticky
    {
      this.entries := entries;
      this.listing := listing;
      this.sticky := sticky;
    }

    method List() returns (r: Result<seq<string>>)
      ensures listing.None? ==> r == Err
      ensures listing.Some? ==> r == Ok(listing.value)
    {
      r := if listing.Some? then Ok(listing.value) else Err;
    }

    /** A failed delete may still have removed the name; one that leaves it in place always fails. */
    method Delete(key: string) returns (ok: bool)
      modifies this`entries
      ensures entries == if key in sticky then old(entries) else old(entries) - {key}
      ensures key in sticky ==> !ok
    {
      if key in sticky {
        ok := false;
      } else {
        entries := entries - {key};
        ok := *;
      }
    }
  }

  ghost function DatesOf(s: set<string>): (r: set<string>)
    ensures AllDates(r)
  {
    set x | x in s && IsDate(x)
  }

  /** What the date filter leaves of a listing. */
  ghost function DatesIn(names: seq<string>): (s: set<string>)
    ensures AllDates(s)
  {
    DatesOf(Elements(names))
  }

  /** The listed dates a pass at `now` tries to delete. */
  ghost function Doomed(p: Policy, s: set<string>, now: int): set<string>
    requires AllDates(s)
  {
    s - Keep(p, s, now)
  }

  /** The date filter and the sort. */
  method NewestDates(entries: seq<string>) returns (dates: seq<string>)
    requires Distinct(entries)
    ensures NewestFirst(dates) && Elements(dates) == DatesIn(entries)
  {
    dates := [];
    var i := 0;
    while i < |entries|
      invariant 0 <= i <= |entries|
      invariant Distinct(dates) && Elements(dates) == DatesIn(entries[..i])
    {
      assert entries[..i+1] == entries[..i] + [entries[i]];
      assert forall j :: 0 <= j < i ==> entries[..i][j] == entries[j];
      if IsDate(entries[i]) {
        assert entries[i] !in Elements(dates);
        assert Elements(dates + [entries[i]]) == Elements(dates) + {entries[i]};
        dates := dates + [entries[i]];
      }
      i := i + 1;
    }
    assert entries[..i] == entries;
    SortKeepsDistinct(dates);
    SortDescSorts(dates);
    dates := SortDesc(dates);
    DistinctDescends(dates);
  }

  /** The delete loop: a failed delete is logged and the loop goes on. */
  method DeleteOthers(dest: Dest, dates: seq<string>, keep: set<string>)
    modifies dest`entries
    ensures dest.entries == old(dest.entries) - (Elements(dates) - keep - dest.sticky)
  {
    var i := 0;
    while i < |dates|
      invariant 0 <= i <= |dates|
      invariant dest.entries == old(dest.entries) - (Elements(dates[..i]) - keep - dest.sticky)
    {
      assert dates[..i+1] == dates[..i] + [dates[i]];
      assert Elements(dates[..i+1]) == Elements(dates[..i]) + {dates[i]};
      if dates[i] !in keep {
        var _ := dest.Delete(dates[i]);
      }
      i := i + 1;
    }
    assert dates[..i] == dates;
  }

  /** `Apply`: every listed date outside the policy gets one delete attempt, nothing else is touched,
      and only a failed `List` is an error. */
  method Apply(dest: Dest, p: Policy, now: int) returns (ok: bool)
    requires dest.listing.Some? ==> Distinct(dest.listing.value)
    modifies dest`entries
    ensures p.keepLast == 0 && p.keepDays == 0 ==> ok && dest.entries == old(dest.entries)
    ensures dest.listing.None? ==> dest.entries == old(dest.entries)
    ensures ok <==> (p.keepLast == 0 && p.keepDays == 0) || dest.listing.Some?
    ensures !(p.keepLast == 0 && p.keepDays == 0) && dest.listing.Some? ==>
              dest.entries == old(dest.entries) - (Doomed(p, DatesIn(dest.listing.value), now) - dest.sticky)
    ensures forall x :: x in old(dest.entries) && x !in dest.entries ==>
              IsDate(x) && dest.listing.Some? && x in dest.listing.value && x !in dest.sticky
    ensures dest.listing.Some? && p.keepLast <= 0 && p.keepDays <= 0 && p != Policy(0, 0) && dest.sticky == {} ==>
              forall x :: x in dest.listing.value && IsDate(x) ==> x !in dest.entries
  {
    if p.keepLast == 0 && p.keepDays == 0 {
      return true;
    }
    var listed := dest.List();
    if listed == Err {
      return false;
    }
    var dates := NewestDates(listed.value);
    var keep := BuildKeepSet(dates, p, now);
    DeleteOthers(dest, dates, keep);
    return true;
  }

  /** Under "keep the last one" the latest day stays and every other one goes. */
  lemma LatestDayStays(s: set<string>, d: string, now: int)
    requires AllDates(s) && d in s && forall e :: e in s ==> DayOf(e) <= DayOf(d)
    ensures Keep(Policy(1, 0), s, now) == {d}
  {
    forall e | e in s ensures Kept(Policy(1, 0), s, now, e) <==> e == d {
      StringOrderIsDayOrder(d, e);
      StringOrderIsDayOrder(e, d);
      if e == d {
        forall x | x in s ensures !Less(d, x) { StringOrderIsDayOrder(d, x); }
        assert Newer(s, d) == {};
      } else {
        assert d in Newer(s, e);
        SubsetIsSmaller({d}, Newer(s, e));
      }
    }
  }

  // ---------- the size and shape of the keep set ----------

  /** Rule 2 also keeps a prefix of the newest-first list. */
  lemma {:induction false} WindowIsPrefix(p: Policy, dates: seq<string>, now: int) returns (n: nat)
    requires NewestFirst(dates) && AllDates(Elements(dates))
    ensures n <= |dates| && Window(p, Elements(dates), now) == Elements(dates[..n]) && n == |Window(p, Elements(dates), now)|
    ensures forall j :: 0 <= j < |dates| ==> (Recent(p, now, dates[j]) <==> j < n)
  {
    n := 0;
    while n < |dates| && Recent(p, now, dates[n])
      invariant n <= |dates|
      invariant forall j :: 0 <= j < n ==> Recent(p, now, dates[j])
    {
      n := n + 1;
    }
    forall j | n <= j < |dates| ensures !Recent(p, now, dates[j]) {
      if j > n { StringOrderIsDayOrder(dates[j], dates[n]); }
    }
    assert forall j :: 0 <= j < n ==> dates[..n][j] == dates[j];
    FirstCount(dates, n);
    forall d | d in Window(p, Elements(dates), now) ensures d in dates[..n] {
      var j :| 0 <= j < |dates| && dates[j] == d;
      assert dates[..n][j] == d;
    }
  }

  /** The keep set is the longer of two prefixes of the newest-first list: the KeepLast first ones and
      those inside the window. */
  lemma KeepIsLongerPrefix(p: Policy, dates: seq<string>, now: int) returns (n: nat)
    requires NewestFirst(dates) && AllDates(Elements(dates))
    ensures n == Max(Min(Max(p.keepLast, 0), |dates|), |Window(p, Elements(dates), now)|) <= |dates|
    ensures Keep(p, Elements(dates), now) == Elements(dates[..n]) && |Keep(p, Elements(dates), now)| == n
  {
    var recent := WindowIsPrefix(p, dates, now);
    n := Max(Min(Max(p.keepLast, 0), |dates|), recent);
    FirstCount(dates, n);
    forall j | 0 <= j < |dates| ensures Kept(p, Elements(dates), now, dates[j]) <==> j < n {
      RankIsPosition(dates, j);
    }
    assert forall j :: 0 <= j < n ==> dates[..n][j] == dates[j];
    forall d | d in Keep(p, Elements(dates), now) ensures d in dates[..n] {
      var j :| 0 <= j < |dates| && dates[j] == d;
      assert dates[..n][j] == d;
    }
  }

  /** Names standing for days in an interval are no more than its days. */
  lemma {:induction false} DaysBoundNames(s: set<string>, lo: int, hi: int)
    requires AllDates(s)
    requires forall d :: d in s ==> lo <= DayOf(d) < hi
    ensures |s| <= Max(hi - lo, 0)
    decreases hi - lo
  {
    if hi > lo {
      var today := set d | d in s && DayOf(d) == hi - 1;
      DaysBoundNames(s - today, lo, hi - 1);
      assert |today| <= 1 by {
        if today != {} {
          var x :| x in today;
          forall y | y in today ensures y == x { StringOrderIsDayOrder(x, y); }
          assert today == {x};
        }
      }
      assert s == (s - today) + today;
      assert |s| == |s - today| + |today|;
    } else {
      assert s == {};
    }
  }

  /** The number of calendar days the window reaches back over, today included. */
  function WindowDays(p: Policy, now: nat): nat {
    if p.keepDays <= 0 then 0 else if now % DAY == 0 then p.keepDays + 1 else p.keepDays
  }

  /** How many dates survive a pass: at least the KeepLast newest, and with no date in the future at
      most max(KeepLast, KeepDays), one more when the pass runs exactly at midnight. */
  lemma KeepSize(p: Policy, s: set<string>, now: nat)
    requires AllDates(s)
    ensures |Keep(p, s, now)| >= Min(p.keepLast, |s|)
    ensures (forall d :: d in s ==> DayOf(d) <= now / DAY) ==>
              |Keep(p, s, now)| <= Max(Max(p.keepLast, 0), WindowDays(p, now))
  {
    var dates := Listing(s);
    var n := KeepIsLongerPrefix(p, dates, now);
    FirstCount(dates, |dates|);
    assert dates[..|dates|] == dates;
    if forall d :: d in s ==> DayOf(d) <= now / DAY {
      var today := now / DAY;
      var w := Window(p, s, now);
      if p.keepDays > 0 {
        var lo := if now % DAY == 0 then today - p.keepDays else today - p.keepDays + 1;
        forall d | d in w ensures lo <= DayOf(d) < today + 1 {
          assert now == today * DAY + now % DAY;
        }
        DaysBoundNames(w, lo, today + 1);
      } else {
        assert w == {};
      }
    }
  }

  /** Without a positive rule the policy keeps nothing: a negative count that slips past the test for two
      zeros makes a pass delete every date. `Runner.Run` tests for a positive rule and so never starts one. */
  lemma NothingKeptWithoutRule(p: Policy, s: set<string>, now: int)
    requires AllDates(s)
    ensures Keep(p, s, now) == {} <==> s == {} || (p.keepLast <= 0 && Window(p, s, now) == {})
  {
    var dates := Listing(s);
    var n := KeepIsLongerPrefix(p, dates, now);
    FirstCount(dates, |dates|);
    assert dates[..|dates|] == dates;
  }

  /** When a job's own pass keeps the directory the job wrote. The job took its prefix at `taken` and the
      pass reads the clock at `now`: rule 2 measures from midnight before the job, not from the job. */
  lemma FreshBackupSurvives(p: Policy, s: set<string>, taken: nat, now: nat)
    requires AllDates(s) && taken <= now && Prefix(taken) in s
    ensures Prefix(taken) in Keep(p, s, now) <==>
              |Newer(s, Prefix(taken))| < p.keepLast
              || (p.keepDays > 0 && now - taken / DAY * DAY <= p.keepDays * DAY)
    ensures p.keepLast >= 1 && Newer(s, Prefix(taken)) == {} ==> Prefix(taken) in Keep(p, s, now)
    ensures p.keepDays >= 1 && taken / DAY == now / DAY ==> Prefix(taken) in Keep(p, s, now)
    ensures p.keepDays >= 1 && now - taken <= (p.keepDays - 1) * DAY ==> Prefix(taken) in Keep(p, s, now)
  {
    PrefixIsToday(taken);
    assert taken == taken / DAY * DAY + taken % DAY && now == now / DAY * DAY + now % DAY;
  }

  lemma MinuteBefore(day: nat, minute: nat)
    requires 0 < minute < DAY
    ensures (day + 1) * DAY - minute >= 0 && ((day + 1) * DAY - minute) / DAY == day
  {
    assert (day + 1) * DAY - minute == day * DAY + (DAY - minute);
  }

  lemma NoneNewer(d: string)
    ensures Newer({d}, d) == {}
  {
    LessTotal(d, d);
  }

  /** A job's own directory alone, under a window of one day: gone as soon as the day after its own has begun. */
  lemma GoneNextDay(day: nat, taken: nat, now: nat)
    requires taken / DAY == day && taken <= now && now > (day + 1) * DAY && IsDate(Prefix(taken))
    ensures Prefix(taken) !in Keep(Policy(0, 1), {Prefix(taken)}, now)
  {
    NoneNewer(Prefix(taken));
    FreshBackupSurvives(Policy(0, 1), {Prefix(taken)}, taken, now);
  }

  /** A documented promise that does not hold: a window of one day keeps what is newer than a day. On every day the
      calendar of the filter knows, a backup started a minute before midnight is deleted by its own pass a minute after
      it. */
  lemma OneDayWindowMissesMidnight(day: nat, minute: nat, taken: nat, now: nat)
    requires minute == 60_000_000_000 && DateOf(day).year <= 9999
    requires taken + minute == (day + 1) * DAY && now == (day + 1) * DAY + minute
    ensures now - taken == 2 * minute && IsDate(Prefix(taken))
    ensures Prefix(taken) !in Keep(Policy(0, 1), {Prefix(taken)}, now)
  {
    MinuteBefore(day, minute);
    PrefixIsToday(taken);
    GoneNextDay(day, taken, now);
  }
}
