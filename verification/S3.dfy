/** The S3 destination: a flat key space under a configured prefix, listed in pages. */
module S3 {
  import opened Text
  import opened KeySpace

  /** The most entries one ListObjectsV2 response carries. */
  const MAX_KEYS := 1000

  ghost predicate Ascending(s: seq<string>) {
    forall i, j :: 0 <= i < j < |s| ==> Less(s[i], s[j])
  }

  /** `page` is a first part of `all` in listing order, of any length the service allows: it may end a page early,
      or send an empty one. */
  ghost predicate FirstPage(page: seq<string>, all: set<string>) {
    && Ascending(page) && Elements(page) <= all
    && |page| <= MAX_KEYS
    && (forall x, y :: x in all && x !in page && y in page ==> Less(y, x))
  }

  lemma AscendingIsDistinct(s: seq<string>)
    requires Ascending(s)
    ensures Distinct(s)
  {
    forall i, j | 0 <= i < j < |s| ensures s[i] != s[j] { LessTotal(s[i], s[j]); }
  }

  lemma AppendGreatest(page: seq<string>, m: string)
    requires Ascending(page) && forall y :: y in page ==> Less(y, m)
    ensures Ascending(page + [m]) && Elements(page + [m]) == Elements(page) + {m}
  {
    forall i, j | 0 <= i < j < |page + [m]| ensures Less((page + [m])[i], (page + [m])[j]) {
      if j == |page| { assert page[i] in page; }
    }
  }

  /** The page is as long as it can be. */
  ghost predicate IsFull(page: seq<string>, all: set<string>) {
    |page| == MAX_KEYS || Elements(page) == all
  }

  /** The service's listing: the least entries, in order, up to where it ends the page. A service that `fills` its
      pages ends them only at the limit. */
  method TakePage(all: set<string>, fills: bool) returns (page: seq<string>)
    ensures FirstPage(page, all)
    ensures fills ==> IsFull(page, all)
  {
    page := [];
    var left := all;
    var stop := false;
    while left != {} && |page| < MAX_KEYS && !stop
      invariant Ascending(page) && Elements(page) == all - left && left <= all
      invariant forall x, y :: x in left && y in page ==> Less(y, x)
      invariant |page| <= MAX_KEYS && (fills ==> !stop)
      decreases |left|, !stop
    {
      var early: bool := *;
      if early && !fills {
        stop := true;
      } else {
        LeastExists(left);
        var m :| m in left && forall y :: y in left ==> m == y || Less(m, y);
        AppendGreatest(page, m);
        page := page + [m];
        left := left - {m};
      }
    }
    forall x | x in all && x !in page ensures x in left {
      assert x !in Elements(page);
    }
  }

  /** The last key of a page separates what it lists from what is still ahead. */
  lemma PageEnd(page: seq<string>, all: set<string>)
    requires page != [] && FirstPage(page, all)
    ensures forall o :: o in all ==> (Less(page[|page|-1], o) <==> o !in Elements(page))
  {
    var last := page[|page|-1];
    forall o | o in all ensures Less(last, o) <==> o !in Elements(page) {
      if o in page {
        var i :| 0 <= i < |page| && page[i] == o;
        LessTotal(last, o);
      }
    }
  }

  /** The matching keys after the continuation point. */
  ghost function AfterIn(keys: set<string>, p: string, point: Option<string>): set<string> {
    set o | o in keys && HasPrefix(o, p) && (point.Some? ==> Less(point.value, o))
  }

  /** Moving the continuation point past a page leaves exactly the unlisted keys ahead, also when some keys
      have been deleted meanwhile. */
  lemma Advance(before: set<string>, after: set<string>, p: string, point: Option<string>, page: seq<string>)
    requires after <= before && page != [] && FirstPage(page, AfterIn(before, p, point))
    ensures AfterIn(after, p, Some(page[|page|-1])) == (AfterIn(before, p, point) - Elements(page)) * after
    ensures |AfterIn(after, p, Some(page[|page|-1]))| < |AfterIn(before, p, point)|
    ensures after == before ==> AfterIn(after, p, Some(page[|page|-1])) == AfterIn(before, p, point) - Elements(page)
  {
    var ahead, next := AfterIn(before, p, point), Some(page[|page|-1]);
    PageEnd(page, ahead);
    assert page[|page|-1] in Elements(page);
    forall o | o in AfterIn(after, p, next) ensures o in ahead - Elements(page) {
      if point.Some? { LessTransitive(point.value, next.value, o); }
      assert o in ahead;
    }
    SubsetIsSmaller(AfterIn(after, p, next), ahead);
  }

  lemma PageMoves(all: set<string>, ahead: set<string>, page: set<string>)
    requires page <= ahead <= all
    ensures (all - ahead) + page == all - (ahead - page)
  {
  }

  lemma PrefixBehindLead(lead: string, k: string, p: string)
    ensures HasPrefix(lead + k, lead + p) <==> HasPrefix(k, p)
  {
    if HasPrefix(lead + k, lead + p) {
      assert k[..|p|] == (lead + k)[..|lead|+|p|][|lead|..];
    }
    if HasPrefix(k, p) {
      assert (lead + k)[..|lead|+|p|] == lead + k[..|p|];
    }
  }

  ghost function Behind(lead: string, s: set<string>): set<string> {
    set k | k in s :: lead + k
  }

  lemma {:induction false} BehindKeepsCount(lead: string, s: set<string>)
    ensures |Behind(lead, s)| == |s|
  {
    if s != {} {
      var k :| k in s;
      BehindKeepsCount(lead, s - {k});
      forall x ensures lead + x == lead + k <==> x == k {
        assert (lead + x)[|lead|..] == x && (lead + k)[|lead|..] == k;
      }
      assert Behind(lead, s) == Behind(lead, s - {k}) + {lead + k};
    }
  }

  ghost function HeldIn(objects: map<string, Bytes>, lead: string): (m: Contents)
    ensures forall k :: k in m <==> lead + k in objects
    ensures forall k :: k in m ==> m[k] == objects[lead + k]
  {
    var keys := set o | o in objects && HasPrefix(o, lead) :: o[|lead|..];
    assert forall k :: k in keys <==> lead + k in objects by {
      forall k ensures k in keys <==> lead + k in objects {
        assert (lead + k)[|lead|..] == k && HasPrefix(lead + k, lead);
        if k in keys {
          var o :| o in objects && HasPrefix(o, lead) && o[|lead|..] == k;
          assert o == lead + k;
        }
      }
    }
    map k | k in keys :: objects[lead + k]
  }

  ghost function ForeignIn(objects: map<string, Bytes>, lead: string): map<string, Bytes> {
    map o | o in objects && !HasPrefix(o, lead) :: objects[o]
  }

  lemma HeldPut(objects: map<string, Bytes>, lead: string, key: string, data: Bytes)
    ensures HeldIn(objects[lead + key := data], lead) == HeldIn(objects, lead)[key := data]
    ensures ForeignIn(objects[lead + key := data], lead) == ForeignIn(objects, lead)
  {
    forall k ensures lead + k == lead + key <==> k == key {
      assert (lead + k)[|lead|..] == k && (lead + key)[|lead|..] == key;
    }
    assert HasPrefix(lead + key, lead);
  }

  /** A sweep below `p` that may have stopped half way, or have met refused keys. */
  ghost predicate PartlySwept(before: map<string, Bytes>, after: map<string, Bytes>, p: string, refused: set<string>) {
    && after.Keys <= before.Keys
    && (forall o :: o in after ==> after[o] == before[o])
    && (forall o :: o in before && (!HasPrefix(o, p) || o in refused) ==> o in after)
  }

  ghost function Swept(before: map<string, Bytes>, p: string, refused: set<string>): map<string, Bytes> {
    map o | o in before && (!HasPrefix(o, p) || o in refused) :: before[o]
  }

  ghost function Spared(m: Contents, lead: string, refused: set<string>): set<string> {
    set k | k in m && lead + k in refused
  }

  /** A sweep as the common contract sees it: the keys below `key` go, except refused ones. */
  lemma SweptIsDropTree(objects: map<string, Bytes>, after: map<string, Bytes>, lead: string, key: string, refused: set<string>)
    requires PartlySwept(objects, after, lead + key + "/", refused)
    ensures ForeignIn(after, lead) == ForeignIn(objects, lead)
    ensures after == Swept(objects, lead + key + "/", refused) ==>
              HeldIn(after, lead) == DropBelow(HeldIn(objects, lead), key, Spared(HeldIn(objects, lead), lead, refused))
  {
    assert lead + key + "/" == lead + (key + "/");
    forall k ensures HasPrefix(lead + k, lead + key + "/") <==> HasPrefix(k, key + "/") {
      PrefixBehindLead(lead, k, key + "/");
    }
    forall o | HasPrefix(o, lead + key + "/") ensures HasPrefix(o, lead) {
      assert o[..|lead|] == o[..|lead|+|key|+1][..|lead|];
    }
  }

  /** A delete that reports success has emptied the directory exactly when no key below it was spared. */
  lemma RefusedStayBelow(m: Contents, key: string, spared: set<string>)
    ensures NothingBelow(DropBelow(m, key, spared), key) <==> NothingBelow(map k | k in m && k in spared :: m[k], key)
  {
    if k :| k in m && k in spared && HasPrefix(k, key + "/") {
      assert k in DropBelow(m, key, spared);
    }
    if k :| k in DropBelow(m, key, spared) && HasPrefix(k, key + "/") {
      assert k in (map x | x in m && x in spared :: m[x]);
    }
  }

  /** The keys of a listing as files relative to the configured prefix. */
  ghost predicate Lists(objects: map<string, Bytes>, lead: string, files: seq<FileInfo>, keys: set<string>)
    requires keys <= objects.Keys
  {
    && DistinctKeys(files)
    && (forall f :: f in files ==> f.key != "" && lead + f.key in keys && f.size == |objects[lead + f.key]|)
    && (forall k :: k != "" && lead + k in keys ==> FileInfo(k, |objects[lead + k]|) in files)
  }

  lemma OneMoreFile(objects: map<string, Bytes>, lead: string, files: seq<FileInfo>, keys: set<string>, key: string)
    requires keys <= objects.Keys && lead + key in objects && lead + key !in keys && Lists(objects, lead, files, keys)
    ensures Lists(objects, lead, if key == "" then files else files + [FileInfo(key, |objects[lead + key]|)], keys + {lead + key})
  {
    forall k ensures lead + k == lead + key <==> k == key {
      assert (lead + k)[|lead|..] == k && (lead + key)[|lead|..] == key;
    }
    var more := files + [FileInfo(key, |objects[lead + key]|)];
    forall i, j | 0 <= i < j < |more| ensures more[i].key != more[j].key {
      if j == |files| { assert files[i] in files; }
    }
  }

  /** The common prefix of everything below the directory `n` under `p`. */
  function Dir(p: string, n: string): string {
    p + n + "/"
  }

  lemma DirSpellsName(p: string, m: string, n: string)
    ensures Dir(p, m) == Dir(p, n) <==> m == n
  {
    if Dir(p, m) == Dir(p, n) {
      assert |Dir(p, m)| == |Dir(p, n)|;
      assert m == Dir(p, m)[|p|..|p|+|m|];
      assert n == Dir(p, n)[|p|..|p|+|n|];
    }
  }

  /** The name between the listed prefix and the trailing delimiter. */
  function NameOf(e: string, p: string): string {
    if |p| < |e| then e[|p|..|e|-1] else ""
  }

  /** `names` are the names spelled by a set of common prefixes, the empty one left out. */
  ghost predicate SpelledBy(names: seq<string>, prefixes: set<string>, p: string) {
    Distinct(names) && forall n :: n in names <==> n != "" && Dir(p, n) in prefixes
  }

  lemma OneMoreName(names: seq<string>, prefixes: set<string>, p: string, name: string)
    requires SpelledBy(names, prefixes, p) && Dir(p, name) !in prefixes
    ensures SpelledBy(if name == "" then names else names + [name], prefixes + {Dir(p, name)}, p)
  {
    forall n ensures Dir(p, n) == Dir(p, name) <==> n == name { DirSpellsName(p, n, name); }
  }

  /** How a key below `p` appears in a listing with delimiter '/': rolled up to its first segment, or itself. */
  function Entry(o: string, p: string): string
    requires HasPrefix(o, p)
  {
    var parts := PathOf(o[|p|..]);
    if |parts| > 1 then Dir(p, parts[0]) else o
  }

  predicate IsCommonPrefix(e: string, p: string) {
    HasPrefix(e, p) && |PathOf(e[|p|..])| > 1
  }

  /** A common prefix spells the first segment of the keys it stands for. */
  lemma EntrySpells(o: string, p: string)
    requires HasPrefix(o, p)
    ensures IsCommonPrefix(Entry(o, p), p) <==> |PathOf(o[|p|..])| > 1
    ensures IsCommonPrefix(Entry(o, p), p) ==> Entry(o, p) == Dir(p, PathOf(o[|p|..])[0])
  {
    var parts := PathOf(o[|p|..]);
    if |parts| > 1 {
      JoinSplit(o[|p|..], '/');
      var n := parts[0];
      assert Dir(p, n)[|p|..] == n + "/" + "";
      SplitHead(n, "", '/');
    }
  }

  /** The number of entries listed before `e`. */
  ghost function Rank(all: set<string>, e: string): nat {
    |set x | x in all && Less(x, e)|
  }

  /** The names that an unpaged response of `size` entries reaches. */
  ghost function Reached(names: set<string>, entries: set<string>, lead: string, size: nat): set<string> {
    set n | n in names && Rank(entries, Dir(lead, n)) < size
  }

  lemma RankInSet(all: set<string>, e: string)
    requires e in all
    ensures Rank(all, e) < |all|
  {
    LessTotal(e, e);
    SubsetIsSmaller((set x | x in all && Less(x, e)), all);
  }

  /** The page holds exactly the entries of the lowest ranks. */
  lemma PageIsLowRanks(page: seq<string>, all: set<string>, e: string)
    requires FirstPage(page, all) && e in all
    ensures e in page <==> Rank(all, e) < |page|
  {
    var below := set x | x in all && Less(x, e);
    AscendingIsDistinct(page);
    if e in page {
      var i :| 0 <= i < |page| && page[i] == e;
      forall x | x in below ensures x in Elements(page[..i]) {
        LessTotal(x, e);
        var j :| 0 <= j < |page| && page[j] == x;
        assert j < i;
        assert page[..i][j] == x;
      }
      SubsetIsSmaller(below, Elements(page[..i]));
      DistinctCount(page[..i]);
    } else {
      assert e !in Elements(page);
      forall x | x in page ensures x in Elements(page) && Less(x, e) {}
      SubsetIsSmaller(Elements(page), below);
      DistinctCount(page);
    }
  }

  class S3Dest {
    const prefix: string
    var objects: map<string, Bytes>
    /** Keys the service refuses to delete: reported per key in the response, which `Delete` does not read. */
    const refused: set<string>
    /** Offline, any request may fail as a whole, also after the service has carried it out. */
    const online: bool
    /** Whether the service fills every page up to the limit; it is free not to. */
    const fills: bool

    constructor (prefix: string, objects: map<string, Bytes>, refused: set<string>, online: bool, fills: bool)
      ensures this.prefix == prefix && this.objects == objects && this.refused == refused
      ensures this.online == online && this.fills == fills
    {
      this.fills := fills;
      this.prefix := prefix;
      this.objects := objects;
      this.refused := refused;
      this.online := online;
    }

    /** `s3Key`. */
    function Key(key: string): (k: string)
      ensures k == Lead(prefix) + key
    {
      assert "" + key == key;
      if prefix != "" then prefix + "/" + key else key
    }

    /** The configured prefix separates and hides nothing: different keys stay different, lie below one another as
        they did, and are never among the objects of others. */
    lemma KeysStayApart(a: string, b: string)
      ensures Key(a) == Key(b) <==> a == b
      ensures HasPrefix(Key(a), Key(b) + "/") <==> HasPrefix(a, b + "/")
      ensures Key(a) !in Foreign()
    {
      assert Key(a)[|Lead(prefix)|..] == a && Key(b)[|Lead(prefix)|..] == b;
      assert Key(b) + "/" == Lead(prefix) + (b + "/");
      PrefixBehindLead(Lead(prefix), a, b + "/");
    }

    /** The objects under the configured prefix, as the common contract sees them. */
    ghost function Held(): Contents
      reads this
    {
      HeldIn(objects, Lead(prefix))
    }

    /** Everything in the bucket that does not belong to this destination. */
    ghost function Foreign(): map<string, Bytes>
      reads this
    {
      ForeignIn(objects, Lead(prefix))
    }

    /** `Write`: the whole stream is read first, so a broken stream stores nothing. A failed request has stored the
        object or has not. */
    method Write(key: string, data: Bytes, broken: bool) returns (r: Result<nat>)
      modifies this`objects
      ensures Foreign() == old(Foreign())
      ensures Held() == old(Held()) || Held() == old(Held())[key := data]
      ensures broken ==> r == Err && Held() == old(Held())
      ensures r.Ok? ==> Held() == old(Held())[key := data] && r.value == |data|
      ensures online && !broken ==> r.Ok?
    {
      if broken {
        return Err;
      }
      var fails: bool, stored: bool := *, *;
      if fails && !stored && !online {
        return Err;
      }
      HeldPut(objects, Lead(prefix), key, data);
      objects := objects[Key(key) := data];
      return if fails && !online then Err else Ok(|data|);
    }

    /** `Read`. */
    method Read(key: string) returns (r: Result<Bytes>)
      ensures r.Ok? ==> key in Held() && r.value == Held()[key]
      ensures online ==> (r.Ok? <==> key in Held())
    {
      var fails: bool := *;
      if (fails && !online) || Key(key) !in objects {
        return Err;
      }
      return Ok(objects[Key(key)]);
    }

    ghost function After(p: string, point: Option<string>): set<string>
      reads this
    {
      AfterIn(objects.Keys, p, point)
    }

    /** One paginator step. `idle` bounds the empty pages the service still sends before the end of the listing. */
    method NextPage(p: string, point: Option<string>, idle: nat) returns (page: Result<seq<string>>, more: bool, rest: nat)
      ensures online ==> page.Ok?
      ensures page.Ok? ==> FirstPage(page.value, After(p, point))
      ensures page.Ok? ==> (more <==> Elements(page.value) != After(p, point))
      ensures rest <= idle && (page.Ok? && more && page.value == [] ==> rest < idle)
    {
      rest := idle;
      var fails: bool := *;
      if fails && !online {
        return Err, false, rest;
      }
      var all := set o | o in objects && HasPrefix(o, p) && (point.Some? ==> Less(point.value, o));
      var keys := TakePage(all, fills || idle == 0);
      var unlisted := set o | o in all && o !in keys;
      assert unlisted == all - Elements(keys) && all == After(p, point);
      if unlisted == {} {
        forall o | o in all ensures o in Elements(keys) { assert o !in unlisted; }
      }
      return Ok(keys), unlisted != {}, if idle == 0 then 0 else idle - 1;
    }

    /** DeleteObjects for one page. The request removes every key the service does not refuse, or fails as a whole
        having removed any part of them. */
    method DeleteObjects(keys: seq<string>) returns (ok: bool)
      modifies this`objects
      ensures ok ==> objects == old(objects) - (Elements(keys) - refused)
      ensures exists gone :: gone <= Elements(keys) - refused && objects == old(objects) - gone
      ensures online ==> ok
    {
      var doomed := set o | o in keys && o !in refused;
      assert doomed == Elements(keys) - refused;
      var fails: bool := *;
      if fails && !online {
        var gone: set<string> :| gone <= doomed;
        objects := objects - gone;
        return false;
      }
      objects := objects - doomed;
      return true;
    }

    /** The paginator loop of `Delete`: each page is deleted before the next is fetched. */
    method Sweep(p: string) returns (ok: bool)
      modifies this`objects
      ensures PartlySwept(old(objects), objects, p, refused)
      ensures ok ==> objects == Swept(old(objects), p, refused)
      ensures online ==> ok
    {
      var point: Option<string> := None;
      var more := true;
      var idle: nat := *;
      ghost var start := objects;
      while more
        invariant PartlySwept(start, objects, p, refused)
        invariant forall o :: o in objects && HasPrefix(o, p) && o !in After(p, point) ==> o in refused
        invariant !more ==> After(p, point) == {}
        decreases |After(p, point)|, idle, more
      {
        ghost var before := objects;
        var page, truncated, rest := NextPage(p, point, idle);
        if page.Err? {
          return false;
        }
        var keys := page.value;
        more, idle := truncated, rest;
        if keys != [] {
          var deleted := DeleteObjects(keys);
          if !deleted {
            return false;
          }
          Advance(before.Keys, objects.Keys, p, point, keys);
          point := Some(keys[|keys|-1]);
        }
      }
      return true;
    }

    /** `Delete`. On success exactly the keys below `key` are gone, but for those the service refused; whatever
        happens, nothing else is touched. */
    method Delete(key: string) returns (ok: bool)
      modifies this`objects
      ensures PartlySwept(old(objects), objects, Key(key) + "/", refused)
      ensures ok ==> objects == Swept(old(objects), Key(key) + "/", refused)
      ensures ok ==> Held() == DropBelow(old(Held()), key, Spared(old(Held()), Lead(prefix), refused))
      ensures ok ==> (NothingBelow(Held(), key) <==> NothingBelow(RefusedOf(old(Held())), key))
      ensures Foreign() == old(Foreign())
      ensures online ==> ok
    {
      ok := Sweep(Key(key) + "/");
      SweptIsDropTree(old(objects), objects, Lead(prefix), key, refused);
      if ok { RefusedStayBelow(old(Held()), key, Spared(old(Held()), Lead(prefix), refused)); }
    }

    /** The stored keys that the service refuses to delete. */
    ghost function RefusedOf(m: Contents): Contents {
      map k | k in m && k in Spared(m, Lead(prefix), refused) :: m[k]
    }

    method AddPage(files: seq<FileInfo>, page: seq<string>, ghost listed: set<string>) returns (r: seq<FileInfo>)
      requires listed + Elements(page) <= objects.Keys && Distinct(page) && listed !! Elements(page)
      requires forall o :: o in page ==> HasPrefix(o, Lead(prefix))
      requires Lists(objects, Lead(prefix), files, listed)
      ensures Lists(objects, Lead(prefix), r, listed + Elements(page))
    {
      r := files;
      var i := 0;
      while i < |page|
        invariant 0 <= i <= |page|
        invariant Elements(page[..i]) <= Elements(page)
        invariant Lists(objects, Lead(prefix), r, listed + Elements(page[..i]))
      {
        TakeOneMore(page, i);
        assert page[i] in Elements(page);
        var key := page[i][|Lead(prefix)|..];
        assert page[i] == Lead(prefix) + key;
        OneMoreFile(objects, Lead(prefix), r, listed + Elements(page[..i]), key);
        assert listed + Elements(page[..i+1]) == listed + Elements(page[..i]) + {page[i]};
        if key != "" {
          r := r + [FileInfo(key, |objects[page[i]]|)];
        }
        i := i + 1;
      }
      assert page[..i] == page;
    }

    /** All keys before the continuation point have been listed. */
    ghost predicate ListedUpTo(p: string, point: Option<string>, files: seq<FileInfo>)
      reads this
    {
      && After(p, point) <= After(p, None)
      && Lists(objects, Lead(prefix), files, After(p, None) - After(p, point))
    }

    /** A page with keys: they are listed, and the continuation point moves past them. */
    method ListPage(p: string, point: Option<string>, page: seq<string>, files: seq<FileInfo>) returns (grown: seq<FileInfo>)
      requires HasPrefix(p, Lead(prefix)) && ListedUpTo(p, point, files)
      requires page != [] && FirstPage(page, After(p, point))
      ensures ListedUpTo(p, Some(page[|page|-1]), grown)
      ensures After(p, Some(page[|page|-1])) == After(p, point) - Elements(page)
      ensures |After(p, Some(page[|page|-1]))| < |After(p, point)|
    {
      ListedKeys(p, point, page);
      Advance(objects.Keys, objects.Keys, p, point, page);
      assert Elements(page) <= After(p, point);
      grown := AddPage(files, page, After(p, None) - After(p, point));
      PageMoves(After(p, None), After(p, point), Elements(page));
    }

    /** One turn of the paginator loop. */
    method ListStep(p: string, point: Option<string>, idle: nat, files: seq<FileInfo>)
      returns (r: Result<seq<FileInfo>>, next: Option<string>, rest: nat, more: bool)
      requires HasPrefix(p, Lead(prefix)) && ListedUpTo(p, point, files)
      ensures online ==> r.Ok?
      ensures r.Ok? ==> ListedUpTo(p, next, r.value)
      ensures r.Ok? && !more ==> After(p, next) == {}
      ensures r.Ok? ==> |After(p, next)| < |After(p, point)| || (next == point && rest <= idle && (more ==> rest < idle))
    {
      var page, truncated, left := NextPage(p, point, idle);
      more, rest := truncated, left;
      if page.Err? {
        return Err, point, rest, more;
      }
      if page.value == [] {
        return Ok(files), point, rest, more;
      }
      var grown := ListPage(p, point, page.value, files);
      return Ok(grown), Some(page.value[|page.value|-1]), rest, more;
    }

    /** The paginator loop: every matching key, page by page. */
    method ListPages(p: string) returns (r: Result<seq<FileInfo>>)
      requires HasPrefix(p, Lead(prefix))
      ensures online ==> r.Ok?
      ensures r.Ok? ==> Lists(objects, Lead(prefix), r.value, After(p, None))
    {
      var point: Option<string> := None;
      var more := true;
      var idle: nat := *;
      r := Ok([]);
      while more
        invariant r.Ok? && ListedUpTo(p, point, r.value)
        invariant !more ==> After(p, point) == {}
        decreases |After(p, point)|, idle, more
      {
        r, point, idle, more := ListStep(p, point, idle, r.value);
        if r.Err? {
          return;
        }
      }
      assert After(p, None) - After(p, point) == After(p, None);
    }

    /** `ListFiles`: every file below the prefix once with its size; an object named like the configured
        prefix itself is skipped. */
    method ListFiles(sub: string) returns (r: Result<seq<FileInfo>>)
      ensures r.Ok? ==> DistinctKeys(r.value)
      ensures r.Ok? ==> Infos(r.value) == set f | f in Files(Held(), sub) && f.key != ""
      ensures online ==> r.Ok?
    {
      r := ListPages(Lead(prefix) + Lead(sub));
      if r.Ok? {
        ListedIsFiles(r.value, sub);
      }
    }

    lemma ListedKeys(p: string, point: Option<string>, keys: seq<string>)
      requires HasPrefix(p, Lead(prefix)) && FirstPage(keys, After(p, point))
      ensures Distinct(keys) && forall o :: o in keys ==> HasPrefix(o, Lead(prefix))
    {
      AscendingIsDistinct(keys);
      forall o | o in keys ensures HasPrefix(o, Lead(prefix)) {
        assert o in Elements(keys);
        assert o[..|Lead(prefix)|] == o[..|p|][..|Lead(prefix)|];
      }
    }

    lemma ListedIsFiles(files: seq<FileInfo>, sub: string)
      requires Lists(objects, Lead(prefix), files, After(Lead(prefix) + Lead(sub), None))
      ensures Infos(files) == set f | f in Files(Held(), sub) && f.key != ""
    {
      var lead := Lead(prefix);
      forall k ensures HasPrefix(lead + k, lead + Lead(sub)) <==> HasPrefix(k, Lead(sub)) {
        PrefixBehindLead(lead, k, Lead(sub));
      }
    }

    /** What a delimiter listing below `p` is made of. */
    ghost function EntriesBelow(p: string): set<string>
      reads this
    {
      set o | o in objects && HasPrefix(o, p) :: Entry(o, p)
    }

    /** `List`: one response of `size` entries, not paged and not asked whether it is complete. A name is answered
        exactly when it is a directory name below the prefix and its entry is among those first ones. */
    method List(sub: string) returns (r: Result<seq<string>>, ghost size: nat)
      ensures online ==> r.Ok?
      ensures r.Ok? ==> Distinct(r.value)
      ensures r.Ok? ==> var p := Lead(prefix) + Lead(sub);
                        forall n :: n in r.value <==> n in Names(Held(), sub) && Rank(EntriesBelow(p), Dir(p, n)) < size
      ensures r.Ok? ==> |r.value| <= size <= 1000 && size <= |EntriesBelow(Lead(prefix) + Lead(sub))|
      ensures r.Ok? && fills ==> size == 1000 || size == |EntriesBelow(Lead(prefix) + Lead(sub))|
      ensures r.Ok? && size == |EntriesBelow(Lead(prefix) + Lead(sub))| ==> Elements(r.value) == Names(Held(), sub)
    {
      var p := Lead(prefix) + Lead(sub);
      var response;
      response, size := ListDelimited(p);
      if response.Err? {
        return Err, size;
      }
      forall e | e in response.value ensures e == Dir(p, NameOf(e, p)) {
        var o :| o in objects && HasPrefix(o, p) && Entry(o, p) == e;
        EntrySpells(o, p);
        var n := PathOf(o[|p|..])[0];
        assert NameOf(Dir(p, n), p) == n;
      }
      var names := NamesOf(response.value, p);
      assert forall e :: e in response.value <==> e in Elements(response.value);
      forall n ensures n in Names(Held(), sub) <==> n != "" && Dir(p, n) in EntriesBelow(p) && IsCommonPrefix(Dir(p, n), p) {
        NameHasEntry(sub, n);
      }
      forall e | e in EntriesBelow(p) ensures Rank(EntriesBelow(p), e) < |EntriesBelow(p)| {
        RankInSet(EntriesBelow(p), e);
      }
      return Ok(names), size;
    }

    /** The entries of the top-level listing, counted on the contract's side. */
    lemma EntriesAreTop()
      ensures |EntriesBelow(Lead(prefix))| == |TopEntries(Held())|
    {
      var lead, tops := Lead(prefix), TopEntries(Held());
      forall x ensures HasPrefix(lead + x, lead) && Entry(lead + x, lead) == lead + TopEntry(x) {
        assert (lead + x)[|lead|..] == x;
        if |PathOf(x)| > 1 { assert Dir(lead, PathOf(x)[0]) == lead + (PathOf(x)[0] + "/"); }
      }
      forall e | e in EntriesBelow(lead) ensures e in Behind(lead, tops) {
        var o :| o in objects && HasPrefix(o, lead) && Entry(o, lead) == e;
        assert o == lead + o[|lead|..];
        assert TopEntry(o[|lead|..]) in tops;
      }
      forall e | e in Behind(lead, tops) ensures e in EntriesBelow(lead) {
        var t :| t in tops && lead + t == e;
        var x :| x in Held() && TopEntry(x) == t;
        assert lead + x in objects && Entry(lead + x, lead) == e;
      }
      assert EntriesBelow(lead) == Behind(lead, tops);
      BehindKeepsCount(lead, tops);
    }

    /** `List("")`: the names whose entry the response reaches; all of them when the service fills its pages and the
        top level has no more entries than one page. */
    method ListTop() returns (r: Result<seq<string>>, ghost size: nat)
      ensures online ==> r.Ok?
      ensures r.Ok? ==> AnswersNames(r.value, Held(), {}, fills && |TopEntries(Held())| <= 1000)
      ensures r.Ok? ==> |r.value| <= size <= 1000
      ensures r.Ok? ==>
                Elements(r.value) == Reached(Names(Held(), ""), EntriesBelow(Lead(prefix)), Lead(prefix), size)
    {
      assert Lead(prefix) + Lead("") == Lead(prefix);
      EntriesAreTop();
      r, size := List("");
    }

    lemma NameGivesEntry(sub: string, n: string, x: string)
      requires n != "" && x in Held() && GoesThrough(x, sub, n)
      ensures var p := Lead(prefix) + Lead(sub);
              Dir(p, n) in EntriesBelow(p) && IsCommonPrefix(Dir(p, n), p)
    {
      var lead := Lead(prefix);
      var p, o := lead + Lead(sub), lead + x;
      PrefixBehindLead(lead, x, Lead(sub));
      assert o[|p|..] == x[|Lead(sub)|..];
      EntrySpells(o, p);
    }

    lemma EntryGivesName(sub: string, n: string, o: string)
      requires n != "" && o in objects && HasPrefix(o, Lead(prefix) + Lead(sub))
      requires var p := Lead(prefix) + Lead(sub); Entry(o, p) == Dir(p, n) && IsCommonPrefix(Dir(p, n), p)
      ensures n in Names(Held(), sub)
    {
      var lead := Lead(prefix);
      var p, x := lead + Lead(sub), o[|lead|..];
      EntrySpells(o, p);
      DirSpellsName(p, PathOf(o[|p|..])[0], n);
      assert o[..|lead|] == o[..|p|][..|lead|];
      assert o == lead + x;
      PrefixBehindLead(lead, x, Lead(sub));
      assert o[|p|..] == x[|Lead(sub)|..];
      assert x in Held() && GoesThrough(x, sub, n);
    }

    /** A directory name of the contract is a common prefix of the listing, and the other way round. */
    lemma NameHasEntry(sub: string, n: string)
      ensures var p := Lead(prefix) + Lead(sub);
              n in Names(Held(), sub) <==> n != "" && Dir(p, n) in EntriesBelow(p) && IsCommonPrefix(Dir(p, n), p)
    {
      var p := Lead(prefix) + Lead(sub);
      if n in Names(Held(), sub) {
        var x :| x in Held() && GoesThrough(x, sub, n);
        NameGivesEntry(sub, n, x);
      }
      if n != "" && Dir(p, n) in EntriesBelow(p) && IsCommonPrefix(Dir(p, n), p) {
        var o :| o in objects && HasPrefix(o, p) && Entry(o, p) == Dir(p, n);
        EntryGivesName(sub, n, o);
      }
    }

    /** One response of a listing with delimiter: the common prefixes among its entries. */
    method ListDelimited(p: string) returns (r: Result<seq<string>>, ghost size: nat)
      ensures online ==> r.Ok?
      ensures r.Ok? ==> Distinct(r.value)
      ensures r.Ok? ==> forall e :: e in r.value <==>
                e in EntriesBelow(p) && IsCommonPrefix(e, p) && Rank(EntriesBelow(p), e) < size
      ensures r.Ok? ==> |r.value| <= size <= 1000 && size <= |EntriesBelow(p)|
      ensures r.Ok? && fills ==> size == 1000 || size == |EntriesBelow(p)|
    {
      size := 0;
      var fails: bool := *;
      if fails && !online {
        return Err, size;
      }
      var all := set o | o in objects && HasPrefix(o, p) :: Entry(o, p);
      var page := TakePage(all, fills);
      size := |page|;
      AscendingIsDistinct(page);
      DistinctCount(page);
      SubsetIsSmaller(Elements(page), all);
      var prefixes: seq<string> := [];
      var i := 0;
      while i < |page|
        invariant 0 <= i <= |page|
        invariant Distinct(prefixes) && |prefixes| <= i
        invariant forall e :: e in prefixes <==> e in page[..i] && IsCommonPrefix(e, p)
      {
        assert page[..i+1] == page[..i] + [page[i]];
        assert forall j :: 0 <= j < i ==> page[..i][j] == page[j];
        assert page[i] !in page[..i];
        if IsCommonPrefix(page[i], p) {
          prefixes := prefixes + [page[i]];
        }
        i := i + 1;
      }
      assert page[..i] == page;
      forall e ensures e in page <==> e in all && Rank(all, e) < size {
        assert e in page <==> e in Elements(page);
        if e in all { PageIsLowRanks(page, all, e); }
      }
      return Ok(prefixes), size;
    }
  }

  /** The loop that turns common prefixes into names. */
  method NamesOf(prefixes: seq<string>, p: string) returns (names: seq<string>)
    requires Distinct(prefixes) && forall e :: e in prefixes ==> e == Dir(p, NameOf(e, p))
    ensures SpelledBy(names, Elements(prefixes), p) && |names| <= |prefixes|
  {
    names := [];
    var i := 0;
    while i < |prefixes|
      invariant 0 <= i <= |prefixes|
      invariant SpelledBy(names, Elements(prefixes[..i]), p) && |names| <= i
    {
      var name := NameOf(prefixes[i], p);
      TakeOneMore(prefixes, i);
      OneMoreName(names, Elements(prefixes[..i]), p, name);
      if name != "" {
        names := names + [name];
      }
      i := i + 1;
    }
    assert prefixes[..i] == prefixes;
  }
}
