/** A storage backup run: every object of the chosen buckets is downloaded and written under the date, and the
    byte total is what `ListBackups` later shows. */
module StorageRun {
  import opened Text
  import opened KeySpace
  import opened StorageWalk
  import opened Local
  import opened S3
  import opened Destination

  /** A bucket with its object tree and the bytes of its objects. */
  datatype Bucket = Bucket(name: string, root: Node, content: Contents)

  // ---------- keys ----------

  function ObjectKey(date: string, bucket: string, obj: string): string {
    date + "/storage/" + bucket + "/" + obj
  }

  lemma ObjectKeyIsInjective(date: string, b: string, x: string, c: string, y: string)
    requires '/' !in b && '/' !in c
    ensures ObjectKey(date, b, x) == ObjectKey(date, c, y) <==> b == c && x == y
  {
    if ObjectKey(date, b, x) == ObjectKey(date, c, y) {
      var lead := date + "/storage/";
      assert ObjectKey(date, b, x)[|lead|..] == b + ['/'] + x;
      assert ObjectKey(date, c, y)[|lead|..] == c + ['/'] + y;
      SplitHead(b, x, '/');
      SplitHead(c, y, '/');
      assert ([b] + PathOf(x))[0] == b && ([b] + PathOf(x))[1..] == PathOf(x);
      assert ([c] + PathOf(y))[0] == c && ([c] + PathOf(y))[1..] == PathOf(y);
      KeyPath(x);
      KeyPath(y);
    }
  }

  /** Bucket names are distinct and without slash, and the trees are well formed. */
  ghost predicate Ordinary(buckets: seq<Bucket>) {
    && (forall i, j :: 0 <= i < j < |buckets| ==> buckets[i].name != buckets[j].name)
    && (forall b :: b in buckets ==> '/' !in b.name && WellFormed(b.root))
  }

  function ObjectsOf(b: Bucket): seq<string>
    requires b.root.Folder?
  {
    Keys("", PathsIn(b.root.children))
  }

  function KeysOf(date: string, name: string, objects: seq<string>): seq<string> {
    seq(|objects|, i requires 0 <= i < |objects| => ObjectKey(date, name, objects[i]))
  }

  /** All destination keys of a run, in order. */
  function RunKeys(date: string, buckets: seq<Bucket>): seq<string>
    requires forall b :: b in buckets ==> b.root.Folder?
  {
    if buckets == [] then []
    else
      var last := buckets[|buckets|-1];
      assert last in buckets;
      RunKeys(date, buckets[..|buckets|-1]) + KeysOf(date, last.name, ObjectsOf(last))
  }

  lemma BucketKeysDistinct(date: string, b: Bucket)
    requires '/' !in b.name && WellFormed(b.root)
    ensures Distinct(KeysOf(date, b.name, ObjectsOf(b)))
  {
    WalkIsExact(b.root);
    var objects := ObjectsOf(b);
    var keys := KeysOf(date, b.name, objects);
    forall i, j | 0 <= i < j < |keys| ensures keys[i] != keys[j] {
      ObjectKeyIsInjective(date, b.name, objects[i], b.name, objects[j]);
    }
  }

  /** The key belongs to one of the buckets. */
  ghost predicate InBuckets(k: string, date: string, buckets: seq<Bucket>) {
    exists b, x :: b in buckets && k == ObjectKey(date, b.name, x)
  }

  lemma NotInBucket(k: string, date: string, buckets: seq<Bucket>, b: Bucket, objects: seq<string>)
    requires InBuckets(k, date, buckets) && '/' !in b.name
    requires forall c :: c in buckets ==> '/' !in c.name && c.name != b.name
    ensures k !in KeysOf(date, b.name, objects)
  {
    var c, x :| c in buckets && k == ObjectKey(date, c.name, x);
    forall j | 0 <= j < |objects| ensures ObjectKey(date, b.name, objects[j]) != k {
      ObjectKeyIsInjective(date, c.name, x, b.name, objects[j]);
    }
  }

  /** No two objects of a run share a destination key. */
  lemma {:induction false} RunKeysDistinct(date: string, buckets: seq<Bucket>)
    requires Ordinary(buckets)
    ensures Distinct(RunKeys(date, buckets))
    ensures forall k :: k in RunKeys(date, buckets) ==> InBuckets(k, date, buckets)
    decreases |buckets|
  {
    if buckets != [] {
      var first, last := buckets[..|buckets|-1], buckets[|buckets|-1];
      assert last in buckets && buckets == first + [last];
      RunKeysDistinct(date, first);
      BucketKeysDistinct(date, last);
      var keys := KeysOf(date, last.name, ObjectsOf(last));
      forall k | k in RunKeys(date, first) ensures k !in keys && InBuckets(k, date, buckets) {
        NotInBucket(k, date, first, last, ObjectsOf(last));
        var b, x :| b in first && k == ObjectKey(date, b.name, x);
        assert b in buckets;
      }
      DistinctAppend(RunKeys(date, first), keys);
    }
  }

  // ---------- totals ----------

  /** The bytes held under some keys. */
  function Total(m: Contents, keys: seq<string>): nat
    requires forall k :: k in keys ==> k in m
  {
    if keys == [] then 0
    else
      var last := keys[|keys|-1];
      assert last in keys;
      Total(m, keys[..|keys|-1]) + |m[last]|
  }

  lemma {:induction false} TotalSame(m: Contents, n: Contents, keys: seq<string>)
    requires forall k :: k in keys ==> k in m && k in n && m[k] == n[k]
    ensures Total(m, keys) == Total(n, keys)
  {
    if keys != [] {
      assert keys[|keys|-1] in keys;
      TotalSame(m, n, keys[..|keys|-1]);
    }
  }

  lemma {:induction false} TotalWithout(m: Contents, keys: seq<string>, i: nat)
    requires i < |keys| && forall k :: k in keys ==> k in m
    ensures keys[i] in keys
    ensures Total(m, keys) == Total(m, keys[..i] + keys[i+1..]) + |m[keys[i]]|
  {
    assert keys[i] in keys && keys[|keys|-1] in keys;
    if i < |keys| - 1 {
      var first := keys[..|keys|-1];
      var rest := keys[..i] + keys[i+1..];
      TotalWithout(m, first, i);
      assert rest[..|rest|-1] == first[..i] + first[i+1..];
      assert rest[|rest|-1] == keys[|keys|-1];
    } else {
      assert keys[..i] + keys[i+1..] == keys[..|keys|-1];
    }
  }

  /** The order of listing does not matter. */
  lemma {:induction false} TotalOfSet(m: Contents, a: seq<string>, b: seq<string>)
    requires Distinct(a) && Distinct(b) && Elements(a) == Elements(b)
    requires forall k :: k in a ==> k in m
    ensures forall k :: k in b ==> k in m
    ensures Total(m, a) == Total(m, b)
    decreases |a|
  {
    forall k | k in b ensures k in a { assert k in Elements(b); }
    if a == [] {
      DistinctCount(a);
      DistinctCount(b);
    } else {
      var x := a[|a|-1];
      assert x in Elements(a);
      var i :| 0 <= i < |b| && b[i] == x;
      var shorter := b[..i] + b[i+1..];
      TotalWithout(m, b, i);
      WithoutOne(a, |a| - 1);
      WithoutOne(b, i);
      assert a[..|a|-1] + a[|a|..] == a[..|a|-1];
      TotalOfSet(m, a[..|a|-1], shorter);
    }
  }

  lemma WithoutOne(s: seq<string>, i: nat)
    requires Distinct(s) && i < |s|
    ensures Distinct(s[..i] + s[i+1..]) && Elements(s[..i] + s[i+1..]) == Elements(s) - {s[i]}
  {
    var rest := s[..i] + s[i+1..];
    forall j | 0 <= j < |rest| ensures rest[j] == s[if j < i then j else j + 1] {}
    forall x | x in Elements(s) - {s[i]} ensures x in rest {
      var j :| 0 <= j < |s| && s[j] == x;
      assert rest[if j < i then j else j - 1] == x;
    }
  }

  // ---------- which buckets ----------

  /** `filter`. */
  function Chosen(all: seq<Bucket>, keep: seq<string>): seq<Bucket> {
    if all == [] then []
    else Chosen(all[..|all|-1], keep) + if all[|all|-1].name in keep then [all[|all|-1]] else []
  }

  method Filter(all: seq<Bucket>, keep: seq<string>) returns (out: seq<Bucket>)
    ensures out == Chosen(all, keep)
  {
    out := [];
    var i := 0;
    while i < |all|
      invariant 0 <= i <= |all|
      invariant out == Chosen(all[..i], keep)
    {
      assert all[..i+1][..i] == all[..i];
      if all[i].name in keep {
        out := out + [all[i]];
      }
      i := i + 1;
    }
    assert all[..i] == all;
  }

  lemma {:induction false} ChosenIsOrdinary(all: seq<Bucket>, keep: seq<string>)
    requires Ordinary(all)
    ensures Ordinary(Chosen(all, keep))
    ensures forall b :: b in Chosen(all, keep) <==> b in all && b.name in keep
    decreases |all|
  {
    if all != [] {
      var first, last := all[..|all|-1], all[|all|-1];
      assert all == first + [last];
      ChosenIsOrdinary(first, keep);
      assert forall b :: b in first ==> b.name != last.name;
    }
  }

  /** Names typed with a comma and a space between them, as the settings page shows by example. */
  function Spaced(names: seq<string>): string {
    if names == [] then "" else if |names| == 1 then names[0] else names[0] + ", " + Spaced(names[1..])
  }

  function WithSpace(names: seq<string>): seq<string> {
    seq(|names|, i requires 0 <= i < |names| => " " + names[i])
  }

  lemma {:induction false} SpacedSplits(names: seq<string>)
    requires names != [] && forall n :: n in names ==> ',' !in n
    ensures Split(Spaced(names), ',') == [names[0]] + WithSpace(names[1..])
    decreases |names|
  {
    assert names[0] in names;
    if |names| == 1 {
      SplitPlain(names[0], ',');
      assert WithSpace(names[1..]) == [];
    } else {
      var rest := names[1..];
      SpacedSplits(rest);
      assert Spaced(names) == names[0] + [','] + (" " + Spaced(rest));
      SplitHead(names[0], " " + Spaced(rest), ',');
      SplitAfterSpace(Spaced(rest));
      assert WithSpace(rest) == [" " + rest[0]] + WithSpace(rest[1..]);
    }
  }

  lemma SplitAfterSpace(s: string)
    ensures Split(" " + s, ',') == [" " + Split(s, ',')[0]] + Split(s, ',')[1..]
  {
    assert (" " + s)[0] == ' ' && (" " + s)[1..] == s;
  }

  /** The list is split at the commas and the spaces stay: of names typed with ", " between them the first selects its
      bucket, and every other one only a bucket whose name begins with that space. */
  lemma SpacedSelects(all: seq<Bucket>, names: seq<string>)
    requires Ordinary(all) && names != [] && forall n :: n in names ==> ',' !in n
    ensures forall b :: b in Chosen(all, Split(Spaced(names), ',')) <==>
              b in all && (b.name == names[0] || exists n :: n in names[1..] && b.name == " " + n)
    ensures (forall b :: b in all ==> b.name == "" || b.name[0] != ' ') ==>
              forall b :: b in Chosen(all, Split(Spaced(names), ',')) <==> b in all && b.name == names[0]
  {
    var keep := Split(Spaced(names), ',');
    SpacedSplits(names);
    ChosenIsOrdinary(all, keep);
    forall s ensures s in keep <==> s == names[0] || exists n :: n in names[1..] && s == " " + n {
      if s in WithSpace(names[1..]) {
        var i :| 0 <= i < |names[1..]| && WithSpace(names[1..])[i] == s;
        assert names[1..][i] in names[1..];
      }
      if n :| n in names[1..] && s == " " + n {
        var i :| 0 <= i < |names[1..]| && names[1..][i] == n;
        assert WithSpace(names[1..])[i] == s;
      }
    }
  }

  /** The bytes of an object, as the source bucket has them. */
  ghost predicate Faithful(held: Contents, date: string, buckets: seq<Bucket>, written: seq<string>) {
    forall b, x :: b in buckets && ObjectKey(date, b.name, x) in written ==>
      x in b.content && ObjectKey(date, b.name, x) in held && held[ObjectKey(date, b.name, x)] == b.content[x]
  }

  /** What a run has done so far: `written` are the keys whose write succeeded, among those tried. */
  ghost predicate Progress(before: Contents, held: Contents, tried: seq<string>, written: seq<string>, total: nat) {
    && Distinct(written) && Elements(written) <= Elements(tried)
    && (forall k :: k in written ==> k in held)
    && total == Total(held, written)
    && SameBut(before, held, Elements(tried))
  }

  /** A write, failed or not, cannot disturb what was written under other keys. */
  lemma OtherKeysKept(before: Contents, held: Contents, after: Contents, tried: seq<string>, written: seq<string>,
                      total: nat, key: string)
    requires Progress(before, held, tried, written, total) && key !in tried
    requires SameBut(held, after, {key})
    ensures Progress(before, after, tried + [key], written, total)
  {
    assert key !in Elements(tried);
    assert forall k :: k in written ==> k in Elements(written) && k != key;
    TotalSame(held, after, written);
    assert Elements(tried + [key]) == Elements(tried) + {key};
  }

  lemma OneMoreWritten(before: Contents, after: Contents, tried: seq<string>, written: seq<string>, total: nat, key: string)
    requires Progress(before, after, tried + [key], written, total) && key !in written && key in after
    ensures Progress(before, after, tried + [key], written + [key], total + |after[key]|)
  {
    DistinctAppend(written, [key]);
    assert (written + [key])[..|written|] == written;
    assert key in Elements(tried + [key]);
  }

  lemma OneMoreFaithful(held: Contents, after: Contents, date: string, buckets: seq<Bucket>, written: seq<string>,
                        b: Bucket, x: string)
    requires Faithful(held, date, buckets, written) && Ordinary(buckets) && b in buckets
    requires ObjectKey(date, b.name, x) !in written
    requires SameBut(held, after, {ObjectKey(date, b.name, x)})
    ensures Faithful(after, date, buckets, written)
    ensures x in b.content && ObjectKey(date, b.name, x) in after && after[ObjectKey(date, b.name, x)] == b.content[x] ==>
              Faithful(after, date, buckets, written + [ObjectKey(date, b.name, x)])
  {
    forall c, y | c in buckets && ObjectKey(date, c.name, y) == ObjectKey(date, b.name, x) ensures c == b && y == x {
      ObjectKeyIsInjective(date, c.name, y, b.name, x);
    }
  }

  // ---------- where the keys lead ----------

  /** A destination key is spelled clean exactly when the date, the bucket and every part of the object's path are
      ordinary names. */
  lemma ObjectKeyIsOrdinary(date: string, bucket: string, obj: string)
    requires '/' !in date && '/' !in bucket
    ensures OrdinaryKey(ObjectKey(date, bucket, obj)) <==> Segment(date) && Segment(bucket) && OrdinaryKey(obj)
  {
    var rest := bucket + "/" + obj;
    assert ObjectKey(date, bucket, obj) == date + "/" + ("storage" + "/" + rest);
    OrdinaryJoin(date, "storage" + "/" + rest);
    OrdinaryJoin("storage", rest);
    OrdinaryJoin(bucket, obj);
    OrdinarySegment(date);
    OrdinarySegment(bucket);
    StorageIsSegment();
  }

  lemma StorageIsSegment()
    ensures OrdinaryKey("storage")
  {
    assert |"storage"| == 7 && |".."| == 2 && |"."| == 1;
    OrdinarySegment("storage");
  }

  /** The names of a bucket that a directory tree takes as they are. */
  ghost predicate PlainBucket(date: string, b: Bucket)
    requires b.root.Folder?
  {
    forall p :: HasFile(b.root, p) ==> Segment(date) && Segment(b.name) && OrdinaryPath(p)
  }

  ghost predicate PlainNames(date: string, buckets: seq<Bucket>)
    requires forall b :: b in buckets ==> b.root.Folder?
  {
    forall b :: b in buckets ==> PlainBucket(date, b)
  }

  /** On a disk a write goes where its key says, for every object of a run, if and only if the names of all buckets,
      folders and objects are ordinary: none is "." or "..". All these places are then distinct and below the date. */
  lemma KeysStandWhereSpelled(date: string, buckets: seq<Bucket>)
    requires Ordinary(buckets) && '/' !in date
    ensures (forall k :: k in RunKeys(date, buckets) ==> Resolve(k).Some? && Clean(k) == k) <==> PlainNames(date, buckets)
    ensures PlainNames(date, buckets) <==> forall k :: k in RunKeys(date, buckets) ==> OrdinaryKey(k)
    ensures forall k :: k in RunKeys(date, buckets) ==> HasPrefix(k, date + "/")
  {
    RunKeysDistinct(date, buckets);
    forall k | k in RunKeys(date, buckets)
      ensures Resolve(k).Some? && Clean(k) == k <==> OrdinaryKey(k)
      ensures HasPrefix(k, date + "/")
    {
      CleanKeys(k);
      var b, x :| b in buckets && k == ObjectKey(date, b.name, x);
      RunKeyIsBelow(date, b.name, x);
    }
    PlainNamesAreKeys(date, buckets);
  }

  lemma KeyOfPlainNames(date: string, buckets: seq<Bucket>, k: string)
    requires Ordinary(buckets) && '/' !in date && PlainNames(date, buckets) && k in RunKeys(date, buckets)
    ensures OrdinaryKey(k)
  {
    var b, x := KeyOrigin(date, buckets, k);
    WalkIsExact(b.root);
    assert PlainBucket(date, b) && HasFile(b.root, PathOf(x));
    ObjectKeyIsOrdinary(date, b.name, x);
  }

  lemma PlainNamesAreKeys(date: string, buckets: seq<Bucket>)
    requires Ordinary(buckets) && '/' !in date
    ensures PlainNames(date, buckets) <==> forall k :: k in RunKeys(date, buckets) ==> OrdinaryKey(k)
  {
    if PlainNames(date, buckets) {
      forall k | k in RunKeys(date, buckets) ensures OrdinaryKey(k) {
        KeyOfPlainNames(date, buckets, k);
      }
    }
    if forall k :: k in RunKeys(date, buckets) ==> OrdinaryKey(k) {
      forall b | b in buckets ensures PlainBucket(date, b) {
        forall p | HasFile(b.root, p) ensures Segment(date) && Segment(b.name) && OrdinaryPath(p) {
          FileHasKey(date, buckets, b, p);
          ObjectKeyIsOrdinary(date, b.name, KeyOf(p));
        }
      }
    }
  }

  lemma FileHasKey(date: string, buckets: seq<Bucket>, b: Bucket, p: Path)
    requires Ordinary(buckets) && b in buckets && HasFile(b.root, p)
    ensures ObjectKey(date, b.name, KeyOf(p)) in RunKeys(date, buckets) && PathOf(KeyOf(p)) == p
  {
    WalkIsExact(b.root);
    FilePathSplits(b.root, p);
    KeyInRun(date, buckets, b, KeyOf(p));
  }

  lemma {:induction false} KeyInRun(date: string, buckets: seq<Bucket>, b: Bucket, obj: string)
    requires (forall c :: c in buckets ==> c.root.Folder?) && b in buckets && obj in ObjectsOf(b)
    ensures ObjectKey(date, b.name, obj) in RunKeys(date, buckets)
    decreases |buckets|
  {
    var first, last := buckets[..|buckets|-1], buckets[|buckets|-1];
    if b == last {
      var i :| 0 <= i < |ObjectsOf(b)| && ObjectsOf(b)[i] == obj;
      assert KeysOf(date, b.name, ObjectsOf(b))[i] == ObjectKey(date, b.name, obj);
    } else {
      assert buckets == first + [last];
      KeyInRun(date, first, b, obj);
    }
  }

  lemma {:induction false} KeyOrigin(date: string, buckets: seq<Bucket>, k: string) returns (b: Bucket, obj: string)
    requires (forall c :: c in buckets ==> c.root.Folder?) && k in RunKeys(date, buckets)
    ensures b in buckets && obj in ObjectsOf(b) && k == ObjectKey(date, b.name, obj)
    decreases |buckets|
  {
    var first, last := buckets[..|buckets|-1], buckets[|buckets|-1];
    var keys := KeysOf(date, last.name, ObjectsOf(last));
    if k in keys {
      var i :| 0 <= i < |keys| && keys[i] == k;
      b, obj := last, ObjectsOf(last)[i];
    } else {
      b, obj := KeyOrigin(date, first, k);
    }
  }

  // ---------- what a run keeps ----------

  /** One key would have to be a directory of the other. */
  predicate Clash(a: string, b: string) {
    HasPrefix(a, b + "/") || HasPrefix(b, a + "/")
  }

  predicate ClashFree(keys: seq<string>) {
    forall i, j :: 0 <= i < j < |keys| ==> !Clash(keys[i], keys[j])
  }

  /** What a run starts from: the contents and the empty directories, what it is to copy, whether the destination is a
      tree, and whether every request of the run is answered. */
  datatype Scene = Scene(
    before: Contents, strays: set<string>, date: string, buckets: seq<Bucket>, tree: bool, smooth: bool)

  /** The keys a run has tried, and those whose write succeeded. */
  datatype Ledger = Ledger(tried: seq<string>, written: seq<string>)

  /** Every key of the run stands for its own place. */
  ghost predicate Placed(c: Scene) {
    Ordinary(c.buckets) && (c.tree ==> forall k :: k in RunKeys(c.date, c.buckets) ==> OrdinaryKey(k))
  }

  /** Nothing is there at the date yet, at most the empty directory itself. */
  ghost predicate IsClear(tree: bool, before: Contents, strays: set<string>, date: string) {
    && (forall k :: k in before ==> !HasPrefix(k, date + "/") && (tree ==> k != date))
    && (forall d :: d in strays ==> !HasPrefix(d, date + "/"))
  }

  /** Every listed object can be fetched. */
  ghost predicate Fetchable(buckets: seq<Bucket>) {
    forall b :: b in buckets ==> b.root.Folder? && Elements(ObjectsOf(b)) <= b.content.Keys
  }

  /** Nothing fails from outside. */
  ghost predicate Undisturbed(c: Scene) {
    Placed(c) && c.smooth && Fetchable(c.buckets) && '/' !in c.date && IsClear(c.tree, c.before, c.strays, c.date)
  }

  /** The bytes of a run: what was written is there as the source has it, and the total is its size. */
  ghost predicate Sound(c: Scene, held: Contents, strays: set<string>, l: Ledger, total: nat) {
    && Progress(c.before, held, l.tried, l.written, total) && Faithful(held, c.date, c.buckets, l.written)
    && c.before.Keys <= held.Keys && strays == StraysLeft(c.strays, held)
  }

  /** Undisturbed, a run writes everything, unless a tree has to hold one key below another. */
  ghost predicate Exact(c: Scene, held: Contents, l: Ledger) {
    && |l.written| <= |l.tried|
    && (l.written == l.tried <==> (c.tree ==> ClashFree(l.tried)))
    && (l.tried != [] ==> l.written != [])
    && SameBut(c.before, held, Elements(l.written))
  }

  ghost predicate Accounted(c: Scene, held: Contents, strays: set<string>, l: Ledger, total: nat) {
    && (Placed(c) ==> Sound(c, held, strays, l, total))
    && (Undisturbed(c) ==> Exact(c, held, l))
  }

  lemma AccountBegins(c: Scene)
    requires Placed(c) ==> StraysLeft(c.strays, c.before) == c.strays
    ensures Accounted(c, c.before, c.strays, Ledger([], []), 0)
  {
  }

  function Booked(l: Ledger, key: string, ok: bool): Ledger {
    Ledger(l.tried + [key], if ok then l.written + [key] else l.written)
  }

  lemma SoundStep(c: Scene, b: Bucket, x: string, held: Contents, after: Contents, strays: set<string>, l: Ledger, total: nat,
                  refused: bool, r: Result<nat>)
    requires Placed(c) && Sound(c, held, strays, l, total) && b in c.buckets
    requires var key := ObjectKey(c.date, b.name, x); key !in l.tried
    requires x in b.content ==> StoredAt(held, after, ObjectKey(c.date, b.name, x), b.content[x], refused, r)
    requires x !in b.content ==> after == held && r.Err?
    ensures Sound(c, after, StraysLeft(strays, after), Booked(l, ObjectKey(c.date, b.name, x), r.Ok?),
                  if r.Ok? then total + r.value else total)
  {
    var key := ObjectKey(c.date, b.name, x);
    OtherKeysKept(c.before, held, after, l.tried, l.written, total, key);
    assert key !in l.written by { assert key !in Elements(l.tried); }
    if r.Ok? { OneMoreWritten(c.before, after, l.tried, l.written, total, key); }
    OneMoreFaithful(held, after, c.date, c.buckets, l.written, b, x);
    StraysLeftTwice(c.strays, held, after);
  }

  lemma StraysLeftTwice(strays: set<string>, held: Contents, after: Contents)
    requires held.Keys <= after.Keys
    ensures StraysLeft(StraysLeft(strays, held), after) == StraysLeft(strays, after)
  {
    forall d | IsDir(held, d) ensures IsDir(after, d) {
      if d != "" {
        var y :| y in held && HasPrefix(y, d + "/");
        assert y in after;
      }
    }
  }

  /** Below a clear date only the run itself can be in its own way. */
  lemma RefusedByWritten(c: Scene, held: Contents, l: Ledger, key: string)
    requires c.tree && Undisturbed(c) && Exact(c, held, l) && key != "" && HasPrefix(key, c.date + "/")
    requires forall k :: k in l.written ==> k in held
    ensures Blocked(held, StraysLeft(c.strays, held), key) <==> exists k :: k in l.written && Clash(k, key)
  {
    forall k | k in held && k !in l.written ensures !Clash(k, key) {
      assert k !in Elements(l.written) && k in c.before;
      BesideDate(k, c.date, key);
    }
    forall d | d in StraysLeft(c.strays, held) ensures d != key {}
    if Conflict(held, key) {
      var k :| k in held && (HasPrefix(key, k + "/") || HasPrefix(k, key + "/"));
      assert Clash(k, key);
    }
    if k :| k in l.written && Clash(k, key) {
      assert k in held;
    }
  }

  lemma BesideDate(k: string, date: string, key: string)
    requires '/' !in date && k != date && !HasPrefix(k, date + "/") && HasPrefix(key, date + "/")
    ensures !Clash(k, key)
  {
    PrefixChain(date + "/", key, k);
    SharedPrefix(key, k, date);
  }

  lemma PrefixChain(lead: string, key: string, k: string)
    requires HasPrefix(key, lead)
    ensures HasPrefix(k, key + "/") ==> HasPrefix(k, lead)
  {
    if HasPrefix(k, key + "/") {
      assert k[..|lead|] == k[..|key|+1][..|lead|];
    }
  }

  lemma SharedPrefix(key: string, k: string, date: string)
    requires '/' !in date && HasPrefix(key, date + "/")
    ensures HasPrefix(key, k + "/") ==> k == date || HasPrefix(k, date + "/")
  {
    TwoPrefixes(key, k + "/", date + "/");
    OnlyItself(k, date);
    if HasPrefix(k + "/", date + "/") && |k| > |date| {
      assert k[..|date|+1] == (k + "/")[..|date|+1];
    }
    if HasPrefix(k + "/", date + "/") && |k| == |date| {
      assert k == (k + "/")[..|k|] && date == (date + "/")[..|date|];
    }
  }

  lemma TwoPrefixes(s: string, a: string, b: string)
    requires HasPrefix(s, b)
    ensures HasPrefix(s, a) ==> HasPrefix(a, b) || HasPrefix(b, a)
  {
    if HasPrefix(s, a) {
      if |a| <= |b| { assert b[..|a|] == s[..|b|][..|a|]; } else { assert a[..|b|] == s[..|a|][..|b|]; }
    }
  }

  lemma OnlyItself(k: string, date: string)
    requires '/' !in date
    ensures HasPrefix(date + "/", k + "/") ==> k == date
  {
    var lead := date + "/";
    if |k| < |date| {
      assert lead[|k|] == date[|k|] && date[|k|] in date;
      assert lead[..|k|+1][|k|] == lead[|k|] && (k + "/")[|k|] == '/';
    } else {
      assert lead[..|date|] == date && (k + "/")[..|k|] == k;
    }
  }

  lemma ClashFreeStep(keys: seq<string>, key: string)
    ensures ClashFree(keys + [key]) <==> ClashFree(keys) && !exists k :: k in keys && Clash(k, key)
  {
    var more := keys + [key];
    if ClashFree(more) {
      forall i, j | 0 <= i < j < |keys| ensures !Clash(keys[i], keys[j]) {
        assert more[i] == keys[i] && more[j] == keys[j];
      }
      forall k | k in keys ensures !Clash(k, key) {
        var i :| 0 <= i < |keys| && keys[i] == k;
        assert more[i] == k && more[|keys|] == key;
      }
    }
  }

  lemma ExactStep(c: Scene, held: Contents, after: Contents, l: Ledger, key: string, data: Bytes, refused: bool, r: Result<nat>)
    requires Undisturbed(c) && Exact(c, held, l) && key in RunKeys(c.date, c.buckets) && key !in l.tried
    requires Elements(l.written) <= Elements(l.tried)
    requires refused <==> c.tree && exists k :: k in l.written && Clash(k, key)
    requires StoredAt(held, after, key, data, refused, r) && (r.Ok? <==> !refused)
    ensures Exact(c, after, Booked(l, key, r.Ok?))
  {
    var next := Booked(l, key, r.Ok?);
    ClashFreeStep(l.tried, key);
    assert Elements(next.tried) == Elements(l.tried) + {key};
    assert Elements(next.written) == Elements(l.written) + if r.Ok? then {key} else {};
    BookedEvenly(l, key, r.Ok?);
  }

  lemma BookedEvenly(l: Ledger, key: string, ok: bool)
    requires |l.written| <= |l.tried|
    ensures var next := Booked(l, key, ok); next.written == next.tried <==> l.written == l.tried && ok
  {
    var w, t := l.written, l.tried;
    assert (w + [key])[..|w|] == w && (t + [key])[..|t|] == t;
    assert |w| < |t + [key]|;
  }

  // ---------- the run ----------

  lemma PlacedKey(c: Scene, t: Target, key: string)
    requires Placed(c) ==> key in RunKeys(c.date, c.buckets)
    requires c.tree == t.Disk?
    ensures Placed(c) ==> t.Place(key) == Some(key)
  {
    if Placed(c) && t.Disk? { CleanKeys(key); }
  }

  lemma ExactAccount(c: Scene, key: string, data: Bytes, held: Contents, after: Contents, strays: set<string>,
                     l: Ledger, total: nat, refused: bool, r: Result<nat>)
    requires Undisturbed(c) && Sound(c, held, strays, l, total) && Exact(c, held, l)
    requires key in RunKeys(c.date, c.buckets) && key !in l.tried && HasPrefix(key, c.date + "/")
    requires refused <==> c.tree && Blocked(held, strays, key)
    requires StoredAt(held, after, key, data, refused, r) && (r.Ok? <==> !refused)
    ensures Exact(c, after, Booked(l, key, r.Ok?))
  {
    if c.tree { RefusedByWritten(c, held, l, key); }
    ExactStep(c, held, after, l, key, data, refused, r);
  }

  lemma RunKeyIsBelow(date: string, bucket: string, obj: string)
    ensures HasPrefix(ObjectKey(date, bucket, obj), date + "/")
  {
    assert ObjectKey(date, bucket, obj)[..|date|+1] == date + "/";
  }

  lemma AccountStep(c: Scene, b: Bucket, x: string, held: Contents, after: Contents, strays: set<string>, left: set<string>,
                    l: Ledger, total: nat, refused: bool, r: Result<nat>)
    requires Accounted(c, held, strays, l, total) && Ordinary(c.buckets) && b in c.buckets && x in ObjectsOf(b)
    requires ObjectKey(c.date, b.name, x) !in l.tried
    requires Placed(c) ==> (refused <==> c.tree && Blocked(held, strays, ObjectKey(c.date, b.name, x)))
    requires Placed(c) ==> left == StraysLeft(strays, after)
    requires Placed(c) && x !in b.content ==> after == held && r.Err?
    requires Placed(c) && x in b.content ==> StoredAt(held, after, ObjectKey(c.date, b.name, x), b.content[x], refused, r)
    requires Placed(c) && x in b.content && c.smooth ==> (r.Ok? <==> !refused)
    ensures Accounted(c, after, left, Booked(l, ObjectKey(c.date, b.name, x), r.Ok?), if r.Ok? then total + r.value else total)
  {
    if Placed(c) {
      SoundStep(c, b, x, held, after, strays, l, total, refused, r);
    }
    if Undisturbed(c) {
      KeyInRun(c.date, c.buckets, b, x);
      RunKeyIsBelow(c.date, b.name, x);
      assert x in Elements(ObjectsOf(b));
      ExactAccount(c, ObjectKey(c.date, b.name, x), b.content[x], held, after, strays, l, total, refused, r);
    }
  }

  /** The scene that a run on a destination plays in. */
  ghost predicate PlaysOn(c: Scene, t: Target, online: bool) {
    c.tree == t.Disk? && (c.smooth ==> online && t.Online())
  }

  /** `downloadObject`: fetch, then write the stream as it comes; it may break on the way. */
  method Download(t: Target, b: Bucket, obj: string, key: string, online: bool) returns (r: Result<nat>)
    requires t.Valid()
    modifies t.Footprint()
    ensures t.Valid()
    ensures obj !in b.content ==> r.Err? && t.Held() == old(t.Held())
    ensures t.Place(key).Some? && obj in b.content ==>
              StoredAt(old(t.Held()), t.Held(), t.Place(key).value, b.content[obj], old(t.Refuses(t.Place(key).value)), r)
    ensures t.Place(key).Some? ==> t.Strays() == StraysLeft(old(t.Strays()), t.Held())
    ensures t.Place(key).Some? && obj in b.content && online && t.Online() ==> (r.Ok? <==> !old(t.Refuses(t.Place(key).value)))
  {
    t.StraysStay();
    var fails: bool, breaks: bool := *, *;
    if obj !in b.content || (fails && !online) {
      return Err;
    }
    if breaks && !online {
      var n :| 0 <= n <= |b.content[obj]|;
      r := t.Write(key, b.content[obj][..n], true);
      r := Err;
    } else {
      r := t.Write(key, b.content[obj], false);
    }
  }

  /** One object; one that cannot be fetched or written is skipped. */
  method CopyObject(t: Target, date: string, b: Bucket, obj: string, online: bool, ghost c: Scene, ghost l: Ledger, sofar: nat)
    returns (total: nat, ghost next: Ledger)
    requires t.Valid() && PlaysOn(c, t, online) && c.date == date && b in c.buckets && Ordinary(c.buckets)
    requires obj in ObjectsOf(b) && ObjectKey(date, b.name, obj) !in l.tried
    requires Accounted(c, t.Held(), t.Strays(), l, sofar)
    modifies t.Footprint()
    ensures t.Valid() && next.tried == l.tried + [ObjectKey(date, b.name, obj)]
    ensures Accounted(c, t.Held(), t.Strays(), next, total)
  {
    var key := ObjectKey(date, b.name, obj);
    ghost var held, strays := t.Held(), t.Strays();
    ghost var refused := t.Place(key).Some? && t.Refuses(t.Place(key).value);
    var r := Download(t, b, obj, key, online);
    total := if r.Ok? then sofar + r.value else sofar;
    next := Booked(l, key, r.Ok?);
    KeyInRun(date, c.buckets, b, obj);
    PlacedKey(c, t, key);
    AccountStep(c, b, obj, held, t.Held(), strays, t.Strays(), l, sofar, refused, r);
  }

  /** One turn of the inner loop of `Run`, after the keys `tried` of earlier buckets. */
  method CopyAt(t: Target, date: string, b: Bucket, objects: seq<string>, i: nat, online: bool, ghost c: Scene, ghost l: Ledger,
                ghost tried: seq<string>, sofar: nat)
    returns (total: nat, ghost next: Ledger)
    requires t.Valid() && PlaysOn(c, t, online) && c.date == date && b in c.buckets && Ordinary(c.buckets)
    requires objects == ObjectsOf(b) && i < |objects|
    requires Distinct(tried + KeysOf(date, b.name, objects)) && TakenUpTo(l, tried, date, b.name, objects, i)
    requires Accounted(c, t.Held(), t.Strays(), l, sofar)
    modifies t.Footprint()
    ensures t.Valid() && TakenUpTo(next, tried, date, b.name, objects, i + 1)
    ensures Accounted(c, t.Held(), t.Strays(), next, total)
  {
    ghost var keys := KeysOf(date, b.name, objects);
    NotTried(tried, keys, i);
    TakeNext(tried, keys, i);
    total, next := CopyObject(t, date, b, objects[i], online, c, l, sofar);
  }

  /** The inner loop of `Run`: the objects of one bucket. */
  method CopyBucket(t: Target, date: string, b: Bucket, objects: seq<string>, online: bool, ghost c: Scene, ghost l: Ledger,
                    sofar: nat)
    returns (total: nat, ghost next: Ledger)
    requires t.Valid() && PlaysOn(c, t, online) && c.date == date && b in c.buckets && Ordinary(c.buckets)
    requires objects == ObjectsOf(b) && Distinct(l.tried + KeysOf(date, b.name, objects))
    requires Accounted(c, t.Held(), t.Strays(), l, sofar)
    modifies t.Footprint()
    ensures t.Valid() && next.tried == l.tried + KeysOf(date, b.name, objects)
    ensures Accounted(c, t.Held(), t.Strays(), next, total)
  {
    total, next := sofar, l;
    var i := 0;
    NoneTakenYet(l.tried, date, b.name, objects);
    while i < |objects|
      invariant 0 <= i <= |objects| && t.Valid()
      invariant TakenUpTo(next, l.tried, date, b.name, objects, i)
      invariant Accounted(c, t.Held(), t.Strays(), next, total)
    {
      total, next := CopyAt(t, date, b, objects, i, online, c, next, l.tried, total);
      i := i + 1;
    }
    AllTaken(next, l.tried, date, b.name, objects);
  }

  /** The first `i` objects of a bucket have been tried, after the keys `tried` of earlier buckets. */
  ghost predicate TakenUpTo(l: Ledger, tried: seq<string>, date: string, bucket: string, objects: seq<string>, i: nat) {
    i <= |objects| && l.tried == tried + KeysOf(date, bucket, objects)[..i]
  }

  lemma NoneTakenYet(tried: seq<string>, date: string, bucket: string, objects: seq<string>)
    ensures forall l: Ledger :: l.tried == tried ==> TakenUpTo(l, tried, date, bucket, objects, 0)
  {
    assert tried + KeysOf(date, bucket, objects)[..0] == tried;
  }

  lemma AllTaken(l: Ledger, tried: seq<string>, date: string, bucket: string, objects: seq<string>)
    requires TakenUpTo(l, tried, date, bucket, objects, |objects|)
    ensures l.tried == tried + KeysOf(date, bucket, objects)
  {
    var keys := KeysOf(date, bucket, objects);
    assert keys[..|keys|] == keys;
  }

  lemma TakeNext(tried: seq<string>, keys: seq<string>, i: nat)
    requires i < |keys|
    ensures tried + keys[..i+1] == tried + keys[..i] + [keys[i]]
  {
  }

  lemma NotTried(tried: seq<string>, keys: seq<string>, i: nat)
    requires Distinct(tried + keys) && i < |keys|
    ensures keys[i] !in tried + keys[..i]
  {
    var all := tried + keys;
    assert all[|tried|+i] == keys[i];
    assert forall j :: 0 <= j < |tried| + i ==> (tried + keys[..i])[j] == all[j];
  }

  method BucketObjects(b: Bucket, online: bool) returns (r: Result<seq<string>>)
    requires WellFormed(b.root)
    ensures r.Ok? ==> r.value == ObjectsOf(b)
    ensures online ==> r.Ok?
  {
    var server := new BucketServer(b.root, online);
    r := ListObjects(server, "", b.root);
  }

  lemma NextBucketKeys(date: string, buckets: seq<Bucket>, i: nat)
    requires Ordinary(buckets) && i < |buckets|
    ensures RunKeys(date, buckets[..i+1]) == RunKeys(date, buckets[..i]) + KeysOf(date, buckets[i].name, ObjectsOf(buckets[i]))
    ensures Distinct(RunKeys(date, buckets[..i+1]))
  {
    var more := buckets[..i+1];
    assert forall b :: b in more ==> b in buckets;
    assert more[..i] == buckets[..i] && more[i] == buckets[i];
    RunKeysDistinct(date, more);
  }

  /** One turn of the outer loop of `Run`: a bucket that cannot be listed leaves everything as it was. */
  method CopyNext(t: Target, date: string, buckets: seq<Bucket>, i: nat, online: bool, ghost c: Scene, ghost l: Ledger,
                  sofar: nat)
    returns (ok: bool, total: nat, ghost next: Ledger)
    requires t.Valid() && PlaysOn(c, t, online) && c.date == date && c.buckets == buckets && Ordinary(buckets) && i < |buckets|
    requires l.tried == RunKeys(date, buckets[..i]) && Accounted(c, t.Held(), t.Strays(), l, sofar)
    modifies t.Footprint()
    ensures t.Valid() && Accounted(c, t.Held(), t.Strays(), next, total)
    ensures next.tried == RunKeys(date, buckets[..if ok then i + 1 else i]) && (online ==> ok)
  {
    var b := buckets[i];
    assert b in buckets;
    var objects := BucketObjects(b, online);
    if objects.Err? {
      return false, sofar, l;
    }
    NextBucketKeys(date, buckets, i);
    total, next := CopyBucket(t, date, b, objects.value, online, c, l, sofar);
    ok := true;
  }

  ghost function SceneOf(t: Target, date: string, buckets: seq<Bucket>, online: bool): Scene
    requires t.Valid()
    reads t.Footprint()
  {
    Scene(t.Held(), t.Strays(), date, buckets, t.Disk?, online && t.Online())
  }

  /** The outer loop of `Run`; a bucket that cannot be listed ends it, with the first `copied` ones copied. */
  method CopyBuckets(t: Target, date: string, buckets: seq<Bucket>, online: bool)
    returns (ok: bool, total: nat, ghost l: Ledger, ghost copied: nat)
    requires t.Valid() && Ordinary(buckets)
    modifies t.Footprint()
    ensures t.Valid() && copied <= |buckets| && (ok <==> copied == |buckets|) && (online ==> ok)
    ensures l.tried == RunKeys(date, buckets[..copied])
    ensures Accounted(old(SceneOf(t, date, buckets, online)), t.Held(), t.Strays(), l, total)
  {
    ok, total, l := true, 0, Ledger([], []);
    var i := 0;
    ghost var c := SceneOf(t, date, buckets, online);
    t.StraysStay();
    AccountBegins(c);
    while i < |buckets|
      invariant 0 <= i <= |buckets| && t.Valid()
      invariant l.tried == RunKeys(date, buckets[..i])
      invariant Accounted(c, t.Held(), t.Strays(), l, total)
    {
      ok, total, l := CopyNext(t, date, buckets, i, online, c, l, total);
      if !ok {
        copied := i;
        return;
      }
      i := i + 1;
    }
    copied := i;
    ok := true;
  }

  /** `Run`: list the buckets, keep the chosen ones, copy each. Where every name stands for its own place, the total is
      exactly what is stored under the keys whose write succeeded, with the source's bytes; an object that failed only
      lowers it; nothing else is touched. A bucket that cannot be listed ends the run, with what was stored so far left
      in place. Undisturbed, everything is written unless a tree would have to hold one key below another. */
  method Run(t: Target, date: string, listed: Result<seq<Bucket>>, chosen: seq<string>, online: bool)
    returns (ok: bool, total: nat, ghost buckets: seq<Bucket>, ghost l: Ledger, ghost copied: nat)
    requires t.Valid() && (listed.Ok? ==> Ordinary(listed.value))
    modifies t.Footprint()
    ensures t.Valid()
    ensures listed.Err? ==> !ok && total == 0 && t.Held() == old(t.Held())
    ensures listed.Ok? ==> buckets == if chosen == [] then listed.value else Chosen(listed.value, chosen)
    ensures listed.Ok? ==>
              && Ordinary(buckets) && copied <= |buckets| && (ok <==> copied == |buckets|) && (online ==> ok)
              && l.tried == RunKeys(date, buckets[..copied])
              && Accounted(old(SceneOf(t, date, buckets, online)), t.Held(), t.Strays(), l, total)
  {
    if listed.Err? {
      return false, 0, [], Ledger([], []), 0;
    }
    var todo := listed.value;
    if chosen != [] {
      ChosenIsOrdinary(todo, chosen);
      todo := Filter(todo, chosen);
    }
    buckets := todo;
    ok, total, l, copied := CopyBuckets(t, date, todo, online);
  }

  // ---------- names that a tree cannot hold apart ----------

  /** Two files of a bucket one of which lies below the name of the other: an object "a" beside a folder "a" that is
      not empty. The service allows it. */
  ghost predicate SharesName(b: Bucket)
    requires b.root.Folder?
  {
    exists p, q :: HasFile(b.root, p) && HasFile(b.root, q) && Under(p, q) && p != q
  }

  lemma KeyBelowKey(date: string, b: string, x: string, c: string, y: string)
    requires '/' !in b && '/' !in c
    ensures HasPrefix(ObjectKey(date, c, y), ObjectKey(date, b, x) + "/") <==>
              b == c && Under(PathOf(x), PathOf(y)) && PathOf(x) != PathOf(y)
  {
    var lead := date + "/storage/";
    var k, l := b + "/" + x, c + "/" + y;
    assert ObjectKey(date, b, x) + "/" == lead + (k + "/") && ObjectKey(date, c, y) == lead + l;
    PrefixBehindLead(lead, l, k + "/");
    KeyPrefixIsPathPrefix(k, l);
    SplitConcat(b, x);
    SplitConcat(c, y);
    SplitPlain(b, '/');
    SplitPlain(c, '/');
    UnderHead(b, PathOf(x), c, PathOf(y));
  }

  lemma UnderHead(b: string, p: Path, c: string, q: Path)
    ensures Under([b] + p, [c] + q) <==> b == c && Under(p, q)
    ensures b == c ==> ([b] + p == [c] + q <==> p == q)
  {
    assert ([b] + p)[1..] == p && ([c] + q)[1..] == q;
    if Under([b] + p, [c] + q) {
      assert ([c] + q)[..1+|p|][0] == c;
      assert q[..|p|] == ([c] + q)[..1+|p|][1..];
    }
    if b == c && Under(p, q) {
      assert ([c] + q)[..1+|p|] == [c] + q[..|p|];
    }
  }

  /** The keys of a run clash exactly when some bucket has such a pair. */
  lemma ClashIsShared(date: string, buckets: seq<Bucket>)
    requires Ordinary(buckets)
    ensures ClashFree(RunKeys(date, buckets)) <==> forall b :: b in buckets ==> !SharesName(b)
  {
    var keys := RunKeys(date, buckets);
    if !ClashFree(keys) {
      var i, j :| 0 <= i < j < |keys| && Clash(keys[i], keys[j]);
      ClashShares(date, buckets, keys[i], keys[j]);
    }
    if b :| b in buckets && SharesName(b) {
      var p, q :| HasFile(b.root, p) && HasFile(b.root, q) && Under(p, q) && p != q;
      FileHasKey(date, buckets, b, p);
      FileHasKey(date, buckets, b, q);
      KeyBelowKey(date, b.name, KeyOf(p), b.name, KeyOf(q));
      ClashingPair(keys, ObjectKey(date, b.name, KeyOf(p)), ObjectKey(date, b.name, KeyOf(q)));
    }
  }

  lemma ClashShares(date: string, buckets: seq<Bucket>, k: string, l: string)
    requires Ordinary(buckets) && k in RunKeys(date, buckets) && l in RunKeys(date, buckets) && Clash(k, l)
    ensures exists b :: b in buckets && SharesName(b)
  {
    var b, x := KeyOrigin(date, buckets, k);
    var c, y := KeyOrigin(date, buckets, l);
    KeyBelowKey(date, b.name, x, c.name, y);
    KeyBelowKey(date, c.name, y, b.name, x);
    assert b == c;
    WalkIsExact(b.root);
    assert HasFile(b.root, PathOf(x)) && HasFile(b.root, PathOf(y));
    assert SharesName(b);
  }

  lemma ClashingPair(keys: seq<string>, k: string, l: string)
    requires k in keys && l in keys && Clash(k, l)
    ensures !ClashFree(keys)
  {
    var i :| 0 <= i < |keys| && keys[i] == k;
    var j :| 0 <= j < |keys| && keys[j] == l;
    assert |k + "/"| > |k| && |l + "/"| > |l|;
    if i < j { assert Clash(keys[i], keys[j]); } else { assert Clash(keys[j], keys[i]); }
  }

  /** A run that nothing disturbs writes every object, on a bucket always, on a disk exactly when no name is shared. */
  lemma WritesAllUnlessShared(c: Scene, held: Contents, strays: set<string>, l: Ledger, total: nat)
    requires Undisturbed(c) && Accounted(c, held, strays, l, total) && l.tried == RunKeys(c.date, c.buckets)
    ensures l.written == RunKeys(c.date, c.buckets) <==> (c.tree ==> forall b :: b in c.buckets ==> !SharesName(b))
  {
    ClashIsShared(c.date, c.buckets);
  }

  /** A bucket the service allows and a disk cannot hold: an object "a" and an object "a/b". */
  const SHARED := Folder("", [File("a"), Folder("a", [File("b")])])

  lemma SharedIsAllowed(name: string, content: Contents)
    ensures WellFormed(SHARED) && SharesName(Bucket(name, SHARED, content))
  {
    var a := Folder("a", [File("b")]);
    assert WellFormed(a) && a in SHARED.children && File("a") in SHARED.children && File("b") in a.children;
    assert ["a", "b"][1..] == ["b"] && HasFile(a, ["b"]);
    assert HasFile(SHARED, ["a"]) && HasFile(SHARED, ["a", "b"]) && Under(["a"], ["a", "b"]);
  }

  /** A well-formed bucket with two files that a disk keeps in one place: "x" and "a/../x". */
  const TWINS := Folder("", [File("x"), Folder("a", [Folder("..", [File("x")])])])

  lemma TwinsAreFiles()
    ensures WellFormed(TWINS) && HasFile(TWINS, ["x"]) && HasFile(TWINS, ["a", "..", "x"])
  {
    var up := Folder("..", [File("x")]);
    var a := Folder("a", [up]);
    assert WellFormed(up) && WellFormed(a);
    assert File("x") in TWINS.children && a in TWINS.children && up in a.children && File("x") in up.children;
    assert ["a", "..", "x"][1..] == ["..", "x"] && ["..", "x"][1..] == ["x"];
    assert HasFile(up, ["x"]) && HasFile(a, ["..", "x"]);
  }

  lemma TwinsMeet(date: string, bucket: string)
    requires Segment(date) && Segment(bucket)
    ensures ObjectKey(date, bucket, "x") != ObjectKey(date, bucket, "a/../x")
    ensures Resolve(ObjectKey(date, bucket, "a/../x")) == Resolve(ObjectKey(date, bucket, "x"))
  {
    ObjectKeyIsInjective(date, bucket, "x", bucket, "a/../x");
    TwinParts();
    ObjectWalk(date, bucket, "x");
    ObjectWalk(date, bucket, "a/../x");
    TwinWalks([date, "storage", bucket]);
  }

  lemma TwinWalks(lead: Path)
    ensures Walked(["x"], lead) == Walked(["a", "..", "x"], lead)
  {
    assert |"x"| == 1 && |"a"| == 1 && |"."| == 1 && |".."| == 2 && "x"[0] != "."[0] && "a"[0] != "."[0];
    assert ["a", "..", "x"][1..] == ["..", "x"] && ["..", "x"][1..] == ["x"];
    assert (lead + ["a"])[..|lead + ["a"]|-1] == lead;
  }

  /** The way of an object's key, past the three names the program puts before it. */
  lemma ObjectWalk(date: string, bucket: string, obj: string)
    requires Segment(date) && Segment(bucket)
    ensures Resolve(ObjectKey(date, bucket, obj)) == Walked(PathOf(obj), [date, "storage", bucket])
  {
    var lead := [date, "storage", bucket];
    KeyParts(date, bucket, obj);
    StorageIsSegment();
    OrdinarySegment("storage");
    SplitPlain("storage", '/');
    assert Segment("storage");
    WalksOn(lead, PathOf(obj), []);
    assert [] + lead == lead;
  }

  /** Written to a disk, the second twin takes the place of the first: the bytes reported are more than those stored. */
  method TwinOverwrites(date: string, bucket: string, one: Bytes, two: Bytes)
    returns (local: LocalDest, a: Result<nat>, b: Result<nat>)
    requires Segment(date) && Segment(bucket)
    ensures local.Valid() && a == Ok(|one|) && b == Ok(|two|)
    ensures local.Held() == map[ObjectKey(date, bucket, "x") := two]
  {
    var key, twin := ObjectKey(date, bucket, "x"), ObjectKey(date, bucket, "a/../x");
    TwinsMeet(date, bucket);
    TwinIsPlain(date, bucket);
    NotBelowItself(key, one);
    local := new LocalDest();
    a := WriteTidy(local, key, one);
    b := WriteTidy(local, twin, two);
  }

  lemma TwinIsPlain(date: string, bucket: string)
    requires Segment(date) && Segment(bucket)
    ensures var key := ObjectKey(date, bucket, "x"); Resolve(key).Some? && Clean(key) == key && key != ""
  {
    assert |"x"| == 1 && |"."| == 1 && "x"[0] != "."[0] && |".."| == 2;
    OrdinarySegment("x");
    ObjectKeyIsOrdinary(date, bucket, "x");
    CleanKeys(ObjectKey(date, bucket, "x"));
  }

  /** A write in a tree without empty directories, to a place without a conflict. */
  method WriteTidy(local: LocalDest, key: string, data: Bytes) returns (r: Result<nat>)
    requires local.Valid() && local.fs.Tidy()
    requires Resolve(key).Some? && Clean(key) != "" && !Conflict(local.Held(), Clean(key))
    modifies local.fs
    ensures local.Valid() && local.fs.Tidy()
    ensures r == Ok(|data|) && local.Held() == old(local.Held())[Clean(key) := data]
  {
    local.TidyHasNoStrays();
    r := local.Write(key, data, false);
  }

  lemma NotBelowItself(key: string, data: Bytes)
    ensures !Conflict(map[], key) && !Conflict(map[key := data], key)
  {
  }

  lemma HeadPart(head: string, rest: string)
    requires '/' !in head
    ensures PathOf(head + "/" + rest) == [head] + PathOf(rest)
  {
    SplitConcat(head, rest);
    SplitPlain(head, '/');
  }

  lemma KeyParts(date: string, bucket: string, obj: string)
    requires '/' !in date && '/' !in bucket
    ensures PathOf(ObjectKey(date, bucket, obj)) == [date, "storage", bucket] + PathOf(obj)
  {
    var last := bucket + "/" + obj;
    var middle := "storage" + "/" + last;
    HeadPart(date, middle);
    HeadPart("storage", last);
    HeadPart(bucket, obj);
    assert ObjectKey(date, bucket, obj) == date + "/" + middle;
    assert [date] + (["storage"] + ([bucket] + PathOf(obj))) == [date, "storage", bucket] + PathOf(obj);
  }

  lemma TwinParts()
    ensures PathOf("x") == ["x"] && PathOf("a/../x") == ["a", "..", "x"]
  {
    SplitPlain("x", '/');
    SplitPlain("a", '/');
    SplitPlain("..", '/');
    assert "a" + "/" + "../x" == "a/../x" && ".." + "/" + "x" == "../x";
    SplitConcat("a", "../x");
    SplitConcat("..", "x");
    assert ["a"] + ([".."] + ["x"]) == ["a", "..", "x"];
  }

  /** A walk through ordinary names and on. */
  lemma {:induction false} WalksOn(lead: Path, parts: seq<string>, at: Path)
    requires OrdinaryPath(lead)
    ensures Walked(lead + parts, at) == Walked(parts, at + lead)
    decreases |lead|
  {
    if lead == [] {
      assert [] + parts == parts && at + [] == at;
    } else {
      assert Segment(lead[0]);
      assert (lead + parts)[1..] == lead[1..] + parts;
      WalksOn(lead[1..], parts, at + [lead[0]]);
      assert at + [lead[0]] + lead[1..] == at + lead;
    }
  }

  // ---------- what the backup browser shows ----------

  datatype DateEntry = DateEntry(date: string, total: nat, files: seq<FileInfo>)

  function SumSizes(files: seq<FileInfo>): nat {
    if files == [] then 0 else SumSizes(files[..|files|-1]) + files[|files|-1].size
  }

  /** The entry of a date: its files, once each, and the sum of their sizes. */
  ghost predicate ShowsDate(e: DateEntry, held: Contents) {
    DistinctKeys(e.files) && Infos(e.files) == Files(held, e.date) && e.total == SumSizes(e.files)
  }

  ghost predicate HasEntry(result: seq<DateEntry>, date: string) {
    exists e :: e in result && e.date == date
  }

  /** One correct entry for each of the dates; a date may be missing only if `gaps` are allowed. */
  ghost predicate ShowsDates(result: seq<DateEntry>, dates: set<string>, held: Contents, gaps: bool) {
    && (forall e :: e in result ==> ShowsDate(e, held) && e.date in dates)
    && (forall i, j :: 0 <= i < j < |result| ==> result[i].date != result[j].date)
    && (!gaps ==> forall d :: d in dates ==> HasEntry(result, d))
  }

  lemma OneMoreEntry(result: seq<DateEntry>, dates: set<string>, held: Contents, gaps: bool, e: DateEntry)
    requires ShowsDates(result, dates, held, gaps) && ShowsDate(e, held) && e.date !in dates
    ensures ShowsDates(result + [e], dates + {e.date}, held, gaps)
  {
    var more := result + [e];
    assert more[|result|] == e;
    forall d | d in dates && !gaps ensures HasEntry(more, d) {
      var f :| f in result && f.date == d;
      assert f in more;
    }
  }

  lemma MoreDates(result: seq<DateEntry>, listed: set<string>, all: set<string>, held: Contents, gaps: bool, partial: bool)
    requires ShowsDates(result, listed, held, gaps) && listed <= all && (!partial ==> listed == all)
    ensures ShowsDates(result, all, held, gaps || partial)
  {
  }

  /** `ListBackups`: a date whose files cannot be listed is skipped, a failed listing of the dates is an error. */
  method ListBackups(t: Target) returns (r: Result<seq<DateEntry>>)
    requires t.Valid()
    ensures r.Ok? ==>
              ShowsDates(r.value, Names(t.Held(), "") + TopLevel(t.Strays()), t.Held(), !t.Online() || !t.ListsAll())
    ensures t.Online() ==> r.Ok?
  {
    var dates := t.List();
    if dates.Err? {
      return Err;
    }
    ghost var all := Names(t.Held(), "") + TopLevel(t.Strays());
    var result: seq<DateEntry> := [];
    var i := 0;
    while i < |dates.value|
      invariant 0 <= i <= |dates.value|
      invariant ShowsDates(result, Elements(dates.value[..i]), t.Held(), !t.Online())
    {
      assert dates.value[i] in Elements(dates.value);
      var files := t.ListFiles(dates.value[i]);
      TakeOneMore(dates.value, i);
      if files.Ok? {
        var total := SumLoop(files.value);
        var entry := DateEntry(dates.value[i], total, files.value);
        OneMoreEntry(result, Elements(dates.value[..i]), t.Held(), !t.Online(), entry);
        result := result + [entry];
      } else {
        LeaveOut(result, Elements(dates.value[..i]), t.Held(), dates.value[i]);
      }
      i := i + 1;
    }
    assert dates.value[..i] == dates.value;
    MoreDates(result, Elements(dates.value), all, t.Held(), !t.Online(), !t.ListsAll());
    return Ok(result);
  }

  lemma LeaveOut(result: seq<DateEntry>, dates: set<string>, held: Contents, date: string)
    requires ShowsDates(result, dates, held, true)
    ensures ShowsDates(result, dates + {date}, held, true)
  {
  }

  method SumLoop(files: seq<FileInfo>) returns (total: nat)
    ensures total == SumSizes(files)
  {
    total := 0;
    var i := 0;
    while i < |files|
      invariant 0 <= i <= |files|
      invariant total == SumSizes(files[..i])
    {
      assert files[..i+1][..i] == files[..i];
      total := total + files[i].size;
      i := i + 1;
    }
    assert files[..i] == files;
  }

  function FileKeys(files: seq<FileInfo>): seq<string> {
    seq(|files|, i requires 0 <= i < |files| => files[i].key)
  }

  lemma {:induction false} SumIsTotal(held: Contents, files: seq<FileInfo>)
    requires forall f :: f in files ==> f.key in held && f.size == |held[f.key]|
    ensures forall k :: k in FileKeys(files) ==> k in held
    ensures SumSizes(files) == Total(held, FileKeys(files))
  {
    if files != [] {
      assert files[|files|-1] in files;
      SumIsTotal(held, files[..|files|-1]);
      assert FileKeys(files)[..|files|-1] == FileKeys(files[..|files|-1]);
    }
  }

  /** The total a date shows is the total of the keys stored under it, however the run listed them. */
  lemma ShownTotal(held: Contents, e: DateEntry, written: seq<string>)
    requires ShowsDate(e, held) && Distinct(written)
    requires Elements(written) == set k | k in held && HasPrefix(k, Lead(e.date))
    ensures forall k :: k in written ==> k in held
    ensures e.total == Total(held, written)
  {
    ShownFiles(held, e);
    SumIsTotal(held, e.files);
    ShownKeys(held, e, written);
    assert forall k :: k in written ==> k in Elements(written);
    TotalOfSet(held, FileKeys(e.files), written);
  }

  lemma ShownFiles(held: Contents, e: DateEntry)
    requires ShowsDate(e, held)
    ensures forall f :: f in e.files ==> f.key in held && f.size == |held[f.key]| && HasPrefix(f.key, Lead(e.date))
  {
    forall f | f in e.files ensures f.key in held && f.size == |held[f.key]| && HasPrefix(f.key, Lead(e.date)) {
      assert f in Infos(e.files);
    }
  }

  lemma ShownKeys(held: Contents, e: DateEntry, written: seq<string>)
    requires ShowsDate(e, held)
    requires Elements(written) == set k | k in held && HasPrefix(k, Lead(e.date))
    ensures Distinct(FileKeys(e.files)) && Elements(FileKeys(e.files)) == Elements(written)
  {
    var keys := FileKeys(e.files);
    ShownFiles(held, e);
    forall k ensures k in Elements(keys) <==> k in Elements(written) {
      if k in keys {
        var i :| 0 <= i < |keys| && keys[i] == k;
        assert e.files[i] in e.files;
      }
      if k in Elements(written) {
        assert FileInfo(k, |held[k]|) in Infos(e.files);
        var i :| 0 <= i < |e.files| && e.files[i] == FileInfo(k, |held[k]|);
        assert keys[i] == k;
      }
    }
  }

  lemma RunKeyUnderDate(k: string, date: string, buckets: seq<Bucket>)
    requires InBuckets(k, date, buckets) && Segment(date)
    ensures HasPrefix(k, Lead(date))
    ensures GoesThrough(k, "", date)
  {
    var b, x :| b in buckets && k == ObjectKey(date, b.name, x);
    var rest := "storage/" + b.name + "/" + x;
    assert k == date + ['/'] + rest;
    SplitHead(date, rest, '/');
    assert k[0..] == k && k[..|date|+1] == Lead(date);
    assert PathOf(k) == [date] + PathOf(rest);
    assert Lead("") == "" && HasPrefix(k, Lead(""));
    assert Rest("", k) == PathOf(k);
  }

  /** The top level has room for one more entry in one answer. */
  ghost predicate RoomForOne(t: Target, before: Contents) {
    t.Cloud? ==> t.s3.fills && |TopEntries(before)| < 1000
  }

  /** Bytes are conserved: where nothing was at the date before and nothing fails, a run returns exactly the total the
      browser then shows for the date, if it shows the date. It shows nothing for an empty run unless an empty directory
      was left there before, and it does show the date of any other run as long as the names fit one answer. On a disk
      this takes names without "." and "..". */
  method BackupThenList(t: Target, date: string, buckets: seq<Bucket>)
    returns (ok: bool, total: nat, shown: seq<DateEntry>, ghost l: Ledger)
    requires t.Valid() && t.Online() && IsClear(t.Disk?, t.Held(), t.Strays(), date)
    requires Segment(date) && Ordinary(buckets) && Fetchable(buckets)
    modifies t.Footprint()
    ensures ok && t.Valid() && l.tried == RunKeys(date, buckets)
    ensures (t.Disk? ==> PlainNames(date, buckets)) ==>
              && (l.written == l.tried <==> (t.Disk? ==> forall b :: b in buckets ==> !SharesName(b)))
              && (forall e :: e in shown && e.date == date ==> e.total == total)
              && (HasEntry(shown, date) ==> RunKeys(date, buckets) != [] || date in old(t.Strays()))
              && (RoomForOne(t, old(t.Held())) ==>
                    (HasEntry(shown, date) <==> RunKeys(date, buckets) != [] || date in old(t.Strays())))
  {
    ghost var c := SceneOf(t, date, buckets, true);
    ghost var copied;
    ok, total, l, copied := CopyBuckets(t, date, buckets, true);
    assert buckets[..copied] == buckets;
    var listed := ListBackups(t);
    shown := listed.value;
    PlainNamesAreKeys(date, buckets);
    if t.Disk? ==> PlainNames(date, buckets) {
      WritesAllUnlessShared(c, t.Held(), t.Strays(), l, total);
      OneMoreTopEntry(c, t.Held(), t.Strays(), l, total);
      ShownRun(c, t.Held(), t.Strays(), l, total, shown, !t.ListsAll());
    }
  }

  lemma WrittenAreBelow(c: Scene, held: Contents, strays: set<string>, l: Ledger, total: nat)
    requires Undisturbed(c) && Accounted(c, held, strays, l, total) && l.tried == RunKeys(c.date, c.buckets) && Segment(c.date)
    ensures forall k :: k in l.written ==> k in held && GoesThrough(k, "", c.date)
    ensures Elements(l.written) == set k | k in held && HasPrefix(k, Lead(c.date))
  {
    RunKeysDistinct(c.date, c.buckets);
    forall k | k in l.written ensures k in held && HasPrefix(k, Lead(c.date)) && GoesThrough(k, "", c.date) {
      assert k in Elements(l.written);
      RunKeyUnderDate(k, c.date, c.buckets);
    }
    WrittenIsAllUnderDate(c.before, held, c.date, l.written);
  }

  /** What the browser's entries say about one date, when a run that nothing disturbed wrote everything there. */
  lemma ShownRun(c: Scene, held: Contents, strays: set<string>, l: Ledger, total: nat, shown: seq<DateEntry>, partial: bool)
    requires Undisturbed(c) && Accounted(c, held, strays, l, total) && l.tried == RunKeys(c.date, c.buckets) && Segment(c.date)
    requires ShowsDates(shown, Names(held, "") + TopLevel(strays), held, partial)
    ensures forall e :: e in shown && e.date == c.date ==> e.total == total
    ensures HasEntry(shown, c.date) ==> l.tried != [] || c.date in c.strays
    ensures !partial ==> (HasEntry(shown, c.date) <==> l.tried != [] || c.date in c.strays)
  {
    WrittenAreBelow(c, held, strays, l, total);
    forall e | e in shown && e.date == c.date ensures e.total == total {
      ShownTotal(held, e, l.written);
    }
    DateIsShown(held, c.date, l.written);
    if HasEntry(shown, c.date) {
      var e :| e in shown && e.date == c.date;
      assert e.date in Names(held, "") + TopLevel(strays);
    }
    if l.tried == [] && c.date in c.strays {
      StillEmpty(c, held, strays, l, total);
    }
  }

  /** An empty run leaves the empty directory of its date as it was. */
  lemma StillEmpty(c: Scene, held: Contents, strays: set<string>, l: Ledger, total: nat)
    requires Undisturbed(c) && Accounted(c, held, strays, l, total) && l.tried == RunKeys(c.date, c.buckets) && Segment(c.date)
    requires l.tried == [] && c.date in c.strays
    ensures c.date in TopLevel(strays)
  {
    WrittenAreBelow(c, held, strays, l, total);
    forall x | x in held ensures !HasPrefix(x, c.date + "/") {
      assert x !in Elements(l.written);
    }
  }

  /** A run adds at most its date to the top level. */
  lemma OneMoreTopEntry(c: Scene, held: Contents, strays: set<string>, l: Ledger, total: nat)
    requires Undisturbed(c) && Accounted(c, held, strays, l, total) && l.tried == RunKeys(c.date, c.buckets) && Segment(c.date)
    ensures |TopEntries(held)| <= |TopEntries(c.before)| + 1
  {
    WrittenAreBelow(c, held, strays, l, total);
    forall t | t in TopEntries(held) ensures t in TopEntries(c.before) + {c.date + "/"} {
      var x :| x in held && TopEntry(x) == t;
      if x in l.written {
        assert x[0..] == x;
      } else {
        assert x !in Elements(l.written) && x in c.before;
      }
    }
    SubsetIsSmaller(TopEntries(held), TopEntries(c.before) + {c.date + "/"});
  }

  lemma DateIsShown(held: Contents, date: string, written: seq<string>)
    requires date != "" && Elements(written) == set k | k in held && HasPrefix(k, Lead(date))
    requires forall k :: k in written ==> GoesThrough(k, "", date)
    ensures date in Names(held, "") <==> written != []
  {
    if date in Names(held, "") {
      var x :| x in held && GoesThrough(x, "", date);
      FirstSegmentLeads(x, date);
      assert x in Elements(written);
    }
    if written != [] {
      assert written[0] in written && written[0] in Elements(written);
    }
  }

  lemma FirstSegmentLeads(x: string, date: string)
    requires GoesThrough(x, "", date) && date != ""
    ensures HasPrefix(x, Lead(date))
  {
    assert x[0..] == x;
    KeyPath(x);
    assert Join(PathOf(x), '/') == date + ['/'] + Join(PathOf(x)[1..], '/');
  }

  lemma WrittenIsAllUnderDate(before: Contents, held: Contents, date: string, written: seq<string>)
    requires SameBut(before, held, Elements(written)) && forall k :: k in written ==> k in held && HasPrefix(k, Lead(date))
    requires forall k :: k in before ==> !HasPrefix(k, Lead(date))
    ensures Elements(written) == set k | k in held && HasPrefix(k, Lead(date))
  {
    forall k | k in held && HasPrefix(k, Lead(date)) ensures k in Elements(written) {}
  }
}
