/** The contract all destinations share, stated on one map from slash-separated keys to bytes, and the
    correspondence between such keys and file paths. */
module KeySpace {
  import opened Text

  newtype Byte = x: int | 0 <= x < 256
  type Bytes = seq<Byte>
  type Path = seq<string>
  type Contents = map<string, Bytes>

  datatype FileInfo = FileInfo(key: string, size: nat)

  // ---------- keys and paths ----------

  predicate Segment(s: string) {
    s != "" && s != "." && s != ".." && '/' !in s
  }

  predicate OrdinaryPath(p: Path) {
    forall s :: s in p ==> Segment(s)
  }

  function PathOf(key: string): (p: Path)
    ensures |p| >= 1
  {
    Split(key, '/')
  }

  function KeyOf(p: Path): string {
    Join(p, '/')
  }

  /** A key whose path survives `filepath.Join` unchanged. */
  predicate OrdinaryKey(key: string) {
    OrdinaryPath(PathOf(key))
  }

  lemma OrdinaryConcat(p: Path, q: Path)
    ensures OrdinaryPath(p + q) <==> OrdinaryPath(p) && OrdinaryPath(q)
  {
    assert forall s :: s in p + q <==> s in p || s in q;
  }

  /** A key of two parts is ordinary exactly when both are. */
  lemma OrdinaryJoin(a: string, b: string)
    ensures OrdinaryKey(a + "/" + b) <==> OrdinaryKey(a) && OrdinaryKey(b)
  {
    SplitConcat(a, b);
    OrdinaryConcat(PathOf(a), PathOf(b));
  }

  lemma OrdinarySegment(s: string)
    requires '/' !in s
    ensures OrdinaryKey(s) <==> Segment(s)
  {
    SplitPlain(s, '/');
    assert s in [s];
  }

  /** `q` is `p` or lies below it. */
  predicate Under(p: Path, q: Path) {
    |p| <= |q| && q[..|p|] == p
  }

  lemma PathKey(p: Path)
    requires OrdinaryPath(p) && p != []
    ensures PathOf(KeyOf(p)) == p && OrdinaryKey(KeyOf(p))
  {
    SplitJoin(p, '/');
  }

  lemma KeyPath(key: string)
    ensures KeyOf(PathOf(key)) == key
  {
    JoinSplit(key, '/');
  }

  lemma {:induction false} SplitConcat(a: string, b: string)
    ensures Split(a + "/" + b, '/') == Split(a, '/') + Split(b, '/')
  {
    var whole := a + "/" + b;
    if a == [] {
      assert whole[1..] == b;
    } else {
      SplitConcat(a[1..], b);
      assert whole[0] == a[0] && whole[1..] == a[1..] + "/" + b;
      assert Split(whole, '/') == Grow(a[0], Split(whole[1..], '/'));
      assert Split(a, '/') == Grow(a[0], Split(a[1..], '/'));
      PrependPart(a[0], Split(a[1..], '/'), Split(b, '/'));
    }
  }

  /** One character put before the parts of the rest, the step of `Split`. */
  function Grow(c: char, parts: seq<string>): seq<string>
    requires parts != []
  {
    if c == '/' then [""] + parts else [[c] + parts[0]] + parts[1..]
  }

  lemma PrependPart(c: char, p: seq<string>, q: seq<string>)
    requires p != []
    ensures Grow(c, p + q) == Grow(c, p) + q
  {
    assert (p + q)[1..] == p[1..] + q;
  }

  lemma {:induction false} JoinConcat(p: Path, q: Path)
    requires p != [] && q != []
    ensures KeyOf(p + q) == KeyOf(p) + "/" + KeyOf(q)
  {
    if |p| == 1 {
      assert (p + q)[1..] == q;
    } else {
      assert (p + q)[1..] == p[1..] + q;
      JoinConcat(p[1..], q);
    }
  }

  /** A key lies below another, as strings with the separator, exactly when its path does: a sibling whose
      name merely starts with the same characters never matches. */
  lemma KeyPrefixIsPathPrefix(a: string, b: string)
    ensures HasPrefix(b, a + "/") <==> Under(PathOf(a), PathOf(b)) && PathOf(a) != PathOf(b)
  {
    var p, q := PathOf(a), PathOf(b);
    if HasPrefix(b, a + "/") {
      var rest := b[|a|+1..];
      assert b == a + "/" + rest;
      SplitConcat(a, rest);
    }
    if Under(p, q) && p != q {
      KeyPath(a);
      KeyPath(b);
      assert q == p + q[|p|..];
      JoinConcat(p, q[|p|..]);
    }
  }

  // ---------- filepath.Join ----------

  /** The steps of a path from a directory below the base: empty parts and "." stay, ".." climbs. None when it
      climbs above the base directory. */
  function Walked(parts: seq<string>, at: Path): Option<Path>
    decreases |parts|
  {
    if parts == [] then Some(at)
    else if parts[0] == "" || parts[0] == "." then Walked(parts[1..], at)
    else if parts[0] == ".." then if at == [] then None else Walked(parts[1..], at[..|at|-1])
    else Walked(parts[1..], at + [parts[0]])
  }

  /** Where `filepath.Join` of the base directory and a key leads. */
  function Resolve(key: string): Option<Path> {
    Walked(PathOf(key), [])
  }

  /** The key in the spelling that `filepath.Join` gives it. */
  function Clean(key: string): string
    requires Resolve(key).Some?
  {
    KeyOf(Resolve(key).value)
  }

  /** The path below the base directory; the empty key is the base itself. */
  function DirOf(key: string): Path {
    if key == "" then [] else PathOf(key)
  }

  lemma {:induction false} WalkedIsOrdinary(parts: seq<string>, at: Path)
    requires OrdinaryPath(at) && forall s :: s in parts ==> '/' !in s
    ensures Walked(parts, at).Some? ==> OrdinaryPath(Walked(parts, at).value)
    decreases |parts|
  {
    if parts != [] {
      var s := parts[0];
      assert s in parts;
      if s == "" || s == "." {
        WalkedIsOrdinary(parts[1..], at);
      } else if s != ".." {
        WalkedIsOrdinary(parts[1..], at + [s]);
      } else if at != [] {
        WalkedIsOrdinary(parts[1..], at[..|at|-1]);
      }
    }
  }

  lemma {:induction false} OrdinaryIsWalked(parts: Path, at: Path)
    requires OrdinaryPath(parts)
    ensures Walked(parts, at) == Some(at + parts)
    decreases |parts|
  {
    if parts == [] {
      assert at + parts == at;
    } else {
      assert Segment(parts[0]);
      OrdinaryIsWalked(parts[1..], at + [parts[0]]);
      assert at + [parts[0]] + parts[1..] == at + parts;
    }
  }

  /** A cleaned key is ordinary or empty and leads to the same place; ordinary keys and the empty one are clean,
      and no other key is. */
  lemma CleanKeys(key: string)
    ensures OrdinaryKey(key) || key == "" ==> Resolve(key) == Some(DirOf(key)) && Clean(key) == key
    ensures Resolve(key).Some? ==>
              && (OrdinaryKey(Clean(key)) || Clean(key) == "")
              && DirOf(Clean(key)) == Resolve(key).value
              && (Clean(key) == key <==> OrdinaryKey(key) || key == "")
  {
    JoinSplit(key, '/');
    WalkedIsOrdinary(PathOf(key), []);
    if OrdinaryKey(key) {
      OrdinaryIsWalked(PathOf(key), []);
      assert [] + PathOf(key) == PathOf(key);
      EmptyIsNotOrdinary();
    } else if key == "" {
      SplitPlain("", '/');
      assert Walked([""], []) == Walked([], []);
    }
    if Resolve(key).Some? && Resolve(key).value != [] {
      PathKey(Resolve(key).value);
      EmptyIsNotOrdinary();
    }
  }

  lemma PartAhead(s: string, key: string)
    requires '/' !in s
    ensures PathOf(s + "/" + key) == [s] + PathOf(key)
  {
    SplitConcat(s, key);
    SplitPlain(s, '/');
  }

  lemma FirstStep(s: string, parts: seq<string>, at: Path)
    ensures Walked([s] + parts, at) ==
              if s == "" || s == "." then Walked(parts, at)
              else if s != ".." then Walked(parts, at + [s])
              else if at == [] then None
              else Walked(parts, at[..|at|-1])
  {
    assert ([s] + parts)[1..] == parts;
  }

  /** Spellings that lead to the same place, and one that climbs above the base directory. */
  lemma Spellings(s: string, key: string)
    requires Segment(s)
    ensures Resolve("./" + key) == Resolve(key)
    ensures Resolve("/" + key) == Resolve(key)
    ensures Resolve(s + "/../" + key) == Resolve(key)
    ensures Resolve("../" + key) == None
  {
    PartAhead(".", key);
    FirstStep(".", PathOf(key), []);
    assert "." + "/" + key == "./" + key;
    PartAhead("", key);
    FirstStep("", PathOf(key), []);
    assert "" + "/" + key == "/" + key;
    PartAhead("..", key);
    FirstStep("..", PathOf(key), []);
    assert ".." + "/" + key == "../" + key;
    PartAhead(s, "../" + key);
    assert s + "/" + ("../" + key) == s + "/../" + key;
    FirstStep(s, [".."] + PathOf(key), []);
    FirstStep("..", PathOf(key), [s]);
    assert [] + [s] == [s] && [s][..0] == [];
  }

  lemma EmptyIsNotOrdinary()
    ensures !OrdinaryKey("")
  {
    SplitPlain("", '/');
    assert "" in PathOf("") && !Segment("");
  }

  /** Nothing ordinary lies below a key that is not ordinary itself. */
  lemma OrdinaryBelow(key: string, x: string)
    requires OrdinaryKey(x) && HasPrefix(x, key + "/")
    ensures OrdinaryKey(key)
  {
    KeyPrefixIsPathPrefix(key, x);
    forall s | s in PathOf(key) ensures Segment(s) {
      var i :| 0 <= i < |PathOf(key)| && PathOf(key)[i] == s;
      assert PathOf(x)[i] == s;
    }
  }

  // ---------- the common contract ----------

  /** Everything a listing under `prefix` sees starts with this. */
  function Lead(prefix: string): string {
    if prefix == "" then "" else prefix + "/"
  }

  /** Two keys that cannot both be files in a tree: one would have to be a directory of the other. */
  ghost predicate Conflict(m: Contents, key: string) {
    exists x :: x in m && (HasPrefix(key, x + "/") || HasPrefix(x, key + "/"))
  }

  /** Only entries under the given keys differ. */
  ghost predicate SameBut(a: Contents, b: Contents, keys: set<string>) {
    forall k :: k !in keys ==> (k in a <==> k in b) && (k in a ==> a[k] == b[k])
  }

  /** All keys are spelled as a tree spells them. */
  ghost predicate PlainKeys(m: Contents) {
    forall k :: k in m ==> OrdinaryKey(k)
  }

  /** What the keys of a tree are like: spelled clean, and none a directory of another. */
  ghost predicate TreeKeys(m: Contents) {
    PlainKeys(m) && forall k :: k in m ==> !Conflict(m, k)
  }

  /** Why a tree with some empty directories (`strays`) cannot hold a file at a clean key: it is the base, a
      directory, or lies below a file. */
  ghost predicate Blocked(m: Contents, strays: set<string>, key: string) {
    key == "" || Conflict(m, key) || key in strays
  }

  /** The empty directories that are still empty. */
  ghost function StraysLeft(strays: set<string>, m: Contents): set<string> {
    set d | d in strays && !IsDir(m, d)
  }

  /** Those of them at the top level. */
  function TopLevel(strays: set<string>): set<string> {
    set d | d in strays && '/' !in d
  }

  /** What a write of `data` may do: nothing else changes and nothing goes; a refused one changes nothing at all; one
      that succeeds has stored the data. A failed one may have left anything at its own place. */
  ghost predicate StoredAt(before: Contents, after: Contents, place: string, data: Bytes, refused: bool, r: Result<nat>) {
    && before.Keys <= after.Keys && SameBut(before, after, {place})
    && (refused ==> r.Err? && after == before)
    && (r.Ok? ==> after == before[place := data] && r.value == |data|)
  }

  /** The contents after everything at or below a clean key is gone; the empty key is the base of all. */
  function DropAt(m: Contents, key: string): Contents {
    if key == "" then map[] else DropTree(m, key)
  }

  /** The contents after everything below `key` is gone, and `key` itself if it is a file. */
  function DropTree(m: Contents, key: string): Contents {
    map x | x in m && x != key && !HasPrefix(x, key + "/") :: m[x]
  }

  /** The contents after everything below `key` is gone but for some spared keys; a file `key` stays. */
  function DropBelow(m: Contents, key: string, spared: set<string>): Contents {
    map x | x in m && (!HasPrefix(x, key + "/") || x in spared) :: m[x]
  }

  /** The key names a directory: the base, or something above a stored key. */
  ghost predicate IsDir(m: Contents, key: string) {
    key == "" || exists x :: x in m && HasPrefix(x, key + "/")
  }

  predicate NothingBelow(m: Contents, key: string) {
    forall x :: x in m ==> !HasPrefix(x, key + "/")
  }

  /** Some directory on the way to the key is a stored file. */
  ghost predicate ThroughFile(m: Contents, key: string) {
    exists x :: x in m && HasPrefix(key, x + "/")
  }

  lemma NotThrough(m: Contents, name: string)
    requires '/' !in name
    ensures !ThroughFile(m, name)
  {
    forall x | x in m ensures !HasPrefix(name, x + "/") {
      if |x| < |name| {
        assert name[..|x|+1][|x|] == name[|x|] && name[|x|] in name;
        assert (x + "/")[|x|] == '/';
      }
    }
  }

  /** What remains of a key below `prefix`, as a path. */
  function Rest(prefix: string, x: string): (p: Path)
    requires HasPrefix(x, Lead(prefix))
    ensures |p| >= 1
  {
    PathOf(x[|Lead(prefix)|..])
  }

  predicate GoesThrough(x: string, prefix: string, n: string) {
    HasPrefix(x, Lead(prefix)) && |Rest(prefix, x)| > 1 && Rest(prefix, x)[0] == n
  }

  /** The directory names directly under `prefix`: the `List` answer. */
  function Names(m: Contents, prefix: string): (names: set<string>)
    ensures forall n :: n in names <==> n != "" && exists x :: x in m && GoesThrough(x, prefix, n)
  {
    set x | x in m && HasPrefix(x, Lead(prefix)) && |Rest(prefix, x)| > 1 && Rest(prefix, x)[0] != "" :: Rest(prefix, x)[0]
  }

  /** How a key shows among the top-level entries: as its directory, or itself. */
  function TopEntry(x: string): string {
    if |PathOf(x)| > 1 then PathOf(x)[0] + "/" else x
  }

  function TopEntries(m: Contents): set<string> {
    set x | x in m :: TopEntry(x)
  }

  /** What a destination may answer to `List("")`: some of the top-level directory names, among them perhaps empty
      directories (`strays`), and all of them when the answer is `whole`. */
  ghost predicate AnswersNames(names: seq<string>, m: Contents, strays: set<string>, whole: bool) {
    && Distinct(names) && Elements(names) <= Names(m, "") + strays
    && (whole ==> Elements(names) == Names(m, "") + strays)
  }

  /** The files below `prefix` with their sizes: the `ListFiles` answer. */
  function Files(m: Contents, prefix: string): set<FileInfo> {
    set x | x in m && HasPrefix(x, Lead(prefix)) :: FileInfo(x, |m[x]|)
  }

  /** The files at or below a path: the answer of a directory tree, where the prefix may itself be a file. */
  function FilesAt(m: Contents, key: string): set<FileInfo> {
    Files(m, key) + if key in m then {FileInfo(key, |m[key]|)} else {}
  }

  ghost predicate DistinctKeys(files: seq<FileInfo>) {
    forall i, j :: 0 <= i < j < |files| ==> files[i].key != files[j].key
  }

  function Infos(files: seq<FileInfo>): set<FileInfo> {
    set f | f in files
  }
}
