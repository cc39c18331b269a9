/** A file system below one base directory: directories and files by path, and the calls the local and
    SFTP destinations make on it. */
module FileTree {
  import opened Text
  import opened KeySpace

  function Below(p: Path, nodes: set<Path>): set<Path> {
    set q | q in nodes && Under(p, q) && q != p
  }

  function Prefixes(p: Path): set<Path> {
    set i | 0 <= i <= |p| :: p[..i]
  }

  function Parent(p: Path): Path
    requires p != []
  {
    p[..|p|-1]
  }

  lemma UnderChild(p: Path, name: string, q: Path)
    ensures Under(p + [name], q) <==> Under(p, q) && p != q && q[|p|] == name
  {
    var c := p + [name];
    if Under(c, q) {
      assert q[..|p|] == q[..|c|][..|p|] == p;
    }
    if Under(p, q) && p != q && q[|p|] == name {
      assert q[..|c|] == q[..|p|] + [q[|p|]];
    }
  }

  lemma ChildShrinks(p: Path, name: string, nodes: set<Path>)
    requires p + [name] in nodes
    ensures |Below(p + [name], nodes)| < |Below(p, nodes)|
  {
    var c := p + [name];
    assert c in Below(p, nodes) && c !in Below(c, nodes);
    forall x | x in Below(c, nodes) ensures x in Below(p, nodes) {
      UnderChild(p, name, x);
    }
    SubsetIsSmaller(Below(c, nodes), Below(p, nodes));
  }

  /** A snapshot of the file system. */
  datatype Tree = Tree(dirs: set<Path>, files: map<Path, Bytes>) {
    ghost function Nodes(): set<Path> {
      dirs + files.Keys
    }
  }

  lemma ParentUnder(p: Path, q: Path)
    requires q != []
    ensures Under(p, Parent(q)) ==> Under(p, q)
  {
    if |p| < |q| { assert q[..|p|] == Parent(q)[..|p|]; }
  }

  /** Every directory but the base has a file below it. */
  ghost predicate TidyIn(dirs: set<Path>, files: map<Path, Bytes>) {
    forall d :: d in dirs && d != [] ==> exists f :: f in files && Under(d, f)
  }

  lemma TidyAfterPut(dirs: set<Path>, files: map<Path, Bytes>, p: Path, data: Bytes)
    requires p != [] && TidyIn(dirs, files)
    ensures TidyIn(dirs + Prefixes(Parent(p)), files[p := data])
    ensures p in dirs ==> TidyIn(dirs + Prefixes(Parent(p)), files)
  {
    forall d | d in dirs && d != [] ensures exists f :: f in files[p := data] && Under(d, f) {
      var f :| f in files && Under(d, f);
      assert f in files[p := data];
    }
    forall d | d in Prefixes(Parent(p)) ensures Under(d, p) {
      var i :| 0 <= i <= |Parent(p)| && Parent(p)[..i] == d;
      assert p[..i] == d;
    }
    assert p in files[p := data];
    if p in dirs {
      var f :| f in files && Under(p, f);
      forall d | Under(d, p) ensures Under(d, f) {
        assert f[..|d|] == f[..|p|][..|d|];
      }
    }
  }

  /** A base directory, and parents that are directories. */
  ghost predicate ValidIn(dirs: set<Path>, files: map<Path, Bytes>) {
    && [] in dirs
    && dirs !! files.Keys
    && (forall p :: p in dirs + files.Keys ==> OrdinaryPath(p))
    && (forall p :: p in dirs + files.Keys && p != [] ==> Parent(p) in dirs)
  }

  lemma RemovedIsValid(dirs: set<Path>, files: map<Path, Bytes>, p: Path)
    requires ValidIn(dirs, files)
    ensures ValidIn({[]} + set q | q in dirs && !Under(p, q), map q | q in files && !Under(p, q) :: files[q])
  {
    ParentsStay(dirs, dirs + files.Keys, p);
  }

  lemma ParentsStay(dirs: set<Path>, nodes: set<Path>, p: Path)
    requires forall q :: q in nodes && q != [] ==> Parent(q) in dirs
    ensures forall q :: q in nodes && q != [] && !Under(p, q) ==> Parent(q) in dirs && !Under(p, Parent(q))
  {
    forall q | q in nodes && q != [] && !Under(p, q) ensures !Under(p, Parent(q)) {
      ParentUnder(p, q);
    }
  }

  lemma TidyAfterRemove(dirs: set<Path>, files: map<Path, Bytes>, p: Path)
    requires |p| <= 1 && TidyIn(dirs, files)
    ensures TidyIn({[]} + set q | q in dirs && !Under(p, q), map q | q in files && !Under(p, q) :: files[q])
  {
    var left := map q | q in files && !Under(p, q) :: files[q];
    forall d | d in dirs && d != [] && !Under(p, d) ensures exists f :: f in left && Under(d, f) {
      var f :| f in files && Under(d, f);
      assert f[..1] == d[..1];
      assert f in left;
    }
  }

  class FileSystem {
    var dirs: set<Path>
    var files: map<Path, Bytes>
    /** A reliable file system fails only calls that cannot be carried out; any other may fail any call. */
    const reliable: bool

    constructor (reliable: bool)
      ensures Valid() && dirs == {[]} && files == map[] && this.reliable == reliable
    {
      dirs := {[]};
      files := map[];
      this.reliable := reliable;
    }

    ghost function Nodes(): set<Path>
      reads this
    {
      dirs + files.Keys
    }

    ghost function Now(): Tree
      reads this
    {
      Tree(dirs, files)
    }

    ghost predicate Valid()
      reads this
    {
      ValidIn(dirs, files)
    }

    ghost predicate Tidy()
      reads this
    {
      TidyIn(dirs, files)
    }

    ghost function ChildNames(p: Path): set<string>
      reads this
    {
      set q | q in Nodes() && |q| == |p| + 1 && Under(p, q) :: q[|p|]
    }

    lemma {:induction false} AncestorsAreDirs(p: Path, q: Path)
      requires Valid() && q in Nodes() && Under(p, q) && p != q
      ensures p in dirs
      decreases |q|
    {
      if |p| + 1 < |q| {
        assert Parent(q)[..|p|] == p;
        AncestorsAreDirs(p, Parent(q));
      } else {
        assert p == Parent(q);
      }
    }

    lemma ChildNameIsNode(p: Path, name: string)
      requires name in ChildNames(p)
      ensures p + [name] in Nodes()
    {
      var q :| q in Nodes() && |q| == |p| + 1 && Under(p, q) && q[|p|] == name;
      assert q == p + [name];
    }

    lemma ChildIsNode(p: Path, q: Path)
      requires Valid() && q in Nodes() && Under(p, q) && p != q
      ensures q[|p|] in ChildNames(p) && p + [q[|p|]] in Nodes() && Under(p + [q[|p|]], q)
    {
      var c := p + [q[|p|]];
      assert q[..|p|+1] == c;
      if c != q { AncestorsAreDirs(c, q); }
      assert c[..|p|] == p && c[|p|] == q[|p|];
    }

    // ---------- calls ----------

    /** `os.MkdirAll`. */
    method MkdirAll(p: Path) returns (ok: bool)
      requires Valid() && reliable && OrdinaryPath(p)
      modifies this`dirs
      ensures Valid()
      ensures ok <==> Prefixes(p) !! files.Keys
      ensures dirs == if ok then old(dirs) + Prefixes(p) else old(dirs)
    {
      ok := Prefixes(p) !! files.Keys;
      if ok {
        dirs := dirs + Prefixes(p);
        forall q | q in Nodes() && q != [] ensures Parent(q) in dirs {
          if q in Prefixes(p) {
            var i :| 0 <= i <= |p| && p[..i] == q;
            assert Parent(q) == p[..i-1];
          }
        }
        assert [] == p[..0];
      }
    }

    /** `os.Create` and a copy of the data into the file. */
    method WriteFile(p: Path, data: Bytes) returns (ok: bool)
      requires Valid() && reliable && OrdinaryPath(p)
      modifies this`files
      ensures Valid()
      ensures ok <==> p != [] && p !in dirs && Parent(p) in dirs
      ensures files == if ok then old(files)[p := data] else old(files)
    {
      ok := p != [] && p !in dirs && Parent(p) in dirs;
      if ok {
        files := files[p := data];
      }
    }

    /** Why a file cannot be put at `p`: something above it is a file, or it is itself a directory. */
    ghost predicate Blocked(p: Path)
      requires p != []
      reads this
    {
      p in dirs || exists f :: f in files && Under(f, p) && f != p
    }

    lemma BlockedAbove(p: Path)
      requires p != []
      ensures Prefixes(Parent(p)) !! files.Keys <==> !exists f :: f in files && Under(f, p) && f != p
    {
      if f :| f in files && Under(f, p) && f != p {
        assert Parent(p)[..|f|] == f;
        assert f in Prefixes(Parent(p));
      }
      if f :| f in Prefixes(Parent(p)) && f in files {
        var i :| 0 <= i <= |Parent(p)| && Parent(p)[..i] == f;
        assert p[..i] == f;
      }
    }

    lemma PrefixesAreDirs(p: Path)
      requires Valid() && p != [] && p in dirs
      ensures Prefixes(Parent(p)) <= dirs
    {
      forall d | d in Prefixes(Parent(p)) ensures d in dirs {
        var i :| 0 <= i <= |Parent(p)| && Parent(p)[..i] == d;
        assert p[..i] == d;
        AncestorsAreDirs(d, p);
      }
    }

    /** The calls of the destinations' `Write`: the directories above, then the file. */
    method PutFile(p: Path, data: Bytes) returns (ok: bool)
      requires Valid() && reliable && OrdinaryPath(p) && p != []
      modifies this`dirs, this`files
      ensures Valid()
      ensures ok <==> !old(Blocked(p))
      ensures files == if ok then old(files)[p := data] else old(files)
      ensures dirs == if ok then old(dirs) + Prefixes(Parent(p)) else old(dirs)
      ensures old(Tidy()) ==> Tidy()
    {
      BlockedAbove(p);
      assert OrdinaryPath(Parent(p));
      if p in dirs { PrefixesAreDirs(p); }
      ok := MkdirAll(Parent(p));
      if ok {
        assert Parent(p) == Parent(p)[..|Parent(p)|];
        assert p !in Prefixes(Parent(p));
        ok := WriteFile(p, data);
      }
      if old(Tidy()) {
        TidyAfterPut(old(dirs), old(files), p, data);
      }
    }

    /** `os.RemoveAll`: a missing path is no error. The base directory itself is taken to remain. */
    method RemoveAll(p: Path)
      requires Valid() && reliable
      modifies this`dirs, this`files
      ensures Valid()
      ensures dirs == {[]} + set q | q in old(dirs) && !Under(p, q)
      ensures files == map q | q in old(files) && !Under(p, q) :: old(files)[q]
      ensures old(Tidy()) && |p| <= 1 ==> Tidy()
    {
      RemovedIsValid(dirs, files, p);
      dirs := {[]} + set q | q in dirs && !Under(p, q);
      files := map q | q in files && !Under(p, q) :: files[q];
      if old(Tidy()) && |p| <= 1 {
        TidyAfterRemove(old(dirs), old(files), p);
      }
    }

    /** `ReadDir`: the names of a directory's entries, each once. */
    method ReadDir(p: Path) returns (r: Result<seq<string>>)
      requires Valid()
      ensures r.Ok? ==> p in dirs && Distinct(r.value) && (forall n :: n in r.value <==> n in ChildNames(p))
      ensures reliable && p in dirs ==> r.Ok?
    {
      var fails: bool := *;
      if p !in dirs || (fails && !reliable) {
        return Err;
      }
      var left := set q | q in dirs + files.Keys && |q| == |p| + 1 && Under(p, q) :: q[|p|];
      var names: seq<string> := [];
      while left != {}
        invariant Distinct(names)
        invariant forall n :: n in ChildNames(p) <==> n in left || n in names
        invariant forall n :: n in names ==> n !in left
        decreases |left|
      {
        var n :| n in left;
        left := left - {n};
        names := names + [n];
      }
      return Ok(names);
    }

    /** The names among a directory's entries that are directories themselves. */
    method DirNames(p: Path) returns (r: Result<seq<string>>)
      requires Valid()
      ensures r.Ok? ==> p in dirs && Distinct(r.value) && (forall n :: n in r.value <==> p + [n] in dirs)
      ensures reliable && p in dirs ==> r.Ok?
    {
      var entries := ReadDir(p);
      if entries.Err? {
        return Err;
      }
      var all := entries.value;
      var names: seq<string> := [];
      var i := 0;
      while i < |all|
        invariant 0 <= i <= |all|
        invariant Distinct(names)
        invariant forall n :: n in names <==> n in all[..i] && p + [n] in dirs
      {
        assert all[..i+1] == all[..i] + [all[i]];
        assert forall j :: 0 <= j < i ==> all[..i][j] == all[j];
        if p + [all[i]] in dirs {
          assert all[i] !in names;
          names := names + [all[i]];
        }
        i := i + 1;
      }
      assert all[..i] == all;
      forall n | p + [n] in dirs ensures n in all {
        assert (p + [n])[..|p|] == p && (p + [n])[|p|] == n;
      }
      return Ok(names);
    }

    ghost function FilesUnder(p: Path): set<Path>
      reads this
    {
      set f | f in files && Under(p, f)
    }

    /** The files below `p` that are reached through one of the given entries. */
    ghost function FilesVia(p: Path, names: seq<string>): set<Path>
      reads this
    {
      set f | f in files && Under(p, f) && f != p && f[|p|] in names
    }

    lemma FilesViaOne(p: Path, names: seq<string>, name: string)
      requires Valid() && name !in names
      ensures FilesVia(p, names + [name]) == FilesVia(p, names) + FilesUnder(p + [name])
      ensures FilesVia(p, names) !! FilesUnder(p + [name])
    {
      var c := p + [name];
      forall f ensures Under(c, f) <==> Under(p, f) && f != p && f[|p|] == name {
        UnderChild(p, name, f);
      }
    }

    lemma FilesViaAll(p: Path, names: seq<string>)
      requires Valid() && p in dirs
      requires forall n :: n in names <==> n in ChildNames(p)
      ensures FilesVia(p, names) == FilesUnder(p)
    {
      forall f | f in FilesUnder(p) ensures f in FilesVia(p, names) {
        ChildIsNode(p, f);
      }
    }

    lemma NotADirectory(p: Path)
      requires Valid() && p !in dirs
      ensures FilesUnder(p) == if p in files then {p} else {}
    {
      forall f | f in FilesUnder(p) ensures f == p {
        if f != p { AncestorsAreDirs(p, f); }
      }
    }

    /** `filepath.WalkDir` from `p`, as the list of files it visits: each file at or below `p` once. */
    method Walk(p: Path) returns (found: seq<Path>)
      requires Valid() && reliable
      ensures Distinct(found) && Elements(found) == FilesUnder(p)
      decreases |Below(p, Nodes())|
    {
      if p !in dirs {
        NotADirectory(p);
        found := if p in files then [p] else [];
        return;
      }
      var listed := ReadDir(p);
      var names := listed.value;
      found := [];
      var i := 0;
      while i < |names|
        invariant 0 <= i <= |names|
        invariant Distinct(found) && Elements(found) == FilesVia(p, names[..i])
      {
        assert names[..i+1] == names[..i] + [names[i]];
        assert forall j :: 0 <= j < i ==> names[..i][j] == names[j];
        ChildNameIsNode(p, names[i]);
        ChildShrinks(p, names[i], Nodes());
        var sub := Walk(p + [names[i]]);
        FilesViaOne(p, names[..i], names[i]);
        DistinctAppend(found, sub);
        found := found + sub;
        i := i + 1;
      }
      assert names[..i] == names;
      FilesViaAll(p, names);
    }

    /** `client.Remove`: a file, or an empty directory. */
    method Remove(p: Path) returns (ok: bool)
      requires Valid() && p != []
      modifies this`dirs, this`files
      ensures Valid()
      ensures ok ==> p in old(Nodes()) && Below(p, old(Nodes())) == {}
      ensures Now() == if ok then Tree(old(dirs) - {p}, old(files) - {p}) else old(Now())
      ensures reliable && p in old(Nodes()) && Below(p, old(Nodes())) == {} ==> ok
    {
      var fails: bool := *;
      if (fails && !reliable) || p !in dirs + files.Keys || Below(p, dirs + files.Keys) != {} {
        return false;
      }
      assert forall q :: q in Nodes() && q != [] && q != p ==> Parent(q) != p by {
        forall q | q in Nodes() && q != [] && q != p ensures Parent(q) != p {
          assert q !in Below(p, Nodes());
        }
      }
      dirs := dirs - {p};
      files := files - {p};
      return true;
    }

    /** `client.RemoveDirectory`: an empty directory only. */
    method RemoveDirectory(p: Path) returns (ok: bool)
      requires Valid() && p != []
      modifies this`dirs, this`files
      ensures Valid()
      ensures ok ==> p in old(dirs) && Below(p, old(Nodes())) == {}
      ensures Now() == if ok then Tree(old(dirs) - {p}, old(files) - {p}) else old(Now())
      ensures files == old(files)
      ensures reliable && p in old(dirs) && Below(p, old(Nodes())) == {} ==> ok
    {
      if p !in dirs {
        return false;
      }
      ok := Remove(p);
      assert files == old(files);
    }
  }
}
