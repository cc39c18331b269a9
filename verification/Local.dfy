/** The local destination: files in a directory tree. */
module Local {
  import opened Text
  import opened KeySpace
  import opened FileTree

  /** The key is the prefix itself or lies below it. */
  predicate AtOrBelow(prefix: string, k: string) {
    k == prefix || HasPrefix(k, Lead(prefix))
  }

  lemma FilesAtOrBelow(m: Contents, prefix: string)
    ensures FilesAt(m, prefix) == set k | k in m && AtOrBelow(prefix, k) :: FileInfo(k, |m[k]|)
  {
  }

  /** Files by path, read as files by key. */
  ghost function HeldIn(files: map<Path, Bytes>): (m: Contents)
    requires forall p :: p in files ==> OrdinaryPath(p) && p != []
    ensures forall k :: k in m <==> PathOf(k) in files
    ensures forall k :: k in m ==> m[k] == files[PathOf(k)]
  {
    var keys := set p | p in files :: KeyOf(p);
    assert forall k :: k in keys <==> PathOf(k) in files by {
      forall p | p in files ensures PathOf(KeyOf(p)) == p { PathKey(p); }
      forall k ensures KeyOf(PathOf(k)) == k { KeyPath(k); }
    }
    map k | k in keys :: files[PathOf(k)]
  }

  lemma HeldPut(files: map<Path, Bytes>, key: string, data: Bytes)
    requires forall p :: p in files ==> OrdinaryPath(p) && p != []
    requires OrdinaryKey(key)
    ensures HeldIn(files[PathOf(key) := data]) == HeldIn(files)[key := data]
  {
    forall k ensures PathOf(k) == PathOf(key) <==> k == key {
      KeyPath(k);
      KeyPath(key);
    }
  }

  lemma HeldDrop(files: map<Path, Bytes>, rest: map<Path, Bytes>, key: string)
    requires forall p :: p in files ==> OrdinaryPath(p) && p != []
    requires rest == map q | q in files && !Under(DirOf(key), q) :: files[q]
    ensures HeldIn(rest) == DropAt(HeldIn(files), key)
  {
    if key != "" {
      forall k ensures Under(PathOf(key), PathOf(k)) <==> k == key || HasPrefix(k, key + "/") {
        KeyPrefixIsPathPrefix(key, k);
        KeyPath(k);
        KeyPath(key);
      }
    }
  }

  /** The directories but the base without any file below, by key. */
  ghost function StraysIn(dirs: set<Path>, files: map<Path, Bytes>): set<string> {
    set d | d in dirs && d != [] && (forall f :: f in files ==> !Under(d, f)) :: KeyOf(d)
  }

  lemma StrayIs(dirs: set<Path>, files: map<Path, Bytes>, key: string)
    requires forall d :: d in dirs ==> OrdinaryPath(d)
    ensures key in StraysIn(dirs, files) <==> PathOf(key) in dirs && forall f :: f in files ==> !Under(PathOf(key), f)
  {
    if key in StraysIn(dirs, files) {
      var d :| d in dirs && d != [] && (forall f :: f in files ==> !Under(d, f)) && KeyOf(d) == key;
      PathKey(d);
    }
    KeyPath(key);
  }

  lemma LeadIsDir(prefix: string, key: string)
    ensures HasPrefix(key, Lead(prefix)) <==> Under(DirOf(prefix), PathOf(key)) && DirOf(prefix) != PathOf(key)
    ensures HasPrefix(key, Lead(prefix)) ==> PathOf(key) == DirOf(prefix) + PathOf(key[|Lead(prefix)|..])
  {
    if prefix == "" {
      assert key[0..] == key;
    } else {
      KeyPrefixIsPathPrefix(prefix, key);
      if HasPrefix(key, Lead(prefix)) {
        var rest := key[|Lead(prefix)|..];
        assert key == prefix + "/" + rest;
        SplitConcat(prefix, rest);
      }
    }
  }

  /** What opening a path gives: a file with its bytes, or a directory, whose bytes cannot be read. */
  datatype Handle = FileHandle(data: Bytes) | DirHandle

  class LocalDest {
    const fs: FileSystem

    constructor ()
      ensures Valid() && fresh(fs) && fs.Tidy() && Held() == map[]
    {
      fs := new FileSystem(true);
    }

    ghost predicate Valid()
      reads fs
    {
      fs.Valid() && fs.reliable
    }

    /** The files as a map from slash-separated keys. */
    ghost function Held(): Contents
      requires Valid()
      reads fs
    {
      HeldIn(fs.files)
    }

    lemma KeyBelowFile(f: Path, key: string)
      requires Valid() && f in fs.files
      ensures KeyOf(f) in Held()
      ensures HasPrefix(key, KeyOf(f) + "/") <==> Under(f, PathOf(key)) && f != PathOf(key)
      ensures HasPrefix(KeyOf(f), key + "/") <==> Under(PathOf(key), f) && f != PathOf(key)
    {
      PathKey(f);
      KeyPrefixIsPathPrefix(KeyOf(f), key);
      KeyPrefixIsPathPrefix(key, KeyOf(f));
    }

    /** Directories without any file below, which a write that failed half way leaves behind. */
    ghost function Strays(): set<string>
      requires Valid()
      reads fs
    {
      StraysIn(fs.dirs, fs.files)
    }

    lemma TidyHasNoStrays()
      requires Valid() && fs.Tidy()
      ensures Strays() == {}
    {
    }

    /** The directories are what the stored keys and the strays say. */
    lemma DirsOfKeys(key: string)
      requires Valid() && (OrdinaryKey(key) || key == "")
      ensures key in Held() <==> DirOf(key) in fs.files
      ensures DirOf(key) in fs.dirs <==> IsDir(Held(), key) || key in Strays()
      ensures key in Strays() ==> key != "" && !IsDir(Held(), key)
      ensures ThroughFile(Held(), key) <==> exists f :: f in fs.files && Under(f, DirOf(key)) && f != DirOf(key)
    {
      NoEmptyKey();
      StrayIs(fs.dirs, fs.files, key);
      if key != "" {
        if x :| x in Held() && HasPrefix(x, key + "/") {
          KeyPath(x);
          KeyBelowFile(PathOf(x), key);
          fs.AncestorsAreDirs(PathOf(key), PathOf(x));
        }
        if f :| PathOf(key) in fs.dirs && f in fs.files && Under(PathOf(key), f) {
          KeyBelowFile(f, key);
        }
      }
      if x :| x in Held() && HasPrefix(key, x + "/") {
        KeyPath(x);
        KeyBelowFile(PathOf(x), key);
      }
      if f :| f in fs.files && Under(f, DirOf(key)) && f != DirOf(key) {
        KeyBelowFile(f, key);
      }
    }

    /** The calls of `Write` fail exactly on a key that conflicts with a stored one or is an empty directory. */
    lemma BlockedIsConflict(key: string)
      requires Valid() && OrdinaryKey(key)
      ensures Blocked(Held(), Strays(), key) <==> fs.Blocked(PathOf(key))
      ensures fs.Tidy() ==> (Conflict(Held(), key) <==> fs.Blocked(PathOf(key)))
    {
      EmptyIsNotOrdinary();
      DirsOfKeys(key);
      if fs.Tidy() { TidyHasNoStrays(); }
      if x :| x in Held() && HasPrefix(x, key + "/") { assert IsDir(Held(), key); }
    }

    /** What a stored file does to the empty directories: those above it are empty no longer. */
    lemma StraysAfterPut(dirs: set<Path>, files: map<Path, Bytes>, key: string, data: Bytes)
      requires (forall d :: d in dirs ==> OrdinaryPath(d)) && (forall f :: f in files ==> OrdinaryPath(f) && f != [])
      requires OrdinaryKey(key) && PathOf(key) !in dirs
      ensures var p, put := PathOf(key), files[PathOf(key) := data];
              StraysIn(dirs + Prefixes(Parent(p)), put) == StraysLeft(StraysIn(dirs, files), HeldIn(put))
    {
      var p, put := PathOf(key), files[PathOf(key) := data];
      forall s ensures s in StraysIn(dirs + Prefixes(Parent(p)), put) <==> s in StraysLeft(StraysIn(dirs, files), HeldIn(put)) {
        StrayAfterPut(dirs, files, p, data, s);
      }
    }

    lemma StrayAfterPut(dirs: set<Path>, files: map<Path, Bytes>, p: Path, data: Bytes, s: string)
      requires (forall d :: d in dirs ==> OrdinaryPath(d)) && (forall f :: f in files ==> OrdinaryPath(f) && f != [])
      requires OrdinaryPath(p) && p != [] && p !in dirs
      ensures var put := files[p := data];
              s in StraysIn(dirs + Prefixes(Parent(p)), put) <==> s in StraysLeft(StraysIn(dirs, files), HeldIn(put))
    {
      var put, more := files[p := data], dirs + Prefixes(Parent(p));
      forall d | d in Prefixes(Parent(p)) ensures Under(d, p) && OrdinaryPath(d) {
        var i :| 0 <= i <= |Parent(p)| && Parent(p)[..i] == d;
        assert p[..i] == d;
      }
      StrayIs(dirs, files, s);
      StrayIs(more, put, s);
      assert p in put;
      if s in StraysIn(dirs, files) {
        EmptyIsNotOrdinary();
        if x :| x in HeldIn(put) && HasPrefix(x, s + "/") {
          KeyPrefixIsPathPrefix(s, x);
          assert PathOf(x) in put;
        }
        if f :| f in put && Under(PathOf(s), f) {
          assert f == p;
          PathKey(p);
          KeyPrefixIsPathPrefix(s, KeyOf(p));
          assert KeyOf(p) in HeldIn(put);
        }
      }
    }

    /** `Write` to the place that the cleaned key names, reading `data` and then either the end of the stream or, when
        `broken`, an error. What was read before an error stays in the file. A blocked place leaves everything as it
        was. Nothing is said of a key that climbs above the base directory. */
    method Write(key: string, data: Bytes, broken: bool) returns (r: Result<nat>)
      requires Valid()
      modifies fs
      ensures Valid() && (old(fs.Tidy()) ==> fs.Tidy())
      ensures Resolve(key).Some? && Blocked(old(Held()), old(Strays()), Clean(key)) ==>
                r == Err && Held() == old(Held()) && Strays() == old(Strays())
      ensures Resolve(key).Some? && !Blocked(old(Held()), old(Strays()), Clean(key)) ==>
                && r == (if broken then Err else Ok(|data|))
                && Held() == old(Held())[Clean(key) := data] && Strays() == StraysLeft(old(Strays()), Held())
    {
      var path := Resolve(key);
      if path.None? {
        r := *;
        return;
      }
      CleanKeys(key);
      if path.value == [] {
        EmptyIsNotOrdinary();
        return Err;
      }
      BlockedIsConflict(Clean(key));
      var written := fs.PutFile(path.value, data);
      HeldPut(old(fs.files), Clean(key), data);
      if written { StraysAfterPut(old(fs.dirs), old(fs.files), Clean(key), data); }
      return if broken || !written then Err else Ok(|data|);
    }

    /** `Delete` = `os.RemoveAll` of the place that the cleaned key names; the base itself is emptied. */
    method Delete(key: string)
      requires Valid()
      modifies fs
      ensures Valid()
      ensures Resolve(key).Some? ==> Held() == DropAt(old(Held()), Clean(key))
      ensures old(fs.Tidy()) && Resolve(key).Some? && '/' !in Clean(key) ==> fs.Tidy()
    {
      var path := Resolve(key);
      if path.None? {
        return;
      }
      CleanKeys(key);
      fs.RemoveAll(path.value);
      HeldDrop(old(fs.files), fs.files, Clean(key));
      if '/' !in Clean(key) { SplitPlain(Clean(key), '/'); }
    }

    /** `Read` opens what the cleaned key names: a file, or a directory, which is no error. Nothing is said of a key
        that climbs above the base directory. */
    method Read(key: string) returns (r: Result<Handle>)
      requires Valid()
      ensures Resolve(key).Some? && Clean(key) in Held() ==> r == Ok(FileHandle(Held()[Clean(key)]))
      ensures Resolve(key).Some? && Clean(key) !in Held() ==> r == if Resolve(key).value in fs.dirs then Ok(DirHandle) else Err
      ensures Resolve(key).Some? && Clean(key) !in Held() ==>
                (r == Ok(DirHandle) <==> IsDir(Held(), Clean(key)) || Clean(key) in Strays())
    {
      var path := Resolve(key);
      if path.None? {
        r := *;
        return;
      }
      CleanKeys(key);
      DirsOfKeys(Clean(key));
      r := if path.value in fs.files then Ok(FileHandle(fs.files[path.value]))
           else if path.value in fs.dirs then Ok(DirHandle)
           else Err;
    }

    lemma NameIsDir(prefix: string, n: string, x: string)
      requires Valid() && x in Held() && GoesThrough(x, prefix, n)
      ensures DirOf(prefix) + [n] in fs.dirs
    {
      var d := DirOf(prefix) + [n];
      LeadIsDir(prefix, x);
      assert PathOf(x)[..|d|] == d;
      fs.AncestorsAreDirs(d, PathOf(x));
    }

    lemma DirIsName(prefix: string, n: string, f: Path)
      requires Valid() && DirOf(prefix) + [n] in fs.dirs && f in fs.files && Under(DirOf(prefix) + [n], f)
      ensures n != "" && KeyOf(f) in Held() && GoesThrough(KeyOf(f), prefix, n)
    {
      var dir, d := DirOf(prefix), DirOf(prefix) + [n];
      assert d in fs.Nodes() && d[|dir|] == n && n in d && f != d;
      var tail := f[|d|..];
      assert f == d + tail;
      assert f == dir + ([n] + tail);
      PathKey(f);
      LeadIsDir(prefix, KeyOf(f));
      assert Rest(prefix, KeyOf(f)) == f[|dir|..] == [n] + tail;
    }

    /** A listed name is a directory of the tree, and in a tidy tree the other way round. */
    lemma NamesAreDirs(prefix: string)
      requires Valid() && fs.Tidy()
      ensures forall n :: n in Names(Held(), prefix) <==> DirOf(prefix) + [n] in fs.dirs
    {
      forall n | n in Names(Held(), prefix) ensures DirOf(prefix) + [n] in fs.dirs {
        var x :| x in Held() && GoesThrough(x, prefix, n);
        NameIsDir(prefix, n, x);
      }
      forall n | DirOf(prefix) + [n] in fs.dirs ensures n in Names(Held(), prefix) {
        var f :| f in fs.files && Under(DirOf(prefix) + [n], f);
        DirIsName(prefix, n, f);
      }
    }

    lemma NoEmptyKey()
      requires Valid()
      ensures "" !in Held() && "" !in Strays()
    {
      StrayIs(fs.dirs, fs.files, "");
      SplitPlain("", '/');
      assert "" in PathOf("") && !Segment("");
      assert PathOf("") !in fs.Nodes();
    }

    /** Stored keys are spelled clean, and none is a directory or lies below another. */
    lemma HeldIsPlain(key: string)
      requires Valid() && key in Held()
      ensures OrdinaryKey(key) && !IsDir(Held(), key) && !ThroughFile(Held(), key) && key !in Strays()
    {
      assert PathOf(key) in fs.Nodes();
      EmptyIsNotOrdinary();
      DirsOfKeys(key);
      if f :| f in fs.files && Under(f, PathOf(key)) && f != PathOf(key) {
        fs.AncestorsAreDirs(f, PathOf(key));
      }
    }

    lemma AllPlain()
      requires Valid()
      ensures TreeKeys(Held())
    {
      forall k | k in Held() ensures OrdinaryKey(k) && !Conflict(Held(), k) { HeldIsPlain(k); }
    }

    /** A path that is a file, or goes through one, is an error to read as a directory. */
    method NotReadable(p: Path) returns (r: bool)
      requires Valid()
      ensures r <==> exists f :: f in fs.files && Under(f, p)
    {
      r := exists i :: 0 <= i <= |p| && p[..i] in fs.files;
      if f :| f in fs.files && Under(f, p) {
        assert p[..|f|] in fs.files;
      }
      if i :| 0 <= i <= |p| && p[..i] in fs.files {
        assert Under(p[..i], p);
      }
    }

    /** `os.ReadDir`, keeping the directories; a missing directory is no error. */
    method ListDir(dir: Path) returns (r: Result<seq<string>>)
      requires Valid()
      ensures r.Err? <==> exists f :: f in fs.files && Under(f, dir)
      ensures r.Ok? ==> Distinct(r.value) && forall n :: n in r.value <==> dir + [n] in fs.dirs
    {
      var unreadable := NotReadable(dir);
      if unreadable {
        return Err;
      }
      if dir !in fs.dirs {
        forall n ensures dir + [n] !in fs.dirs {
          assert Parent(dir + [n]) == dir;
        }
        return Ok([]);
      }
      r := fs.DirNames(dir);
    }

    /** `List`: a missing directory lists as empty; a file, or a path through a file, cannot be listed. */
    method List(prefix: string) returns (r: Result<seq<string>>)
      requires Valid()
      ensures Resolve(prefix).Some? ==> (r.Err? <==> Clean(prefix) in Held() || ThroughFile(Held(), Clean(prefix)))
      ensures Resolve(prefix).Some? && r.Ok? ==> Distinct(r.value)
      ensures Resolve(prefix).Some? && r.Ok? ==> forall n :: n in r.value <==> Resolve(prefix).value + [n] in fs.dirs
      ensures Resolve(prefix).Some? && r.Ok? && fs.Tidy() ==> Elements(r.value) == Names(Held(), Clean(prefix))
    {
      var dir := Resolve(prefix);
      if dir.None? {
        r := *;
        return;
      }
      CleanKeys(prefix);
      DirsOfKeys(Clean(prefix));
      if fs.Tidy() { NamesAreDirs(Clean(prefix)); }
      r := ListDir(dir.value);
    }

    /** A top-level directory is a name of a stored key or an empty directory. */
    lemma TopDir(n: string)
      requires Valid()
      ensures [n] in fs.dirs <==> n in Names(Held(), "") || n in TopLevel(Strays())
    {
      assert [] + [n] == [n];
      if x :| x in Held() && GoesThrough(x, "", n) {
        NameIsDir("", n, x);
      }
      if n in TopLevel(Strays()) {
        StrayIs(fs.dirs, fs.files, n);
        SplitPlain(n, '/');
      }
      if [n] in fs.dirs {
        assert [n] in fs.Nodes() && n in [n] && Segment(n);
        SplitPlain(n, '/');
        StrayIs(fs.dirs, fs.files, n);
        if f :| f in fs.files && Under([n], f) { DirIsName("", n, f); }
      }
    }

    /** `List("")`: the base directory can always be read. */
    method ListTop() returns (r: Result<seq<string>>)
      requires Valid()
      ensures r.Ok? && AnswersNames(r.value, Held(), TopLevel(Strays()), true)
      ensures fs.Tidy() ==> Elements(r.value) == Names(Held(), "")
    {
      CleanKeys("");
      NoEmptyKey();
      DirsOfKeys("");
      r := List("");
      forall n ensures n in r.value <==> n in Names(Held(), "") || n in TopLevel(Strays()) {
        assert [] + [n] == [n];
        TopDir(n);
      }
    }

    /** `ListFiles`: every file below the prefix, once, with its size; a prefix that is itself a file is
        listed too, and one that goes through a file is an error. */
    method ListFiles(prefix: string) returns (r: Result<seq<FileInfo>>)
      requires Valid()
      ensures Resolve(prefix).Some? ==> (r.Err? <==> ThroughFile(Held(), Clean(prefix)))
      ensures Resolve(prefix).Some? && r.Ok? ==> DistinctKeys(r.value) && Infos(r.value) == FilesAt(Held(), Clean(prefix))
    {
      var dir := Resolve(prefix);
      if dir.None? {
        r := *;
        return;
      }
      CleanKeys(prefix);
      DirsOfKeys(Clean(prefix));
      var unreadable := NotReadable(dir.value);
      if unreadable && dir.value !in fs.files {
        return Err;
      }
      if dir.value in fs.files {
        forall f | f in fs.files && Under(f, dir.value) ensures f == dir.value {
          if f != dir.value { fs.AncestorsAreDirs(f, dir.value); }
        }
      }
      var files := WalkFiles(Clean(prefix));
      return Ok(files);
    }

    /** The walk of `ListFiles` from a path that can be read. */
    method WalkFiles(prefix: string) returns (files: seq<FileInfo>)
      requires Valid()
      ensures DistinctKeys(files) && Infos(files) == FilesAt(Held(), prefix)
    {
      var found := fs.Walk(DirOf(prefix));
      files := [];
      var i := 0;
      while i < |found|
        invariant 0 <= i <= |found| == |files| + (|found| - i)
        invariant forall j :: 0 <= j < i ==> found[j] in fs.files && files[j] == FileInfo(KeyOf(found[j]), |fs.files[found[j]]|)
      {
        assert found[i] in Elements(found);
        files := files + [FileInfo(KeyOf(found[i]), |fs.files[found[i]]|)];
        i := i + 1;
      }
      ListedFiles(prefix, found, files);
    }

    lemma AtOrBelowIsUnder(prefix: string, k: string)
      requires Valid() && k in Held()
      ensures AtOrBelow(prefix, k) <==> Under(DirOf(prefix), PathOf(k))
    {
      NoEmptyKey();
      LeadIsDir(prefix, k);
      KeyPath(k);
      KeyPath(prefix);
    }

    lemma ListedFiles(prefix: string, found: seq<Path>, files: seq<FileInfo>)
      requires Valid() && Distinct(found) && Elements(found) == fs.FilesUnder(DirOf(prefix))
      requires |files| == |found|
      requires forall j :: 0 <= j < |found| ==> found[j] in fs.files && files[j] == FileInfo(KeyOf(found[j]), |fs.files[found[j]]|)
      ensures DistinctKeys(files)
      ensures Infos(files) == FilesAt(Held(), prefix)
    {
      var m := Held();
      forall i, j | 0 <= i < j < |files| ensures files[i].key != files[j].key {
        PathKey(found[i]);
        PathKey(found[j]);
      }
      forall k | k in m ensures AtOrBelow(prefix, k) <==> Under(DirOf(prefix), PathOf(k)) {
        AtOrBelowIsUnder(prefix, k);
      }
      FilesAtOrBelow(m, prefix);
      forall x | x in Infos(files) ensures x.key in m && Under(DirOf(prefix), PathOf(x.key)) && x.size == |m[x.key]| {
        var j :| 0 <= j < |files| && files[j] == x;
        PathKey(found[j]);
        assert found[j] in Elements(found);
      }
      forall k | k in m && Under(DirOf(prefix), PathOf(k)) ensures FileInfo(k, |m[k]|) in Infos(files) {
        KeyPath(k);
        assert PathOf(k) in Elements(found);
        var j :| 0 <= j < |found| && found[j] == PathOf(k);
        assert files[j] == FileInfo(k, |m[k]|);
      }
    }
  }
}
