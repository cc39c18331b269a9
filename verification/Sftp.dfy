/** The SFTP destination's recursive delete, over a server that may fail any call. */
module Sftp {
  import opened Text
  import opened KeySpace
  import opened FileTree

  /** What a delete of `p` may leave behind, at whatever point it stopped: everything outside `p` as it was,
      and inside only what was there before. */
  ghost predicate Pruned(before: Tree, after: Tree, p: Path) {
    && after.dirs <= before.dirs && after.files.Keys <= before.files.Keys
    && (forall q :: q in after.files ==> after.files[q] == before.files[q])
    && (forall q :: q in before.dirs && !Under(p, q) ==> q in after.dirs)
    && (forall q :: q in before.files && !Under(p, q) ==> q in after.files)
  }

  ghost predicate Gone(t: Tree, p: Path) {
    forall q :: q in t.Nodes() ==> !Under(p, q)
  }

  lemma PrunedInside(a: Tree, b: Tree, c: Tree, p: Path, name: string)
    requires Pruned(a, b, p) && Pruned(b, c, p + [name])
    ensures Pruned(a, c, p)
  {
    forall q | Under(p + [name], q) ensures Under(p, q) { UnderChild(p, name, q); }
  }

  /** The entries still to be removed are exactly what is left below `p`. */
  ghost predicate Left(t: Tree, p: Path, names: seq<string>) {
    && p in t.dirs
    && (forall q :: q in Below(p, t.Nodes()) ==> q[|p|] in names)
    && (forall n :: n in names ==> p + [n] in t.Nodes())
  }

  lemma OneFewerLeft(before: Tree, after: Tree, p: Path, names: seq<string>)
    requires names != [] && Distinct(names) && Left(before, p, names)
    requires Pruned(before, after, p + [names[0]]) && Gone(after, p + [names[0]])
    ensures Left(after, p, names[1..])
  {
    var c := p + [names[0]];
    forall q ensures Under(c, q) <==> Under(p, q) && p != q && q[|p|] == names[0] { UnderChild(p, names[0], q); }
    forall q | q in Below(p, after.Nodes()) ensures q[|p|] in names[1..] {
      assert q in Below(p, before.Nodes());
      var j :| 0 <= j < |names| && names[j] == q[|p|];
      assert names[1..][j-1] == q[|p|];
    }
    forall n | n in names[1..] ensures p + [n] in after.Nodes() {
      var j :| 0 <= j < |names[1..]| && names[1..][j] == n;
      assert names[j+1] == n && n in names;
      assert (p + [n])[|p|] == n;
    }
  }

  /** Removing one entry of a directory, recursively if it is one itself. */
  method RemoveEntry(fs: FileSystem, p: Path) returns (ok: bool)
    requires fs.Valid() && p != [] && p in fs.Nodes()
    modifies fs`dirs, fs`files
    ensures fs.Valid() && Pruned(old(fs.Now()), fs.Now(), p)
    ensures ok ==> Gone(fs.Now(), p)
    ensures fs.reliable ==> ok
    decreases |Below(p, fs.Nodes())|, 4
  {
    if p in fs.dirs {
      ok := RemoveAllSFTP(fs, p);
    } else {
      if q :| q in Below(p, fs.Nodes()) { fs.AncestorsAreDirs(p, q); }
      ok := fs.Remove(p);
    }
  }

  /** The loop over the entries, stopping at the first failure. */
  method RemoveEntries(fs: FileSystem, p: Path, names: seq<string>) returns (ok: bool)
    requires fs.Valid() && Distinct(names) && Left(fs.Now(), p, names)
    modifies fs`dirs, fs`files
    ensures fs.Valid() && Pruned(old(fs.Now()), fs.Now(), p)
    ensures ok ==> Left(fs.Now(), p, [])
    ensures fs.reliable ==> ok
    decreases |Below(p, fs.Nodes())|, 2, 0
  {
    ghost var start := fs.Now();
    var i := 0;
    while i < |names|
      invariant 0 <= i <= |names|
      invariant fs.Valid() && Pruned(start, fs.Now(), p)
      invariant Left(fs.Now(), p, names[i..])
    {
      ghost var before := fs.Now();
      var left := names[i..];
      assert names[i] == left[0] && left[1..] == names[i+1..];
      ChildShrinks(p, names[i], fs.Nodes());
      SubsetIsSmaller(Below(p, fs.Nodes()), Below(p, start.Nodes()));
      ok := RemoveEntry(fs, p + [names[i]]);
      PrunedInside(start, before, fs.Now(), p, names[i]);
      if !ok {
        return;
      }
      OneFewerLeft(before, fs.Now(), p, left);
      i := i + 1;
    }
    ok := true;
  }

  lemma ListingIsLeft(fs: FileSystem, p: Path, names: seq<string>)
    requires fs.Valid() && p in fs.dirs && forall n :: n in names <==> n in fs.ChildNames(p)
    ensures Left(fs.Now(), p, names)
  {
    forall q | q in Below(p, fs.Nodes()) ensures q[|p|] in names { fs.ChildIsNode(p, q); }
    forall n | n in names ensures p + [n] in fs.Nodes() { fs.ChildNameIsNode(p, n); }
  }

  lemma RemovedNode(before: Tree, after: Tree, p: Path)
    requires Below(p, before.Nodes()) == {}
    requires after == Tree(before.dirs - {p}, before.files - {p})
    ensures Pruned(before, after, p) && Gone(after, p)
  {
    forall q | q in after.Nodes() ensures !Under(p, q) {
      assert q !in Below(p, before.Nodes());
    }
  }

  lemma FileHasNothingBelow(fs: FileSystem, p: Path)
    requires fs.Valid() && p !in fs.dirs
    ensures Below(p, fs.Nodes()) == {}
  {
    if q :| q in Below(p, fs.Nodes()) { fs.AncestorsAreDirs(p, q); }
  }

  lemma PrunedTwice(a: Tree, b: Tree, c: Tree, p: Path)
    requires Pruned(a, b, p) && Pruned(b, c, p)
    ensures Pruned(a, c, p)
  {
  }

  /** `client.Remove` on a path that could not be read as a directory. */
  method RemoveLeaf(fs: FileSystem, p: Path) returns (ok: bool)
    requires fs.Valid() && p != []
    modifies fs`dirs, fs`files
    ensures fs.Valid() && Pruned(old(fs.Now()), fs.Now(), p)
    ensures ok ==> Gone(fs.Now(), p) && p in old(fs.Nodes())
    ensures fs.reliable && p in old(fs.files) ==> ok
  {
    if p !in fs.dirs { FileHasNothingBelow(fs, p); }
    ghost var start := fs.Now();
    ok := fs.Remove(p);
    if ok {
      RemovedNode(start, fs.Now(), p);
    }
  }

  method RemoveDirectoryTree(fs: FileSystem, p: Path, names: seq<string>) returns (ok: bool)
    requires fs.Valid() && p != [] && p in fs.dirs
    requires Distinct(names) && forall n :: n in names <==> n in fs.ChildNames(p)
    modifies fs`dirs, fs`files
    ensures fs.Valid() && Pruned(old(fs.Now()), fs.Now(), p)
    ensures ok ==> Gone(fs.Now(), p)
    ensures fs.reliable ==> ok
    decreases |Below(p, fs.Nodes())|, 2, 1
  {
    ListingIsLeft(fs, p, names);
    ok := RemoveEntries(fs, p, names);
    if ok {
      ghost var start := fs.Now();
      assert Below(p, fs.Nodes()) == {};
      ok := fs.RemoveDirectory(p);
      if ok {
        RemovedNode(start, fs.Now(), p);
        PrunedTwice(old(fs.Now()), start, fs.Now(), p);
      }
    }
  }

  /** `removeAllSFTP`: read the directory and remove its entries one by one, directories recursively, then
      the directory; a path that cannot be read as a directory is removed as a file. */
  method RemoveAllSFTP(fs: FileSystem, p: Path) returns (ok: bool)
    requires fs.Valid() && p != []
    modifies fs`dirs, fs`files
    ensures fs.Valid() && Pruned(old(fs.Now()), fs.Now(), p)
    ensures ok ==> Gone(fs.Now(), p)
    ensures ok ==> p in old(fs.Nodes())
    ensures fs.reliable && p in old(fs.Nodes()) ==> ok
    decreases |Below(p, fs.Nodes())|, 3
  {
    var listed := fs.ReadDir(p);
    if listed.Err? {
      ok := RemoveLeaf(fs, p);
    } else {
      ok := RemoveDirectoryTree(fs, p, listed.value);
    }
  }
}
