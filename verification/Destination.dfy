/** A destination as its users see it, over the two that are modelled: a directory tree and a bucket. */
module Destination {
  import opened Text
  import opened KeySpace
  import opened FileTree
  import opened Local
  import opened S3

  datatype Target = Disk(local: LocalDest) | Cloud(s3: S3Dest) {
    ghost function Footprint(): set<object> {
      match this
      case Disk(local) => {local.fs}
      case Cloud(s3) => {s3}
    }

    ghost predicate Valid()
      reads Footprint()
    {
      Disk? ==> local.Valid()
    }

    ghost function Held(): Contents
      requires Valid()
      reads Footprint()
    {
      match this
      case Disk(local) => local.Held()
      case Cloud(s3) => s3.Held()
    }

    /** The empty directories; a bucket has none. */
    ghost function Strays(): set<string>
      requires Valid()
      reads Footprint()
    {
      match this
      case Disk(local) => local.Strays()
      case Cloud(_) => {}
    }

    /** The key under which a write of `key` is found again: a tree cleans the spelling, a bucket does not. None when
        the key leaves the base directory. */
    function Place(key: string): Option<string> {
      if Cloud? then Some(key) else if Resolve(key).Some? then Some(Clean(key)) else None
    }

    /** A place where no file can be put. */
    ghost predicate Refuses(place: string)
      requires Valid()
      reads Footprint()
    {
      Disk? && Blocked(Held(), Strays(), place)
    }

    /** Nothing fails but what cannot be carried out. */
    predicate Online() {
      Cloud? ==> s3.online
    }

    /** One answer to `List("")` holds all names. */
    ghost predicate ListsAll()
      requires Valid()
      reads Footprint()
    {
      Cloud? ==> s3.fills && |TopEntries(Held())| <= 1000
    }

    lemma StraysStay()
      requires Valid()
      ensures StraysLeft(Strays(), Held()) == Strays()
    {
      match this
      case Disk(local) => StraysAreLeft(local);
      case Cloud(_) =>
    }

    /** `Write`, of a stream that ends after `data` or, when `broken`, fails there. */
    method Write(key: string, data: Bytes, broken: bool) returns (r: Result<nat>)
      requires Valid()
      modifies Footprint()
      ensures Valid()
      ensures Place(key).Some? ==> var place := Place(key).value;
              && StoredAt(old(Held()), Held(), place, data, old(Refuses(place)), r)
              && Strays() == StraysLeft(old(Strays()), Held())
              && (Online() && !old(Refuses(place)) ==> (r.Ok? <==> !broken))
    {
      match this
      case Disk(local) =>
        r := WriteDisk(local, key, data, broken);
      case Cloud(s3) =>
        r := s3.Write(key, data, broken);
    }

    /** `List("")`. */
    method List() returns (r: Result<seq<string>>)
      requires Valid()
      ensures Online() ==> r.Ok?
      ensures r.Ok? ==> AnswersNames(r.value, Held(), TopLevel(Strays()), ListsAll())
    {
      match this
      case Disk(local) =>
        r := local.ListTop();
      case Cloud(s3) =>
        ghost var size;
        r, size := s3.ListTop();
    }

    /** `ListFiles` of a top-level directory name. */
    method ListFiles(name: string) returns (r: Result<seq<FileInfo>>)
      requires Valid() && name in Names(Held(), "") + TopLevel(Strays())
      ensures Online() ==> r.Ok?
      ensures r.Ok? ==> DistinctKeys(r.value) && Infos(r.value) == Files(Held(), name)
    {
      match this
      case Disk(local) =>
        TopIsPlain(local, name);
        CleanKeys(name);
        r := local.ListFiles(name);
      case Cloud(s3) =>
        r := s3.ListFiles(name);
        NamedFiles(s3.Held(), name);
    }
  }

  method WriteDisk(local: LocalDest, key: string, data: Bytes, broken: bool) returns (r: Result<nat>)
    requires local.Valid()
    modifies local.fs
    ensures local.Valid()
    ensures Resolve(key).Some? ==> var place := Clean(key);
            && StoredAt(old(local.Held()), local.Held(), place, data, old(Blocked(local.Held(), local.Strays(), place)), r)
            && local.Strays() == StraysLeft(old(local.Strays()), local.Held())
            && (!old(Blocked(local.Held(), local.Strays(), place)) ==> (r.Ok? <==> !broken))
  {
    StraysAreLeft(local);
    r := local.Write(key, data, broken);
  }

  lemma StraysAreLeft(local: LocalDest)
    requires local.Valid()
    ensures StraysLeft(local.Strays(), local.Held()) == local.Strays()
  {
    forall d | d in local.Strays() ensures !IsDir(local.Held(), d) {
      StrayIsPlain(local, d);
      local.DirsOfKeys(d);
    }
  }

  lemma StrayIsPlain(local: LocalDest, d: string)
    requires local.Valid() && d in local.Strays()
    ensures OrdinaryKey(d)
  {
    StrayIs(local.fs.dirs, local.fs.files, d);
    assert PathOf(d) in local.fs.Nodes();
  }

  /** A top-level directory name of a tree is a segment and no file. */
  lemma TopIsPlain(local: LocalDest, name: string)
    requires local.Valid() && name in Names(local.Held(), "") + TopLevel(local.Strays())
    ensures OrdinaryKey(name) && name !in local.Held() && !ThroughFile(local.Held(), name)
  {
    local.TopDir(name);
    assert [name] in local.fs.Nodes() && name in [name] && Segment(name);
    SplitPlain(name, '/');
    local.DirsOfKeys(name);
    NotThrough(local.Held(), name);
  }

  lemma NamedFiles(m: Contents, name: string)
    requires name in Names(m, "")
    ensures (set f | f in Files(m, name) && f.key != "") == Files(m, name)
  {
    assert name != "";
  }
}
