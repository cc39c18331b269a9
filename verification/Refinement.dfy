/** The directory tree and the flat key space refine one map: whatever writes and deletes a program issues,
    both hold the same files and answer the same questions. */
module Refinement {
  import opened Text
  import opened KeySpace
  import opened FileTree
  import opened Local
  import opened S3

  datatype Op = Write(key: string, data: Bytes) | Delete(name: string)

  ghost function Exec(m: Contents, op: Op): Contents {
    match op
    case Write(key, data) => m[key := data]
    case Delete(name) => DropTree(m, name)
  }

  ghost function ExecAll(m: Contents, ops: seq<Op>): Contents
    decreases |ops|
  {
    if ops == [] then m else ExecAll(Exec(m, ops[0]), ops[1..])
  }

  /** Writes of ordinary keys that do not conflict with a stored one, and deletes of top-level names that are
      not files: what the backup producers and the retention pass issue. */
  ghost predicate Allowed(m: Contents, op: Op) {
    match op
    case Write(key, _) => OrdinaryKey(key) && !Conflict(m, key)
    case Delete(name) => Segment(name) && name !in m
  }

  ghost predicate AllAllowed(m: Contents, ops: seq<Op>)
    decreases |ops|
  {
    ops != [] ==> Allowed(m, ops[0]) && AllAllowed(Exec(m, ops[0]), ops[1..])
  }

  /** Both stores agree: the tree holds what the bucket holds under its prefix. */
  ghost predicate Agree(local: LocalDest, s3: S3Dest)
    reads local.fs, s3
  {
    local.Valid() && local.fs.Tidy() && local.Held() == s3.Held()
  }

  /** The keys deleted alike: a key spelled clean that is not itself a file, or one with nothing stored where the
      cleaned spelling leads. */
  ghost predicate DeletesAlike(m: Contents, key: string)
    requires Resolve(key).Some?
  {
    if OrdinaryKey(key) then key !in m else FilesAt(m, Clean(key)) == {}
  }

  lemma OddKeyHasNothingBelow(m: Contents, key: string)
    requires PlainKeys(m) && !OrdinaryKey(key)
    ensures DropBelow(m, key, {}) == m && key !in m
  {
    if x :| x in m && HasPrefix(x, key + "/") { OrdinaryBelow(key, x); }
  }

  lemma DropsNothing(m: Contents, key: string)
    ensures DropAt(m, key) == m <==> FilesAt(m, key) == {}
  {
    if x :| x in m && (key == "" || x == key || HasPrefix(x, key + "/")) {
      assert FileInfo(x, |m[x]|) in FilesAt(m, key) && x !in DropAt(m, key);
    } else {
      assert forall x :: x in m ==> !(key == "" || x == key || HasPrefix(x, key + "/"));
      assert DropAt(m, key) == m;
    }
  }

  /** A bucket delete answers for the keys below the key as it is spelled, a tree delete for everything at or below the
      place the cleaned key names: they agree exactly for the keys deleted alike. */
  lemma DeletesAgree(m: Contents, key: string)
    requires PlainKeys(m) && Resolve(key).Some?
    ensures DropAt(m, Clean(key)) == DropBelow(m, key, {}) <==> DeletesAlike(m, key)
  {
    CleanKeys(key);
    EmptyIsNotOrdinary();
    if OrdinaryKey(key) {
      if key in m {
        assert key in DropBelow(m, key, {}) && key !in DropTree(m, key);
      }
    } else {
      OddKeyHasNothingBelow(m, key);
      DropsNothing(m, Clean(key));
    }
  }

  /** A new base directory and a bucket with nothing below the prefix agree. */
  method StartBoth(prefix: string, others: map<string, Bytes>, fills: bool) returns (local: LocalDest, s3: S3Dest)
    requires forall o :: o in others ==> !HasPrefix(o, Lead(prefix))
    ensures fresh(local.fs) && fresh(s3) && s3.prefix == prefix && s3.online && s3.refused == {} && s3.fills == fills
    ensures Agree(local, s3) && local.Held() == map[] && s3.Foreign() == others
  {
    local := new LocalDest();
    s3 := new S3Dest(prefix, others, {}, true, fills);
    forall k ensures k !in s3.Held() {
      assert HasPrefix(Lead(prefix) + k, Lead(prefix));
    }
    assert s3.Held() == map[];
  }

  /** What a tree without empty directories holds after a write. */
  ghost function PutInTree(m: Contents, key: string, data: Bytes): Contents {
    if Blocked(m, {}, key) then m else m[key := data]
  }

  lemma WritesAgree(m: Contents, key: string, data: Bytes)
    requires TreeKeys(m) && Resolve(key).Some?
    ensures PutInTree(m, Clean(key), data) == m[key := data] <==> OrdinaryKey(key) && !Conflict(m, key)
  {
    CleanKeys(key);
    EmptyIsNotOrdinary();
    if !OrdinaryKey(key) || Conflict(m, key) {
      assert key !in m && key !in PutInTree(m, Clean(key), data);
      assert key in m[key := data];
    }
  }

  /** Writing any key that stays below the base: the stores agree afterwards exactly when the key is spelled clean and
      does not conflict with a stored one. */
  method WriteAny(local: LocalDest, s3: S3Dest, key: string, data: Bytes) returns (a: Result<nat>, b: Result<nat>)
    requires Agree(local, s3) && s3.online && Resolve(key).Some?
    modifies local.fs, s3
    ensures local.Valid() && local.fs.Tidy() && b == Ok(|data|)
    ensures local.Held() == PutInTree(old(local.Held()), Clean(key), data)
    ensures s3.Held() == old(s3.Held())[key := data] && s3.Foreign() == old(s3.Foreign())
    ensures local.Held() == s3.Held() <==> OrdinaryKey(key) && !Conflict(old(local.Held()), key)
  {
    local.TidyHasNoStrays();
    local.AllPlain();
    WritesAgree(local.Held(), key, data);
    a := local.Write(key, data, false);
    b := s3.Write(key, data, false);
  }

  method WriteBoth(local: LocalDest, s3: S3Dest, key: string, data: Bytes)
    requires Agree(local, s3) && s3.online && OrdinaryKey(key) && !Conflict(local.Held(), key)
    modifies local.fs, s3
    ensures Agree(local, s3) && local.Held() == old(local.Held())[key := data]
    ensures s3.Foreign() == old(s3.Foreign())
  {
    CleanKeys(key);
    EmptyIsNotOrdinary();
    var _, _ := WriteAny(local, s3, key, data);
  }

  /** Deleting any key that stays below the base. */
  method DeleteAny(local: LocalDest, s3: S3Dest, key: string)
    requires Agree(local, s3) && s3.online && s3.refused == {} && Resolve(key).Some?
    modifies local.fs, s3
    ensures local.Valid() && local.Held() == DropAt(old(local.Held()), Clean(key))
    ensures s3.Held() == DropBelow(old(s3.Held()), key, {}) && s3.Foreign() == old(s3.Foreign())
    ensures local.Held() == s3.Held() <==> DeletesAlike(old(local.Held()), key)
    ensures '/' !in Clean(key) ==> local.fs.Tidy()
  {
    local.AllPlain();
    DeletesAgree(local.Held(), key);
    assert Spared(s3.Held(), Lead(s3.prefix), {}) == {};
    local.Delete(key);
    var ok := s3.Delete(key);
  }

  method DeleteBoth(local: LocalDest, s3: S3Dest, name: string)
    requires Agree(local, s3) && s3.online && s3.refused == {} && Segment(name) && name !in local.Held()
    modifies local.fs, s3
    ensures Agree(local, s3) && local.Held() == DropTree(old(local.Held()), name)
    ensures s3.Foreign() == old(s3.Foreign())
  {
    SplitPlain(name, '/');
    CleanKeys(name);
    DeleteAny(local, s3, name);
  }

  method RunOne(local: LocalDest, s3: S3Dest, op: Op)
    requires Agree(local, s3) && s3.online && s3.refused == {} && Allowed(local.Held(), op)
    modifies local.fs, s3
    ensures Agree(local, s3) && local.Held() == Exec(old(local.Held()), op)
    ensures s3.Foreign() == old(s3.Foreign())
  {
    match op
    case Write(key, data) => WriteBoth(local, s3, key, data);
    case Delete(name) => DeleteBoth(local, s3, name);
  }

  /** Any run leaves both stores with the same map, the one the run computes on maps; the rest of the bucket
      is as it was. */
  method RunBoth(local: LocalDest, s3: S3Dest, ops: seq<Op>)
    requires Agree(local, s3) && s3.online && s3.refused == {} && AllAllowed(local.Held(), ops)
    modifies local.fs, s3
    ensures Agree(local, s3) && local.Held() == ExecAll(old(local.Held()), ops)
    ensures s3.Foreign() == old(s3.Foreign())
    decreases |ops|
  {
    if ops != [] {
      RunOne(local, s3, ops[0]);
      RunBoth(local, s3, ops[1..]);
    }
  }

  /** An answer is complete exactly when all names are reached, and never when there are more than it has room for. */
  lemma AnswerIsWhole(names: set<string>, b: seq<string>, reached: set<string>)
    requires Distinct(b) && Elements(b) == reached && |b| <= MAX_KEYS
    ensures names == Elements(b) <==> reached == names
    ensures |names| > MAX_KEYS ==> names != Elements(b)
  {
    DistinctCount(b);
  }

  /** Stores that agree answer the same top-level names exactly when the one unpaged response reaches every name;
      a service that fills its pages reaches them all up to the limit. */
  method SameNames(local: LocalDest, s3: S3Dest) returns (a: Result<seq<string>>, b: Result<seq<string>>, ghost size: nat)
    requires Agree(local, s3) && s3.online
    ensures a.Ok? && b.Ok? && Distinct(a.value) && Distinct(b.value) && Elements(b.value) <= Elements(a.value)
    ensures var names := Names(local.Held(), "");
            Elements(a.value) == Elements(b.value) <==>
              Reached(names, s3.EntriesBelow(Lead(s3.prefix)), Lead(s3.prefix), size) == names
    ensures s3.fills && |TopEntries(local.Held())| <= MAX_KEYS ==> Elements(a.value) == Elements(b.value)
    ensures |Names(local.Held(), "")| > MAX_KEYS ==> Elements(a.value) != Elements(b.value)
  {
    a := local.ListTop();
    b, size := s3.ListTop();
    ghost var names := Names(local.Held(), "");
    ghost var reached := Reached(names, s3.EntriesBelow(Lead(s3.prefix)), Lead(s3.prefix), size);
    AnswerIsWhole(names, b.value, reached);
  }

  // ---------- reading ----------

  /** The tree's answer to a read carries over: the same bytes, or failure on both sides. */
  predicate ReadAlike(a: Result<Handle>, b: Result<Bytes>) {
    if b.Ok? then a == Ok(FileHandle(b.value)) else a == Err
  }

  /** The keys that read alike: a stored key, or one whose cleaned spelling is neither stored nor a directory. */
  ghost predicate ReadsAlike(m: Contents, key: string)
    requires Resolve(key).Some?
  {
    key in m || (Clean(key) !in m && !IsDir(m, Clean(key)))
  }

  /** The bytes of a key. The tree opens a directory without error and cleans the key first, the bucket takes the
      key as it is: both read the same bytes, or both fail, exactly for the keys that read alike. */
  method SameBytes(local: LocalDest, s3: S3Dest, key: string) returns (a: Result<Handle>, b: Result<Bytes>)
    requires Agree(local, s3) && s3.online
    ensures b == if key in local.Held() then Ok(local.Held()[key]) else Err
    ensures Resolve(key).Some? ==> (ReadAlike(a, b) <==> ReadsAlike(local.Held(), key))
    ensures OrdinaryKey(key) ==> (ReadAlike(a, b) <==> !IsDir(local.Held(), key))
    ensures OrdinaryKey(key) && IsDir(local.Held(), key) ==> a == Ok(DirHandle) && b == Err
  {
    a := local.Read(key);
    b := s3.Read(key);
    CleanKeys(key);
    local.TidyHasNoStrays();
    if key in local.Held() { local.HeldIsPlain(key); }
  }

  lemma SegmentKeys(date: string, name: string)
    requires Segment(date) && Segment(name)
    ensures PathOf(date) == [date] && PathOf(date + "/" + name) == [date, name]
    ensures OrdinaryKey(date) && OrdinaryKey(date + "/" + name) && HasPrefix(date + "/" + name, date + "/")
  {
    SplitConcat(date, name);
    SplitPlain(date, '/');
    SplitPlain(name, '/');
    assert (date + "/" + name)[..|date|+1] == date + "/";
  }

  lemma EmptyMapAllows(key: string)
    ensures !Conflict(map[], key)
  {
  }

  /** Both stores with a single file. */
  method StartWithFile(key: string, data: Bytes) returns (local: LocalDest, s3: S3Dest)
    requires OrdinaryKey(key)
    ensures Agree(local, s3) && s3.online && local.Held() == map[key := data]
  {
    local, s3 := StartBoth("", map[], true);
    EmptyMapAllows(key);
    WriteBoth(local, s3, key, data);
  }

  /** A pair of reads that differ: any directory that holds a file. */
  method DirectoryReads(date: string, name: string) returns (a: Result<Handle>, b: Result<Bytes>)
    requires Segment(date) && Segment(name)
    ensures a == Ok(DirHandle) && b == Err
  {
    SegmentKeys(date, name);
    ghost var m: Contents := map[date + "/" + name := []];
    assert IsDir(m, date) by { assert date + "/" + name in m; }
    var local, s3 := StartWithFile(date + "/" + name, []);
    a, b := SameBytes(local, s3, date);
  }

  /** One of them: the date of a backup. */
  method DateReadsAsDirectory() returns (a: Result<Handle>, b: Result<Bytes>)
    ensures a == Ok(DirHandle) && b == Err
  {
    assert |"2024-01-01"| == 10 && |".."| == 2 && |"."| == 1;
    a, b := DirectoryReads("2024-01-01", "x");
  }

  /** The prefixes listed alike: no directory on the way is a file, and the prefix is spelled clean and not itself
      a file, or nothing is stored at or below it. */
  ghost predicate ListsAlike(m: Contents, prefix: string)
    requires Resolve(prefix).Some?
  {
    && !ThroughFile(m, Clean(prefix))
    && (if Clean(prefix) == prefix then prefix !in m else FilesAt(m, Clean(prefix)) == {})
  }

  lemma BucketFiles(m: Contents, date: string)
    requires PlainKeys(m)
    ensures (set f | f in Files(m, date) && f.key != "") == Files(m, date)
  {
    EmptyIsNotOrdinary();
  }

  /** Where no directory on the way is a file, the two answers are equal exactly for the prefixes listed alike. */
  lemma FilesAlike(m: Contents, date: string)
    requires PlainKeys(m) && Resolve(date).Some?
    ensures FilesAt(m, Clean(date)) == Files(m, date) <==>
              if Clean(date) == date then date !in m else FilesAt(m, Clean(date)) == {}
  {
    CleanKeys(date);
    if Clean(date) == date {
      if date in m {
        EmptyIsNotOrdinary();
        assert FileInfo(date, |m[date]|) in FilesAt(m, date);
        assert FileInfo(date, |m[date]|) !in Files(m, date);
      }
    } else if f :| f in Files(m, date) {
      OrdinaryBelow(date, f.key);
    }
  }

  /** The files of a date, as sets: the tree and the bucket list the same exactly for the prefixes listed alike,
      among them every top-level name that is not a file. */
  method SameFiles(local: LocalDest, s3: S3Dest, date: string) returns (a: Result<seq<FileInfo>>, b: Result<seq<FileInfo>>)
    requires Agree(local, s3) && s3.online
    ensures b.Ok? && DistinctKeys(b.value) && (Resolve(date).Some? && a.Ok? ==> DistinctKeys(a.value))
    ensures Resolve(date).Some? ==> (a.Ok? && Infos(a.value) == Infos(b.value) <==> ListsAlike(local.Held(), date))
    ensures Segment(date) ==> (a.Ok? && Infos(a.value) == Infos(b.value) <==> date !in local.Held())
  {
    ghost var m := local.Held();
    local.AllPlain();
    a := local.ListFiles(date);
    b := s3.ListFiles(date);
    BucketFiles(m, date);
    CleanKeys(date);
    if Resolve(date).Some? { FilesAlike(m, date); }
    if Segment(date) {
      OrdinarySegment(date);
      NotThrough(m, date);
    }
  }

  lemma PutChangesNothing(m: Contents, key: string, data: Bytes)
    ensures m[key := data] == m <==> key in m && m[key] == data
  {
    assert m[key := data][key] == data;
  }

  /** The tree's side of a stream that breaks: what was read so far stays. */
  method BreakLocal(local: LocalDest, key: string, read: Bytes) returns (a: Result<nat>)
    requires local.Valid() && local.fs.Tidy() && OrdinaryKey(key) && !Conflict(local.Held(), key)
    modifies local.fs
    ensures a == Err && local.Valid() && local.fs.Tidy() && local.Held() == old(local.Held())[key := read]
  {
    local.TidyHasNoStrays();
    CleanKeys(key);
    EmptyIsNotOrdinary();
    a := local.Write(key, read, true);
  }

  /** A stream that breaks while it is written: the tree keeps what was read so far, the bucket nothing. The
      stores still agree exactly when the key already held those very bytes. */
  method BreakBoth(local: LocalDest, s3: S3Dest, key: string, read: Bytes) returns (a: Result<nat>, b: Result<nat>)
    requires Agree(local, s3) && OrdinaryKey(key) && !Conflict(local.Held(), key)
    modifies local.fs, s3
    ensures a == Err && b == Err && local.Valid()
    ensures local.Held() == old(local.Held())[key := read] && s3.Held() == old(local.Held())
    ensures Agree(local, s3) <==> key in old(local.Held()) && old(local.Held())[key] == read
  {
    PutChangesNothing(local.Held(), key, read);
    a := BreakLocal(local, key, read);
    b := s3.Write(key, read, true);
  }
}
