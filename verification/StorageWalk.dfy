/** The recursive, paged walk over a storage bucket. */
module StorageWalk {
  import opened Text
  import opened KeySpace

  /** What the list endpoint shows: a file has an id, a folder has none. */
  datatype Node = File(name: string) | Folder(name: string, children: seq<Node>)

  const PAGE_SIZE := 100

  // ---------- the tree ----------

  /** Names are non-empty and without slash; a folder and a file may share one, two of a kind may not. */
  ghost predicate WellFormed(n: Node) {
    && n.Folder?
    && (forall c :: c in n.children ==> c.name != "" && '/' !in c.name && (c.Folder? ==> WellFormed(c)))
    && (forall i, j :: 0 <= i < j < |n.children| && n.children[i].name == n.children[j].name ==>
          n.children[i].Folder? != n.children[j].Folder?)
  }

  /** There is a file at the path, counted from the folder. */
  ghost predicate HasFile(n: Node, p: Path)
    requires n.Folder?
    decreases |p|
  {
    if |p| == 0 then false
    else if |p| == 1 then exists c :: c in n.children && c.File? && c.name == p[0]
    else exists c :: c in n.children && c.Folder? && c.name == p[0] && HasFile(c, p[1..])
  }

  function Prefixed(name: string, paths: seq<Path>): seq<Path> {
    seq(|paths|, i requires 0 <= i < |paths| => [name] + paths[i])
  }

  /** The files of one entry in the order the walk meets them. */
  function PathsOf(n: Node): seq<Path>
    decreases n, 1
  {
    match n
    case File(name) => [[name]]
    case Folder(name, children) => Prefixed(name, PathsIn(children))
  }

  function PathsIn(children: seq<Node>): seq<Path>
    decreases children, 0
  {
    if children == [] then [] else PathsIn(children[..|children|-1]) + PathsOf(children[|children|-1])
  }

  /** One request per started page of every folder, and one more for a folder whose last page is full. */
  function Requests(n: Node): nat
    requires n.Folder?
    decreases n, 1
  {
    |n.children| / PAGE_SIZE + 1 + RequestsIn(n.children)
  }

  function RequestsIn(children: seq<Node>): nat
    decreases children, 0
  {
    if children == [] then 0
    else
      var last := children[|children|-1];
      RequestsIn(children[..|children|-1]) + if last.Folder? then Requests(last) else 0
  }

  /** Entries that stand side by side add up what they cost. */
  lemma {:induction false} RequestsAdd(a: seq<Node>, b: seq<Node>)
    ensures RequestsIn(a + b) == RequestsIn(a) + RequestsIn(b)
  {
    if b == [] {
      assert a + b == a;
    } else {
      var all := a + b;
      assert all[..|all|-1] == a + b[..|b|-1] && all[|all|-1] == b[|b|-1];
      RequestsAdd(a, b[..|b|-1]);
    }
  }

  lemma {:induction false} FilesCostNothing(children: seq<Node>)
    requires forall c :: c in children ==> c.File?
    ensures RequestsIn(children) == 0
  {
    if children != [] {
      assert children[|children|-1] in children;
      FilesCostNothing(children[..|children|-1]);
    }
  }

  /** A folder of files only costs one request for every full page of 100 and one more; a folder with one subfolder
      among its files costs the subfolder's requests besides. */
  lemma RequestsByHundreds(name: string, before: seq<Node>, sub: seq<Node>, after: seq<Node>)
    requires forall c :: c in before + after + sub ==> c.File?
    ensures Requests(Folder(name, before + after)) == (|before| + |after|) / 100 + 1
    ensures Requests(Folder(name, before + [Folder("sub", sub)] + after)) ==
              (|before| + 1 + |after|) / 100 + 1 + |sub| / 100 + 1
  {
    FilesCostNothing(before + after);
    FilesCostNothing(before);
    FilesCostNothing(after);
    FilesCostNothing(sub);
    var folder := Folder("sub", sub);
    RequestsAdd(before, [folder]);
    RequestsAdd(before + [folder], after);
    var one := [folder];
    assert one[..|one|-1] == [] && RequestsIn([]) == 0;
    assert RequestsIn(one) == Requests(folder);
  }

  // ---------- exactly once ----------

  lemma {:induction false} PathsAreFiles(n: Node)
    requires WellFormed(n)
    ensures Distinct(PathsIn(n.children))
    ensures forall p :: p in PathsIn(n.children) <==> HasFile(n, p)
    decreases n
  {
    forall c | c in n.children && c.Folder?
      ensures Distinct(PathsIn(c.children)) && forall p :: p in PathsIn(c.children) <==> HasFile(c, p)
    {
      PathsAreFiles(c);
    }
    FirstPaths(n, |n.children|);
    assert n.children[..|n.children|] == n.children;
    forall p ensures HasFile(n, p) <==> exists k :: 0 <= k < |n.children| && Reaches(n.children[k], p) {
      if HasFile(n, p) {
        var c :| c in n.children && c.name == p[0] && (if |p| == 1 then c.File? else c.Folder? && HasFile(c, p[1..]));
        var k :| 0 <= k < |n.children| && n.children[k] == c;
        assert Reaches(n.children[k], p);
      }
    }
  }

  /** The path leads to a file through this entry. */
  ghost predicate Reaches(c: Node, p: Path) {
    && |p| >= 1 && c.name == p[0]
    && (if c.File? then |p| == 1 else |p| > 1 && HasFile(c, p[1..]))
  }

  lemma {:induction false} FirstPaths(n: Node, k: nat)
    requires WellFormed(n) && k <= |n.children|
    requires forall c :: c in n.children && c.Folder? ==>
               Distinct(PathsIn(c.children)) && forall p :: p in PathsIn(c.children) <==> HasFile(c, p)
    ensures Distinct(PathsIn(n.children[..k]))
    ensures forall p :: p in PathsIn(n.children[..k]) <==> exists i :: 0 <= i < k && Reaches(n.children[i], p)
    decreases k
  {
    if k > 0 {
      FirstPaths(n, k - 1);
      var c := n.children[k-1];
      assert n.children[..k][..k-1] == n.children[..k-1] && c in n.children;
      OneEntry(c);
      forall p | p in PathsIn(n.children[..k-1]) ensures p !in PathsOf(c) {
        var i :| 0 <= i < k - 1 && Reaches(n.children[i], p);
      }
      DistinctAppend(PathsIn(n.children[..k-1]), PathsOf(c));
    }
  }

  lemma OneEntry(c: Node)
    requires c.Folder? ==> Distinct(PathsIn(c.children)) && forall p :: p in PathsIn(c.children) <==> HasFile(c, p)
    ensures Distinct(PathsOf(c))
    ensures forall p :: p in PathsOf(c) <==> Reaches(c, p)
  {
    if c.Folder? {
      var inner := PathsIn(c.children);
      forall i, j | 0 <= i < j < |inner| ensures PathsOf(c)[i] != PathsOf(c)[j] {
        assert PathsOf(c)[i][1..] == inner[i] && PathsOf(c)[j][1..] == inner[j];
      }
      forall p | Reaches(c, p) ensures p in PathsOf(c) {
        var i :| 0 <= i < |inner| && inner[i] == p[1..];
        assert PathsOf(c)[i] == [p[0]] + p[1..] == p;
      }
      forall p | p in PathsOf(c) ensures Reaches(c, p) {
        var i :| 0 <= i < |inner| && PathsOf(c)[i] == p;
        assert p[1..] == inner[i] && inner[i] in inner;
      }
    } else {
      forall p | Reaches(c, p) ensures p in PathsOf(c) {
        assert p == [c.name];
      }
    }
  }

  // ---------- the server ----------

  function FindFolder(children: seq<Node>, name: string): Option<Node>
    decreases |children|
  {
    if children == [] then None
    else if children[0].Folder? && children[0].name == name then Some(children[0])
    else FindFolder(children[1..], name)
  }

  /** The folder at a path. */
  function Find(n: Node, p: Path): Option<Node>
    decreases |p|
  {
    if p == [] then Some(n)
    else if n.File? then None
    else
      var c := FindFolder(n.children, p[0]);
      if c.None? then None else Find(c.value, p[1..])
  }

  lemma {:induction false} FindsChild(children: seq<Node>, c: Node)
    requires c in children && c.Folder?
    requires forall i, j :: 0 <= i < j < |children| && children[i].name == children[j].name ==>
               children[i].Folder? != children[j].Folder?
    ensures FindFolder(children, c.name) == Some(c)
  {
    var i :| 0 <= i < |children| && children[i] == c;
    if i > 0 {
      assert children[1..][i-1] == c;
      FindsChild(children[1..], c);
    }
  }

  lemma {:induction false} FindDeeper(n: Node, p: Path, name: string, folder: Node)
    requires Find(n, p) == Some(folder)
    ensures Find(n, p + [name]) == Find(folder, [name])
    decreases |p|
  {
    if p == [] {
      assert p + [name] == [name];
    } else {
      assert (p + [name])[1..] == p[1..] + [name];
      FindDeeper(FindFolder(n.children, p[0]).value, p[1..], name, folder);
    }
  }

  function PrefixPath(prefix: string): Path {
    if prefix == "" then [] else PathOf(prefix)
  }

  /** The path of an entry below the prefix. */
  function Joined(prefix: string, name: string): string {
    if prefix != "" then prefix + "/" + name else name
  }

  lemma JoinedPath(prefix: string, name: string)
    requires name != "" && '/' !in name
    ensures PrefixPath(Joined(prefix, name)) == PrefixPath(prefix) + [name]
  {
    SplitPlain(name, '/');
    if prefix != "" { SplitConcat(prefix, name); }
  }

  /** The paths below a prefix, as the strings the walk returns. */
  function Keys(prefix: string, paths: seq<Path>): seq<string> {
    seq(|paths|, i requires 0 <= i < |paths| => KeyOf(PrefixPath(prefix) + paths[i]))
  }

  class BucketServer {
    const root: Node
    var requests: nat
    /** Offline, any request may fail. */
    const online: bool

    constructor (root: Node, online: bool)
      requires WellFormed(root)
      ensures this.root == root && requests == 0 && this.online == online
    {
      this.root := root;
      requests := 0;
      this.online := online;
    }

    /** The folder a prefix names. */
    function At(prefix: string): Option<Node> {
      Find(root, PrefixPath(prefix))
    }

    /** One list request. */
    method ListPage(prefix: string, limit: nat, offset: nat) returns (r: Result<seq<Node>>)
      requires At(prefix).Some? && At(prefix).value.Folder? && offset <= |At(prefix).value.children|
      modifies this`requests
      ensures requests == old(requests) + 1
      ensures online ==> r.Ok?
      ensures r.Ok? ==> var all := At(prefix).value.children;
                        r.value == all[offset..if offset + limit <= |all| then offset + limit else |all|]
    {
      requests := requests + 1;
      var fails: bool := *;
      if fails && !online {
        return Err;
      }
      var all := At(prefix).value.children;
      return Ok(all[offset..if offset + limit <= |all| then offset + limit else |all|]);
    }
  }

  lemma ChildAt(server: BucketServer, prefix: string, folder: Node, c: Node)
    requires WellFormed(folder) && server.At(prefix) == Some(folder) && c in folder.children && c.Folder?
    ensures server.At(Joined(prefix, c.name)) == Some(c)
  {
    JoinedPath(prefix, c.name);
    FindDeeper(server.root, PrefixPath(prefix), c.name, folder);
    FindsChild(folder.children, c);
    assert [c.name][1..] == [];
  }

  // ---------- the walk ----------

  /** The strings of one entry: its own path, or what the walk finds below it. */
  lemma KeysOfEntry(prefix: string, c: Node)
    requires c.name != "" && '/' !in c.name
    ensures c.File? ==> Keys(prefix, PathsOf(c)) == [Joined(prefix, c.name)]
    ensures c.Folder? ==> Keys(prefix, PathsOf(c)) == Keys(Joined(prefix, c.name), PathsIn(c.children))
  {
    var path := Joined(prefix, c.name);
    JoinedPath(prefix, c.name);
    if c.File? {
      KeyPath(path);
      assert PrefixPath(prefix) + [c.name] == PathOf(path);
      assert PathsOf(c)[0] == [c.name];
    } else {
      var inner := PathsIn(c.children);
      forall i | 0 <= i < |inner|
        ensures PrefixPath(prefix) + PathsOf(c)[i] == PrefixPath(path) + inner[i]
      {
        assert PrefixPath(prefix) + ([c.name] + inner[i]) == (PrefixPath(prefix) + [c.name]) + inner[i];
      }
    }
  }

  /** One more entry: what it adds to the paths and to the requests. */
  lemma EntryStep(prefix: string, children: seq<Node>, k: nat)
    requires k < |children| && children[k].name != "" && '/' !in children[k].name
    ensures var c, path := children[k], Joined(prefix, children[k].name);
            Keys(prefix, PathsIn(children[..k+1])) ==
              Keys(prefix, PathsIn(children[..k])) + if c.Folder? then Keys(path, PathsIn(c.children)) else [path]
    ensures RequestsIn(children[..k+1]) ==
              RequestsIn(children[..k]) + if children[k].Folder? then Requests(children[k]) else 0
  {
    var c := children[k];
    assert children[..k+1][..k] == children[..k];
    KeysOfEntry(prefix, c);
    assert Keys(prefix, PathsIn(children[..k]) + PathsOf(c)) == Keys(prefix, PathsIn(children[..k])) + Keys(prefix, PathsOf(c));
  }

  /** `listObjects`: all file paths below the prefix, in listing order, with the requests the paging costs. */
  method ListObjects(server: BucketServer, prefix: string, ghost folder: Node) returns (r: Result<seq<string>>)
    requires WellFormed(folder) && server.At(prefix) == Some(folder)
    modifies server`requests
    ensures server.online ==> r.Ok?
    ensures r.Ok? ==> r.value == Keys(prefix, PathsIn(folder.children))
    ensures r.Ok? ==> server.requests == old(server.requests) + Requests(folder)
    decreases folder, 1
  {
    var all: seq<string> := [];
    var offset := 0;
    ghost var start := server.requests;
    while true
      invariant offset <= |folder.children| && offset % PAGE_SIZE == 0
      invariant Collected(prefix, folder.children, offset, all)
      invariant server.requests == start + offset / PAGE_SIZE + Spent(folder.children, offset)
      decreases |folder.children| - offset
    {
      var page := server.ListPage(prefix, PAGE_SIZE, offset);
      if page.Err? {
        return Err;
      }
      var objects := page.value;
      var grown := AddEntries(server, prefix, folder, offset, objects, all);
      if grown.Err? {
        return Err;
      }
      all := grown.value;
      if |objects| < PAGE_SIZE {
        assert folder.children[..offset+|objects|] == folder.children;
        return Ok(all);
      }
      offset := offset + PAGE_SIZE;
    }
  }

  /** One entry of a page: a file gives its path, a folder what the recursion finds. */
  method EntryPaths(server: BucketServer, prefix: string, ghost folder: Node, obj: Node) returns (r: Result<seq<string>>)
    requires WellFormed(folder) && server.At(prefix) == Some(folder) && obj in folder.children
    modifies server`requests
    ensures server.online ==> r.Ok?
    ensures r.Ok? ==> r.value == if obj.Folder? then Keys(Joined(prefix, obj.name), PathsIn(obj.children))
                                 else [Joined(prefix, obj.name)]
    ensures r.Ok? ==> server.requests == old(server.requests) + if obj.Folder? then Requests(obj) else 0
    decreases folder, 0, 0
  {
    var path := Joined(prefix, obj.name);
    if obj.Folder? {
      ChildAt(server, prefix, folder, obj);
      r := ListObjects(server, path, obj);
    } else {
      r := Ok([path]);
    }
  }

  /** What the walk has collected below a prefix after the first `n` entries of a folder. */
  ghost predicate Collected(prefix: string, children: seq<Node>, n: nat, all: seq<string>)
    requires n <= |children|
  {
    all == Keys(prefix, PathsIn(children[..n]))
  }

  /** The requests that the first `n` entries of a folder cost. */
  ghost function Spent(children: seq<Node>, n: nat): nat
    requires n <= |children|
  {
    RequestsIn(children[..n])
  }

  /** One turn of the loop over a page. */
  method AddEntry(server: BucketServer, prefix: string, ghost folder: Node, ghost k: nat, obj: Node, before: seq<string>)
    returns (r: Result<seq<string>>)
    requires WellFormed(folder) && server.At(prefix) == Some(folder)
    requires k < |folder.children| && folder.children[k] == obj && Collected(prefix, folder.children, k, before)
    modifies server`requests
    ensures server.online ==> r.Ok?
    ensures r.Ok? ==> Collected(prefix, folder.children, k + 1, r.value)
    ensures r.Ok? ==> server.requests + Spent(folder.children, k) == old(server.requests) + Spent(folder.children, k + 1)
    decreases folder, 0, 1
  {
    EntryStep(prefix, folder.children, k);
    var found := EntryPaths(server, prefix, folder, obj);
    if found.Err? {
      return Err;
    }
    return Ok(before + found.value);
  }

  /** The loop over one page. */
  method AddEntries(server: BucketServer, prefix: string, ghost folder: Node, ghost offset: nat, objects: seq<Node>,
                    before: seq<string>)
    returns (r: Result<seq<string>>)
    requires WellFormed(folder) && server.At(prefix) == Some(folder)
    requires offset + |objects| <= |folder.children|
    requires forall j :: 0 <= j < |objects| ==> objects[j] == folder.children[offset+j]
    requires Collected(prefix, folder.children, offset, before)
    modifies server`requests
    ensures server.online ==> r.Ok?
    ensures r.Ok? ==> Collected(prefix, folder.children, offset + |objects|, r.value)
    ensures r.Ok? ==> server.requests + Spent(folder.children, offset) ==
                        old(server.requests) + Spent(folder.children, offset + |objects|)
    decreases folder, 0, 2
  {
    var all := before;
    var i := 0;
    ghost var start, cost: int := server.requests, 0;
    while i < |objects|
      invariant 0 <= i <= |objects|
      invariant Collected(prefix, folder.children, offset + i, all)
      invariant server.requests == start + cost && cost + Spent(folder.children, offset) == Spent(folder.children, offset + i)
    {
      var grown := AddEntry(server, prefix, folder, offset + i, objects[i], all);
      if grown.Err? {
        return Err;
      }
      all := grown.value;
      i := i + 1;
      cost := server.requests - start;
    }
    return Ok(all);
  }

  /** The walk over a whole bucket returns the path of every file exactly once, and nothing else. */
  lemma WalkIsExact(root: Node)
    requires WellFormed(root)
    ensures Distinct(Keys("", PathsIn(root.children)))
    ensures forall p :: HasFile(root, p) ==> KeyOf(p) in Keys("", PathsIn(root.children))
    ensures forall k :: k in Keys("", PathsIn(root.children)) ==> HasFile(root, PathOf(k)) && KeyOf(PathOf(k)) == k
  {
    var paths := PathsIn(root.children);
    var keys := Keys("", paths);
    PathsAreFiles(root);
    forall i | 0 <= i < |paths| ensures keys[i] == KeyOf(paths[i]) && PathOf(keys[i]) == paths[i] && HasFile(root, paths[i]) {
      assert paths[i] in paths;
      FilePathSplits(root, paths[i]);
      assert [] + paths[i] == paths[i];
    }
    forall p | HasFile(root, p) ensures KeyOf(p) in keys {
      var i :| 0 <= i < |paths| && paths[i] == p;
      assert keys[i] == KeyOf(p);
    }
    forall k | k in keys ensures HasFile(root, PathOf(k)) && KeyOf(PathOf(k)) == k {
      KeyPath(k);
    }
  }

  lemma {:induction false} FilePathSplits(n: Node, p: Path)
    requires WellFormed(n) && HasFile(n, p)
    ensures PathOf(KeyOf(p)) == p
  {
    SlashFree(n, p);
    SplitJoin(p, '/');
  }

  lemma {:induction false} SlashFree(n: Node, p: Path)
    requires WellFormed(n) && HasFile(n, p)
    ensures forall s :: s in p ==> '/' !in s && s != ""
    decreases |p|
  {
    if |p| > 1 {
      var c :| c in n.children && c.Folder? && c.name == p[0] && HasFile(c, p[1..]);
      SlashFree(c, p[1..]);
      assert p == [p[0]] + p[1..];
    }
  }
}
