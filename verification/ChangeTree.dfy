/**
 The tree of changed files behind the change list (frontend-state.js). Discarding a folder acts
 on the files collected below its node, so the node of a folder must hold exactly the changes
 under that folder, whatever chain compression and sorting do to the rows.
 */
module ChangeTree {
  import opened Outcomes
  import opened Sorting

  datatype ChangeType = Added | Modified | Deleted

  datatype Change = Change(path: string, kind: ChangeType)

  datatype Counts = Counts(added: nat, modified: nat, deleted: nat)

  /** `children` are in insertion order, at most one of each name. */
  datatype Node = Node(name: string, path: string, children: seq<Node>, files: seq<Change>, counts: Counts)

  const NO_COUNTS := Counts(0, 0, 0)

  // ---------------------------------------------------------------- paths

  predicate IsSeparator(c: char) {
    c == '/' || c == '\\'
  }

  /** The non-empty parts between separators; `part` is the part read so far. */
  function PartsFrom(s: string, part: string): seq<string> {
    if s == "" then (if part == "" then [] else [part])
    else if IsSeparator(s[0]) then (if part == "" then [] else [part]) + PartsFrom(s[1..], "")
    else PartsFrom(s[1..], part + [s[0]])
  }

  function Parts(path: string): seq<string> {
    PartsFrom(path, "")
  }

  function Directories(c: Change): seq<string> {
    var parts := Parts(c.path);
    if parts == [] then [] else parts[..|parts| - 1]
  }

  predicate IsPart(part: string) {
    part != "" && forall i | 0 <= i < |part| :: !IsSeparator(part[i])
  }

  predicate AreParts(parts: seq<string>) {
    forall p | p in parts :: IsPart(p)
  }

  function Below(path: string, part: string): string {
    if path != "" then path + "/" + part else part
  }

  function Join(parts: seq<string>): string {
    if parts == [] then "" else Below(Join(parts[..|parts| - 1]), parts[|parts| - 1])
  }

  lemma {:induction false} PartsAreParts(s: string, part: string)
    requires part == "" || IsPart(part)
    ensures AreParts(PartsFrom(s, part))
  {
    if s != "" {
      if IsSeparator(s[0]) {
        PartsAreParts(s[1..], "");
      } else {
        PartsAreParts(s[1..], part + [s[0]]);
      }
    }
  }

  lemma {:induction false} ReadPart(part: string, rest: string, read: string)
    requires forall i | 0 <= i < |part| :: !IsSeparator(part[i])
    ensures PartsFrom(part + rest, read) == PartsFrom(rest, read + part)
  {
    if part == "" {
      assert part + rest == rest && read + part == read;
    } else {
      assert (part + rest)[0] == part[0] && (part + rest)[1..] == part[1..] + rest;
      ReadPart(part[1..], rest, read + [part[0]]);
      assert (read + [part[0]]) + part[1..] == read + part;
    }
  }

  /** Reading on after a separator starts a new part. */
  lemma {:induction false} PartsOfBelow(path: string, part: string, read: string)
    requires IsPart(part)
    ensures PartsFrom(path + ("/" + part), read) == PartsFrom(path, read) + [part]
  {
    var tail := "/" + part;
    if path == "" {
      assert path + tail == tail && tail[1..] == part + "";
      ReadPart(part, "", "");
      assert "" + part == part;
    } else {
      assert (path + tail)[0] == path[0] && (path + tail)[1..] == path[1..] + tail;
      PartsOfBelow(path[1..], part, if IsSeparator(path[0]) then "" else read + [path[0]]);
    }
  }

  lemma PartsOfOne(part: string)
    requires IsPart(part)
    ensures PartsFrom(part, "") == [part]
  {
    ReadPart(part, "", "");
    assert part + "" == part && "" + part == part;
  }

  /** A folder's path identifies the folder: its parts can be read back from it. */
  lemma {:induction false} PartsOfJoin(parts: seq<string>)
    requires AreParts(parts)
    ensures Parts(Join(parts)) == parts
    ensures Join(parts) == "" <==> parts == []
  {
    hide PartsFrom, IsPart;
    if parts == [] {
      PartsOfNothing();
    } else {
      var front, last := parts[..|parts| - 1], parts[|parts| - 1];
      PartsOfJoin(front);
      assert parts == front + [last];
      assert last in parts;
      PartIsNotEmpty(last);
      if front == [] {
        PartsOfOne(last);
      } else {
        assert Join(front) + "/" + last == Join(front) + ("/" + last);
        PartsOfBelow(Join(front), last, "");
      }
    }
  }

  lemma PartsOfNothing()
    ensures PartsFrom("", "") == []
  {
  }

  lemma PartIsNotEmpty(part: string)
    requires IsPart(part)
    ensures part != ""
  {
  }

  /** Every slash and every backslash ends a part, and nothing else does. */
  lemma {:induction false} SeparatorsSplit(a: string, separator: char, b: string, read: string)
    requires separator == '/' || separator == '\\'
    ensures PartsFrom(a + [separator] + b, read) == PartsFrom(a, read) + PartsFrom(b, "")
  {
    var whole := a + [separator] + b;
    if a == "" {
      assert whole == [separator] + b && whole[1..] == b;
    } else {
      assert whole[0] == a[0] && whole[1..] == a[1..] + [separator] + b;
      SeparatorsSplit(a[1..], separator, b, if IsSeparator(a[0]) then "" else read + [a[0]]);
    }
  }

  predicate IsPlain(name: string) {
    name != "" && '/' !in name && '\\' !in name
  }

  lemma PlainIsOnePart(name: string)
    requires IsPlain(name)
    ensures Parts(name) == [name]
  {
    assert forall i | 0 <= i < |name| :: name[i] in name;
    PartsOfOne(name);
  }

  /** The folders of a change are the parts of its path before the file name. */
  lemma FoldersOfChange(folder: string, separator: char, name: string, kind: ChangeType)
    requires IsPlain(name) && (separator == '/' || separator == '\\')
    ensures Directories(Change(folder + [separator] + name, kind)) == Parts(folder)
    ensures Directories(Change(name, kind)) == []
  {
    SeparatorsSplit(folder, separator, name, "");
    PlainIsOnePart(name);
    assert Parts(folder + [separator] + name) == Parts(folder) + [name];
  }

  lemma FolderPathsIdentify(a: seq<string>, b: seq<string>)
    requires AreParts(a) && AreParts(b) && Join(a) == Join(b)
    ensures a == b
  {
    PartsOfJoin(a);
    PartsOfJoin(b);
  }

  // ---------------------------------------------------------------- building

  function Bump(counts: Counts, kind: ChangeType): Counts {
    match kind
    case Added => counts.(added := counts.added + 1)
    case Modified => counts.(modified := counts.modified + 1)
    case Deleted => counts.(deleted := counts.deleted + 1)
  }

  function IndexOf(children: seq<Node>, name: string): (i: nat)
    ensures i <= |children|
    ensures i < |children| ==> children[i].name == name
    ensures forall j | 0 <= j < i :: children[j].name != name
  {
    if children == [] || children[0].name == name then 0 else 1 + IndexOf(children[1..], name)
  }

  /** The child of that name, or the new one that would be created. */
  function ChildOf(node: Node, name: string): Node {
    var i := IndexOf(node.children, name);
    if i < |node.children| then node.children[i] else Node(name, Below(node.path, name), [], [], NO_COUNTS)
  }

  function WithChild(node: Node, child: Node): Node {
    var i := IndexOf(node.children, child.name);
    node.(children := if i < |node.children| then node.children[i := child] else node.children + [child])
  }

  /** Adds a change below `node`, making the folders it needs and counting it in each of them. */
  function Insert(node: Node, directories: seq<string>, c: Change): (after: Node)
    ensures after.name == node.name && after.path == node.path && after.counts == node.counts
    decreases |directories|
  {
    if directories == [] then node.(files := node.files + [c])
    else
      var child := ChildOf(node, directories[0]);
      WithChild(node, Insert(child.(counts := Bump(child.counts, c.kind)), directories[1..], c))
  }

  const EMPTY_ROOT := Node("", "", [], [], NO_COUNTS)

  function Built(changes: seq<Change>): Node {
    if changes == [] then EMPTY_ROOT
    else
      var last := changes[|changes| - 1];
      Insert(Built(changes[..|changes| - 1]), Directories(last), last)
  }

  // ---------------------------------------------------------------- collecting

  function CollectFiles(node: Node): seq<Change> {
    node.files + CollectAll(node.children)
  }

  function CollectAll(nodes: seq<Node>): seq<Change> {
    if nodes == [] then [] else CollectFiles(nodes[0]) + CollectAll(nodes[1..])
  }

  lemma {:induction false} CollectReplaced(nodes: seq<Node>, i: nat, n: Node, c: Change)
    requires i < |nodes| && multiset(CollectFiles(n)) == multiset(CollectFiles(nodes[i])) + multiset{c}
    ensures multiset(CollectAll(nodes[i := n])) == multiset(CollectAll(nodes)) + multiset{c}
  {
    var after := nodes[i := n];
    if i == 0 {
      assert after[1..] == nodes[1..];
    } else {
      assert after[0] == nodes[0] && after[1..] == nodes[1..][i - 1 := n];
      CollectReplaced(nodes[1..], i - 1, n, c);
    }
  }

  lemma {:induction false} CollectAppended(nodes: seq<Node>, n: Node)
    ensures CollectAll(nodes + [n]) == CollectAll(nodes) + CollectFiles(n)
  {
    if nodes == [] {
      assert nodes + [n] == [n] && [n][1..] == [];
      assert CollectFiles(n) + [] == CollectFiles(n);
    } else {
      assert (nodes + [n])[1..] == nodes[1..] + [n];
      CollectAppended(nodes[1..], n);
    }
  }

  lemma WithChildCollects(node: Node, child: Node, c: Change)
    requires multiset(CollectFiles(child)) == multiset(CollectFiles(ChildOf(node, child.name))) + multiset{c}
    ensures multiset(CollectFiles(WithChild(node, child))) == multiset(CollectFiles(node)) + multiset{c}
  {
    var i := IndexOf(node.children, child.name);
    if i < |node.children| {
      CollectReplaced(node.children, i, child, c);
    } else {
      assert CollectFiles(ChildOf(node, child.name)) == [];
      CollectAppended(node.children, child);
    }
  }

  lemma {:induction false} InsertAddsOne(node: Node, directories: seq<string>, c: Change)
    ensures multiset(CollectFiles(Insert(node, directories, c))) == multiset(CollectFiles(node)) + multiset{c}
    decreases |directories|
  {
    if directories != [] {
      var child := ChildOf(node, directories[0]);
      var counted := child.(counts := Bump(child.counts, c.kind));
      InsertAddsOne(counted, directories[1..], c);
      assert CollectFiles(counted) == CollectFiles(child);
      WithChildCollects(node, Insert(counted, directories[1..], c), c);
    } else {
      assert CollectFiles(Insert(node, directories, c)) == node.files + [c] + CollectAll(node.children);
    }
  }

  /** The files of the whole tree are the input, reordered. */
  lemma {:induction false} RootCollectsInput(changes: seq<Change>)
    ensures multiset(CollectFiles(Built(changes))) == multiset(changes)
  {
    if changes != [] {
      var front, last := changes[..|changes| - 1], changes[|changes| - 1];
      RootCollectsInput(front);
      InsertAddsOne(Built(front), Directories(last), last);
      assert changes == front + [last];
    }
  }

  // ---------------------------------------------------------------- the node of a folder

  function NodeAt(node: Node, directories: seq<string>): Option<Node>
    decreases |directories|
  {
    if directories == [] then Some(node)
    else
      var i := IndexOf(node.children, directories[0]);
      if i < |node.children| then NodeAt(node.children[i], directories[1..]) else None
  }

  /** The files under a folder, none if there is no such folder. */
  function ContentAt(node: Node, directories: seq<string>): multiset<Change> {
    var found := NodeAt(node, directories);
    if found.Some? then multiset(CollectFiles(found.value)) else multiset{}
  }

  function CountsAt(node: Node, directories: seq<string>): Counts {
    var found := NodeAt(node, directories);
    if found.Some? then found.value.counts else NO_COUNTS
  }

  lemma IndexIsFirst(children: seq<Node>, name: string, i: nat)
    requires i < |children| && children[i].name == name && forall j | 0 <= j < i :: children[j].name != name
    ensures IndexOf(children, name) == i
  {
  }

  /** A child is found again after it was put in, and the others are where they were. */
  lemma WithChildFinds(node: Node, child: Node, name: string)
    ensures ChildOf(WithChild(node, child), name) == if name == child.name then child else ChildOf(node, name)
    ensures IndexOf(WithChild(node, child).children, child.name) < |WithChild(node, child).children|
    ensures name != child.name ==>
      (IndexOf(WithChild(node, child).children, name) < |WithChild(node, child).children| <==>
       IndexOf(node.children, name) < |node.children|)
  {
    IndexIsFirst(WithChild(node, child).children, child.name, IndexOf(node.children, child.name));
    if name != child.name {
      OthersStay(node.children, child, name);
    }
  }

  lemma OthersStay(children: seq<Node>, child: Node, name: string)
    requires name != child.name
    ensures var i, k := IndexOf(children, child.name), IndexOf(children, name);
      var after := if i < |children| then children[i := child] else children + [child];
      if k < |children| then IndexOf(after, name) == k && after[k] == children[k] else IndexOf(after, name) == |after|
  {
    var i, k := IndexOf(children, child.name), IndexOf(children, name);
    var after := if i < |children| then children[i := child] else children + [child];
    if k < |children| {
      assert forall j | 0 <= j < k :: after[j].name != name;
      IndexIsFirst(after, name, k);
    } else {
      assert forall j | 0 <= j < |after| :: after[j].name != name;
    }
  }

  lemma FreshChildIsEmpty(node: Node, name: string, d: seq<string>)
    requires IndexOf(node.children, name) == |node.children|
    ensures CollectFiles(ChildOf(node, name)) == [] && ChildOf(node, name).counts == NO_COUNTS
    ensures d != [] ==> NodeAt(ChildOf(node, name), d) == None
  {
  }

  lemma AtChild(node: Node, d: seq<string>)
    requires d != []
    ensures ContentAt(node, d) == ContentAt(ChildOf(node, d[0]), d[1..])
    ensures CountsAt(node, d) == CountsAt(ChildOf(node, d[0]), d[1..])
    ensures NodeAt(node, d).Some? || |d| > 1 ==> NodeAt(node, d) == NodeAt(ChildOf(node, d[0]), d[1..])
    ensures NodeAt(node, d).Some?
      <==> IndexOf(node.children, d[0]) < |node.children| && NodeAt(ChildOf(node, d[0]), d[1..]).Some?
  {
    hide CollectFiles;
    var i := IndexOf(node.children, d[0]);
    if i == |node.children| {
      FreshChildIsEmpty(node, d[0], d[1..]);
      WholeTree(ChildOf(node, d[0]));
    } else {
      assert ChildOf(node, d[0]) == node.children[i];
    }
  }

  /** An insertion adds its change to the folders on its way, with counts, and touches no other folder. */
  lemma {:induction false} InsertAtFolder(node: Node, directories: seq<string>, c: Change, d: seq<string>)
    ensures d <= directories ==>
      NodeAt(Insert(node, directories, c), d).Some?
        && ContentAt(Insert(node, directories, c), d) == ContentAt(node, d) + multiset{c}
    ensures d <= directories && d != [] ==> CountsAt(Insert(node, directories, c), d) == Bump(CountsAt(node, d), c.kind)
    ensures !(d <= directories) ==> NodeAt(Insert(node, directories, c), d) == NodeAt(node, d)
    decreases |directories|
  {
    hide CollectFiles, ChildOf, WithChild, NodeAt, ContentAt, CountsAt;
    if d == [] {
      InsertAddsOne(node, directories, c);
      AtItself(node);
      AtItself(Insert(node, directories, c));
    } else if directories == [] {
      FilesDoNotMatter(node, Insert(node, directories, c), d);
    } else if d[0] != directories[0] {
      InsertPassesBy(node, directories, c, d);
    } else {
      var child := ChildOf(node, directories[0]);
      var counted := child.(counts := Bump(child.counts, c.kind));
      var grown := Insert(counted, directories[1..], c);
      InsertAtFolder(counted, directories[1..], c, d[1..]);
      ChildIsNamed(node, directories[0]);
      InsertGoesThrough(node, grown, d);
      AtChild(node, d);
      CountsDoNotMatter(child, counted, d[1..]);
      AtItself(grown);
      AtItself(child);
      assert d <= directories <==> d[1..] <= directories[1..];
      assert |d| == 1 ==> d[1..] == [] && d[1..] <= directories[1..];
    }
  }

  /** The way to `d` does not start with the child the insertion goes through. */
  lemma InsertPassesBy(node: Node, directories: seq<string>, c: Change, d: seq<string>)
    requires directories != [] && d != [] && d[0] != directories[0]
    ensures NodeAt(Insert(node, directories, c), d) == NodeAt(node, d)
  {
    hide CollectFiles, ChildOf, WithChild, NodeAt, ContentAt, CountsAt, Bump;
    var child := ChildOf(node, directories[0]);
    var grown := Insert(child.(counts := Bump(child.counts, c.kind)), directories[1..], c);
    ChildIsNamed(node, directories[0]);
    WithChildFinds(node, grown, d[0]);
    AtChild(node, d);
    AtChild(WithChild(node, grown), d);
  }

  /** The way to `d` goes through the grown child. */
  lemma InsertGoesThrough(node: Node, grown: Node, d: seq<string>)
    requires d != [] && grown.name == d[0]
    ensures ContentAt(WithChild(node, grown), d) == ContentAt(grown, d[1..])
    ensures CountsAt(WithChild(node, grown), d) == CountsAt(grown, d[1..])
    ensures NodeAt(grown, d[1..]).Some? || |d| > 1 ==> NodeAt(WithChild(node, grown), d) == NodeAt(grown, d[1..])
  {
    hide CollectFiles, ChildOf, WithChild, NodeAt, ContentAt, CountsAt;
    WithChildFinds(node, grown, d[0]);
    AtChild(WithChild(node, grown), d);
  }

  lemma AtItself(node: Node)
    ensures NodeAt(node, []) == Some(node) && ContentAt(node, []) == multiset(CollectFiles(node))
      && CountsAt(node, []) == node.counts
  {
  }

  lemma WholeTree(node: Node)
    ensures NodeAt(node, []) == Some(node)
  {
  }

  lemma ChildIsNamed(node: Node, name: string)
    ensures ChildOf(node, name).name == name
  {
  }

  lemma FilesDoNotMatter(a: Node, b: Node, d: seq<string>)
    requires a.children == b.children && d != []
    ensures NodeAt(a, d) == NodeAt(b, d)
  {
  }

  lemma CountsDoNotMatter(a: Node, b: Node, d: seq<string>)
    requires b == a.(counts := b.counts)
    ensures ContentAt(a, d) == ContentAt(b, d)
    ensures d != [] ==> NodeAt(a, d) == NodeAt(b, d) && CountsAt(a, d) == CountsAt(b, d)
    ensures NodeAt(a, d).Some? <==> NodeAt(b, d).Some?
  {
  }

  // ---------------------------------------------------------------- what a folder stands for

  /** The changes whose path leads through a folder, in input order. */
  function Under(changes: seq<Change>, d: seq<string>): seq<Change> {
    if changes == [] then []
    else
      var last := changes[|changes| - 1];
      Under(changes[..|changes| - 1], d) + if d <= Directories(last) then [last] else []
  }

  function CountOf(changes: seq<Change>, kind: ChangeType): nat {
    if changes == [] then 0
    else CountOf(changes[..|changes| - 1], kind) + (if changes[|changes| - 1].kind == kind then 1 else 0)
  }

  function Tally(changes: seq<Change>): Counts {
    Counts(CountOf(changes, Added), CountOf(changes, Modified), CountOf(changes, Deleted))
  }

  lemma TallyOneMore(changes: seq<Change>, c: Change)
    ensures Tally(changes + [c]) == Bump(Tally(changes), c.kind)
  {
    assert (changes + [c])[..|changes|] == changes;
  }

  /**
     The node of a folder holds exactly the changes under that folder, its counts are theirs by
     type, and there is a node for a folder exactly when some change lies under it.
   */
  lemma {:induction false} FolderHoldsItsChanges(changes: seq<Change>, d: seq<string>)
    ensures ContentAt(Built(changes), d) == multiset(Under(changes, d))
    ensures d != [] ==> CountsAt(Built(changes), d) == Tally(Under(changes, d))
    ensures NodeAt(Built(changes), d).Some? <==> d == [] || Under(changes, d) != []
  {
    hide NodeAt, Insert, ContentAt, CountsAt, Tally, Directories, Bump;
    if changes == [] {
      EmptyRoot(d);
      NothingTallied();
    } else {
      var front, last := changes[..|changes| - 1], changes[|changes| - 1];
      FolderHoldsItsChanges(front, d);
      InsertAtFolder(Built(front), Directories(last), last, d);
      TallyOneMore(Under(front, d), last);
      SameNodeSameContent(Built(front), Built(changes), d);
      assert Under(front, d) + [] == Under(front, d);
    }
  }

  /**
   Inserts the changes one by one. The tree holds every change once, and the node of each folder
   holds and counts exactly the changes under it.
   */
  method BuildChangeTreeModel(changes: seq<Change>) returns (root: Node)
    ensures root == Built(changes)
    ensures multiset(CollectFiles(root)) == multiset(changes)
    ensures forall d :: ContentAt(root, d) == multiset(Under(changes, d))
    ensures forall d | d != [] :: CountsAt(root, d) == Tally(Under(changes, d))
  {
    hide ContentAt, CountsAt, Under, Tally, CollectFiles;
    root := EMPTY_ROOT;
    for i := 0 to |changes|
      invariant root == Built(changes[..i])
    {
      root := Insert(root, Directories(changes[i]), changes[i]);
      assert changes[..i + 1][..i] == changes[..i];
    }
    assert changes[..|changes|] == changes;
    RootCollectsInput(changes);
    forall d: seq<string>
      ensures ContentAt(root, d) == multiset(Under(changes, d))
      ensures d != [] ==> CountsAt(root, d) == Tally(Under(changes, d))
    {
      FolderHoldsItsChanges(changes, d);
    }
  }

  lemma SameNodeSameContent(a: Node, b: Node, d: seq<string>)
    ensures NodeAt(a, d) == NodeAt(b, d) ==> ContentAt(a, d) == ContentAt(b, d) && CountsAt(a, d) == CountsAt(b, d)
  {
  }

  lemma NothingTallied()
    ensures Tally([]) == NO_COUNTS
  {
  }

  lemma EmptyRoot(d: seq<string>)
    ensures NodeAt(EMPTY_ROOT, d).Some? <==> d == []
    ensures ContentAt(EMPTY_ROOT, d) == multiset{} && CountsAt(EMPTY_ROOT, d) == NO_COUNTS
  {
  }

  /** Each node carries the path of its folder. */
  ghost predicate PathsRight(node: Node, d: seq<string>) {
    node.path == Join(d)
      && forall i | 0 <= i < |node.children| :: PathsRight(node.children[i], d + [node.children[i].name])
  }

  lemma JoinOneMore(d: seq<string>, name: string)
    ensures Join(d + [name]) == Below(Join(d), name)
  {
    assert (d + [name])[..|d|] == d;
  }

  lemma {:induction false} InsertKeepsPaths(node: Node, directories: seq<string>, c: Change, d: seq<string>)
    requires PathsRight(node, d)
    ensures PathsRight(Insert(node, directories, c), d)
    decreases |directories|
  {
    if directories != [] {
      var name := directories[0];
      var child := ChildOf(node, name);
      var counted := child.(counts := Bump(child.counts, c.kind));
      JoinOneMore(d, name);
      assert PathsRight(child, d + [name]);
      assert PathsRight(counted, d + [name]);
      InsertKeepsPaths(counted, directories[1..], c, d + [name]);
    }
  }

  lemma {:induction false} BuiltPathsRight(changes: seq<Change>)
    ensures PathsRight(Built(changes), [])
  {
    if changes != [] {
      var last := changes[|changes| - 1];
      BuiltPathsRight(changes[..|changes| - 1]);
      InsertKeepsPaths(Built(changes[..|changes| - 1]), Directories(last), last, []);
    }
  }

  lemma {:induction false} PathAt(node: Node, d: seq<string>, e: seq<string>)
    requires PathsRight(node, d) && NodeAt(node, e).Some?
    ensures NodeAt(node, e).value.path == Join(d + e)
    decreases |e|
  {
    if e == [] {
      assert d + e == d;
    } else {
      var i := IndexOf(node.children, e[0]);
      PathAt(node.children[i], d + [e[0]], e[1..]);
      assert (d + [e[0]]) + e[1..] == d + e;
    }
  }

  /** The path shown for a folder's node is the folder's, and no other folder has it. */
  lemma FolderPath(changes: seq<Change>, d: seq<string>, e: seq<string>)
    requires NodeAt(Built(changes), d).Some? && NodeAt(Built(changes), e).Some?
    ensures NodeAt(Built(changes), d).value.path == Join(d)
    ensures NodeAt(Built(changes), d).value.path == NodeAt(Built(changes), e).value.path ==> d == e
  {
    hide NodeAt, Insert, Join;
    BuiltPathsRight(changes);
    PathAt(Built(changes), [], d);
    PathAt(Built(changes), [], e);
    assert [] + d == d && [] + e == e;
    FolderHoldsItsChanges(changes, d);
    FolderHoldsItsChanges(changes, e);
    FoldersAreParts(changes, d);
    FoldersAreParts(changes, e);
    if Join(d) == Join(e) {
      FolderPathsIdentify(d, e);
    }
  }

  lemma {:induction false} FoldersAreParts(changes: seq<Change>, d: seq<string>)
    requires d == [] || Under(changes, d) != []
    ensures AreParts(d)
  {
    if d != [] {
      var last := changes[|changes| - 1];
      if d <= Directories(last) {
        PartsAreParts(last.path, "");
        assert forall p | p in d :: p in Parts(last.path);
      } else {
        FoldersAreParts(changes[..|changes| - 1], d);
      }
    }
  }

  // ---------------------------------------------------------------- compression

  /** The end of the chain of only children that starts at `node`. */
  function CompressedNode(node: Node): Node {
    if node.files == [] && |node.children| == 1 then CompressedNode(node.children[0]) else node
  }

  function CompressedNames(node: Node): seq<string> {
    [node.name] + if node.files == [] && |node.children| == 1 then CompressedNames(node.children[0]) else []
  }

  /** Compressing a chain keeps its files. */
  lemma {:induction false} CompressionKeepsFiles(node: Node)
    ensures CollectFiles(CompressedNode(node)) == CollectFiles(node)
  {
    if node.files == [] && |node.children| == 1 {
      CompressionKeepsFiles(node.children[0]);
      assert CollectAll(node.children) == CollectFiles(node.children[0]) + CollectAll(node.children[1..]);
    }
  }

  /** Walks down the chain, collecting the names shown for it. */
  method CompressedChangeFolder(node: Node) returns (current: Node, names: seq<string>)
    ensures current == CompressedNode(node) && names == CompressedNames(node)
    ensures CollectFiles(current) == CollectFiles(node)
  {
    names, current := [node.name], node;
    while current.files == [] && |current.children| == 1
      invariant CompressedNode(current) == CompressedNode(node)
        && names + CompressedNames(current)[1..] == CompressedNames(node)
      decreases current
    {
      current := current.children[0];
      names := names + [current.name];
    }
    CompressionKeepsFiles(node);
  }

  /** Discarding a folder row acts on exactly the changes under the folder the row starts from. */
  lemma FolderRowDiscards(changes: seq<Change>, d: seq<string>)
    requires NodeAt(Built(changes), d).Some?
    ensures multiset(CollectFiles(CompressedNode(NodeAt(Built(changes), d).value))) == multiset(Under(changes, d))
  {
    FolderHoldsItsChanges(changes, d);
    CompressionKeepsFiles(NodeAt(Built(changes), d).value);
  }

  // ---------------------------------------------------------------- rows

  function Size(node: Node): nat {
    1 + SizeAll(node.children)
  }

  function SizeAll(nodes: seq<Node>): nat {
    if nodes == [] then 0 else Size(nodes[0]) + SizeAll(nodes[1..])
  }

  lemma {:induction false} CompressedIsSmaller(node: Node)
    ensures Size(CompressedNode(node)) <= Size(node)
  {
    if node.files == [] && |node.children| == 1 {
      CompressedIsSmaller(node.children[0]);
      assert SizeAll(node.children) == Size(node.children[0]) + SizeAll(node.children[1..]);
    }
  }

  lemma {:induction false} InsertedSize(n: Node, nodes: seq<Node>, before: (Node, Node) -> bool)
    ensures SizeAll(InsertSorted(n, nodes, before)) == Size(n) + SizeAll(nodes)
    ensures multiset(CollectAll(InsertSorted(n, nodes, before)))
      == multiset(CollectFiles(n)) + multiset(CollectAll(nodes))
  {
    if nodes != [] && before(nodes[0], n) {
      InsertedSize(n, nodes[1..], before);
    }
  }

  lemma {:induction false} SortedSize(nodes: seq<Node>, before: (Node, Node) -> bool)
    ensures SizeAll(Sort(nodes, before)) == SizeAll(nodes)
    ensures multiset(CollectAll(Sort(nodes, before))) == multiset(CollectAll(nodes))
  {
    if nodes != [] {
      SortedSize(nodes[1..], before);
      InsertedSize(nodes[0], Sort(nodes[1..], before), before);
    }
  }

  /** How the rows are ordered; locale comparison is a parameter. */
  datatype RowOrder = RowOrder(folders: (Node, Node) -> bool, files: (Change, Change) -> bool)

  datatype Row =
    | FolderRow(path: string, names: seq<string>, parent: Option<string>, depth: nat, posInSet: nat, setSize: nat,
                isOpen: bool)
    | FileRow(change: Change, parent: Option<string>, depth: nat, posInSet: nat, setSize: nat)

  /** The rows below one folder: its folders, each followed by its own rows if open, then its files. */
  function Rows(node: Node, order: RowOrder, open: set<string>, parent: Option<string>, depth: nat): seq<Row>
    decreases Size(node), 1
  {
    SortedSize(node.children, order.folders);
    var setSize := |node.children| + |node.files|;
    FolderRows(Sort(node.children, order.folders), order, open, parent, depth, 1, setSize)
      + FileRows(Sort(node.files, order.files), parent, depth, |node.children| + 1, setSize)
  }

  function FolderRows(folders: seq<Node>, order: RowOrder, open: set<string>, parent: Option<string>, depth: nat,
                      position: nat, setSize: nat): seq<Row>
    decreases SizeAll(folders) + 1, 0
  {
    if folders == [] then []
    else
      CompressedIsSmaller(folders[0]);
      var node, names := CompressedNode(folders[0]), CompressedNames(folders[0]);
      var isOpen := node.path in open;
      [FolderRow(node.path, names, parent, depth, position, setSize, isOpen)]
        + (if isOpen then Rows(node, order, open, Some(node.path), depth + 1) else [])
        + FolderRows(folders[1..], order, open, parent, depth, position + 1, setSize)
  }

  function FileRows(files: seq<Change>, parent: Option<string>, depth: nat, position: nat, setSize: nat): seq<Row> {
    if files == [] then []
    else
      var first := FileRow(files[0], parent, depth, position, setSize);
      [first] + FileRows(files[1..], parent, depth, position + 1, setSize)
  }

  function Emitted(rows: seq<Row>): seq<Change> {
    if rows == [] then []
    else (if rows[0].FileRow? then [rows[0].change] else []) + Emitted(rows[1..])
  }

  lemma {:induction false} EmittedConcat(a: seq<Row>, b: seq<Row>)
    ensures Emitted(a + b) == Emitted(a) + Emitted(b)
  {
    if a == [] {
      assert a + b == b;
    } else {
      assert (a + b)[1..] == a[1..] + b;
      EmittedConcat(a[1..], b);
    }
  }

  lemma {:induction false} FileRowsEmit(files: seq<Change>, parent: Option<string>, depth: nat, position: nat,
                                        setSize: nat)
    ensures Emitted(FileRows(files, parent, depth, position, setSize)) == files
  {
    if files != [] {
      FileRowsEmit(files[1..], parent, depth, position + 1, setSize);
    }
  }

  /** The folder paths collected for opening everything. */
  function FolderPaths(node: Node): seq<string>
    decreases Size(node), 1
  {
    ChildFolderPaths(node.children)
  }

  function ChildFolderPaths(children: seq<Node>): seq<string>
    decreases SizeAll(children) + 1, 0
  {
    if children == [] then []
    else
      CompressedIsSmaller(children[0]);
      [CompressedNode(children[0]).path] + FolderPaths(CompressedNode(children[0])) + ChildFolderPaths(children[1..])
  }

  ghost predicate AllOpen(paths: seq<string>, open: set<string>) {
    forall p | p in paths :: p in open
  }

  // ---------------------------------------------------------------- every file once

  /** With every collected folder open, the rows show each file of the node once. */
  lemma {:induction false} RowsEmitAll(node: Node, order: RowOrder, open: set<string>, parent: Option<string>,
                                       depth: nat)
    requires AllOpen(FolderPaths(node), open)
    ensures multiset(Emitted(Rows(node, order, open, parent, depth))) == multiset(CollectFiles(node))
    decreases Size(node), 1
  {
    hide FolderRows, FileRows, Emitted, Sort;
    var children, files := Sort(node.children, order.folders), Sort(node.files, order.files);
    var setSize := |node.children| + |node.files|;
    SortedSize(node.children, order.folders);
    SortKeepsElements(node.children, order.folders);
    SortKeepsElements(node.files, order.files);
    forall c | c in children
      ensures ChildOpen(c, open)
    {
      ChildPaths(node.children, c, open);
    }
    FolderRowsEmitAll(children, order, open, parent, depth, 1, setSize);
    FileRowsEmit(files, parent, depth, |node.children| + 1, setSize);
    EmittedConcat(FolderRows(children, order, open, parent, depth, 1, setSize),
      FileRows(files, parent, depth, |node.children| + 1, setSize));
  }

  ghost predicate ChildOpen(child: Node, open: set<string>) {
    CompressedNode(child).path in open && AllOpen(FolderPaths(CompressedNode(child)), open)
  }

  lemma {:induction false} ChildPaths(children: seq<Node>, child: Node, open: set<string>)
    requires AllOpen(ChildFolderPaths(children), open) && child in children
    ensures ChildOpen(child, open)
  {
    hide FolderPaths, CompressedNode;
    var own, rest := FolderPaths(CompressedNode(children[0])), ChildFolderPaths(children[1..]);
    CompressedIsSmaller(children[0]);
    var all := [CompressedNode(children[0]).path] + own + rest;
    assert all == ChildFolderPaths(children);
    assert all[0] in all;
    assert forall p | p in own :: p in all;
    assert forall p | p in rest :: p in all;
    if child != children[0] {
      ChildPaths(children[1..], child, open);
    }
  }

  lemma {:induction false} FolderRowsEmitAll(folders: seq<Node>, order: RowOrder, open: set<string>,
                                             parent: Option<string>, depth: nat, position: nat, setSize: nat)
    requires forall c | c in folders :: ChildOpen(c, open)
    ensures multiset(Emitted(FolderRows(folders, order, open, parent, depth, position, setSize)))
      == multiset(CollectAll(folders))
    decreases SizeAll(folders) + 1, 0
  {
    hide Rows, CompressedNode, CompressedNames, Emitted, CollectFiles, ChildOpen;
    if folders == [] {
      NothingEmitted();
    } else {
      var node, names := CompressedNode(folders[0]), CompressedNames(folders[0]);
      CompressedIsSmaller(folders[0]);
      CompressionKeepsFiles(folders[0]);
      OpenChild(folders[0], open);
      RowsEmitAll(node, order, open, Some(node.path), depth + 1);
      FolderRowsEmitAll(folders[1..], order, open, parent, depth, position + 1, setSize);
      var head := FolderRow(node.path, names, parent, depth, position, setSize, true);
      var own := Rows(node, order, open, Some(node.path), depth + 1);
      var rest := FolderRows(folders[1..], order, open, parent, depth, position + 1, setSize);
      EmittedConcat([head] + own, rest);
      EmittedConcat([head], own);
      FolderRowEmitsNothing(head);
    }
  }

  lemma OpenChild(child: Node, open: set<string>)
    requires ChildOpen(child, open)
    ensures CompressedNode(child).path in open && AllOpen(FolderPaths(CompressedNode(child)), open)
  {
  }

  lemma NothingEmitted()
    ensures Emitted([]) == []
  {
  }

  lemma FolderRowEmitsNothing(row: Row)
    requires row.FolderRow?
    ensures Emitted([row]) == []
  {
  }

  /** Opening every collected folder of a built tree shows every change of the input exactly once. */
  lemma OpenTreeShowsInput(changes: seq<Change>, order: RowOrder, open: set<string>)
    requires AllOpen(FolderPaths(Built(changes)), open)
    ensures multiset(Emitted(Rows(Built(changes), order, open, None, 0))) == multiset(changes)
  {
    RowsEmitAll(Built(changes), order, open, None, 0);
    RootCollectsInput(changes);
  }
}
