/**
 * The virtual file tree store of contexts/FileSystemContext.tsx.
 *
 * The store keeps one tree of items. Every mutator deep-copies the tree,
 * looks up one item of the copy with `findItem` (a depth-first search on
 * the stored `path`), changes that item in place and publishes the copy.
 * Here a mutator is a function from tree to tree: the item `findItem`
 * stops at is addressed by its position (the child indices followed from
 * the root, `FirstPos`), and "change that item in place" is `Put`, which
 * replaces the subtree at a position and keeps everything else.
 */
module FileTree {
  import opened Wrappers
  import opened Text

  /**
   * A file-system item. Both kinds carry the absolute `path` stored when
   * the item was created and its `name`; a file has a content buffer and a
   * folder an ordered list of children.
   */
  datatype Node =
    | File(path: string, name: string, content: string)
    | Folder(path: string, name: string, children: seq<Node>)

  // ---------------------------------------------------------------------
  // findItem
  // ---------------------------------------------------------------------

  /**
   * `findItem(path, root)`: the root if its path matches, otherwise the
   * first match found in the children, searched depth-first in order.
   */
  function FindItem(path: string, root: Node): (r: Option<Node>)
    ensures r.Some? ==> r.value.path == path
  {
    if root.path == path then Some(root)
    else if root.Folder? then FindInChildren(path, root.children)
    else None
  }

  /** The `for (const child of root.children)` loop of `findItem`, with its early return. */
  function FindInChildren(path: string, children: seq<Node>): (r: Option<Node>)
    ensures r.Some? ==> r.value.path == path
  {
    if children == [] then None
    else match FindItem(path, children[0])
      case Some(found) => Some(found)
      case None => FindInChildren(path, children[1..])
  }

  /** All items of a tree in depth-first pre-order: an item, then its children's subtrees in order. */
  function Preorder(n: Node): seq<Node>
  {
    [n] + if n.Folder? then PreorderAll(n.children) else []
  }

  function PreorderAll(children: seq<Node>): seq<Node>
  {
    if children == [] then [] else Preorder(children[0]) + PreorderAll(children[1..])
  }

  /** The first item of a list whose path is `path`. */
  function FirstWithPath(nodes: seq<Node>, path: string): (r: Option<Node>)
    ensures r.None? <==> forall i :: 0 <= i < |nodes| ==> nodes[i].path != path
    ensures r.Some? ==> r.value in nodes && r.value.path == path
  {
    if nodes == [] then None
    else if nodes[0].path == path then Some(nodes[0])
    else FirstWithPath(nodes[1..], path)
  }

  lemma {:induction false} FirstWithPathAppend(a: seq<Node>, b: seq<Node>, path: string)
    ensures FirstWithPath(a + b, path)
         == if FirstWithPath(a, path).Some? then FirstWithPath(a, path) else FirstWithPath(b, path)
  {
    if a != [] {
      assert (a + b)[1..] == a[1..] + b;
      FirstWithPathAppend(a[1..], b, path);
    } else {
      assert a + b == b;
    }
  }

  /**
   * `findItem` returns exactly the first item in depth-first pre-order
   * whose stored path is the query, and null when no item has that path.
   */
  lemma {:induction false} FindItemIsFirstInPreorder(path: string, n: Node)
    ensures FindItem(path, n) == FirstWithPath(Preorder(n), path)
    decreases n, 1
  {
    if n.Folder? {
      FindInChildrenIsFirstInPreorder(path, n.children);
      FirstWithPathAppend([n], PreorderAll(n.children), path);
    } else {
      assert Preorder(n) == [n];
    }
  }

  lemma {:induction false} FindInChildrenIsFirstInPreorder(path: string, children: seq<Node>)
    ensures FindInChildren(path, children) == FirstWithPath(PreorderAll(children), path)
    decreases children, 0
  {
    if children != [] {
      FindItemIsFirstInPreorder(path, children[0]);
      FindInChildrenIsFirstInPreorder(path, children[1..]);
      FirstWithPathAppend(Preorder(children[0]), PreorderAll(children[1..]), path);
    }
  }

  // ---------------------------------------------------------------------
  // Positions: where `findItem` stops, and replacing the item found there
  // ---------------------------------------------------------------------

  /** A position in a tree: the child indices followed from the root. */
  type Pos = seq<nat>

  /** The subtree at a position, if the position exists. */
  function Get(n: Node, pos: Pos): Option<Node>
  {
    if pos == [] then Some(n)
    else if n.Folder? && pos[0] < |n.children| then Get(n.children[pos[0]], pos[1..])
    else None
  }

  /** The tree with the subtree at `pos` replaced by `m` (unchanged if `pos` does not exist). */
  function Put(n: Node, pos: Pos, m: Node): Node
  {
    if pos == [] then m
    else if n.Folder? && pos[0] < |n.children| then
      n.(children := n.children[pos[0] := Put(n.children[pos[0]], pos[1..], m)])
    else n
  }

  /** The position of the item `findItem(path, n)` returns. */
  function FirstPos(path: string, n: Node): Option<Pos>
    decreases n, 0
  {
    if n.path == path then Some([])
    else if n.Folder? then FirstPosFrom(path, n.children, 0)
    else None
  }

  function FirstPosFrom(path: string, children: seq<Node>, i: nat): Option<Pos>
    requires i <= |children|
    decreases children, |children| - i
  {
    if i == |children| then None
    else match FirstPos(path, children[i])
      case Some(q) => Some([i] + q)
      case None => FirstPosFrom(path, children, i + 1)
  }

  /** `FirstPos` locates exactly the item `findItem` returns. */
  lemma {:induction false} FirstPosLocatesFindItem(path: string, n: Node)
    ensures FirstPos(path, n).None? <==> FindItem(path, n).None?
    ensures FirstPos(path, n).Some? ==> Get(n, FirstPos(path, n).value) == FindItem(path, n)
    decreases n, 0
  {
    if n.path != path && n.Folder? {
      FirstPosFromLocates(path, n.children, 0);
      assert n.children[0..] == n.children;
    }
  }

  lemma {:induction false} FirstPosFromLocates(path: string, children: seq<Node>, i: nat)
    requires i <= |children|
    ensures FirstPosFrom(path, children, i).None? <==> FindInChildren(path, children[i..]).None?
    ensures FirstPosFrom(path, children, i).Some? ==>
              var q := FirstPosFrom(path, children, i).value;
              q != [] && i <= q[0] < |children| &&
              Get(children[q[0]], q[1..]) == FindInChildren(path, children[i..])
    decreases children, |children| - i
  {
    if i < |children| {
      assert children[i..][0] == children[i] && children[i..][1..] == children[i + 1..];
      FirstPosLocatesFindItem(path, children[i]);
      FirstPosFromLocates(path, children, i + 1);
    }
  }

  /** The position `FirstPosFrom` returns: the earlier children hold no match. */
  lemma {:induction false} FirstPosFromShape(path: string, children: seq<Node>, i: nat)
    requires i <= |children|
    requires FirstPosFrom(path, children, i).Some?
    ensures var q := FirstPosFrom(path, children, i).value;
      q != [] && i <= q[0] < |children| &&
      FirstPos(path, children[q[0]]) == Some(q[1..]) &&
      forall j :: i <= j < q[0] ==> FirstPos(path, children[j]).None?
    decreases |children| - i
  {
    if FirstPos(path, children[i]).None? {
      FirstPosFromShape(path, children, i + 1);
    }
  }

  /** `FirstPosFrom` skips children without a match and stops at the first one with a match. */
  lemma {:induction false} FirstPosFromSkips(path: string, children: seq<Node>, i: nat, k: nat)
    requires i <= k < |children|
    requires forall j :: i <= j < k ==> FirstPos(path, children[j]).None?
    requires FirstPos(path, children[k]).Some?
    ensures FirstPosFrom(path, children, i) == Some([k] + FirstPos(path, children[k]).value)
    decreases k - i
  {
    if i < k {
      FirstPosFromSkips(path, children, i + 1, k);
    }
  }

  predicate IsPrefix(a: Pos, b: Pos)
  {
    |a| <= |b| && b[..|a|] == a
  }

  /** Two positions neither of which lies below the other. */
  predicate Apart(a: Pos, b: Pos)
  {
    !IsPrefix(a, b) && !IsPrefix(b, a)
  }

  /** The same item apart from the contents of its children list (which keeps its length). */
  predicate SameHeader(a: Node, b: Node)
  {
    && a.path == b.path && a.name == b.name && a.Folder? == b.Folder?
    && (a.File? ==> a.content == b.content)
    && (a.Folder? ==> |a.children| == |b.children|)
  }

  /**
   * `after` differs from `before` only in the subtree at `pos`: subtrees
   * apart from `pos` are identical and the items on the way to `pos` keep
   * their path, name, kind and number of children.
   */
  ghost predicate ChangedOnlyAt(before: Node, after: Node, pos: Pos)
  {
    && (forall q :: Apart(pos, q) ==> Get(after, q) == Get(before, q))
    && (forall q :: IsPrefix(q, pos) && q != pos ==>
          Get(before, q).Some? && Get(after, q).Some? && SameHeader(Get(before, q).value, Get(after, q).value))
  }

  lemma {:induction false} GetConcat(n: Node, a: Pos, b: Pos)
    ensures Get(n, a + b) == if Get(n, a).Some? then Get(Get(n, a).value, b) else None
    decreases a
  {
    if a == [] {
      assert a + b == b;
    } else {
      assert (a + b)[0] == a[0] && (a + b)[1..] == a[1..] + b;
      if n.Folder? && a[0] < |n.children| {
        GetConcat(n.children[a[0]], a[1..], b);
      }
    }
  }

  lemma {:induction false} PutGetSame(n: Node, pos: Pos, m: Node)
    requires Get(n, pos).Some?
    ensures Get(Put(n, pos, m), pos) == Some(m)
    decreases pos
  {
    if pos != [] {
      PutGetSame(n.children[pos[0]], pos[1..], m);
    }
  }

  lemma {:induction false} PutGetApart(n: Node, pos: Pos, m: Node, q: Pos)
    requires Get(n, pos).Some? && Apart(pos, q)
    ensures Get(Put(n, pos, m), q) == Get(n, q)
    decreases pos
  {
    var k := pos[0];
    if q[0] == k {
      PrefixCons(pos, q);
      PrefixCons(q, pos);
      PutGetApart(n.children[k], pos[1..], m, q[1..]);
    }
  }

  lemma PrefixCons(a: Pos, b: Pos)
    requires a != [] && b != [] && a[0] == b[0]
    ensures IsPrefix(a, b) <==> IsPrefix(a[1..], b[1..])
  {
    if |a| <= |b| {
      assert b[..|a|] == [b[0]] + b[1..][..|a| - 1];
      assert a == [a[0]] + a[1..];
    }
  }

  lemma {:induction false} PutGetAbove(n: Node, pos: Pos, m: Node, q: Pos)
    requires Get(n, pos).Some? && IsPrefix(q, pos) && q != pos
    ensures Get(n, q).Some? && Get(Put(n, pos, m), q).Some?
    ensures SameHeader(Get(n, q).value, Get(Put(n, pos, m), q).value)
    decreases q
  {
    if q != [] {
      assert q[0] == pos[0];
      assert IsPrefix(q[1..], pos[1..]) && q[1..] != pos[1..] by {
        assert pos[1..][..|q| - 1] == pos[..|q|][1..];
      }
      PutGetAbove(n.children[pos[0]], pos[1..], m, q[1..]);
    }
  }

  /** Replacing the subtree at an existing position changes that subtree and nothing else. */
  lemma PutChangesOnlyAt(n: Node, pos: Pos, m: Node)
    requires Get(n, pos).Some?
    ensures Get(Put(n, pos, m), pos) == Some(m)
    ensures ChangedOnlyAt(n, Put(n, pos, m), pos)
  {
    PutGetSame(n, pos, m);
    forall q | Apart(pos, q) ensures Get(Put(n, pos, m), q) == Get(n, q) {
      PutGetApart(n, pos, m, q);
    }
    forall q | IsPrefix(q, pos) && q != pos
      ensures Get(n, q).Some? && Get(Put(n, pos, m), q).Some?
      ensures SameHeader(Get(n, q).value, Get(Put(n, pos, m), q).value)
    {
      PutGetAbove(n, pos, m, q);
    }
  }

  /** After replacing the item `findItem(path)` found by one with the same path, `findItem(path)` finds the replacement. */
  lemma {:induction false} FirstPosAfterPut(path: string, n: Node, m: Node)
    requires FirstPos(path, n).Some? && m.path == path
    ensures FirstPos(path, Put(n, FirstPos(path, n).value, m)) == FirstPos(path, n)
    decreases n
  {
    var q := FirstPos(path, n).value;
    if q != [] {
      var cs := n.children;
      FirstPosFromShape(path, cs, 0);
      var k := q[0];
      FirstPosAfterPut(path, cs[k], m);
      var cs' := cs[k := Put(cs[k], q[1..], m)];
      assert Put(n, q, m) == n.(children := cs');
      assert forall j :: 0 <= j < k ==> cs'[j] == cs[j];
      assert FirstPos(path, cs'[k]) == Some(q[1..]);
      FirstPosFromSkips(path, cs', 0, k);
      assert [k] + q[1..] == q;
      assert n.path != path;
    }
  }

  lemma FindAfterPut(path: string, n: Node, m: Node)
    requires FirstPos(path, n).Some? && m.path == path
    ensures FindItem(path, Put(n, FirstPos(path, n).value, m)) == Some(m)
  {
    var q := FirstPos(path, n).value;
    FirstPosLocatesFindItem(path, n);
    FirstPosAfterPut(path, n, m);
    FirstPosLocatesFindItem(path, Put(n, q, m));
    PutGetSame(n, q, m);
  }

  // ---------------------------------------------------------------------
  // The mutators
  // ---------------------------------------------------------------------

  /**
   * `parent.children.push(child)` on the item `findItem(parentPath)`
   * returns, when that item is a folder; otherwise the tree is unchanged.
   */
  function AppendChild(root: Node, parentPath: string, child: Node): Node
  {
    match FirstPos(parentPath, root)
    case None => root
    case Some(q) =>
      match Get(root, q)
      case Some(Folder(p, nm, cs)) => Put(root, q, Folder(p, nm, cs + [child]))
      case _ => root
  }

  /** `createFile(parentPath, name)`: a new empty file appended to the parent folder. */
  function CreateFile(root: Node, parentPath: string, name: string): Node
  {
    AppendChild(root, parentPath, File(ChildPath(parentPath, name), name, ""))
  }

  /** `createFolder(parentPath, name)`: a new empty folder appended to the parent folder. */
  function CreateFolder(root: Node, parentPath: string, name: string): Node
  {
    AppendChild(root, parentPath, Folder(ChildPath(parentPath, name), name, []))
  }

  /** The parent path `deleteItem` derives: `'/' + parts.slice(0, -1).join('/')` for two or more segments, else `'/'`. */
  function ParentPathOf(path: string): string
  {
    var parts := Segments(path);
    if |parts| > 1 then "/" + Join(parts[..|parts| - 1], "/") else "/"
  }

  /** `children.filter(child => child.path !== path)`. */
  function WithoutPath(children: seq<Node>, path: string): (r: seq<Node>)
    ensures forall c :: c in r <==> c in children && c.path != path
    ensures |r| == |children| - CountPath(children, path)
    ensures CountPath(children, path) == 0 ==> r == children
  {
    if children == [] then []
    else if children[0].path == path then WithoutPath(children[1..], path)
    else [children[0]] + WithoutPath(children[1..], path)
  }

  /** How many of `children` have the stored path `path`. */
  function CountPath(children: seq<Node>, path: string): (r: nat)
    ensures r <= |children|
    ensures r == 0 <==> forall i :: 0 <= i < |children| ==> children[i].path != path
  {
    if children == [] then 0
    else (if children[0].path == path then 1 else 0) + CountPath(children[1..], path)
  }

  /** The children that survive the filter keep their relative order. */
  lemma {:induction false} WithoutPathAppend(a: seq<Node>, b: seq<Node>, path: string)
    ensures WithoutPath(a + b, path) == WithoutPath(a, path) + WithoutPath(b, path)
  {
    if a == [] {
      assert a + b == b;
    } else {
      assert (a + b)[0] == a[0] && (a + b)[1..] == a[1..] + b;
      WithoutPathAppend(a[1..], b, path);
      if a[0].path == path {
        assert WithoutPath(a + b, path) == WithoutPath(a[1..] + b, path);
        assert WithoutPath(a, path) == WithoutPath(a[1..], path);
      } else {
        assert WithoutPath(a + b, path) == [a[0]] + WithoutPath(a[1..] + b, path);
        assert WithoutPath(a, path) == [a[0]] + WithoutPath(a[1..], path);
      }
    }
  }

  /**
   * `deleteItem(path)`: every child with that path is filtered out of the
   * children of the item found at the derived parent path, when that item
   * is a folder; otherwise the tree is unchanged.
   */
  function DeleteItem(root: Node, path: string): Node
  {
    var parentPath := ParentPathOf(path);
    match FirstPos(parentPath, root)
    case None => root
    case Some(q) =>
      match Get(root, q)
      case Some(Folder(p, nm, cs)) => Put(root, q, Folder(p, nm, WithoutPath(cs, path)))
      case _ => root
  }

  /**
   * `renameItem(path, parentPath, newName)`: the item `findItem(path)`
   * returns gets the new name and the path `parentPath` joined with it;
   * its children are kept as they are, stored paths included.
   */
  function RenameItem(root: Node, path: string, parentPath: string, newName: string): Node
  {
    match FirstPos(path, root)
    case None => root
    case Some(q) =>
      match Get(root, q)
      case Some(item) => Put(root, q, item.(name := newName, path := ChildPath(parentPath, newName)))
      case None => root
  }

  /** `updateFileContent(path, content)`: replaces the content of the item found, when it is a file. */
  function UpdateFileContent(root: Node, path: string, content: string): Node
  {
    match FirstPos(path, root)
    case None => root
    case Some(q) =>
      match Get(root, q)
      case Some(File(p, nm, _)) => Put(root, q, File(p, nm, content))
      case _ => root
  }

  // ---------------------------------------------------------------------
  // What the mutators do
  // ---------------------------------------------------------------------

  /**
   * Appending under a parent path: when `findItem(parentPath)` is a folder,
   * afterwards it is the same folder with `child` added at the end of its
   * children and nothing else in the tree has changed; when the parent is
   * missing or is a file the tree is returned unchanged.
   */
  lemma AppendChildSpec(root: Node, parentPath: string, child: Node)
    ensures var r := AppendChild(root, parentPath, child);
      match FindItem(parentPath, root)
      case Some(Folder(p, nm, cs)) =>
        && FindItem(parentPath, r) == Some(Folder(p, nm, cs + [child]))
        && FirstPos(parentPath, root).Some?
        && Get(r, FirstPos(parentPath, root).value) == Some(Folder(p, nm, cs + [child]))
        && ChangedOnlyAt(root, r, FirstPos(parentPath, root).value)
      case _ => r == root
  {
    FirstPosLocatesFindItem(parentPath, root);
    match FindItem(parentPath, root)
    case Some(Folder(p, nm, cs)) =>
      var q := FirstPos(parentPath, root).value;
      FindAfterPut(parentPath, root, Folder(p, nm, cs + [child]));
      PutChangesOnlyAt(root, q, Folder(p, nm, cs + [child]));
    case _ =>
  }

  /** `createFile` appends one empty file named `name` whose path joins the parent path and the name. */
  lemma CreateFileSpec(root: Node, parentPath: string, name: string)
    ensures var r := CreateFile(root, parentPath, name);
      match FindItem(parentPath, root)
      case Some(Folder(p, nm, cs)) =>
        && FindItem(parentPath, r) == Some(Folder(p, nm, cs + [File(ChildPath(parentPath, name), name, "")]))
        && FirstPos(parentPath, root).Some?
        && Get(r, FirstPos(parentPath, root).value) == Some(Folder(p, nm, cs + [File(ChildPath(parentPath, name), name, "")]))
        && ChangedOnlyAt(root, r, FirstPos(parentPath, root).value)
      case _ => r == root
  {
    AppendChildSpec(root, parentPath, File(ChildPath(parentPath, name), name, ""));
  }

  /** `createFolder` appends one empty folder named `name` whose path joins the parent path and the name. */
  lemma CreateFolderSpec(root: Node, parentPath: string, name: string)
    ensures var r := CreateFolder(root, parentPath, name);
      match FindItem(parentPath, root)
      case Some(Folder(p, nm, cs)) =>
        && FindItem(parentPath, r) == Some(Folder(p, nm, cs + [Folder(ChildPath(parentPath, name), name, [])]))
        && FirstPos(parentPath, root).Some?
        && Get(r, FirstPos(parentPath, root).value) == Some(Folder(p, nm, cs + [Folder(ChildPath(parentPath, name), name, [])]))
        && ChangedOnlyAt(root, r, FirstPos(parentPath, root).value)
      case _ => r == root
  {
    AppendChildSpec(root, parentPath, Folder(ChildPath(parentPath, name), name, []));
  }

  /** There is no check for an existing sibling: creating the same folder twice adds two children. */
  lemma CreateFolderTwiceAddsTwo(root: Node, parentPath: string, name: string)
    requires FindItem(parentPath, root).Some? && FindItem(parentPath, root).value.Folder?
    ensures var f := FindItem(parentPath, root).value;
      var twice := CreateFolder(CreateFolder(root, parentPath, name), parentPath, name);
      var added := Folder(ChildPath(parentPath, name), name, []);
      FindItem(parentPath, twice) == Some(f.(children := f.children + [added, added]))
  {
    var f := FindItem(parentPath, root).value;
    var added := Folder(ChildPath(parentPath, name), name, []);
    CreateFolderSpec(root, parentPath, name);
    var once := CreateFolder(root, parentPath, name);
    CreateFolderSpec(once, parentPath, name);
    assert f.children + [added] + [added] == f.children + [added, added];
  }

  /**
   * `deleteItem(path)`: when the item at the derived parent path is a
   * folder, afterwards it holds exactly its children whose path differs
   * from `path`, in their old order, and nothing else has changed; when the
   * parent is missing or is a file the tree is returned unchanged.
   */
  lemma DeleteItemSpec(root: Node, path: string)
    ensures var r := DeleteItem(root, path);
      var parentPath := ParentPathOf(path);
      match FindItem(parentPath, root)
      case Some(Folder(p, nm, cs)) =>
        && FindItem(parentPath, r) == Some(Folder(p, nm, WithoutPath(cs, path)))
        && FirstPos(parentPath, root).Some?
        && Get(r, FirstPos(parentPath, root).value) == Some(Folder(p, nm, WithoutPath(cs, path)))
        && ChangedOnlyAt(root, r, FirstPos(parentPath, root).value)
      case _ => r == root
  {
    var parentPath := ParentPathOf(path);
    FirstPosLocatesFindItem(parentPath, root);
    match FindItem(parentPath, root)
    case Some(Folder(p, nm, cs)) =>
      var q := FirstPos(parentPath, root).value;
      FindAfterPut(parentPath, root, Folder(p, nm, WithoutPath(cs, path)));
      PutChangesOnlyAt(root, q, Folder(p, nm, WithoutPath(cs, path)));
    case _ =>
  }

  /** For a child of a rooted path, `deleteItem`'s derived parent is that path. */
  lemma ParentPathOfChild(segments: seq<string>, name: string)
    requires forall i :: 0 <= i < |segments| ==> IsName(segments[i])
    requires IsName(name)
    ensures ParentPathOf(ChildPath("/" + Join(segments, "/"), name)) == "/" + Join(segments, "/")
  {
    var all := segments + [name];
    ChildOfRooted(segments, name);
    NamesSnoc(segments, name);
    SegmentsOfRooted(all);
    assert all[..|all| - 1] == segments;
    ParentPathOfSegments("/" + Join(all, "/"), all, segments);
  }

  lemma NamesSnoc(segments: seq<string>, name: string)
    requires forall i :: 0 <= i < |segments| ==> IsName(segments[i])
    requires IsName(name)
    ensures forall i :: 0 <= i < |segments + [name]| ==> IsName((segments + [name])[i])
  {
  }

  lemma ParentPathOfSegments(path: string, parts: seq<string>, init: seq<string>)
    requires Segments(path) == parts && parts != [] && parts[..|parts| - 1] == init
    ensures ParentPathOf(path) == "/" + Join(init, "/")
  {
  }

  /**
   * `renameItem`: the item `findItem(path)` returns now has the new name
   * and the path joined from `parentPath` and the new name, its kind,
   * content and children are kept, nothing else has changed, and every
   * item below it keeps the path it had.
   */
  lemma RenameItemSpec(root: Node, path: string, parentPath: string, newName: string)
    ensures var r := RenameItem(root, path, parentPath, newName);
      match FindItem(path, root)
      case Some(item) =>
        && FirstPos(path, root).Some?
        && var q := FirstPos(path, root).value;
        && Get(r, q) == Some(item.(name := newName, path := ChildPath(parentPath, newName)))
        && ChangedOnlyAt(root, r, q)
        && forall d :: d != [] ==> Get(r, q + d) == Get(root, q + d)
      case None => r == root
  {
    FirstPosLocatesFindItem(path, root);
    match FindItem(path, root)
    case Some(item) =>
      var q := FirstPos(path, root).value;
      var renamed := item.(name := newName, path := ChildPath(parentPath, newName));
      PutChangesOnlyAt(root, q, renamed);
      forall d | d != [] ensures Get(RenameItem(root, path, parentPath, newName), q + d) == Get(root, q + d) {
        GetConcat(root, q, d);
        GetConcat(Put(root, q, renamed), q, d);
      }
    case None =>
  }

  /**
   * `updateFileContent`: when `findItem(path)` is a file, afterwards it is
   * that file with the new content verbatim and nothing else has changed;
   * a folder or a missing path leaves the tree unchanged.
   */
  lemma UpdateFileContentSpec(root: Node, path: string, content: string)
    ensures var r := UpdateFileContent(root, path, content);
      match FindItem(path, root)
      case Some(File(p, nm, _)) =>
        && FindItem(path, r) == Some(File(p, nm, content))
        && FirstPos(path, root).Some?
        && Get(r, FirstPos(path, root).value) == Some(File(p, nm, content))
        && ChangedOnlyAt(root, r, FirstPos(path, root).value)
      case _ => r == root
  {
    FirstPosLocatesFindItem(path, root);
    match FindItem(path, root)
    case Some(File(p, nm, _)) =>
      FindAfterPut(path, root, File(p, nm, content));
      PutChangesOnlyAt(root, FirstPos(path, root).value, File(p, nm, content));
    case _ =>
  }
}
