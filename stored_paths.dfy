/**
 * The relation between stored paths and the shape of the tree in
 * contexts/FileSystemContext.tsx: `createFile` and `createFolder` store a
 * child's path as its parent's path joined with its name. This module
 * states that relation as an invariant, proves which mutators keep it, and
 * shows that `renameItem`, which rewrites only the renamed item's own path,
 * breaks it for the items below a renamed folder; `RenameItemRepaired` is
 * the rename that also rewrites the paths below and keeps the invariant.
 */
module StoredPaths {
  import opened Wrappers
  import opened Text
  import opened FileTree

  /** Every child's stored path is its parent's stored path joined with the child's name. */
  predicate PathsConsistent(n: Node)
  {
    n.Folder? ==>
      forall i :: 0 <= i < |n.children| ==>
        n.children[i].path == ChildPath(n.path, n.children[i].name) && PathsConsistent(n.children[i])
  }

  function Init(q: Pos): Pos
    requires q != []
  {
    q[..|q| - 1]
  }

  /** In a consistent tree every subtree is consistent and sits at the path its parent's path and its name give. */
  lemma {:induction false} ConsistentBelow(n: Node, q: Pos)
    requires PathsConsistent(n) && Get(n, q).Some?
    ensures PathsConsistent(Get(n, q).value)
    ensures q != [] ==>
      Get(n, Init(q)).Some? &&
      Get(n, q).value.path == ChildPath(Get(n, Init(q)).value.path, Get(n, q).value.name)
    decreases q
  {
    if q != [] {
      var c := n.children[q[0]];
      ConsistentBelow(c, q[1..]);
      if |q| > 1 {
        assert Init(q) == [q[0]] + Init(q[1..]);
      }
    }
  }

  lemma PutKeepsHeaderAbove(n: Node, q: Pos, m: Node)
    requires q != [] && Get(n, q).Some?
    ensures SameHeader(n, Put(n, q, m))
  {
  }

  /**
   * Replacing a subtree by a consistent one whose path is its parent's path
   * joined with its name keeps the whole tree consistent.
   */
  lemma {:induction false} PutKeepsConsistent(n: Node, q: Pos, m: Node)
    requires PathsConsistent(n) && Get(n, q).Some? && PathsConsistent(m)
    requires q != [] ==> Get(n, Init(q)).Some? && m.path == ChildPath(Get(n, Init(q)).value.path, m.name)
    ensures PathsConsistent(Put(n, q, m))
    decreases q
  {
    if q != [] {
      var k := q[0];
      var c := n.children[k];
      var c' := Put(c, q[1..], m);
      if |q| == 1 {
        assert c' == m;
      } else {
        assert Init(q) == [k] + Init(q[1..]);
        PutKeepsConsistent(c, q[1..], m);
        PutKeepsHeaderAbove(c, q[1..], m);
      }
      var cs' := n.children[k := c'];
      assert Put(n, q, m) == n.(children := cs');
      forall i | 0 <= i < |cs'|
        ensures cs'[i].path == ChildPath(n.path, cs'[i].name) && PathsConsistent(cs'[i])
      {
        if i != k {
          assert cs'[i] == n.children[i];
        }
      }
    }
  }

  /** Replacing the subtree at `q` by one with the same path and name and consistent below keeps the tree consistent. */
  lemma PutSameHeaderKeepsConsistent(n: Node, q: Pos, m: Node)
    requires PathsConsistent(n) && Get(n, q).Some? && PathsConsistent(m)
    requires m.path == Get(n, q).value.path && m.name == Get(n, q).value.name
    ensures PathsConsistent(Put(n, q, m))
  {
    ConsistentBelow(n, q);
    PutKeepsConsistent(n, q, m);
  }

  /** `createFile` and `createFolder` keep stored paths consistent. */
  lemma AppendChildKeepsConsistent(root: Node, parentPath: string, child: Node)
    requires PathsConsistent(root)
    requires PathsConsistent(child) && child.path == ChildPath(parentPath, child.name)
    ensures PathsConsistent(AppendChild(root, parentPath, child))
  {
    FirstPosLocatesFindItem(parentPath, root);
    match FirstPos(parentPath, root)
    case None =>
    case Some(q) =>
      match Get(root, q)
      case Some(Folder(p, nm, cs)) =>
        ConsistentBelow(root, q);
        var f := Folder(p, nm, cs + [child]);
        assert PathsConsistent(f) by {
          forall i | 0 <= i < |f.children|
            ensures f.children[i].path == ChildPath(p, f.children[i].name) && PathsConsistent(f.children[i])
          {
            if i < |cs| {
              assert f.children[i] == cs[i];
            }
          }
        }
        PutSameHeaderKeepsConsistent(root, q, f);
      case _ =>
  }

  lemma CreateFileKeepsConsistent(root: Node, parentPath: string, name: string)
    requires PathsConsistent(root)
    ensures PathsConsistent(CreateFile(root, parentPath, name))
  {
    AppendChildKeepsConsistent(root, parentPath, File(ChildPath(parentPath, name), name, ""));
  }

  lemma CreateFolderKeepsConsistent(root: Node, parentPath: string, name: string)
    requires PathsConsistent(root)
    ensures PathsConsistent(CreateFolder(root, parentPath, name))
  {
    AppendChildKeepsConsistent(root, parentPath, Folder(ChildPath(parentPath, name), name, []));
  }

  /** `deleteItem` keeps stored paths consistent. */
  lemma DeleteItemKeepsConsistent(root: Node, path: string)
    requires PathsConsistent(root)
    ensures PathsConsistent(DeleteItem(root, path))
  {
    var parentPath := ParentPathOf(path);
    match FirstPos(parentPath, root)
    case None =>
    case Some(q) =>
      match Get(root, q)
      case Some(Folder(p, nm, cs)) =>
        ConsistentBelow(root, q);
        var f := Folder(p, nm, WithoutPath(cs, path));
        assert PathsConsistent(f) by {
          forall i | 0 <= i < |f.children|
            ensures f.children[i].path == ChildPath(p, f.children[i].name) && PathsConsistent(f.children[i])
          {
            assert f.children[i] in cs;
          }
        }
        PutSameHeaderKeepsConsistent(root, q, f);
      case _ =>
  }

  /** `updateFileContent` keeps stored paths consistent. */
  lemma UpdateFileContentKeepsConsistent(root: Node, path: string, content: string)
    requires PathsConsistent(root)
    ensures PathsConsistent(UpdateFileContent(root, path, content))
  {
    match FirstPos(path, root)
    case None =>
    case Some(q) =>
      match Get(root, q)
      case Some(File(p, nm, _)) =>
        PutSameHeaderKeepsConsistent(root, q, File(p, nm, content));
      case _ =>
  }

  /** A small workspace: `/src` holding `/src/index.ts`. */
  const Sample: Node :=
    Folder("/", "root", [Folder("/src", "src", [File("/src/index.ts", "index.ts", "")])])

  /**
   * As written, renaming the folder `/src` to `lib` leaves its file stored
   * under `/src/index.ts`: the tree is no longer consistent and `findItem`
   * cannot find the file under its new path `/lib/index.ts`.
   */
  lemma RenameLeavesStalePaths()
    ensures PathsConsistent(Sample)
    ensures var renamed := RenameItem(Sample, "/src", "/", "lib");
      && renamed == Folder("/", "root", [Folder("/lib", "lib", [File("/src/index.ts", "index.ts", "")])])
      && !PathsConsistent(renamed)
      && FindItem("/lib/index.ts", renamed) == None
      && FindItem("/src/index.ts", renamed).Some?
  {
    SampleFacts();
    var renamed := RenameItem(Sample, "/src", "/", "lib");
    var stale := File("/src/index.ts", "index.ts", "");
    var lib := Folder("/lib", "lib", [stale]);
    var src := Sample.children[0];
    assert Get(Sample, [0]) == Some(src);
    assert ChildPath("/", "lib") == "/lib";
    assert [0][1..] == [];
    assert Put(Sample, [0], lib) == Folder("/", "root", [lib]);
    assert renamed == Folder("/", "root", [lib]);
    assert !PathsConsistent(lib) by {
      assert ChildPath("/lib", "index.ts") == "/lib/index.ts";
      assert stale.path[1] != "/lib/index.ts"[1];
      assert lib.children[0].path != ChildPath(lib.path, lib.children[0].name);
    }
    assert renamed.children[0] == lib;
    assert "/lib/index.ts"[1] != "/src/index.ts"[1];
    assert FindInChildren("/lib/index.ts", lib.children[1..]) == None;
    assert FindItem("/lib/index.ts", stale) == None;
    assert FindItem("/lib/index.ts", lib) == None;
    assert FindInChildren("/lib/index.ts", renamed.children[1..]) == None;
    assert FindItem("/src/index.ts", stale) == Some(stale);
    assert FindInChildren("/src/index.ts", lib.children) == Some(stale);
    assert FindItem("/src/index.ts", lib) == Some(stale);
  }

  /** The stored paths of the sample and where `findItem("/src")` stops in it. */
  lemma SampleFacts()
    ensures PathsConsistent(Sample)
    ensures FirstPos("/src", Sample) == Some([0])
  {
    var file := File("/src/index.ts", "index.ts", "");
    var src := Folder("/src", "src", [file]);
    assert ChildPath("/", "src") == "/src";
    assert ChildPath("/src", "index.ts") == "/src/index.ts";
    assert PathsConsistent(src);
    assert FirstPos("/src", src) == Some([]);
    assert FirstPosFrom("/src", Sample.children, 0) == Some([0] + []);
    assert [0] + [] == [0];
  }

  /** The item `n` moved to `path` and `name`, every item below it re-stored under the new path. */
  function Rebase(n: Node, path: string, name: string): (r: Node)
    ensures r.path == path && r.name == name && r.Folder? == n.Folder?
    ensures n.File? ==> r.content == n.content
    ensures n.Folder? ==> |r.children| == |n.children|
    decreases n, 1
  {
    match n
    case File(_, _, content) => File(path, name, content)
    case Folder(_, _, children) => Folder(path, name, RebaseAll(children, path))
  }

  function RebaseAll(children: seq<Node>, parent: string): (r: seq<Node>)
    ensures |r| == |children|
    ensures forall i :: 0 <= i < |r| ==> r[i].name == children[i].name
    decreases children, 0
  {
    if children == [] then []
    else [Rebase(children[0], ChildPath(parent, children[0].name), children[0].name)]
         + RebaseAll(children[1..], parent)
  }

  lemma {:induction false} RebaseConsistent(n: Node, path: string, name: string)
    ensures PathsConsistent(Rebase(n, path, name))
    decreases n, 1
  {
    if n.Folder? {
      RebaseAllConsistent(n.children, path);
    }
  }

  lemma {:induction false} RebaseAllConsistent(children: seq<Node>, parent: string)
    ensures forall i :: 0 <= i < |children| ==>
      RebaseAll(children, parent)[i].path == ChildPath(parent, children[i].name) &&
      PathsConsistent(RebaseAll(children, parent)[i])
    decreases children, 0
  {
    if children != [] {
      RebaseConsistent(children[0], ChildPath(parent, children[0].name), children[0].name);
      RebaseAllConsistent(children[1..], parent);
      var r := RebaseAll(children, parent);
      forall i | 0 <= i < |children|
        ensures r[i].path == ChildPath(parent, children[i].name) && PathsConsistent(r[i])
      {
        if i > 0 {
          assert r[i] == RebaseAll(children[1..], parent)[i - 1];
        }
      }
    }
  }

  /** `renameItem` with the stored paths below the renamed item rewritten too. */
  function RenameItemRepaired(root: Node, path: string, parentPath: string, newName: string): Node
  {
    match FirstPos(path, root)
    case None => root
    case Some(q) =>
      match Get(root, q)
      case Some(item) => Put(root, q, Rebase(item, ChildPath(parentPath, newName), newName))
      case None => root
  }

  /**
   * When `parentPath` is the stored path of the renamed item's parent (how
   * the explorer calls it), the repaired rename keeps the tree consistent.
   */
  lemma RenameItemRepairedKeepsConsistent(root: Node, path: string, parentPath: string, newName: string)
    requires PathsConsistent(root)
    requires FirstPos(path, root).Some?
    requires var q := FirstPos(path, root).value;
      q != [] ==> Get(root, Init(q)).Some? && Get(root, Init(q)).value.path == parentPath
    ensures PathsConsistent(RenameItemRepaired(root, path, parentPath, newName))
  {
    var q := FirstPos(path, root).value;
    FirstPosLocatesFindItem(path, root);
    var item := Get(root, q).value;
    var moved := Rebase(item, ChildPath(parentPath, newName), newName);
    RebaseConsistent(item, ChildPath(parentPath, newName), newName);
    PutKeepsConsistent(root, q, moved);
  }

  /** The repaired rename of the sample moves the file to `/lib/index.ts`. */
  lemma RenameItemRepairedSample()
    ensures var renamed := RenameItemRepaired(Sample, "/src", "/", "lib");
      && renamed == Folder("/", "root", [Folder("/lib", "lib", [File("/lib/index.ts", "index.ts", "")])])
      && PathsConsistent(renamed)
      && FindItem("/lib/index.ts", renamed).Some?
  {
    RepairedSampleTree();
    var f := File("/lib/index.ts", "index.ts", "");
    var lib := Folder("/lib", "lib", [f]);
    assert FindItem("/lib/index.ts", f) == Some(f);
    assert "/" != "/lib/index.ts" && "/lib" != "/lib/index.ts";
    assert FindInChildren("/lib/index.ts", lib.children) == Some(f);
    assert FindItem("/lib/index.ts", lib) == Some(f);
    assert FindInChildren("/lib/index.ts", [lib]) == Some(f);
    SampleFacts();
    RenameItemRepairedKeepsConsistent(Sample, "/src", "/", "lib");
  }

  /** The tree the repaired rename of `/src` to `lib` gives on the sample. */
  lemma RepairedSampleTree()
    ensures RenameItemRepaired(Sample, "/src", "/", "lib") ==
      Folder("/", "root", [Folder("/lib", "lib", [File("/lib/index.ts", "index.ts", "")])])
  {
    SampleFacts();
    var src := Sample.children[0];
    var f := File("/lib/index.ts", "index.ts", "");
    assert ChildPath("/", "lib") == "/lib";
    assert ChildPath("/lib", "index.ts") == "/lib/index.ts";
    assert Rebase(src.children[0], "/lib/index.ts", "index.ts") == f;
    assert RebaseAll(src.children[1..], "/lib") == [];
    assert RebaseAll(src.children, "/lib") == [f];
    var lib := Folder("/lib", "lib", [f]);
    assert Rebase(src, "/lib", "lib") == lib;
    assert Get(Sample, [0]) == Some(src);
    assert Put(Sample, [0], lib) == Folder("/", "root", [lib]);
  }
}
