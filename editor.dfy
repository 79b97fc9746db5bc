/**
 * The editor's tabs and groups in contexts/EditorContext.tsx: the list of
 * open files with the active one, and the editor groups, each with its own
 * files and active file. Every handler computes new lists with `find`,
 * `findIndex`, `filter`, `map` and spreads, which are the functions below,
 * and assigns them to the provider's four state fields, which are the
 * fields of the class `EditorProvider`.
 */
module Editor {
  import opened Wrappers

  /** `interface OpenFile`. */
  datatype OpenFile = OpenFile(path: string, name: string, content: string)

  /** `interface EditorGroup`; `activeFile: string | null`. */
  datatype EditorGroup = EditorGroup(id: string, files: seq<OpenFile>, activeFile: Option<string>)

  function Paths(files: seq<OpenFile>): (r: seq<string>)
    ensures |r| == |files|
    ensures forall i :: 0 <= i < |files| ==> r[i] == files[i].path
  {
    seq(|files|, i requires 0 <= i < |files| => files[i].path)
  }

  predicate DistinctPaths(files: seq<OpenFile>)
  {
    forall i, j :: 0 <= i < j < |files| ==> files[i].path != files[j].path
  }

  /** `files.findIndex(f => f.path === path)`: the first index with that path, or -1. */
  function IndexOf(files: seq<OpenFile>, path: string): (r: int)
    ensures -1 <= r < |files|
    ensures r >= 0 ==> files[r].path == path && forall j :: 0 <= j < r ==> files[j].path != path
    ensures r == -1 <==> path !in Paths(files)
  {
    if files == [] then -1
    else if files[0].path == path then 0
    else
      var k := IndexOf(files[1..], path);
      assert Paths(files) == [files[0].path] + Paths(files[1..]);
      if k == -1 then -1 else k + 1
  }

  /** `files.find(f => f.path === path)`. */
  function Find(files: seq<OpenFile>, path: string): (r: Option<OpenFile>)
    ensures r.Some? ==> r.value in files && r.value.path == path
    ensures r.None? <==> path !in Paths(files)
  {
    var k := IndexOf(files, path);
    if k == -1 then None else Some(files[k])
  }

  /** `files.filter(f => f.path !== path)`. */
  function Without(files: seq<OpenFile>, path: string): (r: seq<OpenFile>)
    ensures |r| <= |files|
  {
    if files == [] then []
    else
      assert files == [files[0]] + files[1..];
      (if files[0].path == path then [] else [files[0]]) + Without(files[1..], path)
  }

  /** The filter keeps exactly the entries at other paths. */
  lemma {:induction false} WithoutElements(files: seq<OpenFile>, path: string)
    ensures forall f :: f in Without(files, path) <==> f in files && f.path != path
  {
    if files != [] {
      WithoutElements(files[1..], path);
      assert files == [files[0]] + files[1..];
    }
  }

  /** The paths left by the filter are the old ones but `path`. */
  lemma WithoutPaths(files: seq<OpenFile>, path: string)
    ensures forall p :: p in Paths(Without(files, path)) <==> p in Paths(files) && p != path
  {
    WithoutElements(files, path);
    var r := Without(files, path);
    forall p | p in Paths(r) ensures p in Paths(files) && p != path {
      var i :| 0 <= i < |r| && Paths(r)[i] == p;
      var k :| 0 <= k < |files| && files[k] == r[i];
      assert Paths(files)[k] == p;
    }
    forall p | p in Paths(files) && p != path ensures p in Paths(r) {
      var k :| 0 <= k < |files| && Paths(files)[k] == p;
      var i :| 0 <= i < |r| && r[i] == files[k];
      assert Paths(r)[i] == p;
    }
  }

  /** A filter of a list with distinct paths has distinct paths. */
  lemma {:induction false} WithoutDistinct(files: seq<OpenFile>, path: string)
    requires DistinctPaths(files)
    ensures DistinctPaths(Without(files, path))
  {
    if files != [] {
      WithoutDistinct(files[1..], path);
      WithoutPaths(files[1..], path);
      var rest := Without(files[1..], path);
      if files[0].path != path {
        assert Without(files, path) == [files[0]] + rest;
        assert files[0].path !in Paths(rest);
        DistinctCons(files[0], rest);
      }
    }
  }

  lemma DistinctCons(x: OpenFile, rest: seq<OpenFile>)
    requires DistinctPaths(rest) && x.path !in Paths(rest)
    ensures DistinctPaths([x] + rest)
  {
    var r := [x] + rest;
    forall i, j | 0 <= i < j < |r| ensures r[i].path != r[j].path {
      if i == 0 {
        assert Paths(rest)[j - 1] == r[j].path;
      } else {
        assert r[i] == rest[i - 1] && r[j] == rest[j - 1];
      }
    }
  }

  /** Filtering out an absent path changes nothing. */
  lemma {:induction false} WithoutAbsent(files: seq<OpenFile>, path: string)
    requires path !in Paths(files)
    ensures Without(files, path) == files
  {
    if files != [] {
      assert Paths(files) == [files[0].path] + Paths(files[1..]);
      WithoutAbsent(files[1..], path);
      assert files == [files[0]] + files[1..];
    }
  }

  /** When `k` is the only index with `path`, the filter removes exactly that entry and keeps the order. */
  lemma {:induction false} WithoutUnique(files: seq<OpenFile>, path: string, k: nat)
    requires k < |files| && files[k].path == path
    requires forall j :: 0 <= j < |files| && j != k ==> files[j].path != path
    ensures Without(files, path) == files[..k] + files[k + 1..]
  {
    if k == 0 {
      WithoutAbsent(files[1..], path);
    } else {
      var tail := files[1..];
      WithoutUnique(tail, path, k - 1);
      assert Without(files, path) == [files[0]] + (tail[..k - 1] + tail[k..]);
      assert tail[..k - 1] == files[1..k] && tail[k..] == files[k + 1..];
      assert files[..k] == [files[0]] + files[1..k];
    }
  }

  /** `?.path || null`: a missing entry and the empty path both give `null`. */
  function OrNull(path: string): (r: Option<string>)
    ensures r.None? <==> path == ""
    ensures r.Some? ==> r.value == path
  {
    if path == "" then None else Some(path)
  }

  /**
   * The active entry after closing `path` in `files`: unchanged unless it
   * was `path`; otherwise the entry of the filtered list at
   * `min(oldIndex, newLength - 1)`, or `null` when none is left.
   */
  function NextActive(files: seq<OpenFile>, path: string, active: Option<string>): (r: Option<string>)
    ensures active != Some(path) ==> r == active
    ensures active == Some(path) && r.Some? ==> r.value in Paths(Without(files, path))
  {
    if active != Some(path) then active
    else
      var rest := Without(files, path);
      if |rest| > 0 then
        var i := IndexOf(files, path);
        var k := if i < |rest| - 1 then i else |rest| - 1;
        if k >= 0 then
          assert Paths(rest)[k] == rest[k].path;
          OrNull(rest[k].path)
        else None
      else None
  }

  /**
   * Closing the active tab at index `k` of a list with distinct paths
   * activates its right neighbour, or its left one when it was the last,
   * or nothing when it was the only tab.
   */
  lemma CloseActiveNeighbour(files: seq<OpenFile>, k: nat)
    requires DistinctPaths(files) && k < |files|
    ensures var path := files[k].path;
      NextActive(files, path, Some(path)) ==
        if k + 1 < |files| then OrNull(files[k + 1].path)
        else if k > 0 then OrNull(files[k - 1].path)
        else None
  {
    var path := files[k].path;
    WithoutUnique(files, path, k);
    var rest := files[..k] + files[k + 1..];
    assert IndexOf(files, path) == k;
    if k + 1 < |files| {
      assert rest[k] == files[k + 1];
    } else if k > 0 {
      assert rest[k - 1] == files[k - 1];
    }
  }

  /** `openFile`'s update of a file list: a path already open leaves the list as it is, a new one is appended. */
  function Opened(files: seq<OpenFile>, file: OpenFile): (r: seq<OpenFile>)
    ensures file.path in Paths(r)
    ensures forall p :: p in Paths(r) <==> p in Paths(files) || p == file.path
    ensures file.path in Paths(files) ==> r == files
    ensures file.path !in Paths(files) ==> r == files + [file]
  {
    if Find(files, file.path).Some? then files
    else
      var r := files + [file];
      assert Paths(r) == Paths(files) + [file.path];
      r
  }

  lemma OpenedDistinct(files: seq<OpenFile>, file: OpenFile)
    requires DistinctPaths(files)
    ensures DistinctPaths(Opened(files, file))
  {
    if file.path !in Paths(files) {
      var r := files + [file];
      forall i, j | 0 <= i < j < |r| ensures r[i].path != r[j].path {
        if j == |files| {
          assert Paths(files)[i] == r[i].path;
        }
      }
    }
  }

  /** Opening a new file and closing it again gives back the old list. */
  lemma OpenThenClose(files: seq<OpenFile>, file: OpenFile)
    requires file.path !in Paths(files)
    ensures Without(Opened(files, file), file.path) == files
  {
    var r := files + [file];
    forall j | 0 <= j < |r| && j != |files| ensures r[j].path != file.path {
      assert Paths(files)[j] == r[j].path;
    }
    WithoutUnique(r, file.path, |files|);
    assert r[..|files|] == files;
  }

  /** `openFile`'s update of one group: each group only when it is the active one. */
  function OpenInGroup(g: EditorGroup, groupId: string, file: OpenFile): (r: EditorGroup)
    ensures r.id == g.id
    ensures g.id != groupId ==> r == g
    ensures g.id == groupId ==> r.files == Opened(g.files, file) && r.activeFile == Some(file.path)
  {
    if g.id == groupId then g.(files := Opened(g.files, file), activeFile := Some(file.path)) else g
  }

  function OpenInGroups(groups: seq<EditorGroup>, groupId: string, file: OpenFile): (r: seq<EditorGroup>)
    ensures |r| == |groups|
    ensures forall i :: 0 <= i < |groups| ==> r[i] == OpenInGroup(groups[i], groupId, file)
  {
    seq(|groups|, i requires 0 <= i < |groups| => OpenInGroup(groups[i], groupId, file))
  }

  /** `closeFile`'s update of one group: the same removal and selection rule as for the open files. */
  function CloseInGroup(g: EditorGroup, path: string): (r: EditorGroup)
    ensures r.id == g.id
    ensures path !in Paths(r.files)
    ensures forall p :: p in Paths(r.files) <==> p in Paths(g.files) && p != path
    ensures r.activeFile == NextActive(g.files, path, g.activeFile)
  {
    WithoutPaths(g.files, path);
    EditorGroup(g.id, Without(g.files, path), NextActive(g.files, path, g.activeFile))
  }

  function CloseInGroups(groups: seq<EditorGroup>, path: string): (r: seq<EditorGroup>)
    ensures |r| == |groups|
    ensures forall i :: 0 <= i < |groups| ==> r[i] == CloseInGroup(groups[i], path)
  {
    seq(|groups|, i requires 0 <= i < |groups| => CloseInGroup(groups[i], path))
  }

  /** `files.map(file => file.path === path ? { ...file, content } : file)`. */
  function WithContent(files: seq<OpenFile>, path: string, content: string): (r: seq<OpenFile>)
    ensures |r| == |files|
    ensures forall i :: 0 <= i < |files| ==>
      && r[i].path == files[i].path
      && r[i].name == files[i].name
      && r[i].content == (if files[i].path == path then content else files[i].content)
    ensures Paths(r) == Paths(files)
  {
    var r := seq(|files|, i requires 0 <= i < |files| =>
      if files[i].path == path then files[i].(content := content) else files[i]);
    assert forall i :: 0 <= i < |files| ==> Paths(r)[i] == Paths(files)[i];
    r
  }

  function UpdateInGroups(groups: seq<EditorGroup>, path: string, content: string): (r: seq<EditorGroup>)
    ensures |r| == |groups|
    ensures forall i :: 0 <= i < |groups| ==>
      && r[i].id == groups[i].id
      && r[i].activeFile == groups[i].activeFile
      && r[i].files == WithContent(groups[i].files, path, content)
  {
    seq(|groups|, i requires 0 <= i < |groups| =>
      groups[i].(files := WithContent(groups[i].files, path, content)))
  }

  /** `groups.filter(group => group.id !== groupId)`. */
  function WithoutGroup(groups: seq<EditorGroup>, groupId: string): (r: seq<EditorGroup>)
    ensures forall g :: g in r <==> g in groups && g.id != groupId
    ensures |r| <= |groups|
  {
    if groups == [] then []
    else
      assert groups == [groups[0]] + groups[1..];
      (if groups[0].id == groupId then [] else [groups[0]]) + WithoutGroup(groups[1..], groupId)
  }

  /** The filter keeps the order of the surviving groups. */
  lemma {:induction false} WithoutGroupAppend(a: seq<EditorGroup>, b: seq<EditorGroup>, groupId: string)
    ensures WithoutGroup(a + b, groupId) == WithoutGroup(a, groupId) + WithoutGroup(b, groupId)
  {
    if a == [] {
      assert a + b == b;
    } else {
      assert (a + b)[0] == a[0] && (a + b)[1..] == a[1..] + b;
      WithoutGroupAppend(a[1..], b, groupId);
    }
  }

  /** The first group left after the filter, `newGroups[0]`, is the first group with another id. */
  lemma {:induction false} WithoutGroupHead(groups: seq<EditorGroup>, groupId: string, k: nat)
    requires k < |groups| && groups[k].id != groupId
    requires forall j :: 0 <= j < k ==> groups[j].id == groupId
    ensures WithoutGroup(groups, groupId) != [] && WithoutGroup(groups, groupId)[0] == groups[k]
    decreases k
  {
    if k > 0 {
      WithoutGroupHead(groups[1..], groupId, k - 1);
    }
  }

  /** Every group keeps distinct files that are all open, and its active file, when set, is one of them. */
  predicate GroupValid(g: EditorGroup, open: seq<OpenFile>)
  {
    && DistinctPaths(g.files)
    && (forall i :: 0 <= i < |g.files| ==> g.files[i].path in Paths(open))
    && (g.activeFile.Some? ==> g.activeFile.value in Paths(g.files))
  }

  predicate AllGroupsValid(groups: seq<EditorGroup>, open: seq<OpenFile>)
  {
    forall i :: 0 <= i < |groups| ==> GroupValid(groups[i], open)
  }

  /** `openFile` keeps every group valid against the grown list of open files. */
  lemma OpenKeepsGroupsValid(groups: seq<EditorGroup>, open: seq<OpenFile>, groupId: string, file: OpenFile)
    requires AllGroupsValid(groups, open)
    ensures AllGroupsValid(OpenInGroups(groups, groupId, file), Opened(open, file))
  {
    var r := OpenInGroups(groups, groupId, file);
    var open' := Opened(open, file);
    forall i | 0 <= i < |groups| ensures GroupValid(r[i], open') {
      var g := groups[i];
      if g.id == groupId {
        OpenedDistinct(g.files, file);
        var files := Opened(g.files, file);
        forall j | 0 <= j < |files| ensures files[j].path in Paths(open') {
          assert Paths(files)[j] == files[j].path;
          if files[j].path != file.path {
            var m :| 0 <= m < |g.files| && Paths(g.files)[m] == files[j].path;
            assert g.files[m].path in Paths(open);
          }
        }
      } else {
        forall j | 0 <= j < |g.files| ensures g.files[j].path in Paths(open') {
          assert g.files[j].path in Paths(open);
        }
      }
    }
  }

  /** Closing a file in one group keeps it valid against the shrunk list of open files. */
  lemma CloseKeepsGroupValid(g: EditorGroup, open: seq<OpenFile>, path: string)
    requires GroupValid(g, open)
    ensures GroupValid(CloseInGroup(g, path), Without(open, path))
  {
    var h := CloseInGroup(g, path);
    var open' := Without(open, path);
    WithoutPaths(open, path);
    WithoutDistinct(g.files, path);
    WithoutPaths(g.files, path);
    forall j | 0 <= j < |h.files| ensures h.files[j].path in Paths(open') {
      var p := h.files[j].path;
      assert Paths(h.files)[j] == p;
      assert p in Paths(g.files) && p != path;
      var m :| 0 <= m < |g.files| && Paths(g.files)[m] == p;
      assert g.files[m].path in Paths(open);
    }
  }

  /** `closeFile` keeps every group valid against the shrunk list of open files. */
  lemma CloseKeepsGroupsValid(groups: seq<EditorGroup>, open: seq<OpenFile>, path: string)
    requires AllGroupsValid(groups, open)
    ensures AllGroupsValid(CloseInGroups(groups, path), Without(open, path))
  {
    var r := CloseInGroups(groups, path);
    forall i | 0 <= i < |groups| ensures GroupValid(r[i], Without(open, path)) {
      CloseKeepsGroupValid(groups[i], open, path);
    }
  }

  /** `updateFileContent` changes no path, so every group stays valid. */
  lemma UpdateKeepsGroupsValid(groups: seq<EditorGroup>, open: seq<OpenFile>, path: string, content: string)
    requires AllGroupsValid(groups, open)
    ensures AllGroupsValid(UpdateInGroups(groups, path, content), WithContent(open, path, content))
  {
    var r := UpdateInGroups(groups, path, content);
    forall i | 0 <= i < |groups| ensures GroupValid(r[i], WithContent(open, path, content)) {
      var files := r[i].files;
      assert Paths(files) == Paths(groups[i].files);
      forall a, b | 0 <= a < b < |files| ensures files[a].path != files[b].path {
        assert groups[i].files[a].path != groups[i].files[b].path;
      }
      forall j | 0 <= j < |files| ensures files[j].path in Paths(WithContent(open, path, content)) {
        assert groups[i].files[j].path in Paths(open);
      }
    }
  }

  /** The provider's state: `openFiles`, `activeFile`, `editorGroups` and `activeGroup`. */
  class EditorProvider {
    var openFiles: seq<OpenFile>
    var activeFile: Option<string>
    var editorGroups: seq<EditorGroup>
    var activeGroup: string

    ghost predicate Valid()
      reads this
    {
      DistinctPaths(openFiles) && AllGroupsValid(editorGroups, openFiles)
    }

    /** The active file, when set, is an open one: every handler but the raw setter keeps this. */
    ghost predicate ActiveIsOpen()
      reads this
    {
      activeFile.Some? ==> activeFile.value in Paths(openFiles)
    }

    /** No file open and the one group `group-1`, active. */
    constructor ()
      ensures openFiles == [] && activeFile == None
      ensures editorGroups == [EditorGroup("group-1", [], None)] && activeGroup == "group-1"
      ensures Valid() && ActiveIsOpen()
    {
      openFiles := [];
      activeFile := None;
      editorGroups := [EditorGroup("group-1", [], None)];
      activeGroup := "group-1";
    }

    /** `openFile(path, name, content)`: open or re-activate the file, in the list and in the active group. */
    method Open(path: string, name: string, content: string)
      requires Valid()
      modifies this
      ensures openFiles == Opened(old(openFiles), OpenFile(path, name, content))
      ensures activeFile == Some(path)
      ensures editorGroups == OpenInGroups(old(editorGroups), old(activeGroup), OpenFile(path, name, content))
      ensures activeGroup == old(activeGroup)
      ensures Valid() && ActiveIsOpen()
    {
      var file := OpenFile(path, name, content);
      OpenedDistinct(openFiles, file);
      OpenKeepsGroupsValid(editorGroups, openFiles, activeGroup, file);
      openFiles := Opened(openFiles, file);
      activeFile := Some(path);
      editorGroups := OpenInGroups(editorGroups, activeGroup, file);
    }

    /** `closeFile(path)`: close the file everywhere, choosing a neighbour where it was active. */
    method Close(path: string)
      requires Valid()
      modifies this
      ensures openFiles == Without(old(openFiles), path)
      ensures activeFile == NextActive(old(openFiles), path, old(activeFile))
      ensures editorGroups == CloseInGroups(old(editorGroups), path)
      ensures activeGroup == old(activeGroup)
      ensures Valid()
      ensures old(ActiveIsOpen()) ==> ActiveIsOpen()
    {
      WithoutDistinct(openFiles, path);
      CloseKeepsGroupsValid(editorGroups, openFiles, path);
      WithoutPaths(openFiles, path);
      activeFile := NextActive(openFiles, path, activeFile);
      openFiles := Without(openFiles, path);
      editorGroups := CloseInGroups(editorGroups, path);
    }

    /** `updateFileContent(path, content)`: new content for the file in the list and in every group. */
    method UpdateFileContent(path: string, content: string)
      requires Valid()
      modifies this
      ensures openFiles == WithContent(old(openFiles), path, content)
      ensures editorGroups == UpdateInGroups(old(editorGroups), path, content)
      ensures activeFile == old(activeFile) && activeGroup == old(activeGroup)
      ensures Valid()
      ensures old(ActiveIsOpen()) ==> ActiveIsOpen()
    {
      var files := WithContent(openFiles, path, content);
      forall a, b | 0 <= a < b < |files| ensures files[a].path != files[b].path {
        assert openFiles[a].path != openFiles[b].path;
      }
      UpdateKeepsGroupsValid(editorGroups, openFiles, path, content);
      openFiles := files;
      editorGroups := UpdateInGroups(editorGroups, path, content);
    }

    /**
     * `splitEditor()`, with `newGroupId` for `group-${Date.now()}`: nothing
     * without an active file that is open; otherwise one new group holding
     * just that file, which becomes the active group.
     */
    method SplitEditor(newGroupId: string)
      requires Valid()
      modifies this
      ensures openFiles == old(openFiles) && activeFile == old(activeFile)
      ensures old(activeFile).None? || old(activeFile).value == "" || old(activeFile).value !in old(Paths(openFiles)) ==>
        editorGroups == old(editorGroups) && activeGroup == old(activeGroup)
      ensures old(activeFile).Some? && old(activeFile).value != "" && old(activeFile).value in old(Paths(openFiles)) ==>
        var current := Find(old(openFiles), old(activeFile).value).value;
        && editorGroups == old(editorGroups) + [EditorGroup(newGroupId, [current], Some(current.path))]
        && activeGroup == newGroupId
      ensures Valid()
      ensures old(ActiveIsOpen()) ==> ActiveIsOpen()
    {
      if activeFile.None? || activeFile.value == "" {
        return;
      }
      var current := Find(openFiles, activeFile.value);
      if current.None? {
        return;
      }
      var g := EditorGroup(newGroupId, [current.value], Some(current.value.path));
      assert Paths(g.files) == [current.value.path];
      editorGroups := editorGroups + [g];
      activeGroup := newGroupId;
    }

    /**
     * `closeGroup(groupId)`: remove the group; when it was the active one
     * and others remain, the first remaining group becomes active and its
     * active file, when set, becomes the active file.
     */
    method CloseGroup(groupId: string)
      requires Valid()
      modifies this
      ensures editorGroups == WithoutGroup(old(editorGroups), groupId)
      ensures openFiles == old(openFiles)
      ensures old(activeGroup) != groupId || editorGroups == [] ==>
        activeGroup == old(activeGroup) && activeFile == old(activeFile)
      ensures old(activeGroup) == groupId && editorGroups != [] ==>
        && activeGroup == editorGroups[0].id
        && activeFile == (if editorGroups[0].activeFile.Some? && editorGroups[0].activeFile.value != ""
                          then editorGroups[0].activeFile else old(activeFile))
      ensures Valid()
      ensures old(ActiveIsOpen()) ==> ActiveIsOpen()
    {
      var newGroups := WithoutGroup(editorGroups, groupId);
      forall i | 0 <= i < |newGroups| ensures GroupValid(newGroups[i], openFiles) {
        var m :| 0 <= m < |editorGroups| && editorGroups[m] == newGroups[i];
      }
      if activeGroup == groupId && |newGroups| > 0 {
        activeGroup := newGroups[0].id;
        var first := newGroups[0];
        if first.activeFile.Some? && first.activeFile.value != "" {
          var k :| 0 <= k < |first.files| && Paths(first.files)[k] == first.activeFile.value;
          assert first.files[k].path in Paths(openFiles);
          activeFile := first.activeFile;
        }
      }
      editorGroups := newGroups;
    }

    /** The raw `setActiveFile` setter the provider exposes. */
    method SetActiveFile(path: string)
      requires Valid()
      modifies this
      ensures activeFile == Some(path)
      ensures openFiles == old(openFiles) && editorGroups == old(editorGroups) && activeGroup == old(activeGroup)
      ensures Valid()
    {
      activeFile := Some(path);
    }

    /** The raw `setActiveGroup` setter the provider exposes. */
    method SetActiveGroup(groupId: string)
      requires Valid()
      modifies this
      ensures activeGroup == groupId
      ensures openFiles == old(openFiles) && editorGroups == old(editorGroups) && activeFile == old(activeFile)
      ensures Valid()
      ensures old(ActiveIsOpen()) ==> ActiveIsOpen()
    {
      activeGroup := groupId;
    }
  }
}
