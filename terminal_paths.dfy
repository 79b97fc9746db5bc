/**
 * The terminal's two path helpers in components/vscode/Terminal.tsx:
 * `resolvePath`, which turns a command operand into an absolute path
 * relative to the working directory, and `findItemAtPath`, which walks the
 * file tree from the root by child NAME (not by stored path).
 */
module TerminalPaths {
  import opened Wrappers
  import opened Text
  import opened FileTree
  import opened StoredPaths

  /** `'/' + parts.join('/')`. */
  function Rooted(parts: seq<string>): (r: string)
    ensures StartsWith(r, "/")
  {
    "/" + Join(parts, "/")
  }

  predicate AllNames(parts: seq<string>)
  {
    forall i :: 0 <= i < |parts| ==> IsName(parts[i])
  }

  /**
   * The loop of the `../` case: each `..` pops the last segment (never
   * below the root), every other segment is pushed.
   */
  function Walk(parts: seq<string>, steps: seq<string>): seq<string>
    decreases steps
  {
    if steps == [] then parts
    else if steps[0] == ".." then Walk(if parts != [] then parts[..|parts| - 1] else [], steps[1..])
    else Walk(parts + [steps[0]], steps[1..])
  }

  /**
   * `resolvePath(inputPath)` with the working directory `cwd`, branch by
   * branch in the order the source tests them.
   */
  function Resolved(cwd: string, input: string): string
  {
    if StartsWith(input, "/") then input
    else if input == ".." then
      var parts := Segments(cwd);
      if |parts| > 0 then Rooted(parts[..|parts| - 1]) else "/"
    else if input == "." then cwd
    else if StartsWith(input, "../") then Rooted(Walk(Segments(cwd), Segments(input)))
    else ChildPath(cwd, input)
  }

  /** The imperative `resolvePath`, with its pop/push loop. */
  method ResolvePath(currentPath: string, inputPath: string) returns (r: string)
    ensures r == Resolved(currentPath, inputPath)
  {
    if StartsWith(inputPath, "/") {
      return inputPath;
    }
    if inputPath == ".." {
      var parts := Segments(currentPath);
      if |parts| > 0 {
        parts := parts[..|parts| - 1];
        return Rooted(parts);
      }
      return "/";
    }
    if inputPath == "." {
      return currentPath;
    }
    if StartsWith(inputPath, "../") {
      var parts := Segments(currentPath);
      var relativeParts := Segments(inputPath);
      var i := 0;
      while i < |relativeParts|
        invariant 0 <= i <= |relativeParts|
        invariant Walk(parts, relativeParts[i..]) == Walk(Segments(currentPath), relativeParts)
      {
        assert relativeParts[i..][1..] == relativeParts[i + 1..];
        if relativeParts[i] == ".." {
          if |parts| > 0 {
            parts := parts[..|parts| - 1];
          }
        } else {
          parts := parts + [relativeParts[i]];
        }
        i := i + 1;
      }
      return Rooted(parts);
    }
    return ChildPath(currentPath, inputPath);
  }

  /** Walking `a` then `b` is walking `a + b`. */
  lemma {:induction false} WalkAppend(parts: seq<string>, a: seq<string>, b: seq<string>)
    ensures Walk(parts, a + b) == Walk(Walk(parts, a), b)
    decreases a
  {
    if a != [] {
      assert (a + b)[0] == a[0] && (a + b)[1..] == a[1..] + b;
      if a[0] == ".." {
        WalkAppend(if parts != [] then parts[..|parts| - 1] else [], a[1..], b);
      } else {
        WalkAppend(parts + [a[0]], a[1..], b);
      }
    } else {
      assert a + b == b;
    }
  }

  /** A walk with no `..` appends its segments. */
  lemma {:induction false} WalkForward(parts: seq<string>, steps: seq<string>)
    requires forall i :: 0 <= i < |steps| ==> steps[i] != ".."
    ensures Walk(parts, steps) == parts + steps
    decreases steps
  {
    if steps != [] {
      WalkForward(parts + [steps[0]], steps[1..]);
      assert parts + [steps[0]] + steps[1..] == parts + steps;
    }
  }

  /** `..` undoes the segment before it, and at the root it is ignored. */
  lemma WalkUp(parts: seq<string>, rest: seq<string>)
    ensures parts != [] ==> Walk(parts, [".."] + rest) == Walk(parts[..|parts| - 1], rest)
    ensures parts == [] ==> Walk(parts, [".."] + rest) == Walk([], rest)
  {
    assert ([".."] + rest)[1..] == rest;
  }

  /** Walking from names by names gives names. */
  lemma {:induction false} WalkNames(parts: seq<string>, steps: seq<string>)
    requires AllNames(parts) && AllNames(steps)
    ensures AllNames(Walk(parts, steps))
    decreases steps
  {
    if steps != [] {
      if steps[0] == ".." {
        WalkNames(if parts != [] then parts[..|parts| - 1] else [], steps[1..]);
      } else {
        WalkNames(parts + [steps[0]], steps[1..]);
      }
    }
  }

  /** From a rooted working directory every resolved path is rooted. */
  lemma ResolvedIsRooted(cwd: string, input: string)
    requires StartsWith(cwd, "/")
    ensures StartsWith(Resolved(cwd, input), "/")
  {
    if !StartsWith(input, "/") && input != ".." && input != "." && !StartsWith(input, "../") {
      var r := ChildPath(cwd, input);
      assert r[..1] == cwd[..1];
    }
  }

  /** `..` drops the last segment of the working directory, and stays at `/` at the root. */
  lemma ResolveParent(segments: seq<string>)
    requires AllNames(segments)
    ensures Resolved(Rooted(segments), "..") ==
      if segments == [] then "/" else Rooted(segments[..|segments| - 1])
  {
    SegmentsOfRooted(segments);
  }

  /** Entering a child by a plain name and then resolving `..` comes back. */
  lemma ResolveChildThenParent(segments: seq<string>, name: string)
    requires AllNames(segments) && IsName(name) && name != "." && name != ".."
    ensures Resolved(Resolved(Rooted(segments), name), "..") == Rooted(segments)
  {
    assert !StartsWith(name, "/") by {
      assert name[0] in name;
    }
    assert !StartsWith(name, "../") by {
      assert |name| >= 3 ==> name[2] in name;
    }
    ChildOfRooted(segments, name);
    var child := segments + [name];
    assert AllNames(child);
    ResolveParent(child);
    assert child[..|child| - 1] == segments;
  }

  /** From `a/b/x`, `../name` resolves to the sibling `a/b/name`. */
  lemma ResolveSibling(segments: seq<string>, x: string, name: string)
    requires AllNames(segments) && IsName(x) && IsName(name) && name != ".."
    ensures Resolved(Rooted(segments + [x]), "../" + name) == Rooted(segments + [name])
  {
    var input := "../" + name;
    assert input[..1] == ".";
    assert input[..3] == "../";
    assert input == ".." + ['/'] + name;
    SplitAfterPiece("..", name, '/');
    SplitNoSeparator(name, '/');
    assert Split(input, '/') == ["..", name];
    NonEmptyOfNames(["..", name]);
    assert Segments(input) == ["..", name];
    var here := segments + [x];
    assert AllNames(here);
    SegmentsOfRooted(here);
    WalkUp(here, [name]);
    assert here[..|here| - 1] == segments;
  }

  /** `./x` is not normalised: it is joined to the working directory as it is, `./` included. */
  lemma DotSlashIsKept(cwd: string, input: string)
    requires StartsWith(input, "./")
    ensures Resolved(cwd, input) == ChildPath(cwd, input)
  {
    assert input[0] == '.' && input[1] == '/';
    assert input != ".." && input != "." && !StartsWith(input, "../");
  }

  /** The index of the first child called `name`: `children.find(child => child.name === part)`. */
  function FirstNamed(children: seq<Node>, name: string): (r: Option<nat>)
    ensures r.Some? ==> r.value < |children| && children[r.value].name == name
    ensures r.Some? ==> forall j :: 0 <= j < r.value ==> children[j].name != name
    ensures r.None? <==> forall j :: 0 <= j < |children| ==> children[j].name != name
  {
    if children == [] then None
    else if children[0].name == name then Some(0)
    else match FirstNamed(children[1..], name)
      case None => None
      case Some(k) => Some(k + 1)
  }

  /** The walk of `findItemAtPath` from `n` along `parts`; a file has no children to descend into. */
  function Descend(n: Node, parts: seq<string>): Option<Node>
    decreases parts
  {
    if parts == [] then Some(n)
    else if n.File? then None
    else match FirstNamed(n.children, parts[0])
      case None => None
      case Some(k) => Descend(n.children[k], parts[1..])
  }

  /** `findItemAtPath(path)`: the root for `/` and the empty path, otherwise the walk by names. */
  function ItemAtPath(root: Node, path: string): Option<Node>
  {
    if path == "/" || path == "" then Some(root) else Descend(root, Segments(path))
  }

  /** The imperative `findItemAtPath`, with its loop over the segments. */
  method FindItemAtPath(root: Node, path: string) returns (r: Option<Node>)
    ensures r == ItemAtPath(root, path)
  {
    if path == "/" || path == "" {
      return Some(root);
    }
    var parts := Segments(path);
    var current := root;
    var i := 0;
    while i < |parts|
      invariant 0 <= i <= |parts|
      invariant Descend(current, parts[i..]) == Descend(root, parts)
    {
      assert parts[i..][0] == parts[i] && parts[i..][1..] == parts[i + 1..];
      if current.File? {
        return None;
      }
      var found := FirstNamed(current.children, parts[i]);
      if found.None? {
        return None;
      }
      current := current.children[found.value];
      i := i + 1;
    }
    return Some(current);
  }

  /**
   * In a tree whose stored paths are consistent, walking by names from a
   * node stored at `prefix` reaches the node stored at `prefix + parts`.
   */
  lemma {:induction false} DescendStoredPath(n: Node, prefix: seq<string>, parts: seq<string>)
    requires PathsConsistent(n) && n.path == Rooted(prefix)
    requires AllNames(prefix) && AllNames(parts)
    ensures Descend(n, parts).Some? ==> Descend(n, parts).value.path == Rooted(prefix + parts)
    decreases parts
  {
    if parts != [] && n.Folder? {
      match FirstNamed(n.children, parts[0])
      case None =>
      case Some(k) =>
        var c := n.children[k];
        ChildOfRooted(prefix, parts[0]);
        assert AllNames(prefix + [parts[0]]);
        DescendStoredPath(c, prefix + [parts[0]], parts[1..]);
        assert prefix + [parts[0]] + parts[1..] == prefix + parts;
    }
    if parts == [] {
      assert prefix + parts == prefix;
    }
  }

  /** `findItemAtPath` on a consistent tree rooted at `/` finds the item stored at the normalised path. */
  lemma ItemAtPathStoredPath(root: Node, path: string)
    requires PathsConsistent(root) && root.path == "/"
    ensures ItemAtPath(root, path).Some? ==> ItemAtPath(root, path).value.path == Rooted(Segments(path))
  {
    SegmentsOfRooted([]);
    assert Rooted([]) == "/";
    if path == "" {
      assert Split(path, '/') == [""];
      assert Segments(path) == [];
    } else if path != "/" {
      DescendStoredPath(root, [], Segments(path));
      assert [] + Segments(path) == Segments(path);
    }
  }
}
