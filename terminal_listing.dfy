/**
 * `listDirectory` in components/vscode/Terminal.tsx: the children of a
 * folder sorted folders first and then by name, each shown with an ANSI
 * colour that depends on its kind and extension, joined with two spaces.
 * The source sorts with `Array.prototype.sort`, which is stable; the model
 * sorts by insertion, which is stable too, and orders names by character
 * code where the source calls `localeCompare`.
 */
module TerminalListing {
  import opened Wrappers
  import opened Text
  import opened FileTree
  import opened TerminalPaths

  /** The comparator of the listing: folders before files, then names in order. */
  predicate EntryLessEq(a: Node, b: Node)
  {
    if a.Folder? != b.Folder? then a.Folder? else LexLessEq(a.name, b.name)
  }

  lemma EntryTotal(a: Node, b: Node)
    ensures EntryLessEq(a, b) || EntryLessEq(b, a)
  {
    LexTotal(a.name, b.name);
  }

  lemma EntryTransitive(a: Node, b: Node, c: Node)
    requires EntryLessEq(a, b) && EntryLessEq(b, c)
    ensures EntryLessEq(a, c)
  {
    if a.Folder? == b.Folder? == c.Folder? {
      LexTransitive(a.name, b.name, c.name);
    }
  }

  predicate Sorted(s: seq<Node>)
  {
    forall i, j :: 0 <= i < j < |s| ==> EntryLessEq(s[i], s[j])
  }

  /** `x` placed before the first entry it does not come after, so earlier equals stay first. */
  function Insert(x: Node, s: seq<Node>): (r: seq<Node>)
    ensures multiset(r) == multiset(s) + multiset{x}
    ensures |r| == |s| + 1
  {
    if s == [] || EntryLessEq(x, s[0]) then [x] + s
    else
      assert s == [s[0]] + s[1..];
      [s[0]] + Insert(x, s[1..])
  }

  lemma {:induction false} InsertSorted(x: Node, s: seq<Node>)
    requires Sorted(s)
    ensures Sorted(Insert(x, s))
  {
    var r := Insert(x, s);
    if s == [] || EntryLessEq(x, s[0]) {
      forall i, j | 0 <= i < j < |r| ensures EntryLessEq(r[i], r[j]) {
        if i == 0 {
          if j > 1 {
            EntryTransitive(x, s[0], s[j - 1]);
          }
        } else {
          assert r[i] == s[i - 1] && r[j] == s[j - 1];
        }
      }
    } else {
      EntryTotal(x, s[0]);
      InsertSorted(x, s[1..]);
      var t := Insert(x, s[1..]);
      assert r == [s[0]] + t;
      InsertAbove(s[0], x, s[1..]);
      forall i, j | 0 <= i < j < |r| ensures EntryLessEq(r[i], r[j]) {
        if i == 0 {
          assert r[j] == t[j - 1];
        } else {
          assert r[i] == t[i - 1] && r[j] == t[j - 1];
        }
      }
    }
  }

  /** A lower bound of `x` and of every entry of `s` is a lower bound of every entry of `Insert(x, s)`. */
  lemma {:induction false} InsertAbove(y: Node, x: Node, s: seq<Node>)
    requires EntryLessEq(y, x)
    requires forall k :: 0 <= k < |s| ==> EntryLessEq(y, s[k])
    ensures forall k :: 0 <= k < |Insert(x, s)| ==> EntryLessEq(y, Insert(x, s)[k])
  {
    if s != [] && !EntryLessEq(x, s[0]) {
      InsertAbove(y, x, s[1..]);
      var t := Insert(x, s[1..]);
      assert Insert(x, s) == [s[0]] + t;
    }
  }

  /** `[...children].sort(comparator)`: a sorted permutation of the children. */
  function SortEntries(s: seq<Node>): (r: seq<Node>)
    ensures multiset(r) == multiset(s)
    ensures |r| == |s|
  {
    if s == [] then []
    else
      assert s == [s[0]] + s[1..];
      Insert(s[0], SortEntries(s[1..]))
  }

  lemma {:induction false} SortEntriesSorted(s: seq<Node>)
    ensures Sorted(SortEntries(s))
  {
    if s != [] {
      SortEntriesSorted(s[1..]);
      InsertSorted(s[0], SortEntries(s[1..]));
    }
  }

  /** In a sorted listing no file comes before a folder. */
  lemma FoldersFirst(s: seq<Node>, i: nat, j: nat)
    requires i < j < |SortEntries(s)|
    ensures SortEntries(s)[j].Folder? ==> SortEntries(s)[i].Folder?
  {
    SortEntriesSorted(s);
  }

  /** `name.split('.').pop()?.toLowerCase()`: the text after the last dot, or the whole name. */
  function Extension(name: string): (r: string)
    ensures |r| <= |name|
  {
    var pieces := Split(name, '.');
    LastPieceShorter(name, '.');
    LowerAscii(pieces[|pieces| - 1])
  }

  lemma {:induction false} LastPieceShorter(s: string, sep: char)
    ensures |Split(s, sep)[|Split(s, sep)| - 1]| <= |s|
  {
    if s != [] {
      LastPieceShorter(s[1..], sep);
    }
  }

  const Reset: string := "\U{1B}[0m"

  function Coloured(code: string, text: string): string
  {
    "\U{1B}[" + code + "m" + text + Reset
  }

  /** The colour code of a file's listing entry, or `None` for plain text. */
  function FileColour(name: string): Option<string>
  {
    var ext := Extension(name);
    if ext in {"js", "jsx", "ts", "tsx"} then Some("33")
    else if ext in {"css", "scss"} then Some("35")
    else if ext == "html" then Some("31")
    else if ext == "json" then Some("36")
    else if ext == "md" then Some("32")
    else None
  }

  /** One entry of the listing: a blue `name/` for a folder, a file's name coloured by its extension. */
  function Display(n: Node): (r: string)
    ensures n.Folder? ==> r == Coloured("34", n.name + "/")
    ensures n.File? && FileColour(n.name).None? ==> r == n.name
    ensures n.File? && FileColour(n.name).Some? ==> r == Coloured(FileColour(n.name).value, n.name)
  {
    if n.Folder? then Coloured("34", n.name + "/")
    else match FileColour(n.name)
      case Some(code) => Coloured(code, n.name)
      case None => n.name
  }

  function DisplayAll(s: seq<Node>): (r: seq<string>)
    ensures |r| == |s|
    ensures forall i :: 0 <= i < |s| ==> r[i] == Display(s[i])
  {
    if s == [] then [] else [Display(s[0])] + DisplayAll(s[1..])
  }

  function NoSuchFile(path: string): string
  {
    "ls: cannot access '" + path + "': No such file or directory"
  }

  function NotADirectory(path: string): string
  {
    "ls: cannot access '" + path + "': Not a directory"
  }

  /** `listDirectory(path)`. */
  function ListDirectory(root: Node, path: string): string
  {
    match ItemAtPath(root, path)
    case None => NoSuchFile(path)
    case Some(File(_, _, _)) => NotADirectory(path)
    case Some(Folder(_, _, children)) =>
      if children == [] then "" else Join(DisplayAll(SortEntries(children)), "  ")
  }

  /**
   * What `ls` prints for `path`: the two error texts for a missing path and
   * for a file; for a folder, every child exactly once, folders first and
   * then by name, and the empty text when it has no children.
   */
  lemma ListDirectorySpec(root: Node, path: string)
    ensures ItemAtPath(root, path).None? ==> ListDirectory(root, path) == NoSuchFile(path)
    ensures ItemAtPath(root, path).Some? && ItemAtPath(root, path).value.File? ==>
      ListDirectory(root, path) == NotADirectory(path)
    ensures ItemAtPath(root, path).Some? && ItemAtPath(root, path).value.Folder? ==>
      var children := ItemAtPath(root, path).value.children;
      var shown := SortEntries(children);
      && multiset(shown) == multiset(children)
      && Sorted(shown)
      && ListDirectory(root, path) == (if children == [] then "" else Join(DisplayAll(shown), "  "))
  {
    if ItemAtPath(root, path).Some? && ItemAtPath(root, path).value.Folder? {
      SortEntriesSorted(ItemAtPath(root, path).value.children);
    }
  }
}
