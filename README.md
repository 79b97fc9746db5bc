# VS Code clone: file store, terminal and editor tabs

This project models the three in-memory components that hold the logic of
a browser VS Code clone, and proves properties of the model.

- **The file store** (`contexts/FileSystemContext.tsx`) holds one tree of
  files and folders. Each item stores its absolute `path` and its `name`.
  `findItem` searches the tree depth-first by stored path. The five
  mutators are `createFile`, `createFolder`, `deleteItem`, `renameItem` and
  `updateFileContent`. Each one deep-copies the tree, changes the one item
  `findItem` returns in the copy, and publishes the copy. Module
  `FileTree` models each mutator as a function from tree to tree.
  `findItem`'s result is addressed by its position (`FirstPos`), and
  "change it in place" is `Put` at that position. Module `StoredPaths`
  states the invariant that `createFile` and `createFolder` set up: a
  child's path is its parent's path joined with its name. It proves which
  mutators keep that invariant.
- **The terminal** (`components/vscode/Terminal.tsx`) is a simulated shell.
  - Module `TerminalPaths` has `resolvePath` and `findItemAtPath`, both as
    functions and as the source's loops.
  - Module `TerminalListing` has `listDirectory`: a stable sort, folders
    first, then by name, with ANSI colours.
  - Module `TerminalText` holds the texts the terminal prints.
  - Module `Terminal` has the rest:
    - the `switch` of `executeCommandSync`: `Lookup` picks the case, `Run` is its body;
    - `executeCommand` and `handleKeyDown`, as transitions on the terminal's state;
    - the class `Shell`, whose fields are that state and whose methods update it in place.
  - The file tree belongs to the file store. It is passed in, and a
    transition returns the tree after `mkdir` or `touch`.
- **The editor** (`contexts/EditorContext.tsx`) holds the open files, the
  active file, the editor groups and the active group. Module `Editor`
  models the handlers' pure list computations as functions. The class
  `EditorProvider` has the four state fields, and each handler is a
  method that assigns them.

`Text` models the JavaScript built-ins these rely on: `split`, `join`,
`filter(p => p)`, `trim`, `startsWith`, `String(n)`, `toLowerCase` and
name ordering. `Wrappers` holds `Option`.

### Behaviour of the code that the model keeps

- `resolvePath` (components/vscode/Terminal.tsx:73-107) has no case for a
  leading `./`. From `/src`, `./x` becomes `/src/./x`, and `findItemAtPath`
  then looks for a child named `.`. See `TerminalPaths.DotSlashIsKept`.
- `mkdir` and `touch` wrap the store call in a `catch` that prints
  "File exists" (components/vscode/Terminal.tsx:205-211 and 221-227), so
  that error was evidently meant for an existing name. But
  `createFolder` and `createFile` (contexts/FileSystemContext.tsx:1330-1364)
  never throw and never check the siblings. A second `mkdir foo` adds a
  second folder `foo` (`FileTree.CreateFolderTwiceAddsTwo`), and the
  `catch` branches cannot be reached.
- The Ctrl+C branch of `handleKeyDown` (components/vscode/Terminal.tsx:513-523)
  does not cancel the timer of a pending `npm`/`git`/`node` reply
  (components/vscode/Terminal.tsx:155-162). The handler would show the
  reply after its `^C` line (`Terminal.InterruptDoesNotCancel`). On the
  page that cannot happen: the input is disabled while processing
  (components/vscode/Terminal.tsx:615), so no key reaches the handler
  while a reply is pending.

## Model

| member | source | states |
|---|---|---|
| Text.Split | components/vscode/Terminal.tsx:165 | `split` on one character gives one piece more than there are separators, and no piece contains the separator |
| Text.SplitJoin | components/vscode/Terminal.tsx:278-282 | splitting a join gives the pieces back when none contains the separator |
| Text.JoinSplit | components/vscode/Terminal.tsx:251-253 | joining the pieces of a split with the same separator gives the string back |
| Text.NonEmpty | components/vscode/Terminal.tsx:60 | `filter(p => p)` keeps exactly the non-empty strings and never grows the list |
| Text.NonEmptyAppend | components/vscode/Terminal.tsx:60 | the filter keeps the order: filtering a concatenation is filtering each part in turn |
| Text.Segments | contexts/FileSystemContext.tsx:1369 | every segment of `path.split('/').filter(p => p)` is non-empty and free of slashes |
| Text.SegmentsOfRooted | components/vscode/Terminal.tsx:79-83 | the segments of `'/' + names.join('/')` are those names |
| Text.ChildPath | contexts/FileSystemContext.tsx:1336 | the child path is one character longer than parent and name, except under `/`, and ends with the name |
| Text.ChildPathParts | contexts/FileSystemContext.tsx:1336 | the child path is `/` followed by the name under `/`, and otherwise the parent, a slash and the name |
| Text.ChildOfRooted | contexts/FileSystemContext.tsx:1336 | the child path of a rooted path is that path with one more segment |
| Text.TrimStart | components/vscode/Terminal.tsx:436 | only leading white space is removed, and the result starts with a non-space |
| Text.TrimEnd | components/vscode/Terminal.tsx:436 | only trailing white space is removed, and the result ends with a non-space |
| Text.TrimTail | components/vscode/Terminal.tsx:436 | only white space follows the slice `trim()` keeps, so with `Text.Trim` the result is exactly the line without its leading and trailing white space |
| Text.Trim | components/vscode/Terminal.tsx:436 | `trim()` is a middle slice of the line that starts after the leading white space; it is empty exactly when the line is white space only, and otherwise starts and ends with a non-space |
| Text.NatToString | components/vscode/Terminal.tsx:280 | `String(n)` is a non-empty string of decimal digits that denotes `n`, with no leading zero |
| Text.LowerAscii | components/vscode/Terminal.tsx:132 | lower-casing keeps the length |
| Text.LexTotal | components/vscode/Terminal.tsx:123 | any two names are ordered one way or the other |
| Text.LexTransitive | components/vscode/Terminal.tsx:123 | the name order is transitive |
| Text.LexAntisymmetric | components/vscode/Terminal.tsx:123 | names ordered both ways are equal |
| FileTree.FindItem | contexts/FileSystemContext.tsx:1319-1328 | `findItem` returns null or an item whose stored path is the query |
| FileTree.FindInChildren | contexts/FileSystemContext.tsx:1321-1326 | the loop over the children returns null or an item with the queried path |
| FileTree.FirstWithPath | contexts/FileSystemContext.tsx:1319-1328 | the reference search on a list: an item of the list with that path, and null exactly when no item has it |
| FileTree.FirstWithPathAppend | contexts/FileSystemContext.tsx:1321-1326 | searching two lists in turn is searching their concatenation |
| FileTree.FindItemIsFirstInPreorder | contexts/FileSystemContext.tsx:1319-1328 | `findItem` returns exactly the first item in depth-first pre-order with that path: the root first, then the children in order |
| FileTree.FindInChildrenIsFirstInPreorder | contexts/FileSystemContext.tsx:1321-1326 | the children's loop returns the first pre-order match among the children's subtrees |
| FileTree.FirstPosLocatesFindItem | contexts/FileSystemContext.tsx:1319-1328 | a position exists exactly when `findItem` finds something, and the item at that position is what it returns |
| FileTree.PutChangesOnlyAt | contexts/FileSystemContext.tsx:1332-1343 | changing the found item of the copy changes that subtree and nothing else; items above keep path, name, kind and child count |
| FileTree.FindAfterPut | contexts/FileSystemContext.tsx:1333-1343 | after the found item is replaced by one with the same path, `findItem` returns the replacement |
| FileTree.WithoutPath | contexts/FileSystemContext.tsx:1374 | the filter keeps exactly the children whose path differs, drops one per match, and changes nothing when none matches |
| FileTree.WithoutPathAppend | contexts/FileSystemContext.tsx:1374 | the filter keeps the survivors in their old order |
| FileTree.AppendChildSpec | contexts/FileSystemContext.tsx:1333-1343 | when `findItem(parentPath)` is a folder, it gains the child at the end of its children and nothing else changes; a missing or file parent leaves the tree unchanged |
| FileTree.CreateFileSpec | contexts/FileSystemContext.tsx:1330-1346 | when `findItem(parentPath)` is a folder, the item at its position becomes that folder with one empty file appended, carrying the given name and the parent-join path, and nothing else changes; otherwise a no-op |
| FileTree.CreateFolderSpec | contexts/FileSystemContext.tsx:1348-1364 | when `findItem(parentPath)` is a folder, the item at its position becomes that folder with one empty folder appended, and nothing else changes; otherwise a no-op |
| FileTree.CreateFolderTwiceAddsTwo | contexts/FileSystemContext.tsx:1348-1364 | with no sibling-name check, creating the same folder twice adds two identical children |
| FileTree.DeleteItemSpec | contexts/FileSystemContext.tsx:1366-1378 | the item at the position of the derived parent folder becomes that folder holding exactly its children with another path, in order, and nothing else changes; otherwise a no-op |
| FileTree.ParentPathOfChild | contexts/FileSystemContext.tsx:1369-1370 | for a child of a rooted path, the parent `deleteItem` derives is that path |
| FileTree.RenameItemSpec | contexts/FileSystemContext.tsx:1380-1391 | the found item gets the new name and the parent-join path and keeps its kind, content and children; nothing else changes; every item below keeps its stored path |
| FileTree.UpdateFileContentSpec | contexts/FileSystemContext.tsx:1393-1402 | the item at the found file's position becomes that file with the new content verbatim, and nothing else changes; a folder or missing path leaves the tree unchanged |
| StoredPaths.ConsistentBelow | contexts/FileSystemContext.tsx:1336 | in a consistent tree every subtree is consistent, and each item's path is its parent's path joined with its name |
| StoredPaths.AppendChildKeepsConsistent | contexts/FileSystemContext.tsx:1333-1343 | appending a consistent child with the parent-join path keeps the tree consistent |
| StoredPaths.CreateFileKeepsConsistent | contexts/FileSystemContext.tsx:1330-1346 | `createFile` keeps stored paths consistent |
| StoredPaths.CreateFolderKeepsConsistent | contexts/FileSystemContext.tsx:1348-1364 | `createFolder` keeps stored paths consistent |
| StoredPaths.DeleteItemKeepsConsistent | contexts/FileSystemContext.tsx:1366-1378 | `deleteItem` keeps stored paths consistent |
| StoredPaths.UpdateFileContentKeepsConsistent | contexts/FileSystemContext.tsx:1393-1402 | `updateFileContent` keeps stored paths consistent |
| StoredPaths.RenameLeavesStalePaths | contexts/FileSystemContext.tsx:1380-1391 | as written, renaming `/src` to `lib` leaves its file at `/src/index.ts`: the tree is no longer consistent, and `findItem('/lib/index.ts')` is null |
| StoredPaths.Rebase | contexts/FileSystemContext.tsx:1384-1388 | the moved item has the new path and name, with its kind, content and number of children kept |
| StoredPaths.RebaseAll | contexts/FileSystemContext.tsx:1384-1388 | re-storing a list of children keeps its length and their names |
| StoredPaths.RebaseConsistent | contexts/FileSystemContext.tsx:1384-1388 | a rebased subtree is consistent |
| StoredPaths.RebaseAllConsistent | contexts/FileSystemContext.tsx:1384-1388 | every rebased child sits at its parent's path joined with its name, and is consistent below |
| StoredPaths.RenameItemRepairedKeepsConsistent | contexts/FileSystemContext.tsx:1380-1391 | the repaired rename keeps the tree consistent when `parentPath` is the renamed item's parent path, as the explorer passes it |
| StoredPaths.RenameItemRepairedSample | contexts/FileSystemContext.tsx:1380-1391 | the repaired rename of `/src` to `lib` moves the file to `/lib/index.ts`, where `findItem` finds it |
| TerminalPaths.Rooted | components/vscode/Terminal.tsx:83 | `'/' + parts.join('/')` starts with `/` |
| TerminalPaths.ResolvePath | components/vscode/Terminal.tsx:73-107 | the loop of `resolvePath` computes `Resolved`, branch by branch |
| TerminalPaths.WalkAppend | components/vscode/Terminal.tsx:96-102 | walking one list of segments and then another is walking both |
| TerminalPaths.WalkForward | components/vscode/Terminal.tsx:96-102 | with no `..`, every segment is pushed |
| TerminalPaths.WalkUp | components/vscode/Terminal.tsx:97-98 | `..` pops the last segment, and at the root it is ignored |
| TerminalPaths.WalkNames | components/vscode/Terminal.tsx:96-102 | walking names by names gives names |
| TerminalPaths.ResolvedIsRooted | components/vscode/Terminal.tsx:73-107 | from an absolute working directory, every resolved path starts with `/` |
| TerminalPaths.ResolveParent | components/vscode/Terminal.tsx:78-85 | `..` gives `/` at the root and otherwise drops the last segment |
| TerminalPaths.ResolveChildThenParent | components/vscode/Terminal.tsx:78-106 | going into a plain-named child and then resolving `..` comes back |
| TerminalPaths.ResolveSibling | components/vscode/Terminal.tsx:91-104 | from `a/b/x`, `../name` resolves to `a/b/name` |
| TerminalPaths.DotSlashIsKept | components/vscode/Terminal.tsx:106 | an input starting with `./` is joined to the working directory as written |
| TerminalPaths.FirstNamed | components/vscode/Terminal.tsx:65 | `find` by name returns the first child with the name, and none exactly when no child has it |
| TerminalPaths.FindItemAtPath | components/vscode/Terminal.tsx:56-71 | the loop of `findItemAtPath` computes `ItemAtPath`: the root for `/` and `''`, otherwise the walk by first name match, null at a missing name or a file |
| TerminalPaths.DescendStoredPath | components/vscode/Terminal.tsx:62-68 | in a consistent tree, walking names from a node reaches the node stored at the joined path |
| TerminalPaths.ItemAtPathStoredPath | components/vscode/Terminal.tsx:56-71 | on a consistent tree, `findItemAtPath` finds only the item stored at the normalised path |
| TerminalListing.EntryTotal | components/vscode/Terminal.tsx:119-125 | the listing comparator orders any two entries |
| TerminalListing.EntryTransitive | components/vscode/Terminal.tsx:119-125 | the listing comparator is transitive |
| TerminalListing.Insert | components/vscode/Terminal.tsx:119-125 | insertion adds exactly the one entry (as a multiset) |
| TerminalListing.InsertSorted | components/vscode/Terminal.tsx:119-125 | inserting into a sorted listing keeps it sorted |
| TerminalListing.SortEntries | components/vscode/Terminal.tsx:119-125 | the sort is a permutation of the children |
| TerminalListing.SortEntriesSorted | components/vscode/Terminal.tsx:119-125 | the sort's result is sorted: folders before files, then by name |
| TerminalListing.FoldersFirst | components/vscode/Terminal.tsx:120-122 | in a sorted listing, no file comes before a folder |
| TerminalListing.Extension | components/vscode/Terminal.tsx:132 | the extension is no longer than the name |
| TerminalListing.Display | components/vscode/Terminal.tsx:128-150 | a folder shows as blue `name/`; a file with a known extension shows its name in that extension's colour, and any other file its plain name |
| TerminalListing.DisplayAll | components/vscode/Terminal.tsx:127-151 | the `map` shows each sorted entry in its place |
| TerminalListing.ListDirectorySpec | components/vscode/Terminal.tsx:109-152 | `ls` prints the two error texts for a missing path and for a file, `''` for an empty folder, and otherwise every child once, sorted, joined with two spaces |
| Terminal.OrElse | components/vscode/Terminal.tsx:181-189 | `s \|\| fallback` is one of the two |
| Terminal.NotFound | components/vscode/Terminal.tsx:426-429 | the unknown-command error starts with the word typed |
| Terminal.HistoryLines | components/vscode/Terminal.tsx:278-282 | `history` has one line per earlier command |
| Terminal.HistoryListingLines | components/vscode/Terminal.tsx:278-282 | splitting the listing at newlines gives line `i` as `i+1`, two spaces and command `i` |
| Terminal.RecallUp | components/vscode/Terminal.tsx:494 | ArrowUp's new index stays within the command history; `Terminal.RecallDownUndoesUp` pins its value |
| Terminal.RecallDown | components/vscode/Terminal.tsx:501-508 | ArrowDown's new index is -1 or within the command history |
| Terminal.TwoTokens | components/vscode/Terminal.tsx:165-167 | a word, a space and an operand split into exactly those two words |
| Terminal.EchoPrintsText | components/vscode/Terminal.tsx:251-253 | `echo` prints the text after the first space exactly, spaces included |
| Terminal.RunKeepsRooted | components/vscode/Terminal.tsx:179-193 | only `cd` changes the working directory, and from an absolute one only to an absolute one |
| Terminal.DispatchKeepsRooted | components/vscode/Terminal.tsx:164-193 | no command line moves an absolute working directory to a relative one |
| Terminal.UnknownCommand | components/vscode/Terminal.tsx:426-429 | an unknown first word gives the command entry and one error entry `<word>: command not found...`; it records the line, resets recall, ends processing and keeps the tree |
| Terminal.PlainNameResolves | components/vscode/Terminal.tsx:106 | at `/`, a plain name resolves to `/name`, with no doubled slash |
| Terminal.AppendedChildIsFound | components/vscode/Terminal.tsx:56-71 | a child appended to the root under a new name is what `findItemAtPath('/' + name)` returns |
| Terminal.LookupName | components/vscode/Terminal.tsx:172-426 | each builtin's own `case` label selects it (no earlier label shadows it), and no label contains a space |
| Terminal.CreatesWithOperand | components/vscode/Terminal.tsx:199-229 | `mkdir` and `touch` with an operand print nothing and ask the store for that folder or file in the working directory |
| Terminal.DispatchWord | components/vscode/Terminal.tsx:164-172 | a builtin's name and one operand run that builtin's case with that operand |
| Terminal.DispatchRuns | components/vscode/Terminal.tsx:164-172 | a line whose first word names a case runs that case on the line's words |
| Terminal.MkdirCreates | components/vscode/Terminal.tsx:199-213 | `mkdir name` prints nothing and asks the store for the folder `name` in the working directory |
| Terminal.TouchCreates | components/vscode/Terminal.tsx:215-229 | `touch name` prints nothing and asks the store for the file `name` in the working directory |
| Terminal.MissingOperand | components/vscode/Terminal.tsx:199-233 | `mkdir`, `touch` and `cat` with no operand give their error-kind "missing operand" texts |
| Terminal.CatOutcome | components/vscode/Terminal.tsx:231-249 | `cat` with an operand gives `No such file or directory`, `Is a directory`, or the file's content |
| Terminal.CdOutcome | components/vscode/Terminal.tsx:179-193 | `cd` with an operand gives the missing-path error, the not-a-directory error, or a move to the resolved path with no output |
| Terminal.CdHome | components/vscode/Terminal.tsx:180-191 | `cd` with no operand moves to `/` |
| Terminal.CatAfterTouch | components/vscode/Terminal.tsx:215-249 | after `touch name` at the root, `cat name` prints the new file's empty content |
| Terminal.CdAfterMkdir | components/vscode/Terminal.tsx:179-213 | after `mkdir name` at the root, `cd name` moves to `/name` |
| Terminal.CatFolderFails | components/vscode/Terminal.tsx:242-244 | `cat` of a folder is the error `cat: X: Is a directory` |
| Terminal.CdFileFails | components/vscode/Terminal.tsx:185-187 | `cd` into a file is the error `cd: not a directory: X` |
| Terminal.FinishRecords | components/vscode/Terminal.tsx:435-482 | a submitted line is appended to the command history and echoed once; recall resets to -1; an immediate reply is added only when it has text, and processing ends; an `npm`/`git`/`node` reply is queued with processing on; `clear` leaves an empty scrollback |
| Terminal.FinishApplies | components/vscode/Terminal.tsx:179-229 | an immediate command's effect is applied: `cd` sets the working directory, `mkdir` and `touch` create in the store, and nothing else changes either |
| Terminal.ClearRuns | components/vscode/Terminal.tsx:376-379 | `clear` and `cls` print nothing and ask for an empty scrollback, whatever follows them |
| Terminal.ClearDispatch | components/vscode/Terminal.tsx:376-379 | a line starting with `clear` or `cls` prints nothing and clears the screen |
| Terminal.ClearEmptiesScrollback | components/vscode/Terminal.tsx:376-379 | after `clear` or `cls` the scrollback is empty and the tree unchanged |
| Terminal.BlankLineIgnored | components/vscode/Terminal.tsx:436-437 | a white-space-only line changes nothing |
| Terminal.FinishWellFormed | components/vscode/Terminal.tsx:439-481 | finishing a line keeps the recall index in range and the working directory absolute |
| Terminal.ExecuteWellFormed | components/vscode/Terminal.tsx:435-482 | submitting any line keeps the state well formed |
| Terminal.KeyDownWellFormed | components/vscode/Terminal.tsx:485-524 | every key keeps the recall index in [-1, len-1] and the working directory absolute |
| Terminal.DeliverWellFormed | components/vscode/Terminal.tsx:155-162 | a late reply arriving keeps the state well formed |
| Terminal.RecallShowsCommand | components/vscode/Terminal.tsx:491-509 | after ArrowUp or ArrowDown, the input shows the command at the recall index, or is empty at -1 |
| Terminal.RecallDownUndoesUp | components/vscode/Terminal.tsx:491-509 | at the oldest command ArrowUp keeps the index at 0; from the empty line or any newer command, ArrowDown undoes ArrowUp, so ArrowUp goes to the newest command from the empty line and one command back otherwise |
| Terminal.ArrowDownIdle | components/vscode/Terminal.tsx:498-509 | ArrowDown at -1 changes nothing |
| Terminal.EnterWhileProcessing | components/vscode/Terminal.tsx:486-490 | Enter does nothing while a command is processing |
| Terminal.InterruptDoesNotCancel | components/vscode/Terminal.tsx:513-523 | Ctrl+C clears the input, ends processing and appends `^C`, but the pending reply is still shown after it |
| Terminal.Shell.constructor | components/vscode/Terminal.tsx:20-43 | the terminal opens at `/`, with no commands and the welcome banner |
| Terminal.Shell.SetInput | components/vscode/Terminal.tsx:613 | typing replaces the input line and nothing else |
| Terminal.Shell.ApplyEffect | components/vscode/Terminal.tsx:179-229 | the state and tree are those the command's effect gives |
| Terminal.Shell.ExecuteCommand | components/vscode/Terminal.tsx:435-482 | `executeCommand` moves the fields to `Execute` of the old state, and keeps them well formed |
| Terminal.Shell.Submit | components/vscode/Terminal.tsx:439-481 | after the reply is known, the fields become `Finish` of the old state |
| Terminal.Shell.DeliverPending | components/vscode/Terminal.tsx:155-162 | a late reply is shown if it has text, leaves the queue, and processing ends |
| Terminal.Shell.HandleKeyDown | components/vscode/Terminal.tsx:485-524 | `handleKeyDown` moves the fields to `KeyDown` of the old state, and keeps them well formed |
| Editor.IndexOf | contexts/EditorContext.tsx:86 | `findIndex` returns the first index with the path, or -1 exactly when no entry has it |
| Editor.Find | contexts/EditorContext.tsx:51 | `find` returns an entry with the path, or nothing exactly when none has it |
| Editor.Without | contexts/EditorContext.tsx:81 | the filter never grows the list |
| Editor.WithoutElements | contexts/EditorContext.tsx:81 | the filter keeps exactly the entries with another path |
| Editor.WithoutPaths | contexts/EditorContext.tsx:81 | after the filter, the paths are the old ones except the closed one |
| Editor.WithoutDistinct | contexts/EditorContext.tsx:81 | the filter keeps paths distinct |
| Editor.WithoutAbsent | contexts/EditorContext.tsx:81 | closing a path that is not open changes nothing |
| Editor.WithoutUnique | contexts/EditorContext.tsx:81 | when only index `k` has the path, the filter removes that entry and keeps the order |
| Editor.OrNull | contexts/EditorContext.tsx:88 | `?.path \|\| null` is null exactly for the empty path |
| Editor.NextActive | contexts/EditorContext.tsx:83-93 | closing a non-active path keeps the active file; otherwise the new one is a remaining entry, or null |
| Editor.CloseActiveNeighbour | contexts/EditorContext.tsx:83-93 | closing the active tab at `k` activates its right neighbour, its left one when it was last, or nothing when it was the only tab (`min(k, newLen-1)`) |
| Editor.Opened | contexts/EditorContext.tsx:50-61 | an open path leaves the list unchanged; a new path is appended at the end |
| Editor.OpenedDistinct | contexts/EditorContext.tsx:50-61 | opening keeps paths distinct |
| Editor.OpenThenClose | contexts/EditorContext.tsx:49-81 | opening a new file and closing it gives back the old list |
| Editor.OpenInGroup | contexts/EditorContext.tsx:64-76 | only the active group changes: the file is appended if absent, and becomes that group's active file |
| Editor.OpenInGroups | contexts/EditorContext.tsx:64-76 | the `map` applies that update to each group in place |
| Editor.CloseInGroup | contexts/EditorContext.tsx:99-117 | a group loses exactly the closed path and picks its active file by the same rule |
| Editor.CloseInGroups | contexts/EditorContext.tsx:98-119 | the rule is applied to every group on its own |
| Editor.WithContent | contexts/EditorContext.tsx:123-127 | only the content of matching entries changes; length, order, names and paths stay |
| Editor.UpdateInGroups | contexts/EditorContext.tsx:130-137 | every group's files get the new content, with id and active file kept |
| Editor.WithoutGroup | contexts/EditorContext.tsx:159 | exactly the groups with another id are kept |
| Editor.WithoutGroupAppend | contexts/EditorContext.tsx:159 | the filter keeps the order: filtering a concatenation is filtering each part in turn |
| Editor.WithoutGroupHead | contexts/EditorContext.tsx:159-166 | `newGroups[0]` is the first group, in the old order, whose id differs from the closed one |
| Editor.OpenKeepsGroupsValid | contexts/EditorContext.tsx:49-77 | opening keeps every group's files distinct and open, and its active file one of them |
| Editor.CloseKeepsGroupValid | contexts/EditorContext.tsx:99-117 | closing keeps one group valid against the shrunk open list |
| Editor.CloseKeepsGroupsValid | contexts/EditorContext.tsx:79-120 | closing keeps every group valid |
| Editor.UpdateKeepsGroupsValid | contexts/EditorContext.tsx:122-138 | updating content keeps every group valid |
| Editor.EditorProvider.constructor | contexts/EditorContext.tsx:42-47 | no open file, and the one empty group `group-1`, active |
| Editor.EditorProvider.Open | contexts/EditorContext.tsx:49-77 | `openFile` sets all four fields and keeps the invariants: distinct open paths, valid groups, active file open |
| Editor.EditorProvider.Close | contexts/EditorContext.tsx:79-120 | `closeFile` removes the path everywhere, picks the next active file in the list and in each group, and keeps the invariants |
| Editor.EditorProvider.UpdateFileContent | contexts/EditorContext.tsx:122-138 | `updateFileContent` changes content only, in the list and in every group |
| Editor.EditorProvider.SplitEditor | contexts/EditorContext.tsx:140-155 | no active open file means no change; otherwise one group holding just that file is appended and made active |
| Editor.EditorProvider.CloseGroup | contexts/EditorContext.tsx:157-174 | the group is removed; if it was active and others remain, the first becomes active and lends its active file when set |
| Editor.EditorProvider.SetActiveFile | contexts/EditorContext.tsx:43 | the raw setter changes only the active file |
| Editor.EditorProvider.SetActiveGroup | contexts/EditorContext.tsx:47 | the raw setter changes only the active group |

## Left out

- Rendering: JSX, focus, auto-scroll, prompt and `formatOutput` (components/vscode/Terminal.tsx:526-632) are view code.
- Timestamps of scrollback entries are not modelled. The clock readings that `date` and `git log` print are a `Clock` parameter.
- The random delay of `npm`, `git` and `node` (components/vscode/Terminal.tsx:155-162): the reply is queued, and a separate `Deliver` step, at any queue index, shows it. Any arrival order is allowed.
- The delayed reply is computed when the line is submitted. The source computes it when the timer fires, from the same closure, so only the clock can differ. `Clock` stands for the reading used.
- The `exit` timer does nothing observable and is left out.
- The `catch` branches of `mkdir`, `touch` and `executeCommand` are unreachable in the model: `createFolder` and `createFile` never throw.
- React batching: each handler is one atomic step over the state before the call. `history` reads the command list before the current line, as the stale closure does.
- Terminal.Shell.SetInput: the input field is disabled while processing (components/vscode/Terminal.tsx:615), but the method does not refuse input then.
- Terminal.Shell.HandleKeyDown: the method, `KeyDown` and the lemmas about it accept key events while processing. On the page the disabled input delivers none, so `Terminal.EnterWhileProcessing` and `Terminal.InterruptDoesNotCancel` describe the handler alone.
- The optional `content` and `children` fields are always present, as `''` and `[]`. Every use in the source treats a missing one the same way (`|| ''`, `if (!parent.children) parent.children = []`, the empty-children listing).
- The store's tree is never null, so the `if (!root)` branch of `findItemAtPath` is left out.
- The large seeded workspace (contexts/FileSystemContext.tsx:33-1317) is sample data. The model uses a small sample tree (`StoredPaths.Sample`).
- The editor's group ids come from `Date.now()`. Editor.EditorProvider.SplitEditor takes the new id as a parameter.
- Editor.EditorProvider.SetActiveFile: the raw setter can activate a path that is not open, so it does not promise `ActiveIsOpen`. Every other handler keeps it.
- TerminalListing.SortEntries: `localeCompare` is locale-dependent. The model orders names by character code.
- Text.LowerAscii: `toLowerCase` is modelled on ASCII letters only. Its contract states only the length.
- Terminal.HasText: a fixed reply (banner, help, npm/git/node texts) counts as non-empty. That those long texts are non-empty is not proved.
- The explorer, settings, editor widget and other UI components are not part of this model, and neither is `SettingsContext.tsx`.

## Findings

| source | as written | input that shows it | evidently intended | confidence | as-written member | corrected member |
|---|---|---|---|---|---|---|
| contexts/FileSystemContext.tsx:1384-1388 | `renameItem` rewrites only the renamed item's own `path`; the items below a renamed folder keep paths under the old name | rename folder `/src`, holding `/src/index.ts`, to `lib` with parent `/`: the file stays stored at `/src/index.ts`, and `findItem('/lib/index.ts')` is null | the items below are re-stored under the new path, so every child's path stays its parent's path joined with its name | not executed | StoredPaths.RenameLeavesStalePaths | StoredPaths.RenameItemRepairedKeepsConsistent |
