/**
 * The simulated shell of components/vscode/Terminal.tsx: the dispatch of a
 * command line over the builtins (`executeCommandSync`), the transition of
 * submitting a line (`executeCommand`) and of a key press (`handleKeyDown`),
 * and the `Shell` object whose fields are the terminal's state.
 *
 * The file tree belongs to the file store, not to the terminal: it is passed
 * in, and a transition returns the tree after `mkdir` or `touch` changed it.
 * Clock readings are passed in as a `Clock`. A command that the source runs
 * after a random delay (`npm`, `git`, `node`) is queued when submitted and
 * its reply is appended by a later, separate `Deliver` step.
 */
module Terminal {
  import opened Wrappers
  import opened Text
  import opened FileTree
  import opened TerminalPaths
  import opened TerminalListing
  import opened TerminalText

  datatype EntryKind = CommandEntry | OutputEntry | ErrorEntry

  /** One line of the scrollback (its timestamp is not modelled). */
  datatype HistoryEntry = HistoryEntry(command: string, output: Reply, kind: EntryKind)

  /** What a command does besides printing. */
  datatype Effect =
    | NoEffect
    | ChangeDirectory(path: string)
    | ClearScreen
    | MakeFolder(parent: string, name: string)
    | MakeFile(parent: string, name: string)

  /** A reply's text: computed from the operands, or one of the terminal's fixed texts. */
  datatype Reply = Plain(text: string) | Fixed(canned: Canned)

  /** The text the terminal shows for a reply. */
  function Shown(r: Reply): string
  {
    match r
    case Plain(text) => text
    case Fixed(c) => CannedText(c)
  }

  /** `if (result.output)`: the reply has text to show. */
  predicate HasText(r: Reply)
  {
    r.Fixed? || r.text != ""
  }

  /** The `{ output, type }` a command returns, with the state change it asks for. */
  datatype Outcome = Outcome(output: Reply, kind: EntryKind, effect: Effect)

  /** The readings of `new Date()` the terminal prints: now, today's date and yesterday's. */
  datatype Clock = Clock(now: string, today: string, yesterday: string)

  /** `args[i]`, with a missing argument read as the empty text (both are falsy). */
  function Arg(tokens: seq<string>, i: nat): string
  {
    if i < |tokens| then tokens[i] else ""
  }

  /** `s || fallback`. */
  function OrElse(s: string, fallback: string): (r: string)
    ensures r == s || r == fallback
  {
    if s != "" then s else fallback
  }

  function Printed(text: string): Outcome
  {
    Outcome(Plain(text), OutputEntry, NoEffect)
  }

  function Failed(text: string): Outcome
  {
    Outcome(Plain(text), ErrorEntry, NoEffect)
  }

  /** A reply printed without changing anything else. */
  function Says(r: Reply): Outcome
  {
    Outcome(r, OutputEntry, NoEffect)
  }

  /** A command that prints nothing and asks for `effect`. */
  function Silent(effect: Effect): Outcome
  {
    Outcome(Plain(""), OutputEntry, effect)
  }

  /** `asyncCommands.includes(baseCommand)`: `npm`, `git` and `node` reply after a delay. */
  predicate IsDelayed(base: string)
  {
    var b := Lookup(base);
    b == Some(Npm) || b == Some(Git) || b == Some(NodeCmd)
  }

  function NotFound(base: string): (r: string)
    ensures |r| > |base| && r[..|base|] == base
  {
    base + ": command not found\nType 'help' for available commands"
  }

  /** The numbered lines of `history`. */
  function HistoryLines(commands: seq<string>): (r: seq<string>)
    ensures |r| == |commands|
  {
    seq(|commands|, i requires 0 <= i < |commands| => NatToString(i + 1) + "  " + commands[i])
  }

  function HistoryListing(commands: seq<string>): string
  {
    Join(HistoryLines(commands), "\n")
  }

  function NpmReply(op: string, script: string): Reply
  {
    if op == "install" then Fixed(NpmInstall)
    else if op == "run" then Fixed(NpmRun(OrElse(script, "dev")))
    else if op == "start" then Fixed(NpmStart)
    else if op == "version" || op == "-v" then Plain("9.8.1")
    else Fixed(NpmUsage)
  }

  function NodeReply(op: string): Reply
  {
    if op == "--version" || op == "-v" then Plain("v18.17.0")
    else if op != "" then Fixed(NodeRun(op))
    else Fixed(NodeWelcome)
  }

  function GitReply(op: string, clock: Clock): Reply
  {
    if op == "status" then Fixed(GitStatus)
    else if op == "log" then Fixed(GitLog(clock.today, clock.yesterday))
    else if op == "branch" then Fixed(GitBranch)
    else Fixed(GitUsage)
  }

  /** The cases of the `switch (baseCommand)` in `executeCommandSync`. */
  datatype Builtin =
    | Ls | Dir | Cd | Pwd | Mkdir | Touch | Cat
    | Echo | Date | Whoami | Uname | Ps | History
    | Npm | NodeCmd | Git | Code
    | Clear | Cls | Exit | HelpCmd

  /** The `case` label that `base` matches, in the order of the switch, or `None` for its `default`. */
  function Lookup(base: string): Option<Builtin>
  {
    if base == "ls" then Some(Ls)
    else if base == "dir" then Some(Dir)
    else if base == "cd" then Some(Cd)
    else if base == "pwd" then Some(Pwd)
    else if base == "mkdir" then Some(Mkdir)
    else if base == "touch" then Some(Touch)
    else if base == "cat" then Some(Cat)
    else if base == "echo" then Some(Echo)
    else if base == "date" then Some(Date)
    else if base == "whoami" then Some(Whoami)
    else if base == "uname" then Some(Uname)
    else if base == "ps" then Some(Ps)
    else if base == "history" then Some(History)
    else if base == "npm" then Some(Npm)
    else if base == "node" then Some(NodeCmd)
    else if base == "git" then Some(Git)
    else if base == "code" then Some(Code)
    else if base == "clear" then Some(Clear)
    else if base == "cls" then Some(Cls)
    else if base == "exit" then Some(Exit)
    else if base == "help" then Some(HelpCmd)
    else None
  }

  /** The `case` label of each builtin. */
  function Name(b: Builtin): string
  {
    match b
    case Ls => "ls" case Dir => "dir" case Cd => "cd" case Pwd => "pwd"
    case Mkdir => "mkdir" case Touch => "touch" case Cat => "cat"
    case Echo => "echo" case Date => "date" case Whoami => "whoami"
    case Uname => "uname" case Ps => "ps" case History => "history"
    case Npm => "npm" case NodeCmd => "node" case Git => "git" case Code => "code"
    case Clear => "clear" case Cls => "cls" case Exit => "exit" case HelpCmd => "help"
  }

  /** Every builtin is reached by its own label: no earlier `case` shadows it. */
  lemma LookupName(b: Builtin)
    ensures Lookup(Name(b)) == Some(b)
    ensures ' ' !in Name(b)
  {
  }

  /**
   * `executeCommandSync(command)` in the working directory `cwd`, with the
   * commands submitted before this one, over the file tree `tree`: the
   * first space-separated word picks the builtin, the rest are its operands.
   */
  function Dispatch(command: string, cwd: string, commands: seq<string>, tree: Node, clock: Clock): Outcome
  {
    var tokens := Split(command, ' ');
    var base := tokens[0];
    match Lookup(base)
    case None => Failed(NotFound(base))
    case Some(b) => Run(b, tokens, cwd, commands, tree, clock)
  }

  /** The body of one `case` of the switch, with the line's words `tokens`. */
  function Run(b: Builtin, tokens: seq<string>, cwd: string, commands: seq<string>, tree: Node, clock: Clock): Outcome
  {
    var arg := Arg(tokens, 1);
    match b
    case Ls => Printed(ListDirectory(tree, if arg != "" then Resolved(cwd, arg) else cwd))
    case Dir => Printed(ListDirectory(tree, if arg != "" then Resolved(cwd, arg) else cwd))
    case Cd =>
      var newPath := if arg != "" then Resolved(cwd, arg) else "/";
      (match ItemAtPath(tree, newPath)
       case None => Failed(NoticeText(CdNoSuch(OrElse(arg, "/"))))
       case Some(item) =>
         if !item.Folder? then Failed(NoticeText(CdNotFolder(OrElse(arg, "/"))))
         else Silent(ChangeDirectory(newPath)))
    case Pwd => Printed(cwd)
    case Mkdir =>
      if arg == "" then Failed(NoticeText(MkdirNoOperand))
      else Silent(MakeFolder(cwd, arg))
    case Touch =>
      if arg == "" then Failed(NoticeText(TouchNoOperand))
      else Silent(MakeFile(cwd, arg))
    case Cat =>
      if arg == "" then Failed(NoticeText(CatNoOperand))
      else (match ItemAtPath(tree, Resolved(cwd, arg))
            case None => Failed(NoticeText(CatNoSuch(arg)))
            case Some(Folder(_, _, _)) => Failed(NoticeText(CatIsFolder(arg)))
            case Some(File(_, _, content)) => Printed(content))
    case Echo => Printed(if tokens == [] then "" else Join(tokens[1..], " "))
    case Date => Printed(clock.now)
    case Whoami => Printed(NoticeText(UserName))
    case Uname => Printed(NoticeText(if arg == "-a" then SystemInfo else KernelName))
    case Ps => Says(Fixed(ProcessTable))
    case History => Printed(HistoryListing(commands))
    case Npm => Says(NpmReply(arg, Arg(tokens, 2)))
    case NodeCmd => Says(NodeReply(arg))
    case Git => Says(GitReply(arg, clock))
    case Code => Printed(NoticeText(if arg != "" then Opening(arg) else OpeningHere))
    case Clear => Silent(ClearScreen)
    case Cls => Silent(ClearScreen)
    case Exit => Printed(NoticeText(Goodbye))
    case HelpCmd => Says(Fixed(Help))
  }

  /** The terminal's state: the fields of the component. */
  datatype ShellState = ShellState(
    history: seq<HistoryEntry>,
    currentCommand: string,
    currentPath: string,
    commandHistory: seq<string>,
    historyIndex: int,
    isProcessing: bool,
    pending: seq<Outcome>)

  /** The recall index stays within the submitted commands, and the working directory is absolute. */
  predicate WellFormed(s: ShellState)
  {
    -1 <= s.historyIndex < |s.commandHistory| && StartsWith(s.currentPath, "/")
  }

  const Initial: ShellState :=
    ShellState([HistoryEntry("", Fixed(Welcome), OutputEntry)], "", "/", [], -1, false, [])

  /** A state together with the file tree it works on. */
  datatype Step = Step(state: ShellState, tree: Node)

  /** The reply shown in the scrollback, when it has text. */
  function Report(s: ShellState, out: Outcome): ShellState
  {
    if HasText(out.output) then s.(history := s.history + [HistoryEntry("", out.output, out.kind)]) else s
  }

  function WithEffect(effect: Effect, s: ShellState, tree: Node): Step
  {
    match effect
    case NoEffect => Step(s, tree)
    case ChangeDirectory(path) => Step(s.(currentPath := path), tree)
    case ClearScreen => Step(s.(history := []), tree)
    case MakeFolder(parent, name) => Step(s, CreateFolder(tree, parent, name))
    case MakeFile(parent, name) => Step(s, CreateFile(tree, parent, name))
  }

  /**
   * The state after the non-blank line `cmd`, whose reply is `out`, was
   * submitted: the line is recorded and echoed, then either queued (a
   * delayed command) or its effect applied and its reply shown at once.
   */
  function Finish(s: ShellState, cmd: string, out: Outcome, tree: Node): Step
  {
    var submitted := s.(
      commandHistory := s.commandHistory + [cmd],
      historyIndex := -1,
      history := s.history + [HistoryEntry(cmd, Plain(""), CommandEntry)],
      isProcessing := true);
    if IsDelayed(Split(cmd, ' ')[0]) then Step(submitted.(pending := s.pending + [out]), tree)
    else
      var applied := WithEffect(out.effect, submitted, tree);
      Step(Report(applied.state, out).(isProcessing := false), applied.tree)
  }

  /** `executeCommand(command)`: a blank line does nothing; any other line is trimmed, dispatched and finished. */
  function Execute(s: ShellState, command: string, tree: Node, clock: Clock): Step
  {
    var cmd := Trim(command);
    if cmd == "" then Step(s, tree)
    else Finish(s, cmd, Dispatch(cmd, s.currentPath, s.commandHistory, tree, clock), tree)
  }

  /** The delayed reply `i` arrives: it is shown and processing ends. */
  function Deliver(s: ShellState, i: nat): ShellState
    requires i < |s.pending|
  {
    Report(s, s.pending[i]).(isProcessing := false, pending := s.pending[..i] + s.pending[i + 1..])
  }

  /** The recall index after ArrowUp: the newest command first, then older ones, stopping at the oldest. */
  function RecallUp(count: nat, index: int): (r: int)
    requires count > 0 && -1 <= index < count
    ensures 0 <= r < count
  {
    if index == -1 then count - 1 else if index - 1 < 0 then 0 else index - 1
  }

  /** The recall index after ArrowDown from a recalled command: newer ones, then back to the empty line. */
  function RecallDown(count: nat, index: int): (r: int)
    requires 0 <= index < count
    ensures -1 <= r < count
  {
    if index + 1 >= count then -1 else index + 1
  }

  datatype KeyEvent = KeyEvent(key: string, ctrlKey: bool)

  /** `handleKeyDown(e)`, the branches tested in the source's order. */
  function KeyDown(s: ShellState, e: KeyEvent, tree: Node, clock: Clock): Step
    requires WellFormed(s)
  {
    if e.key == "Enter" then
      if !s.isProcessing then
        var done := Execute(s, s.currentCommand, tree, clock);
        Step(done.state.(currentCommand := ""), done.tree)
      else Step(s, tree)
    else if e.key == "ArrowUp" then
      if |s.commandHistory| > 0 then
        var i := RecallUp(|s.commandHistory|, s.historyIndex);
        Step(s.(historyIndex := i, currentCommand := s.commandHistory[i]), tree)
      else Step(s, tree)
    else if e.key == "ArrowDown" then
      if s.historyIndex != -1 then
        var i := RecallDown(|s.commandHistory|, s.historyIndex);
        if i == -1 then Step(s.(historyIndex := -1, currentCommand := ""), tree)
        else Step(s.(historyIndex := i, currentCommand := s.commandHistory[i]), tree)
      else Step(s, tree)
    else if e.key == "Tab" then Step(s, tree)
    else if e.ctrlKey && e.key == "c" then
      Step(s.(currentCommand := "", isProcessing := false,
              history := s.history + [HistoryEntry("", Plain("^C"), OutputEntry)]), tree)
    else Step(s, tree)
  }

  // Properties of the dispatch.

  /** The words of `word + " " + arg` when neither holds a space. */
  lemma TwoTokens(word: string, arg: string)
    requires ' ' !in word && ' ' !in arg
    ensures Split(word + " " + arg, ' ') == [word, arg]
  {
    assert word + " " + arg == word + [' '] + arg;
    SplitAfterPiece(word, arg, ' ');
    SplitNoSeparator(arg, ' ');
  }

  /** `echo` prints the text after the first space exactly as typed, spaces included. */
  lemma EchoPrintsText(text: string, cwd: string, commands: seq<string>, tree: Node, clock: Clock)
    ensures Dispatch("echo " + text, cwd, commands, tree, clock) == Printed(text)
  {
    assert "echo " + text == "echo" + [' '] + text;
    SplitAfterPiece("echo", text, ' ');
    var tokens := Split("echo " + text, ' ');
    assert tokens[0] == "echo" && tokens[1..] == Split(text, ' ');
    JoinSplit(text, ' ');
  }

  /** Only `cd` changes the working directory, and from an absolute directory only to an absolute one. */
  lemma RunKeepsRooted(b: Builtin, tokens: seq<string>, cwd: string, commands: seq<string>, tree: Node, clock: Clock)
    requires StartsWith(cwd, "/")
    ensures var r := Run(b, tokens, cwd, commands, tree, clock);
      r.effect.ChangeDirectory? ==> b == Cd && StartsWith(r.effect.path, "/")
  {
    if b == Cd && Arg(tokens, 1) != "" {
      ResolvedIsRooted(cwd, Arg(tokens, 1));
    }
  }

  lemma DispatchKeepsRooted(command: string, cwd: string, commands: seq<string>, tree: Node, clock: Clock)
    requires StartsWith(cwd, "/")
    ensures var r := Dispatch(command, cwd, commands, tree, clock);
      r.effect.ChangeDirectory? ==> StartsWith(r.effect.path, "/")
  {
    var tokens := Split(command, ' ');
    match Lookup(tokens[0])
    case None =>
    case Some(b) => RunKeepsRooted(b, tokens, cwd, commands, tree, clock);
  }

  /** A line whose first word is no builtin is refused as an error naming that word. */
  lemma UnknownCommand(s: ShellState, command: string, tree: Node, clock: Clock)
    requires Trim(command) != "" && Lookup(Split(Trim(command), ' ')[0]).None?
    ensures var cmd := Trim(command);
      var r := Execute(s, command, tree, clock);
      && r.tree == tree
      && r.state.history == s.history + [HistoryEntry(cmd, Plain(""), CommandEntry),
                                         HistoryEntry("", Plain(NotFound(Split(cmd, ' ')[0])), ErrorEntry)]
      && r.state.commandHistory == s.commandHistory + [cmd]
      && r.state.historyIndex == -1 && !r.state.isProcessing
  {
    var cmd := Trim(command);
    var base := Split(cmd, ' ')[0];
    var out := Failed(NotFound(base));
    assert Dispatch(cmd, s.currentPath, s.commandHistory, tree, clock) == out;
    assert HasText(out.output);
    FinishRecords(s, cmd, out, tree);
  }

  /** `history` lists the commands submitted before it, one numbered line each. */
  lemma HistoryListingLines(commands: seq<string>)
    requires commands != []
    requires forall i :: 0 <= i < |commands| ==> '\n' !in commands[i]
    ensures Split(HistoryListing(commands), '\n') == HistoryLines(commands)
    ensures forall i :: 0 <= i < |commands| ==>
      HistoryLines(commands)[i] == NatToString(i + 1) + "  " + commands[i]
  {
    var lines := HistoryLines(commands);
    forall i | 0 <= i < |lines| ensures '\n' !in lines[i] {
      var number := NatToString(i + 1);
      assert lines[i] == number + "  " + commands[i];
    }
    SplitJoin(lines, '\n');
  }

  /**
   * At `/`, a plain name resolves to `/name`, with no doubled slash.
   */
  lemma PlainNameResolves(name: string)
    requires IsName(name) && name != "." && name != ".."
    ensures Resolved("/", name) == "/" + name
  {
    assert !StartsWith(name, "/") by {
      assert name[0] in name;
    }
    assert !StartsWith(name, "../") by {
      assert |name| >= 3 ==> name[2] in name;
    }
  }

  /**
   * A child appended to the root folder, whose name no earlier child has, is
   * what `findItemAtPath` returns for `"/" + name`.
   */
  lemma AppendedChildIsFound(root: Node, child: Node)
    requires root.Folder? && root.path == "/" && IsName(child.name)
    requires forall i :: 0 <= i < |root.children| ==> root.children[i].name != child.name
    ensures AppendChild(root, "/", child) == Folder("/", root.name, root.children + [child])
    ensures ItemAtPath(AppendChild(root, "/", child), "/" + child.name) == Some(child)
  {
    assert FirstPos("/", root) == Some([]);
    var grown := root.children + [child];
    var root' := Folder("/", root.name, grown);
    assert AppendChild(root, "/", child) == root';
    var path := "/" + child.name;
    assert Join([child.name], "/") == child.name;
    SegmentsOfRooted([child.name]);
    assert Segments(path) == [child.name];
    assert FirstNamed(grown, child.name) == Some(|root.children|) by {
      assert grown[|root.children|] == child;
      forall j | 0 <= j < |root.children| ensures grown[j].name != child.name {
        assert grown[j] == root.children[j];
      }
    }
    assert [child.name][1..] == [];
    assert Descend(root', [child.name]) == Descend(child, []);
    assert |path| > 1;
    assert path != "/" && path != "";
  }

  /** A builtin's name and one operand run that builtin with that operand. */
  lemma DispatchWord(word: string, b: Builtin, arg: string, cwd: string, commands: seq<string>, tree: Node, clock: Clock)
    requires Lookup(word) == Some(b) && ' ' !in word && ' ' !in arg
    ensures Dispatch(word + " " + arg, cwd, commands, tree, clock) == Run(b, [word, arg], cwd, commands, tree, clock)
  {
    TwoTokens(word, arg);
  }

  /** `mkdir name` asks for a new folder called `name` in the working directory. */
  lemma MkdirCreates(name: string, cwd: string, commands: seq<string>, tree: Node, clock: Clock)
    requires name != "" && ' ' !in name
    ensures Dispatch("mkdir " + name, cwd, commands, tree, clock) == Silent(MakeFolder(cwd, name))
  {
    assert "mkdir " + name == "mkdir" + " " + name;
    LookupName(Mkdir);
    DispatchWord("mkdir", Mkdir, name, cwd, commands, tree, clock);
    CreatesWithOperand(["mkdir", name], cwd, commands, tree, clock);
  }

  /** `touch name` asks for a new, empty file called `name` in the working directory. */
  lemma TouchCreates(name: string, cwd: string, commands: seq<string>, tree: Node, clock: Clock)
    requires name != "" && ' ' !in name
    ensures Dispatch("touch " + name, cwd, commands, tree, clock) == Silent(MakeFile(cwd, name))
  {
    assert "touch " + name == "touch" + " " + name;
    LookupName(Touch);
    DispatchWord("touch", Touch, name, cwd, commands, tree, clock);
    CreatesWithOperand(["touch", name], cwd, commands, tree, clock);
  }

  /** After `touch name` at the root, `cat name` prints the new, empty file. */
  lemma CatAfterTouch(root: Node, name: string, commands: seq<string>, clock: Clock)
    requires root.Folder? && root.path == "/"
    requires IsName(name) && ' ' !in name && name != "." && name != ".."
    requires forall i :: 0 <= i < |root.children| ==> root.children[i].name != name
    ensures Dispatch("cat " + name, "/", commands, CreateFile(root, "/", name), clock) == Printed("")
  {
    var tree := CreateFile(root, "/", name);
    assert "cat " + name == "cat" + " " + name;
    LookupName(Cat);
    DispatchWord("cat", Cat, name, "/", commands, tree, clock);
    PlainNameResolves(name);
    AppendedChildIsFound(root, File(ChildPath("/", name), name, ""));
    CatOutcome(["cat", name], "/", commands, tree, clock);
  }

  /** After `mkdir name` at the root, `cd name` enters the new folder. */
  lemma CdAfterMkdir(root: Node, name: string, commands: seq<string>, clock: Clock)
    requires root.Folder? && root.path == "/"
    requires IsName(name) && ' ' !in name && name != "." && name != ".."
    requires forall i :: 0 <= i < |root.children| ==> root.children[i].name != name
    ensures Dispatch("cd " + name, "/", commands, CreateFolder(root, "/", name), clock) ==
      Silent(ChangeDirectory("/" + name))
  {
    var tree := CreateFolder(root, "/", name);
    assert "cd " + name == "cd" + " " + name;
    LookupName(Cd);
    DispatchWord("cd", Cd, name, "/", commands, tree, clock);
    PlainNameResolves(name);
    AppendedChildIsFound(root, Folder(ChildPath("/", name), name, []));
    CdOutcome(["cd", name], "/", commands, tree, clock);
  }

  /** `cat` of a folder is an error. */
  lemma CatFolderFails(cwd: string, arg: string, commands: seq<string>, tree: Node, clock: Clock)
    requires arg != "" && ' ' !in arg
    requires ItemAtPath(tree, Resolved(cwd, arg)).Some? && ItemAtPath(tree, Resolved(cwd, arg)).value.Folder?
    ensures Dispatch("cat " + arg, cwd, commands, tree, clock) == Failed(NoticeText(CatIsFolder(arg)))
  {
    assert "cat " + arg == "cat" + " " + arg;
    LookupName(Cat);
    DispatchWord("cat", Cat, arg, cwd, commands, tree, clock);
    CatOutcome(["cat", arg], cwd, commands, tree, clock);
  }

  /** `cd` into a file is an error. */
  lemma CdFileFails(cwd: string, arg: string, commands: seq<string>, tree: Node, clock: Clock)
    requires arg != "" && ' ' !in arg
    requires ItemAtPath(tree, Resolved(cwd, arg)).Some? && ItemAtPath(tree, Resolved(cwd, arg)).value.File?
    ensures Dispatch("cd " + arg, cwd, commands, tree, clock) == Failed(NoticeText(CdNotFolder(arg)))
  {
    assert "cd " + arg == "cd" + " " + arg;
    LookupName(Cd);
    DispatchWord("cd", Cd, arg, cwd, commands, tree, clock);
    CdOutcome(["cd", arg], cwd, commands, tree, clock);
  }

  /** `mkdir`, `touch` and `cat` without an operand refuse with their "missing operand" errors. */
  lemma MissingOperand(tokens: seq<string>, cwd: string, commands: seq<string>, tree: Node, clock: Clock)
    requires Arg(tokens, 1) == ""
    ensures Run(Mkdir, tokens, cwd, commands, tree, clock) == Failed(NoticeText(MkdirNoOperand))
    ensures Run(Touch, tokens, cwd, commands, tree, clock) == Failed(NoticeText(TouchNoOperand))
    ensures Run(Cat, tokens, cwd, commands, tree, clock) == Failed(NoticeText(CatNoOperand))
  {
  }

  /** `mkdir` and `touch` with an operand ask the store for that folder or file in the working directory. */
  lemma CreatesWithOperand(tokens: seq<string>, cwd: string, commands: seq<string>, tree: Node, clock: Clock)
    requires Arg(tokens, 1) != ""
    ensures Run(Mkdir, tokens, cwd, commands, tree, clock) == Silent(MakeFolder(cwd, Arg(tokens, 1)))
    ensures Run(Touch, tokens, cwd, commands, tree, clock) == Silent(MakeFile(cwd, Arg(tokens, 1)))
  {
  }

  /** `cd` without an operand goes to the root, which is always a folder in a tree rooted at a folder. */
  lemma CdHome(tokens: seq<string>, cwd: string, commands: seq<string>, tree: Node, clock: Clock)
    requires Arg(tokens, 1) == ""
    ensures tree.Folder? ==> Run(Cd, tokens, cwd, commands, tree, clock) == Silent(ChangeDirectory("/"))
    ensures tree.File? ==> Run(Cd, tokens, cwd, commands, tree, clock) == Failed(NoticeText(CdNotFolder("/")))
  {
  }

  /** `cat` with an operand prints the file the resolved path names, and refuses a missing path and a folder. */
  lemma CatOutcome(tokens: seq<string>, cwd: string, commands: seq<string>, tree: Node, clock: Clock)
    requires Arg(tokens, 1) != ""
    ensures var arg := Arg(tokens, 1);
      var target := ItemAtPath(tree, Resolved(cwd, arg));
      var r := Run(Cat, tokens, cwd, commands, tree, clock);
      && (target.None? ==> r == Failed(NoticeText(CatNoSuch(arg))))
      && (target.Some? && target.value.Folder? ==> r == Failed(NoticeText(CatIsFolder(arg))))
      && (target.Some? && target.value.File? ==> r == Printed(target.value.content))
  {
  }

  /** `cd` with an operand enters the folder the resolved path names, and refuses a missing path and a file. */
  lemma CdOutcome(tokens: seq<string>, cwd: string, commands: seq<string>, tree: Node, clock: Clock)
    requires Arg(tokens, 1) != ""
    ensures var arg := Arg(tokens, 1);
      var target := ItemAtPath(tree, Resolved(cwd, arg));
      var r := Run(Cd, tokens, cwd, commands, tree, clock);
      && (target.None? ==> r == Failed(NoticeText(CdNoSuch(arg))))
      && (target.Some? && target.value.Folder? ==> r == Silent(ChangeDirectory(Resolved(cwd, arg))))
      && (target.Some? && target.value.File? ==> r == Failed(NoticeText(CdNotFolder(arg))))
  {
  }

  // Properties of the transitions.

  /**
   * Submitting a line records it once and resets the recall index; the
   * scrollback gets one command entry and, when the command runs at once,
   * at most one reply entry, only when the reply has text. `clear` and
   * `cls` leave only that reply (none, as they print nothing).
   */
  lemma FinishRecords(s: ShellState, cmd: string, out: Outcome, tree: Node)
    ensures var base := Split(cmd, ' ')[0];
      var echoed := s.history + [HistoryEntry(cmd, Plain(""), CommandEntry)];
      var replied := if HasText(out.output) then [HistoryEntry("", out.output, out.kind)] else [];
      var r := Finish(s, cmd, out, tree);
      && r.state.commandHistory == s.commandHistory + [cmd]
      && r.state.historyIndex == -1
      && r.state.currentCommand == s.currentCommand
      && r.state.isProcessing == IsDelayed(base)
      && (IsDelayed(base) ==>
            r.state.history == echoed && r.state.pending == s.pending + [out] && r.tree == tree)
      && (!IsDelayed(base) ==> r.state.pending == s.pending)
      && (!IsDelayed(base) && out.effect != ClearScreen ==> r.state.history == echoed + replied)
      && (!IsDelayed(base) && out.effect == ClearScreen ==> r.state.history == replied)
      && (!IsDelayed(base) && !out.effect.MakeFolder? && !out.effect.MakeFile? ==> r.tree == tree)
  {
    if !IsDelayed(Split(cmd, ' ')[0]) && !HasText(out.output) {
      assert s.history + [HistoryEntry(cmd, Plain(""), CommandEntry)] + [] == s.history + [HistoryEntry(cmd, Plain(""), CommandEntry)];
    }
  }

  /**
   * A command that runs at once has its effect applied: `cd` moves the
   * working directory, `mkdir` and `touch` create in the file store, and
   * nothing else touches the working directory or the tree.
   */
  lemma FinishApplies(s: ShellState, cmd: string, out: Outcome, tree: Node)
    requires !IsDelayed(Split(cmd, ' ')[0])
    ensures var r := Finish(s, cmd, out, tree);
      && (out.effect.ChangeDirectory? ==> r.state.currentPath == out.effect.path)
      && (!out.effect.ChangeDirectory? ==> r.state.currentPath == s.currentPath)
      && (out.effect.MakeFolder? ==> r.tree == CreateFolder(tree, out.effect.parent, out.effect.name))
      && (out.effect.MakeFile? ==> r.tree == CreateFile(tree, out.effect.parent, out.effect.name))
      && (!out.effect.MakeFolder? && !out.effect.MakeFile? ==> r.tree == tree)
  {
  }

  /** A line whose first word names a case of the switch runs that case on the line's words. */
  lemma DispatchRuns(cmd: string, b: Builtin, cwd: string, commands: seq<string>, tree: Node, clock: Clock)
    requires Lookup(Split(cmd, ' ')[0]) == Some(b)
    ensures Dispatch(cmd, cwd, commands, tree, clock) == Run(b, Split(cmd, ' '), cwd, commands, tree, clock)
  {
  }

  /** `clear` and `cls` ask for the screen to be cleared and print nothing, whatever follows them. */
  lemma ClearRuns(tokens: seq<string>, cwd: string, commands: seq<string>, tree: Node, clock: Clock)
    ensures Run(Clear, tokens, cwd, commands, tree, clock) == Silent(ClearScreen)
    ensures Run(Cls, tokens, cwd, commands, tree, clock) == Silent(ClearScreen)
  {
  }

  /** `clear` and `cls` ask for the screen to be cleared and print nothing. */
  lemma ClearDispatch(cmd: string, cwd: string, commands: seq<string>, tree: Node, clock: Clock)
    requires Lookup(Split(cmd, ' ')[0]) == Some(Clear) || Lookup(Split(cmd, ' ')[0]) == Some(Cls)
    ensures Dispatch(cmd, cwd, commands, tree, clock) == Silent(ClearScreen)
  {
    DispatchRuns(cmd, Lookup(Split(cmd, ' ')[0]).value, cwd, commands, tree, clock);
    ClearRuns(Split(cmd, ' '), cwd, commands, tree, clock);
  }

  /** `clear` and `cls` leave the scrollback empty. */
  lemma ClearEmptiesScrollback(s: ShellState, command: string, tree: Node, clock: Clock)
    requires Trim(command) != ""
    requires Lookup(Split(Trim(command), ' ')[0]) == Some(Clear) || Lookup(Split(Trim(command), ' ')[0]) == Some(Cls)
    ensures Execute(s, command, tree, clock).state.history == []
    ensures Execute(s, command, tree, clock).tree == tree
  {
    var cmd := Trim(command);
    ClearDispatch(cmd, s.currentPath, s.commandHistory, tree, clock);
    assert Execute(s, command, tree, clock) == Finish(s, cmd, Silent(ClearScreen), tree);
    assert !IsDelayed(Split(cmd, ' ')[0]);
    FinishRecords(s, cmd, Silent(ClearScreen), tree);
  }

  /** A blank line, whitespace only, changes nothing. */
  lemma BlankLineIgnored(s: ShellState, command: string, tree: Node, clock: Clock)
    requires forall i :: 0 <= i < |command| ==> IsSpace(command[i])
    ensures Execute(s, command, tree, clock) == Step(s, tree)
  {
  }

  lemma FinishWellFormed(s: ShellState, cmd: string, out: Outcome, tree: Node)
    requires WellFormed(s)
    requires out.effect.ChangeDirectory? ==> StartsWith(out.effect.path, "/")
    ensures WellFormed(Finish(s, cmd, out, tree).state)
  {
  }

  /** Every transition keeps the state well formed. */
  lemma ExecuteWellFormed(s: ShellState, command: string, tree: Node, clock: Clock)
    requires WellFormed(s)
    ensures WellFormed(Execute(s, command, tree, clock).state)
  {
    var cmd := Trim(command);
    if cmd != "" {
      DispatchKeepsRooted(cmd, s.currentPath, s.commandHistory, tree, clock);
      FinishWellFormed(s, cmd, Dispatch(cmd, s.currentPath, s.commandHistory, tree, clock), tree);
    }
  }

  lemma KeyDownWellFormed(s: ShellState, e: KeyEvent, tree: Node, clock: Clock)
    requires WellFormed(s)
    ensures WellFormed(KeyDown(s, e, tree, clock).state)
  {
    if e.key == "Enter" && !s.isProcessing {
      ExecuteWellFormed(s, s.currentCommand, tree, clock);
    }
  }

  lemma DeliverWellFormed(s: ShellState, i: nat)
    requires WellFormed(s) && i < |s.pending|
    ensures WellFormed(Deliver(s, i))
  {
  }

  /** The recalled line is always the command at the recall index. */
  lemma RecallShowsCommand(s: ShellState, e: KeyEvent, tree: Node, clock: Clock)
    requires WellFormed(s) && (e.key == "ArrowUp" || e.key == "ArrowDown")
    requires s.historyIndex == -1 ==> s.currentCommand == ""
    requires s.historyIndex != -1 ==> s.currentCommand == s.commandHistory[s.historyIndex]
    ensures var r := KeyDown(s, e, tree, clock).state;
      && WellFormed(r)
      && (r.historyIndex == -1 ==> r.currentCommand == "")
      && (r.historyIndex != -1 ==> r.currentCommand == r.commandHistory[r.historyIndex])
  {
  }

  /** ArrowUp stays put at the oldest command; from anywhere else ArrowDown undoes it. */
  lemma RecallDownUndoesUp(count: nat, index: int)
    requires count > 0 && -1 <= index < count
    ensures index == 0 ==> RecallUp(count, index) == 0
    ensures index != 0 ==> RecallDown(count, RecallUp(count, index)) == index
  {
  }

  /** ArrowDown on the empty line, with no command recalled, does nothing. */
  lemma ArrowDownIdle(s: ShellState, tree: Node, clock: Clock)
    requires WellFormed(s) && s.historyIndex == -1
    ensures KeyDown(s, KeyEvent("ArrowDown", false), tree, clock) == Step(s, tree)
  {
  }

  /**
   * The handler's own guard: while a command is processing, Enter does
   * nothing. On the page no key arrives then at all, the input being
   * disabled while processing.
   */
  lemma EnterWhileProcessing(s: ShellState, tree: Node, clock: Clock)
    requires WellFormed(s) && s.isProcessing
    ensures KeyDown(s, KeyEvent("Enter", false), tree, clock) == Step(s, tree)
  {
  }

  /**
   * The Ctrl+C branch of the handler ends processing but cancels nothing:
   * a reply still pending is shown when it arrives, after the `^C` line.
   * This is a property of the handler; on the page the input is disabled
   * while processing, so the key does not reach it while a reply is pending.
   */
  lemma InterruptDoesNotCancel(s: ShellState, tree: Node, clock: Clock)
    requires WellFormed(s) && |s.pending| == 1 && HasText(s.pending[0].output)
    ensures var stopped := KeyDown(s, KeyEvent("c", true), tree, clock).state;
      && !stopped.isProcessing && stopped.currentCommand == ""
      && stopped.pending == s.pending
      && Deliver(stopped, 0).history ==
           s.history + [HistoryEntry("", Plain("^C"), OutputEntry), HistoryEntry("", s.pending[0].output, s.pending[0].kind)]
  {
  }

  /** The terminal component, its state updated in place by its handlers. */
  class Shell {
    var history: seq<HistoryEntry>
    var currentCommand: string
    var currentPath: string
    var commandHistory: seq<string>
    var historyIndex: int
    var isProcessing: bool
    var pending: seq<Outcome>

    function State(): ShellState
      reads this
    {
      ShellState(history, currentCommand, currentPath, commandHistory, historyIndex, isProcessing, pending)
    }

    ghost predicate Valid()
      reads this
    {
      WellFormed(State())
    }

    /** The terminal as it opens, showing the welcome banner. */
    constructor ()
      ensures State() == Initial && Valid()
    {
      history := [HistoryEntry("", Fixed(Welcome), OutputEntry)];
      currentCommand := "";
      currentPath := "/";
      commandHistory := [];
      historyIndex := -1;
      isProcessing := false;
      pending := [];
    }

    /** The input field's `onChange`. */
    method SetInput(text: string)
      requires Valid()
      modifies this
      ensures Valid() && State() == old(State()).(currentCommand := text)
    {
      currentCommand := text;
    }

    method ApplyEffect(effect: Effect, tree: Node) returns (newTree: Node)
      requires Valid()
      requires effect.ChangeDirectory? ==> StartsWith(effect.path, "/")
      modifies this
      ensures Step(State(), newTree) == WithEffect(effect, old(State()), tree)
      ensures Valid()
    {
      newTree := tree;
      match effect
      case NoEffect =>
      case ChangeDirectory(path) => currentPath := path;
      case ClearScreen => history := [];
      case MakeFolder(parent, name) => newTree := CreateFolder(tree, parent, name);
      case MakeFile(parent, name) => newTree := CreateFile(tree, parent, name);
    }

    /** `executeCommand(command)`; the tree is the file store's, returned as the command left it. */
    method ExecuteCommand(command: string, tree: Node, clock: Clock) returns (newTree: Node)
      requires Valid()
      modifies this
      ensures Step(State(), newTree) == Execute(old(State()), command, tree, clock)
      ensures Valid()
    {
      var cmd := Trim(command);
      if cmd == "" {
        return tree;
      }
      var out := Dispatch(cmd, currentPath, commandHistory, tree, clock);
      DispatchKeepsRooted(cmd, currentPath, commandHistory, tree, clock);
      newTree := Submit(cmd, out, tree);
    }

    /** The part of `executeCommand` after the reply `out` of the line `cmd` is known. */
    method Submit(cmd: string, out: Outcome, tree: Node) returns (newTree: Node)
      requires Valid()
      requires out.effect.ChangeDirectory? ==> StartsWith(out.effect.path, "/")
      modifies this
      ensures Step(State(), newTree) == Finish(old(State()), cmd, out, tree)
      ensures Valid()
    {
      commandHistory := commandHistory + [cmd];
      historyIndex := -1;
      history := history + [HistoryEntry(cmd, Plain(""), CommandEntry)];
      isProcessing := true;
      if IsDelayed(Split(cmd, ' ')[0]) {
        pending := pending + [out];
        return tree;
      }
      newTree := ApplyEffect(out.effect, tree);
      if HasText(out.output) {
        history := history + [HistoryEntry("", out.output, out.kind)];
      }
      isProcessing := false;
    }

    /** The delayed reply `i` arrives. */
    method DeliverPending(i: nat)
      requires Valid() && i < |pending|
      modifies this
      ensures State() == Deliver(old(State()), i)
      ensures Valid()
    {
      var out := pending[i];
      if HasText(out.output) {
        history := history + [HistoryEntry("", out.output, out.kind)];
      }
      isProcessing := false;
      pending := pending[..i] + pending[i + 1..];
    }

    /** `handleKeyDown(e)`. */
    method HandleKeyDown(e: KeyEvent, tree: Node, clock: Clock) returns (newTree: Node)
      requires Valid()
      modifies this
      ensures Step(State(), newTree) == KeyDown(old(State()), e, tree, clock)
      ensures Valid()
    {
      newTree := tree;
      if e.key == "Enter" {
        if !isProcessing {
          newTree := ExecuteCommand(currentCommand, tree, clock);
          currentCommand := "";
        }
      } else if e.key == "ArrowUp" {
        if |commandHistory| > 0 {
          var newIndex := RecallUp(|commandHistory|, historyIndex);
          historyIndex := newIndex;
          currentCommand := commandHistory[newIndex];
        }
      } else if e.key == "ArrowDown" {
        if historyIndex != -1 {
          var newIndex := RecallDown(|commandHistory|, historyIndex);
          if newIndex == -1 {
            historyIndex := -1;
            currentCommand := "";
          } else {
            historyIndex := newIndex;
            currentCommand := commandHistory[newIndex];
          }
        }
      } else if e.key == "Tab" {
      } else if e.ctrlKey && e.key == "c" {
        currentCommand := "";
        isProcessing := false;
        history := history + [HistoryEntry("", Plain("^C"), OutputEntry)];
      }
    }
  }
}
