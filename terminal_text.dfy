/**
 * The fixed texts the terminal in components/vscode/Terminal.tsx prints:
 * the welcome banner, `help`, `ps` and the simulated `npm`, `node` and `git`
 * replies. Each is named by a `Canned` value, and `CannedText` gives the
 * exact text the terminal shows for it, with the operands and dates it
 * interpolates. The one-line answers and complaints of the built-in
 * commands are named by `Notice` values in the same way.
 */
module TerminalText {

  datatype Canned =
    | Welcome
    | Help
    | ProcessTable
    | NpmInstall
    | NpmRun(script: string)
    | NpmStart
    | NpmUsage
    | NodeRun(file: string)
    | NodeWelcome
    | GitStatus
    | GitLog(today: string, yesterday: string)
    | GitBranch
    | GitUsage

  /** The text shown for each fixed reply. */
  function CannedText(c: Canned): string
  {
    match c
    case Welcome =>
@"Welcome to VS Code Terminal
Type 'help' to see available commands."
    case Help =>
@"Available commands:

File Operations:
  ls, dir              - List directory contents
  cd <path>            - Change directory
  pwd                  - Print working directory
  mkdir <name>         - Create directory
  touch <name>         - Create file
  cat <file>           - Display file contents

System:
  echo <text>          - Display text
  date                 - Show current date and time
  whoami               - Show current user
  uname [-a]           - Show system information
  ps                   - Show running processes
  history              - Show command history

Development:
  npm install          - Install npm packages
  npm run <script>     - Run npm script
  npm start            - Start production server
  node [file]          - Run Node.js
  git status           - Git status
  git log              - Git log
  code [file]          - Open in editor

Terminal:
  clear, cls           - Clear terminal
  exit                 - Exit terminal
  help                 - Show this help message

Navigation:
  Use ↑/↓ arrows for command history
  Use Tab for auto-completion (coming soon)"
    case ProcessTable =>
@"  PID TTY          TIME CMD
 1234 pts/0    00:00:01 bash
 5678 pts/0    00:00:00 node
 9012 pts/0    00:00:00 ps"
    case NpmInstall =>
@"📦 Installing packages...
⠋ Resolving dependencies...
⠙ Fetching packages...
⠹ Linking dependencies...
✅ Dependencies installed successfully
🔧 Packages added to node_modules/
⚡ Ready for development!

added 1337 packages in 42s"
    case NpmRun(script) =>
@"🚀 Running script: " + script +
@"
📡 Starting development server...
🌐 Local:    http://localhost:3000
🌐 Network:  http://192.168.1.100:3000
✨ Ready for hot reload!"
    case NpmStart =>
@"🚀 Starting production server...
✅ Application started successfully
🌐 Server running on http://localhost:3000"
    case NpmUsage =>
@"npm: Available commands:
  npm install           - Install dependencies
  npm run <script>      - Run npm script
  npm start            - Start production server
  npm version          - Show npm version
  npm help             - Show help"
    case NodeRun(file) =>
@"Running " + file + @"...
✅ Execution completed"
    case NodeWelcome =>
"Welcome to Node.js v18.17.0.\nType \".help\" for more information."
    case GitStatus =>
@"On branch main
Your branch is up to date with 'origin/main'.

Changes not staged for commit:
  (use ""git add <file>..."" to update what will be committed)
  (use ""git checkout -- <file>..."" to discard changes in working directory)

        modified:   src/index.js
        modified:   package.json

no changes added to commit (use ""git add"" or ""git commit -a"")"
    case GitLog(today, yesterday) =>
@"commit a1b2c3d4e5f6 (HEAD -> main, origin/main)
Author: Developer <dev@example.com>
Date:   " + today +
@"

    Initial commit

commit f6e5d4c3b2a1
Author: Developer <dev@example.com>
Date:   " + yesterday +
@"

    Add project structure"
    case GitBranch =>
@"* main
  feature/new-component
  hotfix/bug-fix"
    case GitUsage =>
@"git: Available commands:
  git status           - Show working tree status
  git log              - Show commit logs
  git branch           - List branches
  git add <file>       - Add file to staging
  git commit -m ""msg""  - Commit changes"
  }

  /** The one-line answers and complaints of the built-in commands. */
  datatype Notice =
    | CdNoSuch(operand: string)
    | CdNotFolder(operand: string)
    | MkdirNoOperand
    | TouchNoOperand
    | CatNoOperand
    | CatNoSuch(operand: string)
    | CatIsFolder(operand: string)
    | UserName
    | KernelName
    | SystemInfo
    | Opening(operand: string)
    | OpeningHere
    | Goodbye

  /** The text shown for each notice. */
  function NoticeText(n: Notice): string
  {
    match n
    case CdNoSuch(operand) => "cd: no such file or directory: " + operand
    case CdNotFolder(operand) => "cd: not a directory: " + operand
    case MkdirNoOperand => "mkdir: missing operand"
    case TouchNoOperand => "touch: missing file operand"
    case CatNoOperand => "cat: missing file operand"
    case CatNoSuch(operand) => "cat: " + operand + ": No such file or directory"
    case CatIsFolder(operand) => "cat: " + operand + ": Is a directory"
    case UserName => "developer"
    case KernelName => "Linux"
    case SystemInfo => "VSCode-Terminal 1.0.0 WebContainer x86_64 GNU/Linux"
    case Opening(operand) => "Opening " + operand + " in editor..."
    case OpeningHere => "Opening current directory in editor..."
    case Goodbye => "Goodbye! 👋"
  }
}
