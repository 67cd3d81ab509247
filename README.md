# tdr task collection, modelled in Dafny

`tdr` is a command-line to-do tool. Each run loads a task list from a JSON
file and applies one subcommand (`add`, `complete`, `uncomplete`, `get`,
`remove`, `list`, `clear`). It makes one `println!` per task for `list` and
at most one otherwise. It writes the list back after `add` and `clear`,
and after `complete`, `uncomplete` and `remove` when the id addresses a task. This project models the in-memory part of
that run:

- `Tdr.Task`: a task record (`id`, `text`, `completed`), with `Task::new`,
  `Task::complete`, `Task::uncomplete` and its `Display` rendering
  (`[x] text` or `[ ] text`).
- `Tdr.TaskList`: the loaded collection as a class whose `tasks` field each
  command method reassigns in place. Every method returns the lines it
  prints (`out`). The mutating ones also return `saved`, which is true
  exactly when the source reaches `tasks.save()`.
- `Tdr.Slot` models `tasks.get(id - 1)`. The subtraction is on a `usize`,
  so it is written out as wrap-around modulo 2^64, as in a release build:
  id 0 becomes `usize::MAX`, which finds no task, so the command does nothing.
- `Tdr.Appended`, `Tdr.Marked` and `Tdr.Removed` are the task sequences that
  `add`, `complete`/`uncomplete` and `remove` produce. The methods are proved
  to produce exactly them. The lemmas in `TdrProperties` state what the
  commands promise about them.
- `Decimal` renders numbers as `{}` does for a `usize`, and reads them back.
- `TdrProperties.ParseLine` reads each returned `list` line back into
  position, flag and text.

Files: `decimal.dfy` (module `Decimal`), `tdr.dfy` (module `Tdr`),
`tdr_properties.dfy` (module `TdrProperties`).

Two behaviours of `src/main.rs` are worth stating outright:

- `remove` (src/main.rs:167) moves the later tasks down one position but
  does not rewrite their stored `id` fields. Ids and positions can then
  disagree, and a later `add` can repeat an id (`RemoveThenAddRepeatsId`).
- This revision has no subtasks and no edit command.

## Model

| member | source | states |
|---|---|---|
| `Tdr.Task.New` | src/main.rs:121-127 | a new task carries the given id and text and is not completed |
| `Tdr.Task.Complete` | src/main.rs:130-132 | completing sets the flag and keeps id and text |
| `Tdr.Task.Uncomplete` | src/main.rs:135-137 | uncompleting clears the flag and keeps id and text |
| `Tdr.Task.ToString` | src/main.rs:110-116 | the rendering is `[x] ` or `[ ] ` by the flag, followed by the text unchanged |
| `Tdr.WrappingDecrement` | src/main.rs:152 | `id - 1` on a usize: the result plus one is `id` modulo 2^64, so 0 wraps to `usize::MAX` |
| `Tdr.Slot` | src/main.rs:152 | `get(id - 1)` finds a task exactly when 1 <= id <= length, and then at position id-1 |
| `Tdr.Appended` | src/main.rs:144-147 | add keeps every earlier task and appends one task with id = old length + 1, the given text, not completed |
| `Tdr.Marked` | src/main.rs:151-163 | complete/uncomplete set only the flag of task id-1, leave all other tasks as they were, and change nothing when id is out of range |
| `Tdr.Removed` | src/main.rs:165-170 | remove drops task id-1: earlier tasks keep their positions, later ones move down by one, none is rewritten; an out-of-range id changes nothing |
| `Tdr.Line` | src/main.rs:179 | the line for 0-based position i is i+1 in decimal (digits that read back as i+1), then ": ", then the task's rendering |
| `Tdr.TaskList.Load` | src/main.rs:73 | the loaded list is the parsed one, or empty when the file did not parse |
| `Tdr.TaskList.Add` | src/main.rs:144-150 | the tasks become `Appended(old tasks, text)`; always saves; prints `Added task <new length> with text <text>` |
| `Tdr.TaskList.Complete` | src/main.rs:151-157 | the tasks become `Marked(old, id, true)`; saves and prints `Completed task <id>` exactly when id addresses a task |
| `Tdr.TaskList.Uncomplete` | src/main.rs:158-164 | the tasks become `Marked(old, id, false)`; saves and prints `Uncompleted task <id>` exactly when id addresses a task |
| `Tdr.TaskList.Remove` | src/main.rs:165-171 | the tasks become `Removed(old, id)`; saves and prints `Removed task <id>` exactly when id addresses a task |
| `Tdr.TaskList.Get` | src/main.rs:172-176 | prints the rendering of task id-1 when it exists, nothing otherwise |
| `Tdr.TaskList.List` | src/main.rs:177-181 | one line per task, in order, line i being `<i+1>: <rendering of task i>` |
| `Tdr.TaskList.Clear` | src/main.rs:182-186 | the collection is empty whatever it held; saves; prints `Cleared all tasks` |
| `Tdr.TaskList.Run` | src/main.rs:143-190 | dispatches one command: for each, the new tasks, whether it saves and the exact lines printed; with no command prints `No command specified`, changes nothing and does not save |
| `TdrProperties.MarkedLastWins` | src/main.rs:151-163 | of two flag updates on the same id, the second decides the resulting tasks |
| `TdrProperties.CompleteIdempotent` | src/main.rs:151-156 | completing the same id twice gives the same tasks as completing it once |
| `TdrProperties.CompleteThenUncomplete` | src/main.rs:151-163 | complete then uncomplete leaves the task's flag false, as uncomplete alone would |
| `TdrProperties.OutOfRangeIsNoOp` | src/main.rs:152-173 | for id 0 or id > length, the lookup finds nothing and complete, uncomplete and remove leave the tasks unchanged |
| `TdrProperties.MarkedKeepsPositions` | src/main.rs:130-137 | flag updates keep every stored id equal to its position when it was before |
| `TdrProperties.RemoveShiftsAddresses` | src/main.rs:165-167 | after remove id, the task once at k > id is addressed by k-1, and the task at k < id is still addressed by k |
| `TdrProperties.RemovingLastKeepsPositions` | src/main.rs:167 | removing the last task keeps ids equal to positions |
| `TdrProperties.RemovingEarlierBreaksPositions` | src/main.rs:167 | removing any task but the last leaves a task whose stored id differs from its position |
| `TdrProperties.AppendedKeepsPositions` | src/main.rs:147 | add keeps ids equal to positions |
| `TdrProperties.RemoveThenAddRepeatsId` | src/main.rs:147-167 | remove of a non-last task followed by add yields two tasks with the same stored id |
| `TdrProperties.ToStringInjective` | src/main.rs:110-116 | two tasks render alike exactly when flag and text agree |
| `TdrProperties.ParseLineOfLine` | src/main.rs:179 | every `list` line reads back as its 1-based position, the task's flag and the task's text |
| `TdrProperties.LinesDistinct` | src/main.rs:179 | lines for different positions always differ |
| `Decimal.Show` | src/main.rs:179 | a number prints as at least one ASCII digit, with a leading 0 only for 0 itself |
| `Decimal.ValueOfShow` | src/main.rs:179 | reading back a printed number gives the number |
| `Decimal.ShowInjective` | src/main.rs:179 | distinct numbers print differently |
| `Decimal.DigitRun` | src/main.rs:179 | the longest digit prefix of a line is all digits and is followed by a non-digit |
| `Decimal.DigitRunOfDigitsThen` | src/main.rs:179 | a run of digits followed by any non-digit (such as `:`) is read exactly up to that non-digit |
| `TdrProperties.LineShape` | src/main.rs:179 | a `list` line is the printed position, `: [`, the flag character, `] `, then the text |
| `TdrProperties.ParseLineOfParts` | src/main.rs:179 | any digit run, separator and text parse back into the digits' value, the flag and the text |

## Left out

- Loading and saving (`TaskList::load`, `TaskList::save`, src/main.rs:62-85): file I/O and `serde_json` serialisation. Only the fallback to an empty list on a parse failure is modelled, in `Tdr.TaskList.Load`. Saving is modelled by the `saved` flag. The model assumes `save` succeeds: a failing `File::create(...).unwrap()` (src/main.rs:81) or serialisation `unwrap` (src/main.rs:82-84) panics before the confirmation line is printed, and `out` and `saved` describe only the path where it does not.
- `get_default_path` (src/main.rs:89-95): it reads OS constants and the user name from the environment.
- Argument parsing with `clap` (src/main.rs:6-46): commands are the `Tdr.Command` datatype. The parsed ids are already in `usize` range.
- Printing: each `println!` is returned as one string and written nowhere. A task's text may contain a newline (from `add`, src/main.rs:18-21, or from the JSON file, src/main.rs:73). Such a string then spans several printed lines, and the printed `list` output can be ambiguous: the model's round trip (`TdrProperties.ParseLineOfLine`) is per returned string, not over the newline-joined output.
- Debug-build panics: in a debug build, `id - 1` with id 0 panics instead of wrapping. The model follows the release build, where id 0 does nothing.
- Tdr.TaskList.Add: requires room for one more task (fewer than `isize::MAX` tasks). The capacity-overflow or out-of-memory abort of `Vec::push` is not modelled, so `len + 1` never overflows.
