# To-do list session, modelled in Dafny

This project models `todo_list.py`, a console to-do list program. The program
keeps an ordered list of task strings in memory and runs a command loop over it:

- `add` appends a task, but refuses the empty string;
- `view` prints the tasks as numbered lines;
- `remove` deletes a task by its 1-based position, after checking the answer;
- `exit` ends the loop, but only when the user confirms with `yes`.

The model removes the console I/O. `add` and `remove` become pure functions
from the current list and the user's answer to the new list plus the messages
the program prints, one string per `print` call. `view` never changes the
list, so `ViewTasks` takes only the list and returns only the printed messages. The loop of `main` becomes
a fold of a step function over a sequence of commands.

Modules, one per concept:

- `Wrappers`: the `Option` datatype. A task number that `int()` could not
  parse is `None`.
- `Decimal`: decimal rendering of positions and counts, as f-strings format
  an `int`, with a parser that reads the rendering back.
- `Listing`: the numbered lines `"<i>. <task>"` that `view_tasks` prints,
  with a line parser showing that the listing determines the list.
- `TodoList`: `add_task` and `remove_task` as functions returning an
  `Outcome` (new list plus printed messages), and `view_tasks` as `ViewTasks`,
  which returns only the printed messages.
- `Session`: the command datatype, one loop iteration (`Step`), the loop
  (`Loop`, `Run`, `MainLoop`) and the whole-session lemmas. These include the
  invariant that every stored task is non-empty.

`add_task` tests `if task:` (todo_list.py:12), which refuses only the empty
string, so whitespace-only text such as `" "` is stored;
`TodoList.AddAcceptsBlankText` states this.

## Model

| member | source | states |
|---|---|---|
| `Decimal.NatToString` | todo_list.py:34 | a position is printed as a non-empty string of decimal digits with no leading zero; one digit exactly for numbers below ten |
| `Decimal.ParseNatToString` | todo_list.py:34 | reading a printed position back as digits gives the same number |
| `Decimal.NatToStringInjective` | todo_list.py:34 | different positions are printed differently |
| `Listing.Render` | todo_list.py:33-34 | the listing has one line per task, in list order; line i (from 0) is `"<i+1>. <task i>"`, so numbering starts at 1 |
| `Listing.ParseNumberedLine` | todo_list.py:34 | a listing line splits back into exactly the position and task text it was printed from, even when the task text itself contains ". " |
| `Listing.ParseRenderedLine` | todo_list.py:33-34 | line i of the listing reads back as position i+1 and the task stored at index i |
| `Listing.RenderInjective` | todo_list.py:33-34 | two lists with the same listing are equal, so the listing shows the whole list in order |
| `TodoList.AddTask` | todo_list.py:11-16 | non-empty text is appended: length grows by one, the new last element is the text, earlier elements are unchanged, and the message is `Task '<text>' added.`; the empty string leaves the list unchanged and prints only `Task cannot be empty.`; the non-empty invariant is kept |
| `TodoList.AddAcceptsBlankText` | todo_list.py:12-14 | whitespace-only text such as `" "` is not refused: it is appended and confirmed |
| `TodoList.ViewTasks` | todo_list.py:29-35 | the output is exactly `No tasks found.` if and only if the list is empty; otherwise it is the header, then N numbered lines with line i being `"<i>. <task i>"`, then one blank line |
| `TodoList.DeleteAt` | todo_list.py:56 | `pop(p)` leaves one element fewer: elements before p stay in place, elements after p shift down by one, and the multiset loses exactly the removed task |
| `TodoList.RemoveChosen` | todo_list.py:53-61 | after the listing: an answer that failed to parse, or a number outside [1, N], leaves the list unchanged and prints the matching message, the range message naming N; a number n in range deletes index n-1 and reports that task |
| `TodoList.RemoveTask` | todo_list.py:49-61 | an empty list is left unchanged with `No tasks to remove.`, whatever the answer; otherwise the listing is printed first and then one message; invalid or out-of-range answers change nothing; a valid n drops the length by one, keeps the other tasks in order, removes exactly one copy of task n and reports it; non-empty tasks stay non-empty |
| `TodoList.AddThenRemoveLast` | todo_list.py:55-57 | removing the position of a task just added restores the previous list and reports that task as removed |
| `TodoList.RemoveThenAddBack` | todo_list.py:55-57 | removing task n and adding its text again moves it to the end, with the other tasks in their old order |
| `TodoList.OutOfRangeNamesCount` | todo_list.py:59 | the out-of-range message ends with the current number of tasks, which reads back from it |
| `Session.Step` | todo_list.py:83-103 | one loop iteration exits if and only if the command is `exit` confirmed with exactly `yes`; view, exit and unknown commands leave the list unchanged; `add` and `remove` print exactly their operation's messages, `view` the listing, a cancelled exit `Exit canceled.`, a confirmed one the farewell, and an unknown command the invalid-command message; the length changes by at most one; the non-empty invariant is kept |
| `Session.Loop` | todo_list.py:79-103 | the loop reads at most all commands, and reads all of them unless a step exits |
| `Session.StepObligations` | todo_list.py:83-103 | for every list and command, the step exits exactly on a confirmed exit and keeps the non-empty invariant |
| `Session.LoopExitsAtFirstConfirmation` | todo_list.py:92-99 | with a step that exits exactly on confirmation, the loop stops at the first confirmed exit and at no earlier command |
| `Session.Run` | todo_list.py:79-103 | the loop ends exactly after the first `exit`/`yes`: the last command read confirms the exit, no earlier command does, and without a confirmed exit every command is read |
| `Session.MainLoop` | todo_list.py:77-103 | a session from the empty list ends if and only if some command is a confirmed exit; otherwise it is still waiting for input |
| `Session.LoopPreservesNonEmpty` | todo_list.py:12-13 | a loop whose step keeps tasks non-empty keeps them non-empty over any sequence of commands |
| `Session.RunPreservesNonEmpty` | todo_list.py:12-13 | starting from a list of non-empty tasks, any command sequence leaves only non-empty tasks |
| `Session.SessionTasksNonEmpty` | todo_list.py:77 | a session starting from the empty list only ever holds non-empty tasks |
| `Session.LoopSplit` | todo_list.py:79-103 | running two blocks of commands, the first without an exit, is the same as running the second from the list the first left, with the outputs concatenated |
| `Session.RunSplit` | todo_list.py:79-103 | the same for the session loop, when the first block contains no confirmed exit |
| `Session.LoopIgnoresLaterCommands` | todo_list.py:95-97 | once the loop has exited, appending more commands changes nothing |
| `Session.RunIgnoresCommandsAfterExit` | todo_list.py:95-97 | commands after a confirmed exit are never read and have no effect |
| `Session.RunAddsInOrder` | todo_list.py:83-84 | a run of `add` commands with non-empty texts appends the texts in insertion order and does not exit |
| `Session.ExampleListings` | todo_list.py:32-35 | the listings for `["Buy milk", "Pay bills"]` and `["Pay bills"]`, line by line |
| `Session.ExampleAdding` | todo_list.py:12-14 | adding "Buy milk" then "Pay bills" to the empty list stores both in order and confirms each |
| `Session.ExampleRemoveFirst` | todo_list.py:52-57 | removing task 1 of two shows the listing, keeps "Pay bills" and reports "Buy milk" removed |
| `Session.ExampleRemoving` | todo_list.py:86-90 | `view` then `remove 1` on the two tasks prints the listing twice and the removal message |
| `Session.ExampleExiting` | todo_list.py:92-99 | `view`, `exit`/`no`, `exit`/`yes` keeps the list, prints `Exit canceled.` then the farewell, and reads no further command |
| `Session.ExampleSession` | todo_list.py:77-103 | the full walk-through: seven commands are read, the session ends with `["Pay bills"]`, and the printed messages appear in the order listed |

## Left out

- Console I/O: the prompts passed to `input()` are not modelled as output.
  The command word read at todo_list.py:81 selects the `Command` constructor
  (`Add`, `View`, `Remove`, `Exit` or `Unknown`). The answers to the
  follow-up prompts are fields of that constructor: the task text
  (todo_list.py:11), the parsed task number (todo_list.py:54) and the exit
  confirmation (todo_list.py:94).
- The `__main__` guard and the process exit status (todo_list.py:105-106). A
  confirmed exit is the `exited` flag of the loop result.
- Python's `int()` parsing rules at todo_list.py:54: signs, surrounding whitespace,
  underscores, and the `ValueError` it raises. The parsed answer is an `Option<int>`, with `None` for
  `ValueError`. Python integers are unbounded, and so are Dafny's `int`.
- The `.strip().lower()` normalisation of the command and of the exit
  confirmation (todo_list.py:81, 94). A `Command` is already normalised; any
  command word other than the four known ones is `Unknown`.
- End of input. At todo_list.py:81 `input()` either blocks or raises
  `EOFError` when input runs out, so the program never finishes a command
  sequence without a confirmed exit. A loop result with `exited == false`
  stands for a session still waiting for its next command.
- `remove` on an empty list reads no number in the program. The `Remove`
  command still carries one, and the model ignores it.
