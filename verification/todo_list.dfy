/**
  The three operations of the to-do list, stripped of console I/O: each takes
  the current list and the user's answer to its prompt, and returns the new
  list together with the messages the program prints, one string per `print`.
 */
module TodoList {
  import opened Wrappers
  import opened Decimal
  import opened Listing

  /** The list after an operation, and the messages it printed, in order. */
  datatype Outcome = Outcome(tasks: seq<string>, output: seq<string>)

  const EmptyTaskMessage := "Task cannot be empty."
  const NoTasksFoundMessage := "No tasks found."
  const ListingHeader := "\nCurrent tasks:"
  const NoTasksToRemoveMessage := "No tasks to remove."
  const InvalidInputMessage := "Invalid input. Please enter a valid task number."

  function AddedMessage(task: string): string {
    "Task '" + task + "' added."
  }

  function RemovedMessage(task: string): string {
    "Task '" + task + "' removed."
  }

  function OutOfRangeMessage(count: nat): string {
    "Invalid task number. Please enter a number between 1 and " + NatToString(count) + "."
  }

  /** Every stored task is a non-empty string. */
  predicate AllNonEmpty(tasks: seq<string>) {
    forall i :: 0 <= i < |tasks| ==> tasks[i] != ""
  }

  /**
    `add_task`: the text is appended at the end unless it is the empty
    string. Only "" is refused; text made of spaces is stored as given.
   */
  function AddTask(tasks: seq<string>, text: string): (r: Outcome)
    ensures text != "" ==>
      && |r.tasks| == |tasks| + 1
      && r.tasks[|tasks|] == text
      && (forall i :: 0 <= i < |tasks| ==> r.tasks[i] == tasks[i])
      && r.output == [AddedMessage(text)]
    ensures text == "" ==> r.tasks == tasks && r.output == [EmptyTaskMessage]
    ensures AllNonEmpty(tasks) ==> AllNonEmpty(r.tasks)
  {
    if text != "" then Outcome(tasks + [text], [AddedMessage(text)])
    else Outcome(tasks, [EmptyTaskMessage])
  }

  /**
    `view_tasks`: an empty list prints one notice and no numbered line;
    otherwise the numbered listing, framed by a header and a blank line.
   */
  function ViewTasks(tasks: seq<string>): (out: seq<string>)
    ensures tasks == [] <==> out == [NoTasksFoundMessage]
    ensures tasks != [] ==>
      && |out| == |tasks| + 2
      && out[0] == ListingHeader
      && out[|out| - 1] == ""
      && (forall i :: 1 <= i <= |tasks| ==> out[i] == NumberedLine(i, tasks[i - 1]))
  {
    if tasks == [] then [NoTasksFoundMessage]
    else [ListingHeader] + Render(tasks) + [""]
  }

  /** The list without its element at index `p` (0-based), as `list.pop(p)` leaves it. */
  function DeleteAt(tasks: seq<string>, p: nat): (r: seq<string>)
    requires p < |tasks|
    ensures |r| == |tasks| - 1
    ensures forall i :: 0 <= i < p ==> r[i] == tasks[i]
    ensures forall i :: p <= i < |r| ==> r[i] == tasks[i + 1]
    ensures multiset(r) + multiset{tasks[p]} == multiset(tasks)
  {
    assert tasks == tasks[..p] + [tasks[p]] + tasks[p + 1..];
    tasks[..p] + tasks[p + 1..]
  }

  /**
    What `remove_task` does with the user's answer once the listing has been
    shown: the list it leaves and the one message it prints.
   */
  function RemoveChosen(tasks: seq<string>, number: Option<int>): (r: Outcome)
    requires tasks != []
    ensures |r.output| == 1
    ensures number.None? ==> r.tasks == tasks && r.output[0] == InvalidInputMessage
    ensures number.Some? && !(1 <= number.value <= |tasks|) ==>
      r.tasks == tasks && r.output[0] == OutOfRangeMessage(|tasks|)
    ensures number.Some? && 1 <= number.value <= |tasks| ==>
      r.tasks == DeleteAt(tasks, number.value - 1) && r.output[0] == RemovedMessage(tasks[number.value - 1])
  {
    match number
    case None => Outcome(tasks, [InvalidInputMessage])
    case Some(n) =>
      if 1 <= n <= |tasks| then Outcome(DeleteAt(tasks, n - 1), [RemovedMessage(tasks[n - 1])])
      else Outcome(tasks, [OutOfRangeMessage(|tasks|)])
  }

  /**
    `remove_task`: `number` is the user's answer after `int()`, `None` when
    `int()` raised `ValueError`. An empty list is reported without looking
    at the answer; otherwise the listing is shown first, and only a number
    in [1, |tasks|] removes anything.
   */
  function RemoveTask(tasks: seq<string>, number: Option<int>): (r: Outcome)
    ensures tasks == [] ==> r.tasks == tasks && r.output == [NoTasksToRemoveMessage]
    ensures tasks != [] ==>
      && |r.output| == |ViewTasks(tasks)| + 1
      && r.output[..|r.output| - 1] == ViewTasks(tasks)
    ensures tasks != [] && number.None? ==>
      r.tasks == tasks && r.output[|r.output| - 1] == InvalidInputMessage
    ensures tasks != [] && number.Some? && !(1 <= number.value <= |tasks|) ==>
      r.tasks == tasks && r.output[|r.output| - 1] == OutOfRangeMessage(|tasks|)
    ensures tasks != [] && number.Some? && 1 <= number.value <= |tasks| ==>
      var p := number.value - 1;
      && |r.tasks| == |tasks| - 1
      && (forall i :: 0 <= i < p ==> r.tasks[i] == tasks[i])
      && (forall i :: p <= i < |r.tasks| ==> r.tasks[i] == tasks[i + 1])
      && multiset(r.tasks) + multiset{tasks[p]} == multiset(tasks)
      && r.output[|r.output| - 1] == RemovedMessage(tasks[p])
    ensures AllNonEmpty(tasks) ==> AllNonEmpty(r.tasks)
  {
    if tasks == [] then Outcome(tasks, [NoTasksToRemoveMessage])
    else
      var chosen := RemoveChosen(tasks, number);
      var shown := ViewTasks(tasks);
      assert (shown + chosen.output)[..|shown|] == shown;
      Outcome(chosen.tasks, shown + chosen.output)
  }

  /** Removing the task just added, by its position, restores the list. */
  lemma AddThenRemoveLast(tasks: seq<string>, text: string)
    requires text != ""
    ensures RemoveTask(AddTask(tasks, text).tasks, Some(|tasks| + 1)).tasks == tasks
    ensures RemoveTask(AddTask(tasks, text).tasks, Some(|tasks| + 1)).output[|tasks| + 3]
      == RemovedMessage(text)
  {
  }

  /** Removing task `n` and adding it back leaves it at the end, others shifted up. */
  lemma RemoveThenAddBack(tasks: seq<string>, n: int)
    requires 1 <= n <= |tasks|
    requires tasks[n - 1] != ""
    ensures AddTask(RemoveTask(tasks, Some(n)).tasks, tasks[n - 1]).tasks
      == tasks[..n - 1] + tasks[n..] + [tasks[n - 1]]
  {
  }

  /** Whitespace-only text is not refused: it is stored like any other text. */
  lemma AddAcceptsBlankText(tasks: seq<string>)
    ensures AddTask(tasks, " ").tasks == tasks + [" "]
    ensures AddTask(tasks, " ").output == [AddedMessage(" ")]
  {
  }

  /** The out-of-range message states the current number of tasks. */
  lemma OutOfRangeNamesCount(count: nat)
    ensures var m := OutOfRangeMessage(count);
      var prefix := "Invalid task number. Please enter a number between 1 and ";
      && |m| > |prefix| + 1
      && ParseNat(m[|prefix|..|m| - 1]) == Some(count)
  {
    var prefix := "Invalid task number. Please enter a number between 1 and ";
    var m := OutOfRangeMessage(count);
    assert m[|prefix|..|m| - 1] == NatToString(count);
    ParseNatToString(count);
  }
}
