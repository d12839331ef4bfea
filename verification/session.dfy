/**
  The command loop of `main`: one `Step` per command read at the prompt, and
  `Run`, the fold of `Step` over a sequence of commands that stops at the
  first confirmed exit.
 */
module Session {
  import opened Wrappers
  import opened Decimal
  import opened Listing
  import opened TodoList

  /**
    A command as read at the prompt, after case and whitespace normalisation,
    together with the answer to the follow-up prompt it asks:
    the task text for `add`, the parsed task number for `remove` (`None`
    when `int()` fails), and the normalised confirmation for `exit`.
    `Unknown` is any other command word.
   */
  datatype Command =
    | Add(text: string)
    | View
    | Remove(number: Option<int>)
    | Exit(confirmation: string)
    | Unknown

  const GoodbyeMessage := "Exiting the program. Goodbye!"
  const ExitCanceledMessage := "Exit canceled."
  const InvalidCommandMessage := "Invalid command. Please enter 'add', 'view', 'remove', or 'exit'."

  /** Whether `cmd` ends the session: `exit` answered with exactly "yes". */
  predicate ConfirmsExit(cmd: Command) {
    cmd.Exit? && cmd.confirmation == "yes"
  }

  /** The state after one command: the list, what was printed, and whether the loop ended. */
  datatype StepResult = StepResult(tasks: seq<string>, output: seq<string>, exited: bool)

  /** One iteration of the loop in `main`. */
  function Step(tasks: seq<string>, cmd: Command): (s: StepResult)
    ensures s.exited <==> ConfirmsExit(cmd)
    ensures !(cmd.Add? || cmd.Remove?) ==> s.tasks == tasks
    ensures cmd.Add? ==> s.tasks == AddTask(tasks, cmd.text).tasks
    ensures cmd.Add? ==> s.output == AddTask(tasks, cmd.text).output
    ensures cmd.Remove? ==> s.tasks == RemoveTask(tasks, cmd.number).tasks
    ensures cmd.Remove? ==> s.output == RemoveTask(tasks, cmd.number).output
    ensures cmd.View? ==> s.output == ViewTasks(tasks)
    ensures cmd.Exit? ==>
      s.output == (if cmd.confirmation == "yes" then [GoodbyeMessage] else [ExitCanceledMessage])
    ensures cmd.Unknown? ==> s.output == [InvalidCommandMessage]
    ensures |tasks| - 1 <= |s.tasks| <= |tasks| + 1
    ensures AllNonEmpty(tasks) ==> AllNonEmpty(s.tasks)
  {
    match cmd
    case Add(text) =>
      var o := AddTask(tasks, text);
      StepResult(o.tasks, o.output, false)
    case View =>
      StepResult(tasks, ViewTasks(tasks), false)
    case Remove(number) =>
      var o := RemoveTask(tasks, number);
      StepResult(o.tasks, o.output, false)
    case Exit(confirmation) =>
      if confirmation == "yes" then StepResult(tasks, [GoodbyeMessage], true)
      else StepResult(tasks, [ExitCanceledMessage], false)
    case Unknown =>
      StepResult(tasks, [InvalidCommandMessage], false)
  }

  /**
    The state of a session after reading commands: the list, everything
    printed, whether a confirmed exit ended it, and how many commands it read.
   */
  datatype RunResult = RunResult(tasks: seq<string>, output: seq<string>, exited: bool, consumed: nat)

  /**
    The loop of `main`, for any step function: it runs `step` on each
    command in turn and stops right after the first step that exits;
    commands after that one are never read.
   */
  function Loop(step: (seq<string>, Command) -> StepResult, tasks: seq<string>, cmds: seq<Command>)
    : (r: RunResult)
    ensures r.consumed <= |cmds|
    ensures r.exited ==> 0 < r.consumed
    ensures !r.exited ==> r.consumed == |cmds|
    decreases |cmds|
  {
    if |cmds| == 0 then RunResult(tasks, [], false, 0)
    else
      var s := step(tasks, cmds[0]);
      if s.exited then RunResult(s.tasks, s.output, true, 1)
      else
        var rest := Loop(step, s.tasks, cmds[1..]);
        RunResult(rest.tasks, s.output + rest.output, rest.exited, rest.consumed + 1)
  }

  /** One turn of the loop: the first command, then the rest unless it exited. */
  lemma LoopCons(step: (seq<string>, Command) -> StepResult, tasks: seq<string>, c: Command, rest: seq<Command>)
    ensures var s := step(tasks, c);
      var r := Loop(step, tasks, [c] + rest);
      if s.exited then r == RunResult(s.tasks, s.output, true, 1)
      else
        var more := Loop(step, s.tasks, rest);
        r == RunResult(more.tasks, s.output + more.output, more.exited, more.consumed + 1)
  {
  }

  /** `step` ends the loop exactly on a confirmed exit, whatever the list. */
  ghost predicate ExitsOnConfirmation(step: (seq<string>, Command) -> StepResult) {
    forall tasks, cmd :: step(tasks, cmd).exited <==> ConfirmsExit(cmd)
  }

  /** `step` never stores an empty task in a list that had none. */
  ghost predicate KeepsNonEmpty(step: (seq<string>, Command) -> StepResult) {
    forall tasks, cmd :: AllNonEmpty(tasks) ==> AllNonEmpty(step(tasks, cmd).tasks)
  }

  /** The step of `main` has both properties the loop lemmas rely on. */
  lemma StepObligations()
    ensures ExitsOnConfirmation(Step)
    ensures KeepsNonEmpty(Step)
  {
  }

  /**
    The loop of `main` over `cmds`, starting from `tasks`: it ends exactly at
    the first confirmed exit, and without one it reads every command.
   */
  function Run(tasks: seq<string>, cmds: seq<Command>): (r: RunResult)
    ensures r.consumed <= |cmds|
    ensures r.exited ==> 0 < r.consumed && ConfirmsExit(cmds[r.consumed - 1])
    ensures forall j :: 0 <= j < r.consumed - 1 ==> !ConfirmsExit(cmds[j])
    ensures !r.exited ==> r.consumed == |cmds| && forall j :: 0 <= j < |cmds| ==> !ConfirmsExit(cmds[j])
  {
    StepObligations();
    LoopExitsAtFirstConfirmation(Step, tasks, cmds);
    Loop(Step, tasks, cmds)
  }

  /** A loop whose step exits exactly on confirmation stops at the first confirmed exit. */
  lemma {:induction false} LoopExitsAtFirstConfirmation(
    step: (seq<string>, Command) -> StepResult, tasks: seq<string>, cmds: seq<Command>)
    requires ExitsOnConfirmation(step)
    ensures var r := Loop(step, tasks, cmds);
      && (r.exited ==> ConfirmsExit(cmds[r.consumed - 1]))
      && (forall j :: 0 <= j < r.consumed - 1 ==> !ConfirmsExit(cmds[j]))
      && (!r.exited ==> forall j :: 0 <= j < |cmds| ==> !ConfirmsExit(cmds[j]))
    decreases |cmds|
  {
    if |cmds| > 0 {
      var s := step(tasks, cmds[0]);
      if !s.exited {
        LoopExitsAtFirstConfirmation(step, s.tasks, cmds[1..]);
        assert forall j :: 1 <= j < |cmds| ==> cmds[j] == cmds[1..][j - 1];
      }
    }
  }

  /**
    A whole program run: `main` starts from the empty list. A result that
    has not exited is a session still waiting for its next command.
   */
  function MainLoop(cmds: seq<Command>): (r: RunResult)
    ensures r.exited <==> exists j :: 0 <= j < |cmds| && ConfirmsExit(cmds[j])
  {
    Run([], cmds)
  }

  /** A loop whose step keeps tasks non-empty keeps them so over any commands. */
  lemma {:induction false} LoopPreservesNonEmpty(
    step: (seq<string>, Command) -> StepResult, tasks: seq<string>, cmds: seq<Command>)
    requires KeepsNonEmpty(step)
    requires AllNonEmpty(tasks)
    ensures AllNonEmpty(Loop(step, tasks, cmds).tasks)
    decreases |cmds|
  {
    if |cmds| > 0 {
      var s := step(tasks, cmds[0]);
      if !s.exited {
        LoopPreservesNonEmpty(step, s.tasks, cmds[1..]);
      }
    }
  }

  /** The session loop keeps every stored task non-empty, whatever the commands. */
  lemma RunPreservesNonEmpty(tasks: seq<string>, cmds: seq<Command>)
    requires AllNonEmpty(tasks)
    ensures AllNonEmpty(Run(tasks, cmds).tasks)
  {
    StepObligations();
    LoopPreservesNonEmpty(Step, tasks, cmds);
  }

  /** Every list a session builds from the start holds non-empty tasks only. */
  lemma SessionTasksNonEmpty(cmds: seq<Command>)
    ensures AllNonEmpty(MainLoop(cmds).tasks)
  {
    RunPreservesNonEmpty([], cmds);
  }

  /**
    Commands that do not exit can be run in two halves: the second half
    starts from the list the first half left, and the output is concatenated.
   */
  lemma {:induction false} LoopSplit(
    step: (seq<string>, Command) -> StepResult, tasks: seq<string>, first: seq<Command>, second: seq<Command>)
    requires !Loop(step, tasks, first).exited
    ensures var a := Loop(step, tasks, first);
      var b := Loop(step, a.tasks, second);
      var ab := Loop(step, tasks, first + second);
      && ab.tasks == b.tasks
      && ab.output == a.output + b.output
      && ab.exited == b.exited
      && ab.consumed == |first| + b.consumed
    decreases |first|
  {
    if |first| == 0 {
      assert first + second == second;
    } else {
      var s := step(tasks, first[0]);
      var both := first + second;
      assert both[0] == first[0];
      assert both[1..] == first[1..] + second;
      LoopSplit(step, s.tasks, first[1..], second);
      var a := Loop(step, s.tasks, first[1..]);
      var b := Loop(step, a.tasks, second);
      assert s.output + (a.output + b.output) == (s.output + a.output) + b.output;
    }
  }

  /** The session loop can be run in two halves when the first does not exit. */
  lemma RunSplit(tasks: seq<string>, first: seq<Command>, second: seq<Command>)
    requires forall j :: 0 <= j < |first| ==> !ConfirmsExit(first[j])
    ensures var a := Run(tasks, first);
      var b := Run(a.tasks, second);
      var ab := Run(tasks, first + second);
      && ab.tasks == b.tasks
      && ab.output == a.output + b.output
      && ab.exited == b.exited
      && ab.consumed == |first| + b.consumed
  {
    var a := Run(tasks, first);
    assert !a.exited;
    LoopSplit(Step, tasks, first, second);
  }

  /** Once the loop has exited, the commands after that point have no effect at all. */
  lemma {:induction false} LoopIgnoresLaterCommands(
    step: (seq<string>, Command) -> StepResult, tasks: seq<string>, cmds: seq<Command>, later: seq<Command>)
    requires Loop(step, tasks, cmds).exited
    ensures Loop(step, tasks, cmds + later) == Loop(step, tasks, cmds)
    decreases |cmds|
  {
    var s := step(tasks, cmds[0]);
    var all := cmds + later;
    assert all[0] == cmds[0];
    if !s.exited {
      assert all[1..] == cmds[1..] + later;
      LoopIgnoresLaterCommands(step, s.tasks, cmds[1..], later);
    }
  }

  /** Commands after a confirmed exit are never read. */
  lemma RunIgnoresCommandsAfterExit(tasks: seq<string>, cmds: seq<Command>, later: seq<Command>)
    requires Run(tasks, cmds).exited
    ensures Run(tasks, cmds + later) == Run(tasks, cmds)
  {
    LoopIgnoresLaterCommands(Step, tasks, cmds, later);
  }

  /** One `add` command per text, in order. */
  function AddAll(texts: seq<string>): seq<Command> {
    seq(|texts|, i requires 0 <= i < |texts| => Add(texts[i]))
  }

  /** Adding non-empty texts one after another appends them in the order given. */
  lemma {:induction false} RunAddsInOrder(tasks: seq<string>, texts: seq<string>)
    requires forall i :: 0 <= i < |texts| ==> texts[i] != ""
    ensures Run(tasks, AddAll(texts)).tasks == tasks + texts
    ensures !Run(tasks, AddAll(texts)).exited
    decreases |texts|
  {
    if |texts| > 0 {
      var cmds := AddAll(texts);
      assert cmds[0] == Add(texts[0]);
      assert cmds[1..] == AddAll(texts[1..]);
      RunAddsInOrder(tasks + [texts[0]], texts[1..]);
      assert tasks + [texts[0]] + texts[1..] == tasks + texts;
    }
  }

  /** The listings shown during the walk-through below. */
  lemma ExampleListings()
    ensures ViewTasks(["Buy milk", "Pay bills"]) == ["\nCurrent tasks:", "1. Buy milk", "2. Pay bills", ""]
    ensures ViewTasks(["Pay bills"]) == ["\nCurrent tasks:", "1. Pay bills", ""]
  {
    assert NatToString(1) == "1" && NatToString(2) == "2";
    assert NumberedLine(1, "Buy milk") == "1. Buy milk";
    assert NumberedLine(2, "Pay bills") == "2. Pay bills";
    assert NumberedLine(1, "Pay bills") == "1. Pay bills";
  }

  /** The walk-through starts by adding two tasks to the empty list. */
  lemma ExampleAdding()
    ensures Loop(Step, [], [Add("Buy milk"), Add("Pay bills")])
      == RunResult(["Buy milk", "Pay bills"], [AddedMessage("Buy milk"), AddedMessage("Pay bills")], false, 2)
  {
  }

  /** Removing task 1 of two lists both, then drops the first. */
  // `two` is a parameter fixed by the requires rather than a literal so that
  // the verifier does not evaluate the whole listing eagerly.
  lemma ExampleRemoveFirst(two: seq<string>)
    requires two == ["Buy milk", "Pay bills"]
    ensures Step(two, Remove(Some(1))) == StepResult(["Pay bills"], ViewTasks(two) + [RemovedMessage("Buy milk")], false)
  {
  }

  /** It then lists both tasks and removes the first one, which is listed again first. */
  // `two` is a parameter for the same reason as in `ExampleRemoveFirst`.
  lemma ExampleRemoving(two: seq<string>)
    requires two == ["Buy milk", "Pay bills"]
    ensures Loop(Step, two, [View, Remove(Some(1))])
      == RunResult(["Pay bills"], ViewTasks(two) + (ViewTasks(two) + [RemovedMessage("Buy milk")]), false, 2)
  {
    ExampleRemoveFirst(two);
    LoopCons(Step, two, Remove(Some(1)), []);
    assert [Remove(Some(1))] + [] == [Remove(Some(1))];
    LoopCons(Step, two, View, [Remove(Some(1))]);
    assert [View] + [Remove(Some(1))] == [View, Remove(Some(1))];
  }

  /** Finally a listing, a cancelled exit, a confirmed exit, and a command that is never read. */
  lemma ExampleExiting()
    ensures Loop(Step, ["Pay bills"], [View, Exit("no"), Exit("yes"), View])
      == RunResult(["Pay bills"], ViewTasks(["Pay bills"]) + [ExitCanceledMessage, GoodbyeMessage], true, 3)
  {
  }

  /**
    The walk-through of the program's behaviour: add two tasks, view them,
    remove the first, view again, cancel an exit, then confirm it; the
    command after the confirmed exit is never read. `ExampleListings` spells
    out the listings.
   */
  // `cmds` is a parameter fixed by the requires rather than a literal so that
  // the verifier does not unfold the whole loop over a literal eagerly.
  lemma ExampleSession(cmds: seq<Command>)
    requires cmds == [Add("Buy milk"), Add("Pay bills"), View, Remove(Some(1)),
                      View, Exit("no"), Exit("yes"), View]
    ensures var two := ["Buy milk", "Pay bills"];
      var r := MainLoop(cmds);
      && r.exited && r.consumed == 7
      && r.tasks == ["Pay bills"]
      && r.output ==
           [AddedMessage("Buy milk"), AddedMessage("Pay bills")]
           + (ViewTasks(two) + (ViewTasks(two) + [RemovedMessage("Buy milk")]))
           + (ViewTasks(["Pay bills"]) + [ExitCanceledMessage, GoodbyeMessage])
  {
    var two := ["Buy milk", "Pay bills"];
    var adding := [Add("Buy milk"), Add("Pay bills")];
    var removing := [View, Remove(Some(1))];
    var exiting := [View, Exit("no"), Exit("yes"), View];
    assert adding + removing + exiting == cmds;
    ExampleAdding();
    var a := Loop(Step, [], adding);
    assert a.tasks == two && !a.exited;
    ExampleRemoving(two);
    LoopSplit(Step, [], adding, removing);
    var ab := Loop(Step, [], adding + removing);
    assert ab.tasks == ["Pay bills"] && !ab.exited && ab.consumed == 4;
    assert ab.output == [AddedMessage("Buy milk"), AddedMessage("Pay bills")]
                        + (ViewTasks(two) + (ViewTasks(two) + [RemovedMessage("Buy milk")]));
    ExampleExiting();
    LoopSplit(Step, [], adding + removing, exiting);
    var all := Loop(Step, [], cmds);
    assert all.output == ab.output + (ViewTasks(["Pay bills"]) + [ExitCanceledMessage, GoodbyeMessage]);
    assert MainLoop(cmds) == all;
  }
}
