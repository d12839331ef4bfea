/**
  The numbered listing that `view_tasks` prints: one line `"<i>. <task>"`
  per task, positions counted from 1 in list order. `ParseLine` reads a line
  back into its position and task text, which shows that the listing states
  every task and its position unambiguously.
 */
module Listing {
  import opened Wrappers
  import opened Decimal

  /** The line printed for the task at 1-based position `i`. */
  function NumberedLine(i: nat, task: string): string {
    NatToString(i) + ". " + task
  }

  /** The numbered lines for `tasks`, in list order, numbered from 1. */
  function Render(tasks: seq<string>): (lines: seq<string>)
    ensures |lines| == |tasks|
    ensures forall i :: 0 <= i < |tasks| ==> lines[i] == NumberedLine(i + 1, tasks[i])
    decreases |tasks|
  {
    if |tasks| == 0 then []
    else Render(tasks[..|tasks| - 1]) + [NumberedLine(|tasks|, tasks[|tasks| - 1])]
  }

  /** Index of the first '.' in `s`, or `|s|` when there is none. */
  function FirstDot(s: string): (k: nat)
    ensures k <= |s|
    ensures forall j :: 0 <= j < k ==> s[j] != '.'
    ensures k < |s| ==> s[k] == '.'
    decreases |s|
  {
    if |s| == 0 then 0
    else if s[0] == '.' then 0
    else 1 + FirstDot(s[1..])
  }

  /**
    Splits a listing line into its position and task text: the position is
    the digits before the first '.', which must be followed by one space.
   */
  function ParseLine(line: string): Option<(nat, string)> {
    var k := FirstDot(line);
    if k + 2 <= |line| && line[k + 1] == ' ' then
      match ParseNat(line[..k])
      case Some(i) => Some((i, line[k + 2..]))
      case None => None
    else None
  }

  /** Every listing line reads back as the position and task it was made from. */
  lemma ParseNumberedLine(i: nat, task: string)
    ensures ParseLine(NumberedLine(i, task)) == Some((i, task))
  {
    var digits := NatToString(i);
    var line := NumberedLine(i, task);
    assert line[|digits|] == '.';
    var k := FirstDot(line);
    assert k == |digits|;
    assert line[..k] == digits;
    assert line[k + 2..] == task;
    ParseNatToString(i);
  }

  /** Line `i` of the listing names position `i + 1` and the task stored there. */
  lemma ParseRenderedLine(tasks: seq<string>, i: nat)
    requires i < |tasks|
    ensures ParseLine(Render(tasks)[i]) == Some((i + 1, tasks[i]))
  {
    ParseNumberedLine(i + 1, tasks[i]);
  }

  /** Two task lists with the same listing are the same list. */
  lemma RenderInjective(a: seq<string>, b: seq<string>)
    requires Render(a) == Render(b)
    ensures a == b
  {
    forall i | 0 <= i < |a|
      ensures a[i] == b[i]
    {
      ParseRenderedLine(a, i);
      ParseRenderedLine(b, i);
    }
  }
}
