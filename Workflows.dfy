/** The perceive-act loop (`perform_computer_task` in `workflows.py`): at
    most 25 turns, each showing the planner a fresh screenshot and, unless it
    declares the goal complete, handing its next step to the executor. The
    screenshots and the planner's replies are oracles indexed by turn. */
module Workflows {
  import opened Errors
  import opened Text
  import opened Vnc

  /** The number of turns before the task is given up. */
  const Turns: nat := 25

  /** `response.output.strip().lower().replace(".", "")`. */
  function NormaliseStep(reply: string): (s: string)
    ensures |s| <= |reply|
  {
    RemoveChar(Lower(Strip(reply)), '.')
  }

  /** Normalisation removes every dot, not only a trailing one, and keeps
      every other character of the lower-cased, stripped reply. */
  lemma NormaliseStepDots(reply: string, c: char)
    requires c != '.'
    ensures '.' !in NormaliseStep(reply)
    ensures c in NormaliseStep(reply) <==> c in Lower(Strip(reply))
  {
    RemoveCharKeeps(Lower(Strip(reply)), '.', c);
  }

  /** The planner's completion sentinel, bare or quoted. */
  predicate IsCompletion(step: string)
  {
    step == "complete" || step == "\"complete\""
  }

  /** The planner's reply declares the goal complete. */
  predicate Completes(reply: string)
  {
    IsCompletion(NormaliseStep(reply))
  }

  /** The first turn in [from, Turns) on which `done` holds. */
  function FirstTurn(done: nat -> bool, from: nat): (k: Option<nat>)
    ensures k.Some? ==> from <= k.value < Turns && done(k.value)
    ensures k.Some? ==> forall j :: from <= j < k.value ==> !done(j)
    ensures k.None? ==> forall j :: from <= j < Turns ==> !done(j)
    decreases Turns - from
  {
    if from >= Turns then None
    else if done(from) then Some(from)
    else FirstTurn(done, from + 1)
  }

  /** The first turn whose reply declares the goal complete. */
  function FirstCompletion(planner: nat -> string): Option<nat>
  {
    FirstTurn((j: nat) => Completes(planner(j)), 0)
  }

  function Achieved(goal: string): string
  {
    "Goal '" + goal + "' achieved."
  }

  function GaveUp(goal: string): Error
  {
    Exception("Goal '" + goal + "' could not be completed after 25 turns.")
  }

  /** The planner's calls over the first k turns: each is shown that turn's
      screenshot with the goal as prompt. */
  function Planned(goal: string, shots: nat -> string, k: nat): (p: seq<(string, string)>)
    ensures |p| == k
  {
    if k == 0 then [] else Planned(goal, shots, k - 1) + [(shots(k - 1), goal)]
  }

  /** The executor's calls over the first k turns: each is shown that turn's
      screenshot with the normalised step as prompt. */
  function Executed(shots: nat -> string, planner: nat -> string, k: nat): (e: seq<(string, string)>)
    ensures |e| == k
  {
    if k == 0 then [] else Executed(shots, planner, k - 1) + [(shots(k - 1), NormaliseStep(planner(k - 1)))]
  }

  /** `perform_computer_task(goal, vnc_host_port, ...)` on a session `m`.
      `shots(i)` is the screenshot taken on turn i and `planner(i)` the
      planner's reply to it; `planned` lists the planner's (screenshot,
      prompt) calls and `executed` the executor's, in order. */
  method PerformComputerTask(m: VNCManager, goal: string, hostPort: string, shots: nat -> string, planner: nat -> string)
    returns (res: Result<string>, planned: seq<(string, string)>, executed: seq<(string, string)>)
    ensures !m.isConnected ==>
      res == Ok("Failed to connect to VNC server at " + hostPort + ".") && planned == [] && executed == []
    ensures m.isConnected && FirstCompletion(planner).Some? ==>
      && res == Ok(Achieved(goal))
      && planned == Planned(goal, shots, FirstCompletion(planner).value + 1)
      && executed == Executed(shots, planner, FirstCompletion(planner).value)
    ensures m.isConnected && FirstCompletion(planner).None? ==>
      && res == Err(GaveUp(goal))
      && planned == Planned(goal, shots, Turns)
      && executed == Executed(shots, planner, Turns)
    ensures |executed| <= |planned| <= Turns
  {
    planned, executed := [], [];
    ghost var done := (j: nat) => Completes(planner(j));
    if !m.isConnected {
      return Ok("Failed to connect to VNC server at " + hostPort + "."), planned, executed;
    }
    for i := 0 to Turns
      invariant planned == Planned(goal, shots, i)
      invariant executed == Executed(shots, planner, i)
      invariant FirstCompletion(planner) == FirstTurn(done, i)
    {
      var screenshot := shots(i);
      planned := planned + [(screenshot, goal)];
      var nextStep := NormaliseStep(planner(i));
      assert done(i) == Completes(planner(i));
      if nextStep == "complete" || nextStep == "\"complete\"" {
        return Ok(Achieved(goal)), planned, executed;
      }
      executed := executed + [(screenshot, nextStep)];
    }
    res := Err(GaveUp(goal));
  }

  /** Turn i's planner call shows turn i's screenshot and the goal. */
  lemma {:induction false} PlannedAt(goal: string, shots: nat -> string, k: nat, i: nat)
    requires i < k
    ensures Planned(goal, shots, k)[i] == (shots(i), goal)
  {
    if i < k - 1 {
      PlannedAt(goal, shots, k - 1, i);
    }
  }

  /** Turn i's executor call shows turn i's screenshot and the planner's
      normalised reply. */
  lemma {:induction false} ExecutedAt(shots: nat -> string, planner: nat -> string, k: nat, i: nat)
    requires i < k
    ensures Executed(shots, planner, k)[i] == (shots(i), NormaliseStep(planner(i)))
  {
    if i < k - 1 {
      ExecutedAt(shots, planner, k - 1, i);
    }
  }

  /** No turn before the first completion has a reply that completes. */
  lemma BeforeFirstCompletion(planner: nat -> string, i: nat)
    requires i < Turns
    requires FirstCompletion(planner).Some? ==> i < FirstCompletion(planner).value
    ensures !Completes(planner(i))
  {
    var done := (j: nat) => Completes(planner(j));
    assert !done(i);
  }

  /** Whitespace around a reply does not change its normalised step. */
  lemma NormalisePadded(w1: string, t: string, w2: string)
    requires forall i :: 0 <= i < |w1| ==> IsSpace(w1[i])
    requires forall i :: 0 <= i < |w2| ==> IsSpace(w2[i])
    requires t == [] || (!IsSpace(t[0]) && !IsSpace(t[|t| - 1]))
    ensures NormaliseStep(w1 + t + w2) == NormaliseStep(t)
  {
    StripPadded(w1, t, w2);
    StripPadded([], t, []);
    assert [] + t + [] == t;
  }

  /** A reply of "Complete." with any whitespace around it ends the task. */
  lemma PaddedCompletion(w1: string, w2: string)
    requires forall i :: 0 <= i < |w1| ==> IsSpace(w1[i])
    requires forall i :: 0 <= i < |w2| ==> IsSpace(w2[i])
    ensures Completes(w1 + "Complete." + w2)
  {
    var t := "Complete.";
    assert !IsSpace(t[0]) && !IsSpace(t[|t| - 1]);
    NormalisePadded(w1, t, w2);
    CompleteDot();
  }

  lemma CompleteDot()
    ensures NormaliseStep("Complete.") == "complete"
  {
    StripPadded([], "Complete.", []);
    assert [] + "Complete." + [] == "Complete.";
    assert Lower("Complete.") == "complete.";
    DropDot();
  }

  lemma DropDot()
    ensures RemoveChar("complete.", '.') == "complete"
  {
    var w := "complete";
    assert "complete." == w + ".";
    RemoveCharConcat(w, ".", '.');
    RemoveCharAbsent(w, '.');
    assert RemoveChar(".", '.') == [];
  }

}
