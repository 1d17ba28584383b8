/** The mod's kernel: the once-only startup that registers the King of Cups god
    with the map, and the declared dependency lists. `map.addGod` is foreign;
    whether it throws is an input. */
module Kernel {
  import opened Wrappers

  /** The game map handed to the kernel, known here only by its identity. */
  datatype GameMap = GameMap(id: nat)

  /** What one call to `onStartup` did: whether `addGod` was invoked, and the
      value of the startup flag afterwards. */
  datatype StartupStep = StartupStep(addGodCalled: bool, completed: bool)

  /** One call to `onStartup` from a state whose flag is `completed`. */
  function Startup(completed: bool, gameMap: Option<GameMap>, addGodThrows: bool): (step: StartupStep)
    ensures completed ==> step == StartupStep(false, true)
    ensures !completed && gameMap.None? ==> step == StartupStep(false, false)
    ensures !completed && gameMap.Some? ==> step == StartupStep(true, !addGodThrows)
    ensures step.completed && !completed ==> step.addGodCalled && !addGodThrows
    ensures addGodThrows ==> step.completed == completed
  {
    if completed then StartupStep(false, true)
    else if gameMap.None? then StartupStep(false, false)
    else StartupStep(true, !addGodThrows)
  }

  /** The arguments of one call and the foreign outcome of its registration. */
  datatype StartupCall = StartupCall(gameMap: Option<GameMap>, addGodThrows: bool)

  /** The steps of a sequence of `onStartup` calls from flag `completed`. */
  function Run(completed: bool, calls: seq<StartupCall>): (steps: seq<StartupStep>)
    ensures |steps| == |calls|
    decreases |calls|
  {
    if calls == [] then []
    else
      var step := Startup(completed, calls[0].gameMap, calls[0].addGodThrows);
      [step] + Run(step.completed, calls[1..])
  }

  /** A call that registered the god: `addGod` ran and did not throw. */
  predicate Registered(step: StartupStep)
  {
    step.addGodCalled && step.completed
  }

  function Registrations(steps: seq<StartupStep>): nat
  {
    if steps == [] then 0 else (if Registered(steps[0]) then 1 else 0) + Registrations(steps[1..])
  }

  /** Once set, the startup flag is never reset. */
  lemma {:induction false} RunNeverResets(completed: bool, calls: seq<StartupCall>, i: nat, j: nat)
    requires i <= j < |calls|
    requires Run(completed, calls)[i].completed
    ensures Run(completed, calls)[j].completed
    decreases |calls|
  {
    var step := Startup(completed, calls[0].gameMap, calls[0].addGodThrows);
    if i == 0 {
      if j > 0 {
        RunStaysCompleted(step.completed, calls[1..], j - 1);
      }
    } else {
      RunNeverResets(step.completed, calls[1..], i - 1, j - 1);
    }
  }

  lemma {:induction false} RunStaysCompleted(completed: bool, calls: seq<StartupCall>, j: nat)
    requires completed
    requires j < |calls|
    ensures Run(completed, calls)[j] == StartupStep(false, true)
    decreases |calls|
  {
    if j > 0 {
      RunStaysCompleted(true, calls[1..], j - 1);
    }
  }

  /** After the call that set the flag, no call invokes `addGod` again. */
  lemma {:induction false} NoAddGodAfterCompletion(completed: bool, calls: seq<StartupCall>, i: nat, j: nat)
    requires i < j < |calls|
    requires Run(completed, calls)[i].completed
    ensures !Run(completed, calls)[j].addGodCalled
    decreases |calls|
  {
    var step := Startup(completed, calls[0].gameMap, calls[0].addGodThrows);
    if i == 0 {
      RunStaysCompleted(step.completed, calls[1..], j - 1);
    } else {
      NoAddGodAfterCompletion(step.completed, calls[1..], i - 1, j - 1);
    }
  }

  /** Over any sequence of calls the god is registered at most once, and never
      when startup had already completed. */
  lemma {:induction false} RegisteredAtMostOnce(completed: bool, calls: seq<StartupCall>)
    ensures Registrations(Run(completed, calls)) <= if completed then 0 else 1
    decreases |calls|
  {
    if calls != [] {
      var step := Startup(completed, calls[0].gameMap, calls[0].addGodThrows);
      RegisteredAtMostOnce(step.completed, calls[1..]);
      assert Run(completed, calls)[1..] == Run(step.completed, calls[1..]);
    }
  }

  /** Startup is retried until it succeeds: after any number of calls that
      did not complete it (null maps, or `addGod` throwing), a call with a map
      whose `addGod` does not throw completes it. */
  lemma {:induction false} RetryCompletes(calls: seq<StartupCall>, j: nat)
    requires j < |calls|
    requires forall k :: 0 <= k < j ==> !Run(false, calls)[k].completed
    requires calls[j].gameMap.Some? && !calls[j].addGodThrows
    ensures Run(false, calls)[j].completed
    decreases |calls|
  {
    if j > 0 {
      var step := Startup(false, calls[0].gameMap, calls[0].addGodThrows);
      assert Run(false, calls)[0] == step;
      assert Run(false, calls)[1..] == Run(step.completed, calls[1..]);
      forall k | 0 <= k < j - 1
        ensures !Run(false, calls[1..])[k].completed
      {
        assert Run(false, calls)[k + 1] == Run(false, calls[1..])[k];
      }
      RetryCompletes(calls[1..], j - 1);
    }
  }

  /** The kernel. C# keeps the flag in a static field; here it is the field of
      the one kernel object. */
  class ModKernel {
    var startupCompleted: bool

    constructor ()
      ensures !startupCompleted
    {
      startupCompleted := false;
    }

    /** Runs startup: returns whether `map.addGod` was invoked. */
    method OnStartup(gameMap: Option<GameMap>, addGodThrows: bool) returns (addGodCalled: bool)
      modifies this
      ensures StartupStep(addGodCalled, startupCompleted) == Startup(old(startupCompleted), gameMap, addGodThrows)
    {
      if startupCompleted {
        return false;
      }
      if gameMap.None? {
        return false;
      }
      addGodCalled := true;
      if !addGodThrows {
        startupCompleted := true;
      }
    }
  }

  function GetDependencies(): seq<string>
  {
    []
  }

  function GetIncompatibilities(): seq<string>
  {
    ["Ixthus", "King of Cups"]
  }

  /** The mod needs no other mod and refuses to load beside the original Ixthus
      mod and the god it replaces; no mod is both needed and refused. */
  lemma DeclaredMods()
    ensures GetDependencies() == []
    ensures GetIncompatibilities() == ["Ixthus", "King of Cups"]
    ensures forall m :: m in GetDependencies() ==> m !in GetIncompatibilities()
  {
  }
}
