/** A guard that lets an action run at most once. */
module RunOnce {
  import opened Wrappers

  class RunOnce {
    var started: bool
    var startCompleted: bool
    /** How many times the guarded action and the onUnable callback have run. */
    var actionRuns: nat
    var unableRuns: nat

    /** The action has run exactly when the guard was started, and it finished then too. */
    ghost predicate Valid()
      reads this
    {
      startCompleted == started && actionRuns == (if started then 1 else 0)
    }

    constructor ()
      ensures Valid() && !started && unableRuns == 0
    {
      started, startCompleted := false, false;
      actionRuns, unableRuns := 0, 0;
    }

    /**
     * runOnce(run, onUnable): the first call runs the action and returns true,
     * marking completion even when the action throws (the exception then
     * propagates). Every later call returns false without running the action,
     * running onUnable instead when one is given.
     */
    method Run(actionThrows: bool, hasOnUnable: bool) returns (r: Result<bool>)
      requires Valid()
      modifies this
      ensures Valid() && started && startCompleted
      ensures old(started) ==> r == Ok(false) && actionRuns == old(actionRuns)
                               && unableRuns == old(unableRuns) + (if hasOnUnable then 1 else 0)
      ensures !old(started) ==> actionRuns == 1 && unableRuns == old(unableRuns)
                                && r == (if actionThrows then Err(Runtime) else Ok(true))
    {
      if started {
        if hasOnUnable {
          unableRuns := unableRuns + 1;
        }
        return Ok(false);
      }
      started := true;
      actionRuns := actionRuns + 1;
      startCompleted := true;
      r := if actionThrows then Err(Runtime) else Ok(true);
    }

    method IsActed() returns (b: bool)
      requires Valid()
      ensures b <==> actionRuns == 1
    {
      b := startCompleted;
    }
  }

  /**
   * Any sequence of calls on a fresh guard: only the first returns true (or
   * throws, when its action throws), the action runs at most once, and
   * isActed holds afterwards iff there was a call.
   */
  method RunMany(throwsOnCall: seq<bool>) returns (results: seq<Result<bool>>, actionRuns: nat, acted: bool)
    ensures |results| == |throwsOnCall|
    ensures actionRuns == (if |throwsOnCall| == 0 then 0 else 1)
    ensures acted <==> |throwsOnCall| > 0
    ensures |throwsOnCall| > 0 ==> results[0] == (if throwsOnCall[0] then Err(Runtime) else Ok(true))
    ensures forall i :: 0 < i < |results| ==> results[i] == Ok(false)
  {
    var guard := new RunOnce();
    results := [];
    var i := 0;
    while i < |throwsOnCall|
      invariant 0 <= i <= |throwsOnCall| && |results| == i
      invariant guard.Valid() && (guard.started <==> i > 0)
      invariant i > 0 ==> results[0] == (if throwsOnCall[0] then Err(Runtime) else Ok(true))
      invariant forall k :: 0 < k < i ==> results[k] == Ok(false)
    {
      var r := guard.Run(throwsOnCall[i], false);
      results := results + [r];
      i := i + 1;
    }
    actionRuns := guard.actionRuns;
    acted := guard.IsActed();
  }
}
