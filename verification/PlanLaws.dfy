/** What the compaction planner answers, said of the cuts themselves: which one, for which cap, floor
    and count of messages produced. */
module PlanLaws {
  import opened Wrappers
  import opened Compact

  /** The floor that counts: one at or past the end names no message. */
  function Floor(history: seq<RequestMessage>, floor: nat): nat {
    if floor < |history| then floor else 0
  }

  /** A legal cut that the floor and the cap allow: at least the floor is left out, and at most `keep`
      messages are kept, those produced since counted. */
  predicate Fits(history: seq<RequestMessage>, produced: nat, keep: nat, floor: nat, k: nat) {
    OpensARequest(history, k) && k >= Floor(history, floor) && |history| + produced - k <= keep
  }

  /** Over budget, the plan is the least cut that fits; where none does, the deepest legal one; and none
      at all only where everything fits as it is and no floor holds, or no cut is legal. */
  lemma APlanKeepsTheCap(history: seq<RequestMessage>, produced: nat, keep: nat, floor: nat)
    ensures var plan := PlanCut(history, produced, Some(keep), floor);
            && (plan.None? <==>
                  || (|history| + produced <= keep && Floor(history, floor) == 0)
                  || forall k: nat :: !OpensARequest(history, k))
            && (plan.Some? ==>
                  && OpensARequest(history, plan.value)
                  && (if exists k :: Fits(history, produced, keep, floor, k)
                      then Fits(history, produced, keep, floor, plan.value)
                           && forall k | Fits(history, produced, keep, floor, k) :: plan.value <= k
                      else forall k: nat | OpensARequest(history, k) :: k <= plan.value))
  {
    PlanCutIsNearestLegal(history, produced, Some(keep), floor);
    var target := Target(history, produced, Some(keep), floor);
    assert forall k | OpensARequest(history, k) :: k >= target <==> Fits(history, produced, keep, floor, k);
  }

  /** Within budget, it is the least legal cut that is not above the floor; where there is none, the
      deepest legal one; and none at all where no floor holds or no cut is legal. */
  lemma APlanWithinBudgetKeepsTheFloor(history: seq<RequestMessage>, produced: nat, floor: nat)
    ensures var plan := PlanCut(history, produced, None, floor);
            && (plan.None? <==> Floor(history, floor) == 0 || forall k: nat :: !OpensARequest(history, k))
            && (plan.Some? ==>
                  && OpensARequest(history, plan.value)
                  && (if exists k: nat :: OpensARequest(history, k) && k >= Floor(history, floor)
                      then plan.value >= Floor(history, floor)
                           && forall k: nat | OpensARequest(history, k) && k >= Floor(history, floor) :: plan.value <= k
                      else forall k: nat | OpensARequest(history, k) :: k <= plan.value))
  {
    PlanCutIsNearestLegal(history, produced, None, floor);
  }

  /** A request is over budget by everything the provider counted into it, and never unmeasured. */
  lemma EverythingCountsAgainstTheBudget(input: u32, read: u32, written: u32, budget: u32)
    ensures OverBudget(Some(PromptUsage(Some(input), Some(read), Some(written))), budget) <==> input + read + written > budget
    ensures OverBudget(Some(PromptUsage(Some(input), None, None)), budget) <==> input > budget
    ensures OverBudget(Some(PromptUsage(None, Some(read), None)), budget) <==> read > budget
    ensures OverBudget(Some(PromptUsage(None, None, Some(written))), budget) <==> written > budget
    ensures !OverBudget(None, budget)
  {
  }

  /** What a window drops from its first message is its results, and nothing else, and it keeps the
      order of the rest. */
  lemma {:induction false} OnlyResultsAreDropped(a: seq<ContentBlock>, b: seq<ContentBlock>, block: ContentBlock)
    ensures DropResults(a + b) == DropResults(a) + DropResults(b)
    ensures DropResults([block]) == if block.ToolResult? then [] else [block]
  {
    if a == [] {
      assert a + b == b;
    } else {
      assert (a + b)[1..] == a[1..] + b;
      OnlyResultsAreDropped(a[1..], b, block);
    }
  }

  /** A window is the messages from its cut on, the first less its results; uncut it is the history, and
      cut at the end or past it nothing. */
  lemma AWindowIsTheRest(history: seq<RequestMessage>, cut: nat)
    ensures |Window(history, cut)| == SaturatingSub(|history|, cut)
    ensures Window(history, 0) == history
    ensures 0 < cut < |history| ==>
              && Window(history, cut)[0] == RequestMessage(history[cut].role, DropResults(history[cut].content))
              && Window(history, cut)[1..] == history[cut + 1..]
  {
  }

  /** A round plans from the floor it is handed, the first from what the turn was, and one that plans
      nothing new keeps the cut before it. */
  lemma RoundsPlanFromTheLast(history: seq<RequestMessage>, plans: seq<Planning>, cut: nat, floor: nat, k: nat)
    requires k < |plans|
    ensures var cuts := TurnCuts(history, plans, cut, floor);
            var over := OverBudget(plans[k].observed, plans[k].budgetTokens);
            var plan := PlanCut(history, plans[k].produced, if over then Some(plans[k].cap) else None,
                                if k == 0 then floor else cuts[k - 1]);
            cuts[k] == if plan.Some? then plan.value else if k == 0 then cut else cuts[k - 1]
    decreases plans
  {
    if k > 0 {
      var next := TurnCuts(history, plans, cut, floor)[0];
      RoundsPlanFromTheLast(history, plans[1..], next, next, k - 1);
    }
  }
}
