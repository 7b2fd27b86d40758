/** The compaction planner: how much of a conversation's oldest history a request leaves out
    (`sandbx-compact`), and how `sandbx-turn` carries the answer from one turn to the next. */
module Compact {
  import opened Wrappers

  datatype Role = User | Assistant

  datatype ContentBlock =
    | Text(text: string)
    | Thinking(thought: string, signature: string)
    | RedactedThinking(data: string)
    | ToolUse(id: string, name: string, input: string)
    | ToolResult(toolUseId: string, content: string, isError: Option<bool>)

  datatype RequestMessage = RequestMessage(role: Role, content: seq<ContentBlock>)

  type u32 = x: nat | x < 0x1_0000_0000

  datatype PromptUsage =
    PromptUsage(inputTokens: Option<u32>, cacheReadTokens: Option<u32>, cacheWriteTokens: Option<u32>)

  function Count(counter: Option<u32>): nat {
    if counter.Some? then counter.value else 0
  }

  /** An unreported counter sums as zero; three saturated counters still fit in 64 bits. */
  function PromptTokens(usage: PromptUsage): (tokens: nat)
    ensures tokens < 0x1_0000_0000_0000_0000
  {
    Count(usage.inputTokens) + Count(usage.cacheReadTokens) + Count(usage.cacheWriteTokens)
  }

  predicate OverBudget(observed: Option<PromptUsage>, budgetTokens: u32) {
    observed.Some? && PromptTokens(observed.value) > budgetTokens
  }

  /** A cut that leaves something out and lands on a user turn carrying more than results. */
  predicate OpensARequest(history: seq<RequestMessage>, cut: nat) {
    && 0 < cut < |history|
    && history[cut].role == User
    && exists k :: 0 <= k < |history[cut].content| && !history[cut].content[k].ToolResult?
  }

  /** The scan upwards over `from..until`. */
  function Shallowest(history: seq<RequestMessage>, from: nat, until: nat): (cut: Option<nat>)
    requires until <= |history|
    ensures cut.Some? ==>
              && from <= cut.value < until && OpensARequest(history, cut.value)
              && forall k | from <= k < cut.value :: !OpensARequest(history, k)
    ensures cut.None? ==> (forall k | from <= k < until :: !OpensARequest(history, k))
    decreases if from < until then until - from else 0
  {
    if from >= until then None
    else if OpensARequest(history, from) then Some(from)
    else Shallowest(history, from + 1, until)
  }

  /** The scan downwards over `1..below`. */
  function Deepest(history: seq<RequestMessage>, below: nat): (cut: Option<nat>)
    ensures cut.Some? ==>
              && 0 < cut.value < below && OpensARequest(history, cut.value)
              && forall k | cut.value < k < below :: !OpensARequest(history, k)
    ensures cut.None? ==> forall k | 0 < k < below :: !OpensARequest(history, k)
  {
    if below <= 1 then None
    else if OpensARequest(history, below - 1) then Some(below - 1)
    else Deepest(history, below - 1)
  }

  function Max(a: nat, b: nat): nat { if a < b then b else a }

  function Min(a: nat, b: nat): nat { if a < b then a else b }

  function SaturatingSub(a: nat, b: nat): nat { if a < b then 0 else a - b }

  /** The cut asked for before legality is considered. */
  function Target(history: seq<RequestMessage>, produced: nat, keepRecent: Option<nat>, floor: nat): nat {
    var floor := if floor >= |history| then 0 else floor;
    match keepRecent
    case None => floor
    case Some(keep) => Max(Min(SaturatingSub(|history| + produced, keep), |history|), floor)
  }

  function PlanCut(history: seq<RequestMessage>, produced: nat, keepRecent: Option<nat>, floor: nat): Option<nat> {
    var target := Target(history, produced, keepRecent, floor);
    if target == 0 then None
    else
      var up := Shallowest(history, target, |history|);
      if up.Some? then up else Deepest(history, target)
  }

  function DropResults(content: seq<ContentBlock>): (kept: seq<ContentBlock>)
    ensures forall b :: b in kept <==> b in content && !b.ToolResult?
  {
    if content == [] then []
    else (if content[0].ToolResult? then [] else [content[0]]) + DropResults(content[1..])
  }

  /** `history[cut..]`, less the results its new first message opens on. */
  function Window(history: seq<RequestMessage>, cut: nat): seq<RequestMessage> {
    var kept := if cut <= |history| then history[cut..] else [];
    if cut > 0 && kept != [] then
      [kept[0].(content := DropResults(kept[0].content))] + kept[1..]
    else kept
  }

  // ----- What the provider accepts -----

  predicate HasCall(message: RequestMessage, id: string) {
    exists k :: 0 <= k < |message.content| && message.content[k].ToolUse? && message.content[k].id == id
  }

  predicate HasResult(message: RequestMessage, id: string) {
    exists k :: 0 <= k < |message.content| && message.content[k].ToolResult? && message.content[k].toolUseId == id
  }

  /** Every result answers a call in the message just before it. */
  predicate ResultsPaired(conversation: seq<RequestMessage>, i: nat)
    requires i < |conversation|
  {
    forall k :: 0 <= k < |conversation[i].content| && conversation[i].content[k].ToolResult? ==>
                  i > 0 && HasCall(conversation[i - 1], conversation[i].content[k].toolUseId)
  }

  /** Every call is answered by the message just after it, if there is one. */
  predicate CallsAnswered(conversation: seq<RequestMessage>, i: nat)
    requires i < |conversation|
  {
    i + 1 < |conversation| ==>
      forall k :: 0 <= k < |conversation[i].content| && conversation[i].content[k].ToolUse? ==>
                    HasResult(conversation[i + 1], conversation[i].content[k].id)
  }

  /** Starts with a user turn, alternates, has no empty message, and answers only calls that were made. */
  predicate Legal(conversation: seq<RequestMessage>) {
    && conversation != []
    && conversation[0].role == User
    && (forall i | 0 <= i < |conversation| :: conversation[i].content != [])
    && (forall i | 0 < i < |conversation| :: conversation[i].role != conversation[i - 1].role)
    && (forall i | 0 <= i < |conversation| :: ResultsPaired(conversation, i))
  }

  /** And leaves no call unanswered but the last message's. */
  predicate Answered(conversation: seq<RequestMessage>) {
    forall i | 0 <= i < |conversation| :: CallsAnswered(conversation, i)
  }

  // ----- The planner's law -----

  /** Each cut is the shallowest legal one at or above the target, else the deepest legal one
      below it; nothing is cut only if nothing was asked for or no cut is legal. */
  lemma PlanCutIsNearestLegal(history: seq<RequestMessage>, produced: nat, keepRecent: Option<nat>, floor: nat)
    ensures var target := Target(history, produced, keepRecent, floor);
            match PlanCut(history, produced, keepRecent, floor)
            case None => target == 0 || forall k: nat :: !OpensARequest(history, k)
            case Some(cut) =>
              && target > 0 && OpensARequest(history, cut)
              && (cut >= target ==> forall k | target <= k < cut :: !OpensARequest(history, k))
              && (cut < target ==> forall k | cut < k :: !OpensARequest(history, k))
  {
    var target := Target(history, produced, keepRecent, floor);
    if target > 0 && Shallowest(history, target, |history|).None? {
      forall k: nat | OpensARequest(history, k) ensures k < target {
      }
    }
  }

  lemma WindowOpening(history: seq<RequestMessage>, cut: nat, produced: seq<RequestMessage>)
    requires 0 < cut < |history|
    ensures var kept, whole := Window(history, cut) + produced, history + produced;
            && |kept| == |whole| - cut > 0
            && kept[0].role == whole[cut].role
            && kept[0].content == DropResults(whole[cut].content)
            && forall i | 0 < i < |kept| :: kept[i] == whole[cut + i]
  {
  }

  lemma {:induction false} CallSurvives(message: RequestMessage, id: string)
    requires HasCall(message, id)
    ensures HasCall(message.(content := DropResults(message.content)), id)
  {
    var k :| 0 <= k < |message.content| && message.content[k].ToolUse? && message.content[k].id == id;
    var kept := DropResults(message.content);
    assert message.content[k] in kept;
    var j :| 0 <= j < |kept| && kept[j] == message.content[k];
  }

  lemma NothingKept(content: seq<ContentBlock>)
    requires forall b | b in content :: b.ToolResult?
    ensures DropResults(content) == []
  {
  }

  /** The legal cut points of a legal conversation are exactly those `OpensARequest` names, and a
      cut leaves no call unanswered that was not. */
  lemma {:induction false} CutIsLegalIffItOpensARequest(
    history: seq<RequestMessage>, produced: seq<RequestMessage>, cut: nat)
    requires Legal(history + produced)
    requires 0 < cut < |history|
    ensures Legal(Window(history, cut) + produced) <==> OpensARequest(history, cut)
    ensures Answered(history + produced) ==> Answered(Window(history, cut) + produced)
  {
    var whole, kept := history + produced, Window(history, cut) + produced;
    WindowOpening(history, cut, produced);
    assert whole[cut] == history[cut];
    forall i | 0 <= i < |kept| && Answered(whole) ensures CallsAnswered(kept, i) {
      WindowKeepsAnswers(whole, kept, cut, i);
    }
    if OpensARequest(history, cut) {
      var k :| 0 <= k < |history[cut].content| && !history[cut].content[k].ToolResult?;
      assert history[cut].content[k] in kept[0].content;
      forall i | 0 < i < |kept| ensures kept[i].role != kept[i - 1].role && kept[i].content != [] {
        assert whole[cut + i].role != whole[cut + i - 1].role;
      }
      forall i | 0 <= i < |kept| ensures ResultsPaired(kept, i) {
        WindowKeepsPairing(whole, kept, cut, i);
      }
    } else if history[cut].role == User {
      NothingKept(history[cut].content);
    }
  }

  lemma {:induction false} WindowKeepsPairing(whole: seq<RequestMessage>, kept: seq<RequestMessage>, cut: nat, i: nat)
    requires forall j | 0 <= j < |whole| :: ResultsPaired(whole, j)
    requires 0 < cut && |kept| == |whole| - cut > 0
    requires kept[0] == whole[cut].(content := DropResults(whole[cut].content))
    requires forall j | 0 < j < |kept| :: kept[j] == whole[cut + j]
    requires i < |kept|
    ensures ResultsPaired(kept, i)
  {
    assert ResultsPaired(whole, cut + i);
    if i == 0 {
      forall k | 0 <= k < |kept[0].content| ensures !kept[0].content[k].ToolResult? {
        assert kept[0].content[k] in kept[0].content;
      }
    } else {
      forall k | 0 <= k < |kept[i].content| && kept[i].content[k].ToolResult?
        ensures HasCall(kept[i - 1], kept[i].content[k].toolUseId)
      {
        if i == 1 { CallSurvives(whole[cut], kept[i].content[k].toolUseId); }
      }
    }
  }

  lemma {:induction false} WindowKeepsAnswers(whole: seq<RequestMessage>, kept: seq<RequestMessage>, cut: nat, i: nat)
    requires Answered(whole)
    requires 0 < cut && |kept| == |whole| - cut > 0
    requires kept[0].content == DropResults(whole[cut].content)
    requires forall j | 0 < j < |kept| :: kept[j] == whole[cut + j]
    requires i < |kept|
    ensures CallsAnswered(kept, i)
  {
    assert CallsAnswered(whole, cut + i);
    if i == 0 {
      forall k | 0 <= k < |kept[0].content| && kept[0].content[k].ToolUse? && 1 < |kept|
        ensures HasResult(kept[1], kept[0].content[k].id)
      {
        assert kept[0].content[k] in kept[0].content;
        var j :| 0 <= j < |whole[cut].content| && whole[cut].content[j] == kept[0].content[k];
      }
    }
  }

  /** Withholding what the planner says to withhold keeps a legal conversation legal, and one whose
      calls are answered answered. */
  lemma {:induction false} WithholdingKeepsTheConversationLegal(
    history: seq<RequestMessage>, produced: seq<RequestMessage>, keepRecent: Option<nat>, floor: nat)
    requires Legal(history + produced)
    ensures var plan := PlanCut(history, |produced|, keepRecent, floor);
            var sent := Window(history, if plan.Some? then plan.value else 0) + produced;
            Legal(sent) && (Answered(history + produced) ==> Answered(sent))
  {
    var plan := PlanCut(history, |produced|, keepRecent, floor);
    PlanCutIsNearestLegal(history, |produced|, keepRecent, floor);
    if plan.Some? {
      CutIsLegalIffItOpensARequest(history, produced, plan.value);
    } else {
      assert Window(history, 0) == history;
    }
  }

  /** Withholding in two helpings is withholding once. */
  lemma WindowsCompose(history: seq<RequestMessage>, a: nat, b: nat)
    ensures Window(Window(history, a), b) == Window(history, a + b)
  {
    if a < |history| && 0 < b < |history| - a {
      assert Window(history, a)[b..] == history[a + b..];
    }
  }

  /** Producing more within a turn never brings back a message already left out. */
  lemma PlanCutGrowsWithProduced(
    history: seq<RequestMessage>, produced: nat, more: nat, keepRecent: Option<nat>, floor: nat)
    requires produced <= more
    ensures var before := PlanCut(history, produced, keepRecent, floor);
            var after := PlanCut(history, more, keepRecent, floor);
            before.Some? ==> after.Some? && before.value <= after.value
  {
    PlanCutIsNearestLegal(history, produced, keepRecent, floor);
    PlanCutIsNearestLegal(history, more, keepRecent, floor);
  }

  /** The floor is met by every plan made over a history that still has it as a legal cut. */
  lemma PlanCutHoldsTheFloor(
    history: seq<RequestMessage>, produced: nat, keepRecent: Option<nat>, floor: nat)
    requires OpensARequest(history, floor)
    ensures var plan := PlanCut(history, produced, keepRecent, floor);
            plan.Some? && floor <= plan.value && OpensARequest(history, plan.value)
  {
    PlanCutIsNearestLegal(history, produced, keepRecent, floor);
  }

  // ----- A whole session of turns -----

  /** One planning inside a turn: what the turn had produced, what was last measured, and the
      policy. Within budget only the floor is held. */
  datatype Planning = Planning(produced: nat, observed: Option<PromptUsage>, budgetTokens: u32, cap: nat) {
    function KeepRecent(): Option<nat> {
      if OverBudget(observed, budgetTokens) then Some(cap) else None
    }
  }

  /** How a turn ended: by itself, or interrupted. `streamed` is how many plannings came before the
      last request that finished streaming, `None` when no request did. */
  datatype Ending = Finished | Interrupted(streamed: Option<nat>)

  /** A turn: the history it was given, each planning its rounds made, and how it ended. */
  datatype TurnRun = TurnRun(history: seq<RequestMessage>, plans: seq<Planning>, ending: Ending) {
    predicate Possible() {
      ending.Interrupted? && ending.streamed.Some? ==> ending.streamed.value <= |plans|
    }

    /** The plannings whose requests are known to have been streamed. */
    function Streamed(): seq<Planning>
      requires Possible()
    {
      match ending
      case Finished => plans
      case Interrupted(None) => []
      case Interrupted(Some(n)) => plans[..n]
    }

    /** The count handed back is of a request that no plan was made for: no rounds were allowed,
        or compaction is off. */
    predicate SentUnplanned()
      requires Possible()
    {
      ending != Interrupted(None) && Streamed() == []
    }
  }

  /** The cuts of one turn's rounds: each planned from the one before, a declined plan keeping it. */
  function TurnCuts(history: seq<RequestMessage>, plans: seq<Planning>, cut: nat, floor: nat): (cuts: seq<nat>)
    ensures |cuts| == |plans|
    decreases |plans|
  {
    if plans == [] then []
    else
      var next := PlanCut(history, plans[0].produced, plans[0].KeepRecent(), floor).GetOr(cut);
      [next] + TurnCuts(history, plans[1..], next, next)
  }

  /** The cuts whose requests are known to have been streamed. */
  function StreamedCuts(turn: TurnRun, carried: nat): seq<nat>
    requires turn.Possible()
  {
    TurnCuts(turn.history, turn.Streamed(), 0, carried)
  }

  /** What a turn hands back as withheld: the cut of the last request that finished streaming, zero
      if that was never planned, and the carried floor if none finished before an interrupt. */
  function HandedBack(turn: TurnRun, carried: nat): nat
    requires turn.Possible()
  {
    var cuts := StreamedCuts(turn, carried);
    if turn.ending == Interrupted(None) then carried
    else if cuts == [] then 0 else cuts[|cuts| - 1]
  }

  predicate AllPossible(turns: seq<TurnRun>) {
    forall i | 0 <= i < |turns| :: turns[i].Possible()
  }

  /** Every streamed cut of a session, each turn's count threaded into the next. */
  function SessionCuts(turns: seq<TurnRun>, carried: nat): seq<nat>
    requires AllPossible(turns)
    decreases |turns|
  {
    if turns == [] then []
    else StreamedCuts(turns[0], carried) + SessionCuts(turns[1..], HandedBack(turns[0], carried))
  }

  /** What each turn of a session is handed, and what the last hands back. */
  function Counts(turns: seq<TurnRun>, carried: nat): (counts: seq<nat>)
    requires AllPossible(turns)
    ensures |counts| == |turns| + 1 && counts[0] == carried
    decreases |turns|
  {
    if turns == [] then [carried] else [carried] + Counts(turns[1..], HandedBack(turns[0], carried))
  }

  predicate AppendOnly(turns: seq<TurnRun>) {
    forall i | 0 < i < |turns| :: turns[i - 1].history <= turns[i].history
  }

  predicate Rising(cuts: seq<nat>, from: nat) {
    && (forall i | 0 <= i < |cuts| :: from <= cuts[i])
    && (forall i, j | 0 <= i < j < |cuts| :: cuts[i] <= cuts[j])
  }

  /** A cut is either none at all or a legal one. */
  predicate Sound(history: seq<RequestMessage>, cut: nat) {
    cut == 0 || OpensARequest(history, cut)
  }

  lemma {:induction false} TurnNeverGivesBack(history: seq<RequestMessage>, plans: seq<Planning>, cut: nat, floor: nat)
    requires Sound(history, floor) && (cut == floor || cut == 0)
    ensures var cuts := TurnCuts(history, plans, cut, floor);
            Rising(cuts, floor) && forall i | 0 <= i < |cuts| :: Sound(history, cuts[i])
    decreases |plans|
  {
    if plans != [] {
      PlanCutIsNearestLegal(history, plans[0].produced, plans[0].KeepRecent(), floor);
      if floor > 0 { PlanCutHoldsTheFloor(history, plans[0].produced, plans[0].KeepRecent(), floor); }
      var next := PlanCut(history, plans[0].produced, plans[0].KeepRecent(), floor).GetOr(cut);
      TurnNeverGivesBack(history, plans[1..], next, next);
    }
  }

  /** A turn hands back less than it was handed exactly when what it counts was never planned. */
  lemma {:induction false} TurnHoldsTheFloorIffItPlans(turn: TurnRun, carried: nat)
    requires turn.Possible() && Sound(turn.history, carried)
    ensures Sound(turn.history, HandedBack(turn, carried))
    ensures carried <= HandedBack(turn, carried) <==> carried == 0 || !turn.SentUnplanned()
  {
    TurnNeverGivesBack(turn.history, turn.Streamed(), 0, carried);
  }

  /** It happens: a turn allowed no rounds, handed a cut that is still legal, hands back none. */
  lemma ATurnCanGiveBack() returns (turn: TurnRun, carried: nat)
    ensures turn.Possible() && OpensARequest(turn.history, carried) && HandedBack(turn, carried) < carried
  {
    var asked, answered := RequestMessage(User, [Text("")]), RequestMessage(Assistant, [Text("")]);
    turn, carried := TurnRun([asked, answered, asked], [], Finished), 2;
    assert !turn.history[2].content[0].ToolResult?;
  }

  lemma SoundOfMore(history: seq<RequestMessage>, longer: seq<RequestMessage>, cut: nat)
    requires history <= longer && Sound(history, cut)
    ensures Sound(longer, cut)
  {
    if cut > 0 { assert longer[cut] == history[cut]; }
  }

  /** Whatever turns a session mixes, finished and interrupted, planned and not, over a history
      only appended to: a turn of it hands on less than it was handed if and only if it was handed
      something and counts a request it never planned. */
  lemma {:induction false} SessionGivesBackIffUnplanned(turns: seq<TurnRun>, carried: nat, i: nat)
    requires AllPossible(turns) && AppendOnly(turns) && i < |turns|
    requires Sound(turns[0].history, carried)
    ensures var counts := Counts(turns, carried);
            counts[i + 1] < counts[i] <==> counts[i] > 0 && turns[i].SentUnplanned()
    decreases i
  {
    var handed, rest := HandedBack(turns[0], carried), turns[1..];
    TurnHoldsTheFloorIffItPlans(turns[0], carried);
    CountsGoOn(turns, carried);
    if i > 0 {
      SoundOfMore(turns[0].history, rest[0].history, handed);
      SessionGivesBackIffUnplanned(rest, handed, i - 1);
    }
  }

  lemma CountsGoOn(turns: seq<TurnRun>, carried: nat)
    requires AllPossible(turns) && turns != []
    ensures Counts(turns, carried)[0] == carried && Counts(turns, carried)[1] == HandedBack(turns[0], carried)
    ensures forall k | 0 <= k < |turns| :: Counts(turns, carried)[k + 1] == Counts(turns[1..], HandedBack(turns[0], carried))[k]
  {
  }

  /** And then neither do the cuts themselves: over any such session, once something is known to
      have been withheld it stays withheld. */
  lemma {:induction false} SessionNeverGivesBack(turns: seq<TurnRun>, carried: nat)
    requires AllPossible(turns) && AppendOnly(turns)
    requires forall i | 0 <= i < |turns| :: !turns[i].SentUnplanned()
    requires turns != [] ==> Sound(turns[0].history, carried)
    ensures Rising(SessionCuts(turns, carried), carried)
    decreases |turns|
  {
    if turns != [] {
      var handed, rest := HandedBack(turns[0], carried), turns[1..];
      TurnNeverGivesBack(turns[0].history, turns[0].Streamed(), 0, carried);
      TurnHoldsTheFloorIffItPlans(turns[0], carried);
      if rest != [] { SoundOfMore(turns[0].history, rest[0].history, handed); }
      SessionNeverGivesBack(rest, handed);
      RisingJoin(StreamedCuts(turns[0], carried), SessionCuts(rest, handed), carried, handed);
    }
  }

  lemma RisingJoin(a: seq<nat>, b: seq<nat>, from: nat, middle: nat)
    requires Rising(a, from) && Rising(b, middle)
    requires if a == [] then from <= middle else a[|a| - 1] <= middle
    ensures Rising(a + b, from)
  {
  }
}
