/** Where a turn's output goes (`agent_render.rs`): the answer on stdout, everything about it on
    stderr. The answer is meant as rounds of text with a blank line put between them, the reasoning
    as bursts of whole lines; the flags are how one pass over the events keeps to that. */
module Render {
  import opened Wrappers
  import opened Text
  import opened Wire = WireAccumulate

  const NO_CONSENT := 3
  const INCOMPLETE := 2
  const RESET: string := ['\U{1B}', '[', '0', 'm']

  datatype Answer = Whole | Truncated

  datatype Unfinished = CutShort(rounds: nat) | Summarised(rounds: nat) | Discarded(rounds: nat) | Aborted

  /** What is said about a turn; the wording is not modelled, but that it is one line is. */
  datatype Remark = AtMaxTokens | About(ending: Unfinished)

  type Line = text: string | '\n' !in text witness ""

  datatype Device = Terminal | Redirected

  datatype Op = Happened(event: AgentEvent) | Separated

  /** How the k-th write to a sink fails, if it does, and after how many characters. */
  type Failures = nat -> Option<nat>

  ghost predicate MayFail(failures: Failures) {
    exists k: nat :: failures(k).Some?
  }

  function Taken(text: string, failure: Option<nat>): (taken: string)
    ensures taken <= text && (failure.None? ==> taken == text)
  {
    if failure.Some? && failure.value < |text| then text[..failure.value] else text
  }

  function AnswerOf(roundStop: Option<StopReason>): Answer {
    if roundStop == Some(StopReason.MaxTokens) then Truncated else Whole
  }

  // ----- What reasoning may hold -----

  function InertChar(c: char): char {
    if c == '\n' || c == '\t' then c
    else if LineSeparator(c) then '\n'
    else if IsControl(c) || Invisible(c) then REPLACEMENT
    else c
  }

  function Inert(delta: string): (shown: string)
    ensures |shown| == |delta|
    ensures forall i | 0 <= i < |delta| :: shown[i] == InertChar(delta[i])
  {
    if delta == "" then "" else [InertChar(delta[0])] + Inert(delta[1..])
  }

  predicate Harmless(c: char) {
    c == '\n' || c == '\t' || (!IsControl(c) && !Invisible(c) && !LineSeparator(c))
  }

  lemma InertCharIsHarmless(c: char)
    ensures Harmless(InertChar(c)) && (InertChar(c) == c <==> Harmless(c))
  {
  }

  /** Character by character, so a stream cut anywhere is shown as if it had arrived whole. */
  lemma {:induction false} InertSurvivesStreaming(a: string, b: string)
    ensures Inert(a + b) == Inert(a) + Inert(b)
  {
    if a == "" {
      assert a + b == b;
    } else {
      assert (a + b)[1..] == a[1..] + b;
      InertSurvivesStreaming(a[1..], b);
    }
  }

  /** Nothing shown can move the cursor, vanish or reorder its neighbours; and what could not to
      begin with is shown as it came. */
  lemma InertIsHarmless(delta: string)
    ensures forall c | c in Inert(delta) :: Harmless(c)
    ensures Inert(delta) == delta <==> forall c | c in delta :: Harmless(c)
  {
    forall c | c in Inert(delta) ensures Harmless(c) {
      var i :| 0 <= i < |delta| && Inert(delta)[i] == c;
      InertCharIsHarmless(delta[i]);
    }
    if forall c | c in delta :: Harmless(c) {
      forall i | 0 <= i < |delta| ensures Inert(delta)[i] == delta[i] {
        assert delta[i] in delta;
        InertCharIsHarmless(delta[i]);
      }
    }
  }

  // ----- What is meant to be on each sink -----

  /** The text of each round, a round ending where a separation is asked for. */
  function Rounds(ops: seq<Op>): (rounds: seq<string>)
    ensures rounds != []
  {
    if ops == [] then [""]
    else
      var rounds := Rounds(ops[..|ops| - 1]);
      if ops[|ops| - 1].Separated? then rounds + [""] else RoundsAfter(rounds, ops[|ops| - 1].event)
  }

  function RoundsAfter(rounds: seq<string>, event: AgentEvent): (after: seq<string>)
    requires rounds != []
    ensures after != []
  {
    if event.Text? then rounds[..|rounds| - 1] + [rounds[|rounds| - 1] + event.delta] else rounds
  }

  /** What ends the line, if it is not ended, and adds an empty one. */
  function Gap(before: string): string {
    if MidLine(before) then ['\n', '\n'] else ['\n']
  }

  function Adjoined(before: string, round: string): string {
    if round == "" then before
    else if before == "" then round
    else before + Gap(before) + round
  }

  function Joined(rounds: seq<string>): string {
    if rounds == [] then "" else Adjoined(Joined(rounds[..|rounds| - 1]), rounds[|rounds| - 1])
  }

  function Closed(text: string): string {
    text + if MidLine(text) then ['\n'] else ""
  }

  /** Reasoning between the things that end its line: answer text, and a round's stop. */
  function Bursts(ops: seq<Op>, shown: bool): (bursts: seq<string>)
    ensures bursts != []
  {
    if ops == [] then [""]
    else
      var bursts := Bursts(ops[..|ops| - 1], shown);
      if ops[|ops| - 1].Separated? then bursts else BurstsAfter(bursts, ops[|ops| - 1].event, shown)
  }

  predicate EndsABurst(event: AgentEvent) {
    event.Stop? || (event.Text? && event.delta != "")
  }

  function BurstsAfter(bursts: seq<string>, event: AgentEvent, shown: bool): (after: seq<string>)
    requires bursts != []
    ensures after != []
  {
    if EndsABurst(event) then bursts + [""]
    else if event.Thinking? && shown then bursts[..|bursts| - 1] + [bursts[|bursts| - 1] + Inert(event.delta)]
    else bursts
  }

  function AllClosed(bursts: seq<string>): string {
    if bursts == [] then "" else AllClosed(bursts[..|bursts| - 1]) + Closed(bursts[|bursts| - 1])
  }

  /** Every burst but the last has had its line ended. */
  function Streamed(bursts: seq<string>): string
    requires bursts != []
  {
    AllClosed(bursts[..|bursts| - 1]) + bursts[|bursts| - 1]
  }

  function Remarks(ending: Option<Unfinished>, answer: Answer, failed: bool): seq<Remark> {
    if ending == Some(Aborted) then
      [About(Aborted)] + if answer == Truncated && !failed then [AtMaxTokens] else []
    else if failed then []
    else
      (if answer == Truncated then [AtMaxTokens] else []) + if ending.Some? then [About(ending.value)] else []
  }

  function Account(device: Device, line: Line): string {
    (if device == Terminal then RESET else "") + line + ['\n']
  }

  function Accounts(device: Device, wording: Remark -> Line, remarks: seq<Remark>): string {
    if remarks == [] then ""
    else Accounts(device, wording, remarks[..|remarks| - 1]) + Account(device, wording(remarks[|remarks| - 1]))
  }

  // ----- The renderer -----

  class Renderer {
    const shown: bool
    const device: Device
    const wording: Remark -> Line
    const outFails: Failures
    const errFails: Failures
    var out: string
    var err: string
    var outWrites: nat
    var errWrites: nat
    var midLine: bool
    var wrote: bool
    var separating: bool
    var thinkingMidLine: bool
    var failed: bool
    ghost var errLost: bool

    /** The flags and the sinks are what the events so far call for. */
    ghost predicate Follows(ops: seq<Op>)
      reads this
    {
      && FollowsAnswer(Rounds(ops))
      && FollowsReasoning(Bursts(ops, shown))
    }

    ghost predicate FollowsAnswer(rounds: seq<string>)
      requires rounds != []
      reads this`midLine, this`out, this`wrote, this`separating, this`failed
    {
      && midLine == MidLine(Joined(rounds))
      && out <= Joined(rounds)
      && (failed ==> MayFail(outFails))
      && (!failed ==>
            && out == Joined(rounds)
            && wrote == (out != "")
            && separating == (rounds[|rounds| - 1] == "" && out != ""))
    }

    ghost predicate FollowsReasoning(bursts: seq<string>)
      requires bursts != []
      reads this`thinkingMidLine, this`err, this`errLost
    {
      && thinkingMidLine == MidLine(bursts[|bursts| - 1])
      && (!errLost ==> err == Streamed(bursts))
      && (errLost ==> MayFail(errFails))
    }

    constructor (shown: bool, device: Device, wording: Remark -> Line, outFails: Failures, errFails: Failures)
      ensures this.shown == shown && this.device == device && this.wording == wording
      ensures this.outFails == outFails && this.errFails == errFails
      ensures Follows([])
    {
      this.shown, this.device, this.wording, this.outFails, this.errFails := shown, device, wording, outFails, errFails;
      out, err, outWrites, errWrites := "", "", 0, 0;
      midLine, wrote, separating, thinkingMidLine, failed, errLost := false, false, false, false, false, false;
    }

    method Write(text: string)
      modifies this`out, this`outWrites, this`wrote, this`failed
      ensures old(failed) ==> failed && out == old(out) && wrote == old(wrote)
      ensures !old(failed) ==>
                && old(out) <= out <= old(out) + text
                && (failed ==> MayFail(outFails))
                && (!failed ==> out == old(out) + text && wrote == (old(wrote) || text != ""))
    {
      if failed { return; }
      var failure := outFails(outWrites);
      outWrites := outWrites + 1;
      out := out + Taken(text, failure);
      if failure.Some? {
        failed := true;
      } else {
        wrote := wrote || text != "";
      }
    }

    method Put(text: string)
      modifies this`err, this`errWrites, this`errLost
      ensures errLost == old(errLost) || (errLost && MayFail(errFails))
      ensures !errLost ==> !old(errLost) && err == old(err) + text
    {
      var failure := errFails(errWrites);
      errWrites := errWrites + 1;
      err := err + Taken(text, failure);
      if failure.Some? { errLost := true; }
    }

    method Note(remark: Remark, ghost before: string, ghost said: seq<Remark>)
      requires !errLost ==> err == before + Accounts(device, wording, said)
      modifies this`err, this`errWrites, this`errLost
      ensures errLost == old(errLost) || (errLost && MayFail(errFails))
      ensures !errLost ==> err == before + Accounts(device, wording, said + [remark])
    {
      OneMoreAccount(device, wording, said, remark);
      Put(Account(device, wording(remark)));
    }

    method Separate(ghost ops: seq<Op>)
      requires Follows(ops)
      modifies this`separating
      ensures Follows(ops + [Separated])
    {
      separating := wrote;
      assert (ops + [Separated])[..|ops|] == ops;
      assert (Rounds(ops) + [""])[..|Rounds(ops)|] == Rounds(ops);
    }

    method EndThinkingLine(ghost bursts: seq<string>)
      requires bursts != [] && FollowsReasoning(bursts)
      modifies this`thinkingMidLine, this`err, this`errWrites, this`errLost
      ensures FollowsReasoning(bursts + [""])
      ensures !errLost ==> err == AllClosed(bursts)
    {
      var was := thinkingMidLine;
      thinkingMidLine := false;
      if was { Put(['\n']); }
      assert (bursts + [""])[..|bursts|] == bursts;
    }

    method Event(event: AgentEvent, ghost ops: seq<Op>)
      requires Follows(ops)
      modifies this
      ensures Follows(ops + [Happened(event)])
    {
      assert (ops + [Happened(event)])[..|ops|] == ops;
      Place(event, Rounds(ops), Bursts(ops, shown));
    }

    method Place(event: AgentEvent, ghost rounds: seq<string>, ghost bursts: seq<string>)
      requires rounds != [] && bursts != [] && FollowsAnswer(rounds) && FollowsReasoning(bursts)
      modifies this
      ensures FollowsAnswer(RoundsAfter(rounds, event)) && FollowsReasoning(BurstsAfter(bursts, event, shown))
    {
      match event {
        case Text(delta) =>
          if delta != "" {
            EndThinkingLine(bursts);
          }
          Say(delta, rounds);
        case Thinking(delta) =>
          if shown {
            Reason(delta, bursts);
          }
        case Stop(_) =>
          EndThinkingLine(bursts);
        case _ =>
      }
    }

    method Reason(delta: string, ghost bursts: seq<string>)
      requires bursts != [] && FollowsReasoning(bursts)
      modifies this`thinkingMidLine, this`err, this`errWrites, this`errLost
      ensures FollowsReasoning(bursts[..|bursts| - 1] + [bursts[|bursts| - 1] + Inert(delta)])
    {
      if delta != "" {
        Think(Inert(delta), bursts);
      } else {
        NoMoreOfABurst(bursts);
      }
    }

    method Think(text: string, ghost bursts: seq<string>)
      requires bursts != [] && text != "" && FollowsReasoning(bursts)
      modifies this`thinkingMidLine, this`err, this`errWrites, this`errLost
      ensures FollowsReasoning(bursts[..|bursts| - 1] + [bursts[|bursts| - 1] + text])
    {
      MoreOfABurst(bursts, text);
      Put(text);
      thinkingMidLine := text[|text| - 1] != '\n';
    }

    method Say(delta: string, ghost rounds: seq<string>)
      requires rounds != [] && FollowsAnswer(rounds)
      modifies this`out, this`outWrites, this`wrote, this`failed, this`separating, this`midLine
      ensures FollowsAnswer(rounds[..|rounds| - 1] + [rounds[|rounds| - 1] + delta])
    {
      MoreOfARound(rounds, delta);
      if delta != "" {
        var owed := separating;
        separating := false;
        if owed {
          Write(if midLine then ['\n', '\n'] else ['\n']);
        }
      }
      Write(delta);
      if delta != "" {
        midLine := delta[|delta| - 1] != '\n';
      }
    }

    method EndAnswer(ghost rounds: seq<string>)
      requires rounds != [] && FollowsAnswer(rounds)
      modifies this`out, this`outWrites, this`wrote, this`failed
      ensures out <= Closed(Joined(rounds))
      ensures if failed then MayFail(outFails) else out == Closed(Joined(rounds))
    {
      if midLine { Write(['\n']); }
    }

    method Finish(ending: Option<Unfinished>, answer: Answer, ghost ops: seq<Op>) returns (told: Result<int, ()>)
      requires Follows(ops)
      modifies this
      ensures out <= Closed(Joined(Rounds(ops)))
      ensures if told.Ok? then out == Closed(Joined(Rounds(ops))) else MayFail(outFails)
      ensures told.Ok? ==>
                told.value == (if ending == Some(Aborted) then NO_CONSENT
                               else if ending.Some? || answer == Truncated then INCOMPLETE else 0)
      ensures errLost ==> MayFail(errFails)
      ensures !errLost ==>
                err == AllClosed(Bursts(ops, shown)) + Accounts(device, wording, Remarks(ending, answer, told.Err?))
    {
      ghost var closed := AllClosed(Bursts(ops, shown));
      EndThinkingLine(Bursts(ops, shown));
      EndAnswer(Rounds(ops));
      TellOfAbort(ending, answer, closed);
      if failed {
        failed := false;
        return Err(());
      }
      Tell(ending, answer, closed);
      return Ok(if ending == Some(Aborted) then NO_CONSENT
                else if ending.Some? || answer == Truncated then INCOMPLETE else 0);
    }

    /** What is said even of an answer that did not reach stdout. */
    method TellOfAbort(ending: Option<Unfinished>, ghost answer: Answer, ghost closed: string)
      requires !errLost ==> err == closed
      modifies this`err, this`errWrites, this`errLost
      ensures errLost == old(errLost) || (errLost && MayFail(errFails))
      ensures !errLost ==> err == closed + Accounts(device, wording, Remarks(ending, answer, true))
    {
      if ending == Some(Aborted) {
        Note(About(Aborted), closed, []);
      }
    }

    /** What is said only of an answer that reached stdout. */
    method Tell(ending: Option<Unfinished>, answer: Answer, ghost closed: string)
      requires !errLost ==> err == closed + Accounts(device, wording, Remarks(ending, answer, true))
      modifies this`err, this`errWrites, this`errLost
      ensures errLost == old(errLost) || (errLost && MayFail(errFails))
      ensures !errLost ==> err == closed + Accounts(device, wording, Remarks(ending, answer, false))
    {
      ghost var said := Remarks(ending, answer, true);
      if answer == Truncated {
        Note(AtMaxTokens, closed, said);
        said := said + [AtMaxTokens];
      }
      if ending.Some? && ending != Some(Aborted) {
        Note(About(ending.value), closed, said);
        said := said + [About(ending.value)];
      }
    }
  }

  lemma OneMoreAccount(device: Device, wording: Remark -> Line, remarks: seq<Remark>, remark: Remark)
    ensures Accounts(device, wording, remarks + [remark]) ==
            Accounts(device, wording, remarks) + Account(device, wording(remark))
  {
    assert (remarks + [remark])[..|remarks|] == remarks;
  }

  lemma MoreOfARound(rounds: seq<string>, delta: string)
    requires rounds != []
    ensures var last := rounds[|rounds| - 1];
            Joined(rounds[..|rounds| - 1] + [last + delta]) ==
            Joined(rounds) + (if last == "" && delta != "" && Joined(rounds) != "" then Gap(Joined(rounds)) else "") + delta
  {
    var before := rounds[..|rounds| - 1];
    var next := before + [rounds[|rounds| - 1] + delta];
    assert next[..|next| - 1] == before;
    MoreAdjoined(Joined(before), rounds[|rounds| - 1], delta);
  }

  lemma MoreAdjoined(before: string, round: string, delta: string)
    ensures var text := Adjoined(before, round);
            Adjoined(before, round + delta) ==
            text + (if round == "" && delta != "" && text != "" then Gap(text) else "") + delta
  {
    if delta == "" {
      assert round + delta == round;
    } else if round != "" && before != "" {
      assert before + Gap(before) + (round + delta) == (before + Gap(before) + round) + delta;
    }
  }

  lemma MoreOfABurst(bursts: seq<string>, text: string)
    requires bursts != [] && text != ""
    ensures var next := bursts[..|bursts| - 1] + [bursts[|bursts| - 1] + text];
            Streamed(next) == Streamed(bursts) + text && MidLine(next[|next| - 1]) == MidLine(text)
  {
    var next := bursts[..|bursts| - 1] + [bursts[|bursts| - 1] + text];
    assert next[..|next| - 1] == bursts[..|bursts| - 1];
  }

  lemma NoMoreOfABurst(bursts: seq<string>)
    requires bursts != []
    ensures bursts[..|bursts| - 1] + [bursts[|bursts| - 1] + ""] == bursts
  {
    assert bursts[|bursts| - 1] + "" == bursts[|bursts| - 1];
  }

  // ----- A whole turn -----

  /** Whatever happened and however it ended: stdout holds the rounds, a gap between each two, the
      last line terminated, and is reported as failed if it holds only a beginning of that;
      stderr holds whole lines of reasoning, then whole lines about the turn. */
  method Turn(ops: seq<Op>, ending: Option<Unfinished>, roundStop: Option<StopReason>, shown: bool, device: Device,
              wording: Remark -> Line, outFails: Failures, errFails: Failures)
    returns (out: string, err: string, told: Result<int, ()>)
    ensures out <= Closed(Joined(Rounds(ops)))
    ensures told.Ok? ==> out == Closed(Joined(Rounds(ops)))
    ensures !MayFail(outFails) ==> told.Ok?
    ensures told.Ok? ==> told.value in {0, INCOMPLETE, NO_CONSENT}
    ensures told == Ok(0) <==> told.Ok? && ending.None? && roundStop != Some(StopReason.MaxTokens)
    ensures told == Ok(NO_CONSENT) <==> told.Ok? && ending == Some(Aborted)
    ensures !MayFail(errFails) ==>
              err == AllClosed(Bursts(ops, shown)) + Accounts(device, wording, Remarks(ending, AnswerOf(roundStop), told.Err?))
  {
    var renderer := new Renderer(shown, device, wording, outFails, errFails);
    for i := 0 to |ops|
      invariant renderer.Follows(ops[..i])
      invariant renderer.shown == shown
    {
      assert ops[..i + 1] == ops[..i] + [ops[i]];
      match ops[i] {
        case Happened(event) => renderer.Event(event, ops[..i]);
        case Separated => renderer.Separate(ops[..i]);
      }
    }
    assert ops[..|ops|] == ops;
    told := renderer.Finish(ending, AnswerOf(roundStop), ops);
    out, err := renderer.out, renderer.err;
  }

  // ----- What that layout promises -----

  /** Empty, or ended with a newline. */
  predicate WholeLines(text: string) {
    !MidLine(text)
  }

  /** One newline and no second: a terminated text is left as it is. */
  lemma ClosingEndsTheLine(text: string)
    ensures WholeLines(Closed(text)) && (Closed(text) == text <==> WholeLines(text))
  {
    if MidLine(text) { assert Closed(text)[|text|] == '\n'; }
  }

  lemma {:induction false} ClosedBurstsAreWholeLines(bursts: seq<string>)
    ensures WholeLines(AllClosed(bursts))
  {
    if bursts != [] {
      ClosedBurstsAreWholeLines(bursts[..|bursts| - 1]);
      ClosingEndsTheLine(bursts[|bursts| - 1]);
    }
  }

  /** By the time answer text is written, or a round has stopped, no line of reasoning is open. */
  lemma AnswersStartAFreshLine(ops: seq<Op>, event: AgentEvent, shown: bool)
    requires EndsABurst(event)
    ensures Streamed(Bursts(ops + [Happened(event)], shown)) == AllClosed(Bursts(ops, shown))
    ensures WholeLines(Streamed(Bursts(ops + [Happened(event)], shown)))
  {
    var next := ops + [Happened(event)];
    var bursts := Bursts(ops, shown);
    assert next[..|ops|] == ops;
    assert (bursts + [""])[..|bursts|] == bursts;
    ClosedBurstsAreWholeLines(bursts);
  }

  /** Each remark is a line of its own, whatever reasoning was cut short before it. */
  lemma RemarksStartAFreshLine(bursts: seq<string>, device: Device, wording: Remark -> Line, remarks: seq<Remark>,
                               k: nat)
    requires k < |remarks|
    ensures var before := AllClosed(bursts) + Accounts(device, wording, remarks[..k]);
            WholeLines(before)
            && before + Account(device, wording(remarks[k])) <= AllClosed(bursts) + Accounts(device, wording, remarks)
  {
    ClosedBurstsAreWholeLines(bursts);
    AccountsExtend(device, wording, remarks, k);
    AccountsExtend(device, wording, remarks, k + 1);
    assert remarks[..k + 1][..k] == remarks[..k];
    if k > 0 {
      assert Accounts(device, wording, remarks[..k]) ==
             Accounts(device, wording, remarks[..k][..k - 1]) + Account(device, wording(remarks[..k][k - 1]));
    }
  }

  lemma {:induction false} AccountsExtend(device: Device, wording: Remark -> Line, remarks: seq<Remark>, k: nat)
    requires k <= |remarks|
    ensures Accounts(device, wording, remarks[..k]) <= Accounts(device, wording, remarks)
    decreases |remarks|
  {
    if k < |remarks| {
      AccountsExtend(device, wording, remarks[..|remarks| - 1], k);
      assert remarks[..|remarks| - 1][..k] == remarks[..k];
    } else {
      assert remarks[..k] == remarks;
    }
  }

  /** The newlines a text ends in. */
  function Newlines(text: string): nat {
    if text == "" || text[|text| - 1] != '\n' then 0 else 1 + Newlines(text[..|text| - 1])
  }

  lemma OneMoreNewline(text: string)
    ensures Newlines(text + ['\n']) == Newlines(text) + 1
  {
    assert (text + ['\n'])[..|text|] == text;
  }

  /** There is always a blank line between rounds: a part-written line is ended and one added, and a
      text that ended its last line gets one newline more, however many it ended in. */
  lemma GapLeavesABlankLine(before: string)
    requires before != ""
    ensures Newlines(before + Gap(before)) == if Newlines(before) == 0 then 2 else Newlines(before) + 1
  {
    OneMoreNewline(before);
    if MidLine(before) {
      OneMoreNewline(before + ['\n']);
      assert before + Gap(before) == before + ['\n'] + ['\n'];
    }
  }

  /** It is one blank line, and no more, exactly unless the round before ended in one of its own. */
  lemma GapIsOneBlankLineIff(before: string)
    requires before != ""
    ensures Newlines(before + Gap(before)) == 2 <==> |before| < 2 || before[|before| - 2..] != ['\n', '\n']
  {
    GapLeavesABlankLine(before);
    var front := before[..|before| - 1];
    if |before| >= 2 {
      assert before[|before| - 2..] == [front[|front| - 1], before[|before| - 1]];
    }
  }

  /** Such a round is set off by two. */
  lemma ABlankLineOfItsOwnIsKept()
    ensures Joined(["a\n\n", "b"]) == "a\n\n\nb"
  {
    var rounds := ["a\n\n", "b"];
    assert rounds[..1] == ["a\n\n"] && ["a\n\n"][..0] == [];
    assert Joined([]) == "" && Joined(["a\n\n"]) == "a\n\n";
  }

  function Spoken(rounds: seq<string>): seq<string> {
    if rounds == [] then []
    else
      var before := Spoken(rounds[..|rounds| - 1]);
      if rounds[|rounds| - 1] == "" then before else before + [rounds[|rounds| - 1]]
  }

  /** A round that answers with nothing leaves no trace, however many there are. */
  lemma {:induction false} SilentRoundsLeaveNoTrace(rounds: seq<string>)
    ensures Joined(Spoken(rounds)) == Joined(rounds)
  {
    if rounds != [] {
      var before := rounds[..|rounds| - 1];
      SilentRoundsLeaveNoTrace(before);
      var spoken := Spoken(before);
      assert (spoken + [rounds[|rounds| - 1]])[..|spoken|] == spoken;
    }
  }

  /** The streamed deltas, nothing between them. */
  function Deltas(ops: seq<Op>): string {
    if ops == [] then ""
    else
      Deltas(ops[..|ops| - 1]) +
      if ops[|ops| - 1].Happened? && ops[|ops| - 1].event.Text? then ops[|ops| - 1].event.delta else ""
  }

  function Concat(texts: seq<string>): string {
    if texts == [] then "" else Concat(texts[..|texts| - 1]) + texts[|texts| - 1]
  }

  /** The rounds hold every delta, in order and no other character. */
  lemma {:induction false} RoundsHoldTheDeltas(ops: seq<Op>)
    ensures Concat(Rounds(ops)) == Deltas(ops)
  {
    if ops != [] {
      var before := ops[..|ops| - 1];
      RoundsHoldTheDeltas(before);
      var rounds := Rounds(before);
      var last := ops[|ops| - 1];
      if last.Separated? {
        assert (rounds + [""])[..|rounds|] == rounds;
      } else if last.event.Text? {
        var next := RoundsAfter(rounds, last.event);
        assert next[..|next| - 1] == rounds[..|rounds| - 1];
      }
    }
  }

  /** A turn that is never separated goes out untouched. */
  lemma UnseparatedIsUntouched(ops: seq<Op>)
    requires Separated !in ops
    ensures Joined(Rounds(ops)) == Deltas(ops)
  {
    UnseparatedIsOneRound(ops);
    RoundsHoldTheDeltas(ops);
    var rounds := Rounds(ops);
    assert Concat(rounds) == Concat(rounds[..0]) + rounds[0];
  }

  lemma {:induction false} UnseparatedIsOneRound(ops: seq<Op>)
    requires Separated !in ops
    ensures |Rounds(ops)| == 1 && Joined(Rounds(ops)) == Rounds(ops)[0]
  {
    if ops != [] { UnseparatedIsOneRound(ops[..|ops| - 1]); }
  }
}
