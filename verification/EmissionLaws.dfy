/** What a run of the accumulator emits for what it was sent, said on whole runs and on the frames
    themselves: a tool call or a thought comes out under what its own start and deltas gave it. */
module EmissionLaws {
  import opened Wrappers
  import opened Text
  import opened WireAccumulate
  import opened WireLaws

  /** A block started at `i`, and nothing since that starts or stops one there. */
  function StillOpen(before: seq<Frame>, i: nat, block: RawBlockStart, later: seq<Frame>): seq<Frame> {
    before + [BlockStart(i, block)] + later
  }

  predicate LeavesAlone(later: seq<Frame>, i: nat) {
    forall k | 0 <= k < |later| :: !Marks(later[k], i)
  }

  lemma {:induction false} TheLastMarkIsTheStart(before: seq<Frame>, i: nat, block: RawBlockStart, later: seq<Frame>)
    requires LeavesAlone(later, i)
    ensures LastMark(StillOpen(before, i, block, later), i) == |before|
    ensures OpenAt(StillOpen(before, i, block, later), i) == Since(block, later, i)
    decreases |later|
  {
    var frames := StillOpen(before, i, block, later);
    forall j | |before| < j < |frames| ensures !Marks(frames[j], i) {
      assert frames[j] == later[j - |before| - 1];
    }
    assert frames[|before|] == BlockStart(i, block) && Marks(frames[|before|], i);
    assert frames[|before| + 1..] == later;
  }

  // ----- Tool calls -----

  /** A call that is stopped comes out under the id and the name it was started with, carrying what
      its argument text reads as; the empty object if that is blank; an error if it cannot be read. */
  lemma AStopEmitsTheCall(read: JsonReader, before: seq<Frame>, i: nat, id: string, name: string, later: seq<Frame>,
                          raws: seq<Raw>)
    requires LeavesAlone(later, i)
    ensures var frames, text := StillOpen(before, i, StartToolUse(id, name), later), JsonText(later, i);
            Eager(read, After(frames), [Parsed(BlockStop(i))] + raws) ==
            [if IsBlank(text) then Ok(ToolCallRequested(id, name, Object([])))
             else if read(text).Some? then Ok(ToolCallRequested(id, name, read(text).value))
             else Err(ToolInputMalformed(i))]
            + Eager(read, After(frames + [BlockStop(i)]), raws)
  {
    AStopEmitsWhatIsOpen(read, StillOpen(before, i, StartToolUse(id, name), later), i, raws);
    TheLastMarkIsTheStart(before, i, StartToolUse(id, name), later);
  }

  lemma AStopEmitsWhatIsOpen(read: JsonReader, frames: seq<Frame>, i: nat, raws: seq<Raw>)
    ensures var block := OpenAt(frames, i);
            Eager(read, After(frames), [Parsed(BlockStop(i))] + raws) ==
            (if block.Some? then ClosedBlockEvent(read, i, block.value) else [])
            + Eager(read, After(frames + [BlockStop(i)]), raws)
  {
    FoldHoldsOpenBlocks(frames, i);
    OneFrameFirst(read, After(frames), BlockStop(i), raws);
    assert (frames + [BlockStop(i)])[..|frames|] == frames;
  }

  // ----- Thoughts -----

  /** A thought that is stopped comes out whole, what its start held first, if it was ever signed;
      unsigned or signed with nothing, it does not. */
  lemma AStopEmitsTheThought(read: JsonReader, before: seq<Frame>, i: nat, thinking: string, later: seq<Frame>, raws: seq<Raw>)
    requires LeavesAlone(later, i)
    ensures var frames := StillOpen(before, i, StartThinking(thinking), later);
            var text, signature := thinking + ThoughtText(later, i), SignatureText(later, i);
            Eager(read, After(frames), [Parsed(BlockStop(i))] + raws) ==
            (if signature.Some? && signature.value != "" then [Ok(ThinkingBlock(text, signature.value))] else [])
            + Eager(read, After(frames + [BlockStop(i)]), raws)
  {
    AStopEmitsWhatIsOpen(read, StillOpen(before, i, StartThinking(thinking), later), i, raws);
    TheLastMarkIsTheStart(before, i, StartThinking(thinking), later);
  }

  /** A stop where nothing is accumulated says nothing. */
  lemma AStopElsewhereIsSilent(read: JsonReader, before: seq<Frame>, i: nat, block: RawBlockStart, later: seq<Frame>,
                               raws: seq<Raw>)
    requires LeavesAlone(later, i) && !block.StartToolUse? && !block.StartThinking?
    ensures var frames := StillOpen(before, i, block, later);
            Eager(read, After(frames), [Parsed(BlockStop(i))] + raws) == Eager(read, After(frames + [BlockStop(i)]), raws)
  {
    AStopEmitsWhatIsOpen(read, StillOpen(before, i, block, later), i, raws);
    TheLastMarkIsTheStart(before, i, block, later);
  }

  /** The pieces of an index, in the order they came, and of no other index or kind. */
  lemma PiecesComeInOrder(a: seq<Frame>, b: seq<Frame>, i: nat)
    ensures JsonText(a + b, i) == JsonText(a, i) + JsonText(b, i)
    ensures ThoughtText(a + b, i) == ThoughtText(a, i) + ThoughtText(b, i)
    ensures SignatureText(a + b, i) ==
            if SignatureText(b, i).None? then SignatureText(a, i)
            else Some(SignatureText(a, i).GetOr("") + SignatureText(b, i).value)
  {
    JsonComesInOrder(a, b, i);
    ThoughtsComeInOrder(a, b, i);
    SignaturesComeInOrder(a, b, i);
  }

  lemma {:induction false} JsonComesInOrder(a: seq<Frame>, b: seq<Frame>, i: nat)
    ensures JsonText(a + b, i) == JsonText(a, i) + JsonText(b, i)
    decreases b
  {
    if b == [] {
      assert a + b == a;
    } else {
      assert (a + b)[..|a + b| - 1] == a + b[..|b| - 1];
      JsonComesInOrder(a, b[..|b| - 1], i);
    }
  }

  lemma {:induction false} ThoughtsComeInOrder(a: seq<Frame>, b: seq<Frame>, i: nat)
    ensures ThoughtText(a + b, i) == ThoughtText(a, i) + ThoughtText(b, i)
    decreases b
  {
    if b == [] {
      assert a + b == a;
    } else {
      assert (a + b)[..|a + b| - 1] == a + b[..|b| - 1];
      ThoughtsComeInOrder(a, b[..|b| - 1], i);
    }
  }

  lemma {:induction false} SignaturesComeInOrder(a: seq<Frame>, b: seq<Frame>, i: nat)
    ensures SignatureText(a + b, i) ==
            if SignatureText(b, i).None? then SignatureText(a, i)
            else Some(SignatureText(a, i).GetOr("") + SignatureText(b, i).value)
    decreases b
  {
    if b == [] {
      assert a + b == a;
    } else {
      var front, last := b[..|b| - 1], b[|b| - 1];
      assert (a + b)[..|a + b| - 1] == a + front && (a + b)[|a + b| - 1] == last;
      SignaturesComeInOrder(a, front, i);
      if last.BlockDelta? && last.index == i && last.delta.SignatureDelta? {
        SignatureGrows(SignatureText(a, i).GetOr(""), SignatureText(front, i).GetOr(""), last.delta.signature);
      }
    }
  }

  lemma SignatureGrows(a: string, b: string, c: string)
    ensures a + (b + c) == (a + b) + c && a + "" == a && "" + c == c
  {
  }

  lemma OnePiece(frame: Frame, i: nat)
    ensures JsonText([frame], i) ==
            if frame.BlockDelta? && frame.index == i && frame.delta.InputJsonDelta? then frame.delta.partialJson else ""
    ensures ThoughtText([frame], i) ==
            if frame.BlockDelta? && frame.index == i && frame.delta.ThinkingDelta? then frame.delta.thinking else ""
    ensures SignatureText([frame], i) ==
            if frame.BlockDelta? && frame.index == i && frame.delta.SignatureDelta? then Some(frame.delta.signature) else None
  {
    assert [frame][..0] == [];
    if frame.BlockDelta? && frame.delta.SignatureDelta? { SignatureGrows("", "", frame.delta.signature); }
  }

  // ----- The end of the message -----

  function Stops(order: seq<nat>): seq<Raw> {
    if order == [] then [] else [Parsed(BlockStop(order[0]))] + Stops(order[1..])
  }

  lemma {:induction false} FlushReadsOnlyItsBlocks(read: JsonReader, blocks: map<nat, OpenBlock>, fewer: map<nat, OpenBlock>,
                                                   order: seq<nat>)
    requires forall k | k in order :: k in fewer && k in blocks && fewer[k] == blocks[k]
    ensures FlushInOrder(read, blocks, order) == FlushInOrder(read, fewer, order)
  {
    if order != [] { FlushReadsOnlyItsBlocks(read, blocks, fewer, order[1..]); }
  }

  lemma StopsPeel(first: nat, rest: seq<nat>, raws: seq<Raw>)
    ensures Stops([first] + rest) + raws == [Parsed(BlockStop(first))] + (Stops(rest) + raws)
  {
    assert ([first] + rest)[1..] == rest;
  }

  lemma StoppingOne(read: JsonReader, core: Core, first: nat, raws: seq<Raw>)
    requires first in core.blocks
    ensures Eager(read, core, [Parsed(BlockStop(first))] + raws) ==
            ClosedBlockEvent(read, first, core.blocks[first]) + Eager(read, core.(blocks := core.blocks - {first}), raws)
  {
    OneFrameFirst(read, core, BlockStop(first), raws);
  }

  lemma {:induction false} StoppingAll(read: JsonReader, core: Core, order: seq<nat>, raws: seq<Raw>)
    requires order == Ascending(core.blocks.Keys)
    ensures Eager(read, core, Stops(order) + raws) ==
            FlushInOrder(read, core.blocks, order) + Eager(read, core.(blocks := map[]), raws)
    decreases |order|
  {
    if order == [] {
      assert core.blocks == map[];
      assert Stops(order) + raws == raws;
    } else {
      var first, rest := order[0], order[1..];
      var fewer := core.(blocks := core.blocks - {first});
      assert fewer.blocks.Keys == core.blocks.Keys - {first};
      StoppingAll(read, fewer, rest, raws);
      FlushReadsOnlyItsBlocks(read, core.blocks, fewer.blocks, rest);
      assert order == [first] + rest;
      StopsPeel(first, rest, raws);
      StoppingOne(read, core, first, Stops(rest) + raws);
      JoinItems(ClosedBlockEvent(read, first, core.blocks[first]), FlushInOrder(read, fewer.blocks, rest),
                Eager(read, core.(blocks := map[]), raws));
    }
  }

  lemma JoinItems(a: seq<Item>, b: seq<Item>, c: seq<Item>)
    ensures a + (b + c) == a + b + c
  {
  }

  lemma EndingAtOnce(read: JsonReader, core: Core, raws: seq<Raw>)
    ensures Eager(read, core, [Parsed(MessageStop)] + raws) ==
            Flush(read, core.blocks) + (UsageEvent(core.usage) + [Ok(Stop(core.stopReason.GetOr(Unspecified)))])
  {
    JoinItems(Flush(read, core.blocks), UsageEvent(core.usage), [Ok(Stop(core.stopReason.GetOr(Unspecified)))]);
  }

  /** Ending the message with blocks still open is ending it after a stop for each of them, in
      ascending order of their indices. */
  lemma TheEndStopsEveryOpenBlock(read: JsonReader, frames: seq<Frame>, raws: seq<Raw>)
    ensures Eager(read, After(frames), [Parsed(MessageStop)] + raws) ==
            Eager(read, After(frames), Stops(Ascending(OpenIndices(frames))) + ([Parsed(MessageStop)] + raws))
  {
    var core := After(frames);
    var emptied := core.(blocks := map[]);
    FoldHoldsOpenIndices(frames);
    StoppingAll(read, core, Ascending(core.blocks.Keys), [Parsed(MessageStop)] + raws);
    EndingAtOnce(read, core, raws);
    EndingAtOnce(read, emptied, raws);
    assert emptied.blocks.Keys == {} && Ascending({}) == [];
  }

  lemma {:induction false} WhatIsOpenIsFlushed(read: JsonReader, blocks: map<nat, OpenBlock>, order: seq<nat>, i: nat, item: Item)
    requires (forall k | k in order :: k in blocks) && i in order && item in ClosedBlockEvent(read, i, blocks[i])
    ensures item in FlushInOrder(read, blocks, order)
  {
    if order[0] != i { WhatIsOpenIsFlushed(read, blocks, order[1..], i, item); }
  }

  lemma TheEndFlushesWhatIsOpen(read: JsonReader, frames: seq<Frame>, i: nat, raws: seq<Raw>, item: Item)
    requires OpenAt(frames, i).Some? && item in ClosedBlockEvent(read, i, OpenAt(frames, i).value)
    ensures item in Eager(read, After(frames), [Parsed(MessageStop)] + raws)
  {
    FoldHoldsOpenBlocks(frames, i);
    EndingAtOnce(read, After(frames), raws);
    WhatIsOpenIsFlushed(read, After(frames).blocks, Ascending(After(frames).blocks.Keys), i, item);
  }

  /** So a call nothing stopped comes out at the end, under its own id and name and with what its text
      reads as, or as the error that it cannot be read; */
  lemma TheEndEmitsTheCall(read: JsonReader, before: seq<Frame>, i: nat, id: string, name: string, later: seq<Frame>,
                           raws: seq<Raw>)
    requires LeavesAlone(later, i)
    ensures var frames, text := StillOpen(before, i, StartToolUse(id, name), later), JsonText(later, i);
            (if IsBlank(text) then Ok(ToolCallRequested(id, name, Object([])))
             else if read(text).Some? then Ok(ToolCallRequested(id, name, read(text).value))
             else Err(ToolInputMalformed(i)))
            in Eager(read, After(frames), [Parsed(MessageStop)] + raws)
  {
    var frames, text := StillOpen(before, i, StartToolUse(id, name), later), JsonText(later, i);
    TheLastMarkIsTheStart(before, i, StartToolUse(id, name), later);
    TheEndFlushesWhatIsOpen(read, frames, i, raws, ToolCallEvent(read, i, id, name, text));
  }

  /** and a signed thought nothing stopped, whole. */
  lemma TheEndEmitsTheThought(read: JsonReader, before: seq<Frame>, i: nat, thinking: string, later: seq<Frame>, raws: seq<Raw>)
    requires LeavesAlone(later, i) && SignatureText(later, i).Some? && SignatureText(later, i).value != ""
    ensures Ok(ThinkingBlock(thinking + ThoughtText(later, i), SignatureText(later, i).value))
            in Eager(read, After(StillOpen(before, i, StartThinking(thinking), later)), [Parsed(MessageStop)] + raws)
  {
    var frames := StillOpen(before, i, StartThinking(thinking), later);
    TheLastMarkIsTheStart(before, i, StartThinking(thinking), later);
    TheEndFlushesWhatIsOpen(read, frames, i, raws,
                            Ok(ThinkingBlock(thinking + ThoughtText(later, i), SignatureText(later, i).value)));
  }

  // ----- What is shown as it comes -----

  lemma IncrementsAreShownAsTheyCome(read: JsonReader, frames: seq<Frame>, i: nat, text: string, raws: seq<Raw>)
    ensures var frame := BlockDelta(i, TextDelta(text));
            Eager(read, After(frames), [Parsed(frame)] + raws) == [Ok(Text(text))] + Eager(read, After(frames + [frame]), raws)
    ensures var frame := BlockDelta(i, ThinkingDelta(text));
            Eager(read, After(frames), [Parsed(frame)] + raws) == [Ok(Thinking(text))] + Eager(read, After(frames + [frame]), raws)
    ensures var frame := BlockStart(i, StartRedacted(text));
            Eager(read, After(frames), [Parsed(frame)] + raws)
            == [Ok(RedactedThinking(text))] + Eager(read, After(frames + [frame]), raws)
  {
    var text1, text2, text3 := BlockDelta(i, TextDelta(text)), BlockDelta(i, ThinkingDelta(text)), BlockStart(i, StartRedacted(text));
    OneFrameFirst(read, After(frames), text1, raws);
    OneFrameFirst(read, After(frames), text2, raws);
    OneFrameFirst(read, After(frames), text3, raws);
    assert (frames + [text1])[..|frames|] == frames && (frames + [text2])[..|frames|] == frames
        && (frames + [text3])[..|frames|] == frames;
  }

  /** The reasons the API names, and any other under its own name. */
  lemma ReasonsAreRead(other: string)
    requires other !in {"end_turn", "tool_use", "max_tokens", "stop_sequence"}
    ensures StopReasonOf("end_turn") == EndTurn && StopReasonOf("tool_use") == ToolUseStop
    ensures StopReasonOf("max_tokens") == MaxTokens && StopReasonOf("stop_sequence") == StopSequence
    ensures StopReasonOf(other) == Other(other)
  {
  }

  // ----- One turn, whole -----

  function AsRaws(frames: seq<Frame>): seq<Raw> {
    if frames == [] then [] else [Parsed(frames[0])] + AsRaws(frames[1..])
  }

  /** From `core`, `frames` say `items` and leave `after`, whatever follows. */
  ghost predicate Says(read: JsonReader, core: Core, frames: seq<Frame>, items: seq<Item>, after: Core) {
    forall raws {:trigger Eager(read, core, AsRaws(frames) + raws)} ::
      Eager(read, core, AsRaws(frames) + raws) == items + Eager(read, after, raws)
  }

  lemma SaysNothing(read: JsonReader, core: Core)
    ensures Says(read, core, [], [], core)
  {
    forall raws: seq<Raw> ensures AsRaws([]) + raws == raws {
    }
  }

  lemma SaysMore(read: JsonReader, core: Core, frame: Frame, rest: seq<Frame>, items: seq<Item>, next: Core, after: Core)
    requires !Ending(Parsed(frame)) && next == Apply(core, frame) && Says(read, next, rest, items, after)
    ensures Says(read, core, [frame] + rest, Emit(read, core, frame) + items, after)
  {
    forall raws
      ensures Eager(read, core, AsRaws([frame] + rest) + raws) == Emit(read, core, frame) + items + Eager(read, after, raws)
    {
      assert ([frame] + rest)[1..] == rest;
      assert AsRaws([frame] + rest) + raws == [Parsed(frame)] + (AsRaws(rest) + raws);
      OneFrameFirst(read, core, frame, AsRaws(rest) + raws);
      JoinItems(Emit(read, core, frame), items, Eager(read, after, raws));
    }
  }

  function Counted(output: nat): RawUsage {
    RawUsage(Some(10), Some(output), None, Some(5))
  }

  /** A thought, signed and stopped. */
  lemma AThoughtInFull(read: JsonReader, core: Core)
    requires core.blocks == map[]
    ensures Says(read, core,
                 [BlockStart(0, StartThinking("a"))] + ([BlockDelta(0, ThinkingDelta("b"))]
                 + ([BlockDelta(0, SignatureDelta("s"))] + ([BlockStop(0)] + []))),
                 [] + ([Ok(Thinking("b"))] + ([] + ([Ok(ThinkingBlock("ab", "s"))] + []))), core)
  {
    var a := core.(blocks := map[0 := OpenThinking("a", None)]);
    var b := core.(blocks := map[0 := OpenThinking("ab", None)]);
    var c := core.(blocks := map[0 := OpenThinking("ab", Some("s"))]);
    assert "a" + "b" == "ab" && "" + "s" == "s";
    SaysNothing(read, core);
    SaysMore(read, c, BlockStop(0), [], [], core, core);
    SaysMore(read, b, BlockDelta(0, SignatureDelta("s")), [BlockStop(0)] + [], [Ok(ThinkingBlock("ab", "s"))] + [], c, core);
    SaysMore(read, a, BlockDelta(0, ThinkingDelta("b")), [BlockDelta(0, SignatureDelta("s"))] + ([BlockStop(0)] + []),
             [] + ([Ok(ThinkingBlock("ab", "s"))] + []), b, core);
    SaysMore(read, core, BlockStart(0, StartThinking("a")),
             [BlockDelta(0, ThinkingDelta("b"))] + ([BlockDelta(0, SignatureDelta("s"))] + ([BlockStop(0)] + [])),
             [Ok(Thinking("b"))] + ([] + ([Ok(ThinkingBlock("ab", "s"))] + [])), a, core);
  }

  /** Counts reported twice, and a reason. */
  lemma CountsInFull(read: JsonReader)
    ensures Says(read, FRESH,
                 [MessageStart(Counted(1))] + ([MessageDelta(Some("tool_use"), RawUsage(None, Some(7), None, None))] + []),
                 [] + ([] + []), Core(map[], Counted(7), Some(ToolUseStop)))
  {
    var after := Core(map[], Counted(7), Some(ToolUseStop));
    SaysNothing(read, after);
    SaysMore(read, Core(map[], Counted(1), None), MessageDelta(Some("tool_use"), RawUsage(None, Some(7), None, None)), [], [],
             after, after);
    SaysMore(read, FRESH, MessageStart(Counted(1)), [MessageDelta(Some("tool_use"), RawUsage(None, Some(7), None, None))] + [],
             [] + [], Core(map[], Counted(1), None), after);
  }

  /** A call started and in pieces. */
  lemma AnOpenCallInFull(read: JsonReader, core: Core)
    requires core.blocks == map[]
    ensures Says(read, core,
                 [BlockStart(2, StartToolUse("id", "name"))]
                 + ([BlockDelta(2, InputJsonDelta("{"))] + ([BlockDelta(2, InputJsonDelta("}"))] + [])),
                 [] + ([] + ([] + [])), core.(blocks := map[2 := ToolUse("id", "name", "{}")]))
  {
    var a := core.(blocks := map[2 := ToolUse("id", "name", "")]);
    var b := core.(blocks := map[2 := ToolUse("id", "name", "{")]);
    var c := core.(blocks := map[2 := ToolUse("id", "name", "{}")]);
    assert "" + "{" == "{" && "{" + "}" == "{}";
    SaysNothing(read, c);
    SaysMore(read, b, BlockDelta(2, InputJsonDelta("}")), [], [], c, c);
    SaysMore(read, a, BlockDelta(2, InputJsonDelta("{")), [BlockDelta(2, InputJsonDelta("}"))] + [], [] + [], b, c);
    SaysMore(read, core, BlockStart(2, StartToolUse("id", "name")),
             [BlockDelta(2, InputJsonDelta("{"))] + ([BlockDelta(2, InputJsonDelta("}"))] + []), [] + ([] + []), a, c);
  }

  /** Where nothing was said, the end of the message comes next. */
  lemma TheEndComesNext(read: JsonReader, core: Core, frames: seq<Frame>, nothing: seq<Item>, after: Core)
    requires Says(read, core, frames, nothing, after) && nothing == []
    ensures Eager(read, core, AsRaws(frames) + [Parsed(MessageStop)]) ==
            Flush(read, after.blocks) + (UsageEvent(after.usage) + [Ok(Stop(after.stopReason.GetOr(Unspecified)))])
  {
    EndingAtOnce(read, after, []);
    assert [Parsed(MessageStop)] + [] == [Parsed(MessageStop)];
  }

  /** A call nothing stopped, and the end of the message. */
  lemma ACallInFull(read: JsonReader, core: Core, input: Json)
    requires core.blocks == map[] && read("{}") == Some(input)
    ensures Eager(read, core, AsRaws([BlockStart(2, StartToolUse("id", "name"))] + ([BlockDelta(2, InputJsonDelta("{"))]
                              + ([BlockDelta(2, InputJsonDelta("}"))] + []))) + [Parsed(MessageStop)]) ==
            [Ok(ToolCallRequested("id", "name", input))]
            + (UsageEvent(core.usage) + [Ok(Stop(core.stopReason.GetOr(Unspecified)))])
  {
    AnOpenCallInFull(read, core);
    TheEndComesNext(read, core, [BlockStart(2, StartToolUse("id", "name"))]
                                + ([BlockDelta(2, InputJsonDelta("{"))] + ([BlockDelta(2, InputJsonDelta("}"))] + [])),
                    [] + ([] + ([] + [])), core.(blocks := map[2 := ToolUse("id", "name", "{}")]));
    TheCallIsFlushed(read, input);
  }

  lemma TheCallIsFlushed(read: JsonReader, input: Json)
    requires read("{}") == Some(input)
    ensures Flush(read, map[2 := ToolUse("id", "name", "{}")]) == [Ok(ToolCallRequested("id", "name", input))]
  {
    var blocks := map[2 := ToolUse("id", "name", "{}")];
    assert blocks.Keys == {2} && {2} - {2} == {};
    assert Least(blocks.Keys) == 2 && blocks.Keys - {2} == {};
    assert Ascending(blocks.Keys) == [2] + Ascending({}) == [2];
    assert [2][1..] == [] && FlushInOrder(read, blocks, []) == [];
    assert !IsBlank("{}") by { assert "{}"[0] in "{}"; }
  }
}
