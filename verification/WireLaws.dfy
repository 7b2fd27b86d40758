/** What a run of the accumulator means, said without any state: every item read off the frames
    that came before it, and the shape every run has whatever the transport did. */
module WireLaws {
  import opened Wrappers
  import opened Text
  import opened WireAccumulate

  // ----- A stateless reading of the frames -----

  /** Opens, replaces or closes whatever index `i` held. */
  predicate Marks(frame: Frame, i: nat) {
    (frame.BlockStart? || frame.BlockStop?) && frame.index == i
  }

  function LastMark(frames: seq<Frame>, i: nat): (k: int)
    ensures -1 <= k < |frames|
    ensures k >= 0 ==> Marks(frames[k], i)
    ensures forall j | k < j < |frames| :: !Marks(frames[j], i)
  {
    if frames == [] then -1
    else if Marks(frames[|frames| - 1], i) then |frames| - 1
    else LastMark(frames[..|frames| - 1], i)
  }

  function JsonPiece(frame: Frame, i: nat): string {
    if frame.BlockDelta? && frame.index == i && frame.delta.InputJsonDelta? then frame.delta.partialJson else ""
  }

  function ThoughtPiece(frame: Frame, i: nat): string {
    if frame.BlockDelta? && frame.index == i && frame.delta.ThinkingDelta? then frame.delta.thinking else ""
  }

  /** The argument text index `i` received, in order. */
  function JsonText(frames: seq<Frame>, i: nat): string {
    if frames == [] then "" else JsonText(frames[..|frames| - 1], i) + JsonPiece(frames[|frames| - 1], i)
  }

  function ThoughtText(frames: seq<Frame>, i: nat): string {
    if frames == [] then "" else ThoughtText(frames[..|frames| - 1], i) + ThoughtPiece(frames[|frames| - 1], i)
  }

  /** The signature pieces index `i` received, `None` if there was none at all. */
  function SignatureText(frames: seq<Frame>, i: nat): Option<string> {
    if frames == [] then None
    else
      var before, last := SignatureText(frames[..|frames| - 1], i), frames[|frames| - 1];
      if last.BlockDelta? && last.index == i && last.delta.SignatureDelta?
      then Some(before.GetOr("") + last.delta.signature) else before
  }

  /** A block and the matching deltas that came after its start. */
  function Since(block: RawBlockStart, later: seq<Frame>, i: nat): Option<OpenBlock> {
    match block
    case StartToolUse(id, name) => Some(ToolUse(id, name, JsonText(later, i)))
    case StartThinking(thinking) => Some(OpenThinking(thinking + ThoughtText(later, i), SignatureText(later, i)))
    case _ => None
  }

  /** The block open at index `i` after `frames`: the data of the last start there, and the
      matching deltas there since, unless something closed or displaced it. */
  function OpenAt(frames: seq<Frame>, i: nat): Option<OpenBlock> {
    var k := LastMark(frames, i);
    if k < 0 || !frames[k].BlockStart? then None else Since(frames[k].block, frames[k + 1..], i)
  }

  datatype Counter = InputTokens | OutputTokens | CacheCreation | CacheRead

  function Pick(usage: RawUsage, counter: Counter): Option<nat> {
    match counter
    case InputTokens => usage.inputTokens
    case OutputTokens => usage.outputTokens
    case CacheCreation => usage.cacheCreation
    case CacheRead => usage.cacheRead
  }

  function Report(frame: Frame): RawUsage {
    if frame.MessageStart? || frame.MessageDelta? then frame.usage else NO_USAGE
  }

  /** The most recent value any frame reported for `counter`. */
  function LastReported(frames: seq<Frame>, counter: Counter): Option<nat> {
    if frames == [] then None
    else
      var last := Pick(Report(frames[|frames| - 1]), counter);
      if last.Some? then last else LastReported(frames[..|frames| - 1], counter)
  }

  function ReportedUsage(frames: seq<Frame>): RawUsage {
    RawUsage(LastReported(frames, InputTokens), LastReported(frames, OutputTokens),
             LastReported(frames, CacheCreation), LastReported(frames, CacheRead))
  }

  /** The most recent stop reason any frame named. */
  function LastReason(frames: seq<Frame>): Option<StopReason> {
    if frames == [] then None
    else
      var last := frames[|frames| - 1];
      if last.MessageDelta? && last.stopReason.Some? then Some(StopReasonOf(last.stopReason.value))
      else LastReason(frames[..|frames| - 1])
  }

  /** The indices at which a block is still open. */
  function OpenIndices(frames: seq<Frame>): set<nat> {
    set k | 0 <= k < |frames| && frames[k].BlockStart? && OpenAt(frames, frames[k].index).Some? :: frames[k].index
  }

  /** The frames a run folds, and what ends it. */
  function FramesOf(raws: seq<Raw>): seq<Frame> {
    if raws == [] || Ending(raws[0]) then []
    else (if raws[0].Parsed? then [raws[0].frame] else []) + FramesOf(raws[1..])
  }

  function CauseOf(raws: seq<Raw>): (cause: Option<Raw>)
    ensures cause.Some? ==> Ending(cause.value)
  {
    if raws == [] then None else if Ending(raws[0]) then Some(raws[0]) else CauseOf(raws[1..])
  }

  function RefEmit(read: JsonReader, before: seq<Frame>, frame: Frame): seq<Item> {
    match frame
    case BlockStart(_, StartRedacted(data)) => [Ok(RedactedThinking(data))]
    case BlockDelta(_, TextDelta(text)) => [Ok(Text(text))]
    case BlockDelta(_, ThinkingDelta(thinking)) => [Ok(Thinking(thinking))]
    case BlockStop(index) =>
      var block := OpenAt(before, index);
      if block.Some? then ClosedBlockEvent(read, index, block.value) else []
    case _ => []
  }

  function RefItems(read: JsonReader, frames: seq<Frame>): seq<Item> {
    if frames == [] then []
    else
      var before := frames[..|frames| - 1];
      RefItems(read, before) + RefEmit(read, before, frames[|frames| - 1])
  }

  function RefFlush(read: JsonReader, frames: seq<Frame>, order: seq<nat>): seq<Item> {
    if order == [] then []
    else
      var block := OpenAt(frames, order[0]);
      (if block.Some? then ClosedBlockEvent(read, order[0], block.value) else []) + RefFlush(read, frames, order[1..])
  }

  function RefFinal(read: JsonReader, frames: seq<Frame>, cause: Option<Raw>): seq<Item>
    requires cause.Some? ==> Ending(cause.value)
  {
    var usage := UsageEvent(ReportedUsage(frames));
    match cause
    case None => usage + [Err(StreamEndedUnexpectedly)]
    case Some(Malformed(why)) => [Err(UnrecognizedEvent(why))]
    case Some(Broken(error)) => usage + [Err(Transport(error))]
    case Some(Parsed(ApiFailure(kind, message))) => usage + [Err(ApiError(kind, message))]
    case Some(Parsed(_)) =>
      RefFlush(read, frames, Ascending(OpenIndices(frames))) + usage + [Ok(Stop(LastReason(frames).GetOr(Unspecified)))]
  }

  // ----- The fold keeps to the reading -----

  function After(frames: seq<Frame>): Core {
    if frames == [] then FRESH else Apply(After(frames[..|frames| - 1]), frames[|frames| - 1])
  }

  function BlockAt(core: Core, i: nat): Option<OpenBlock> {
    if i in core.blocks then Some(core.blocks[i]) else None
  }

  /** One frame's effect on index `i` alone. */
  function Track(open: Option<OpenBlock>, frame: Frame, i: nat): Option<OpenBlock> {
    match frame
    case BlockStart(index, StartToolUse(id, name)) => if index == i then Some(ToolUse(id, name, "")) else open
    case BlockStart(index, StartThinking(thinking)) => if index == i then Some(OpenThinking(thinking, None)) else open
    case BlockStart(index, _) => if index == i then None else open
    case BlockStop(index) => if index == i then None else open
    case BlockDelta(index, delta) => if index == i && open.Some? then Some(Grown(open.value, delta)) else open
    case _ => open
  }

  lemma SinceTracks(block: RawBlockStart, later: seq<Frame>, frame: Frame, i: nat)
    requires !Marks(frame, i)
    ensures Since(block, later + [frame], i) == Track(Since(block, later, i), frame, i)
  {
    var more := later + [frame];
    assert more[..|more| - 1] == later;
    var json, thought := JsonText(later, i), ThoughtText(later, i);
    assert json + "" == json && thought + "" == thought;
    if block.StartThinking? {
      var piece := ThoughtPiece(frame, i);
      assert block.thinking + (thought + piece) == (block.thinking + thought) + piece;
    }
  }

  lemma JustStarted(block: RawBlockStart, i: nat)
    ensures Since(block, [], i) == Track(None, BlockStart(i, block), i)
  {
    if block.StartThinking? { assert block.thinking + "" == block.thinking; }
  }

  lemma LastMarkMore(frames: seq<Frame>, frame: Frame, i: nat)
    ensures LastMark(frames + [frame], i) == if Marks(frame, i) then |frames| else LastMark(frames, i)
  {
    assert (frames + [frame])[..|frames|] == frames;
  }

  lemma MarkTracks(frames: seq<Frame>, frame: Frame, i: nat)
    requires Marks(frame, i)
    ensures OpenAt(frames + [frame], i) == Track(OpenAt(frames, i), frame, i)
  {
    LastMarkMore(frames, frame, i);
    assert (frames + [frame])[|frames| + 1..] == [];
    if frame.BlockStart? { JustStarted(frame.block, i); }
  }

  lemma OtherTracks(frames: seq<Frame>, frame: Frame, i: nat)
    requires !Marks(frame, i)
    ensures OpenAt(frames + [frame], i) == Track(OpenAt(frames, i), frame, i)
  {
    var more, k := frames + [frame], LastMark(frames, i);
    LastMarkMore(frames, frame, i);
    if k >= 0 && frames[k].BlockStart? {
      assert more[k] == frames[k] && more[k + 1..] == frames[k + 1..] + [frame];
      SinceTracks(frames[k].block, frames[k + 1..], frame, i);
    }
  }

  lemma OpenAtTracks(frames: seq<Frame>, frame: Frame, i: nat)
    ensures OpenAt(frames + [frame], i) == Track(OpenAt(frames, i), frame, i)
  {
    if Marks(frame, i) { MarkTracks(frames, frame, i); } else { OtherTracks(frames, frame, i); }
  }

  lemma ApplyIsLocal(core: Core, frame: Frame, i: nat)
    ensures BlockAt(Apply(core, frame), i) == Track(BlockAt(core, i), frame, i)
  {
  }

  lemma {:induction false} FoldHoldsOpenBlocks(frames: seq<Frame>, i: nat)
    ensures BlockAt(After(frames), i) == OpenAt(frames, i)
  {
    if frames != [] {
      var before, frame := frames[..|frames| - 1], frames[|frames| - 1];
      assert frames == before + [frame];
      FoldHoldsOpenBlocks(before, i);
      OpenAtTracks(before, frame, i);
      ApplyIsLocal(After(before), frame, i);
    }
  }

  lemma {:induction false} FoldHoldsReports(frames: seq<Frame>)
    ensures After(frames).usage == ReportedUsage(frames) && After(frames).stopReason == LastReason(frames)
  {
    if frames != [] {
      FoldHoldsReports(frames[..|frames| - 1]);
    }
  }

  lemma {:induction false} FoldHoldsOpenIndices(frames: seq<Frame>)
    ensures After(frames).blocks.Keys == OpenIndices(frames)
  {
    forall i: nat ensures i in After(frames).blocks <==> i in OpenIndices(frames) {
      FoldHoldsOpenBlocks(frames, i);
      var k := LastMark(frames, i);
      if OpenAt(frames, i).Some? { assert frames[k].index == i; }
    }
  }

  lemma {:induction false} FlushReadsOpenBlocks(read: JsonReader, frames: seq<Frame>, order: seq<nat>)
    requires forall k | k in order :: k in After(frames).blocks
    ensures FlushInOrder(read, After(frames).blocks, order) == RefFlush(read, frames, order)
    decreases order
  {
    if order != [] {
      FoldHoldsOpenBlocks(frames, order[0]);
      FlushReadsOpenBlocks(read, frames, order[1..]);
    }
  }

  lemma FinalReads(read: JsonReader, frames: seq<Frame>, cause: Option<Raw>)
    requires cause.Some? ==> Ending(cause.value)
    ensures Final(read, After(frames), cause) == RefFinal(read, frames, cause)
  {
    FoldHoldsReports(frames);
    FoldHoldsOpenIndices(frames);
    FlushReadsOpenBlocks(read, frames, Ascending(OpenIndices(frames)));
  }

  lemma EmitReads(read: JsonReader, before: seq<Frame>, frame: Frame)
    requires !frame.MessageStop? && !frame.ApiFailure?
    ensures Emit(read, After(before), frame) == RefEmit(read, before, frame)
    ensures RefItems(read, before + [frame]) == RefItems(read, before) + RefEmit(read, before, frame)
    ensures After(before + [frame]) == Apply(After(before), frame)
  {
    assert (before + [frame])[..|before|] == before;
    if frame.BlockStop? { FoldHoldsOpenBlocks(before, frame.index); }
  }

  lemma {:induction false} EagerReads(read: JsonReader, before: seq<Frame>, raws: seq<Raw>)
    ensures var frames := before + FramesOf(raws);
            (RefItems(read, before) + Eager(read, After(before), raws)
             == RefItems(read, frames) + RefFinal(read, frames, CauseOf(raws)))
    decreases |raws|
  {
    if raws == [] || Ending(raws[0]) {
      assert before + FramesOf(raws) == before;
      FinalReads(read, before, CauseOf(raws));
    } else if raws[0].Heartbeat? {
      assert FramesOf(raws) == FramesOf(raws[1..]);
      EagerReads(read, before, raws[1..]);
    } else {
      var frame := raws[0].frame;
      var more := before + [frame];
      assert before + FramesOf(raws) == more + FramesOf(raws[1..]);
      EmitReads(read, before, frame);
      EagerReads(read, more, raws[1..]);
    }
  }

  /** The whole run, item by item, off the frames alone: a tool call or a thinking block carries
      its last start and every matching delta since, and an end-of-turn flush is ascending. */
  lemma RunReadsTheFrames(read: JsonReader, raws: seq<Raw>)
    ensures Eager(read, FRESH, raws)
         == RefItems(read, FramesOf(raws)) + RefFinal(read, FramesOf(raws), CauseOf(raws))
  {
    EagerReads(read, [], raws);
    assert [] + FramesOf(raws) == FramesOf(raws);
    assert RefItems(read, []) + Eager(read, FRESH, raws) == Eager(read, FRESH, raws);
  }

  /** A frame that can change what index `i` holds. */
  predicate Touches(frame: Frame, i: nat) {
    || Marks(frame, i)
    || (frame.BlockDelta? && frame.index == i && !frame.delta.TextDelta? && !frame.delta.UnknownDelta?)
  }

  /** Removing a frame from another index, or of a kind with nothing to accumulate, changes
      nothing index `i` holds later. */
  lemma {:induction false} OtherFramesCannotInterfere(before: seq<Frame>, frame: Frame, later: seq<Frame>, i: nat)
    requires !Touches(frame, i)
    ensures OpenAt(before + [frame] + later, i) == OpenAt(before + later, i)
    decreases later
  {
    if later == [] {
      OpenAtTracks(before, frame, i);
      assert before + [frame] + [] == before + [frame] && before + [] == before;
    } else {
      var front, last := later[..|later| - 1], later[|later| - 1];
      OtherFramesCannotInterfere(before, frame, front, i);
      assert before + [frame] + later == (before + [frame] + front) + [last];
      assert before + later == (before + front) + [last];
      OpenAtTracks(before + [frame] + front, last, i);
      OpenAtTracks(before + front, last, i);
    }
  }

  /** Nothing at index `i` takes the delta: no block is open there, or one of the other kind. */
  predicate Mismatched(held: Option<OpenBlock>, delta: RawDelta) {
    match held
    case None => true
    case Some(ToolUse(_, _, _)) => !delta.InputJsonDelta?
    case Some(OpenThinking(_, _)) => !delta.ThinkingDelta? && !delta.SignatureDelta?
  }

  /** Such a delta changes nothing its index holds later, whatever comes after it. */
  lemma {:induction false} MismatchedDeltaIsIgnored(before: seq<Frame>, delta: RawDelta, later: seq<Frame>, i: nat)
    requires Mismatched(OpenAt(before, i), delta)
    ensures OpenAt(before + [BlockDelta(i, delta)] + later, i) == OpenAt(before + later, i)
    decreases later
  {
    var frame := BlockDelta(i, delta);
    if later == [] {
      OpenAtTracks(before, frame, i);
      assert before + [frame] + [] == before + [frame] && before + [] == before;
    } else {
      var front, last := later[..|later| - 1], later[|later| - 1];
      MismatchedDeltaIsIgnored(before, delta, front, i);
      assert before + [frame] + later == (before + [frame] + front) + [last];
      assert before + later == (before + front) + [last];
      OpenAtTracks(before + [frame] + front, last, i);
      OpenAtTracks(before + front, last, i);
    }
  }

  /** What a delta shows at once, whether or not any block takes it. */
  function Increment(delta: RawDelta): seq<Item> {
    match delta
    case TextDelta(text) => [Ok(Text(text))]
    case ThinkingDelta(thinking) => [Ok(Thinking(thinking))]
    case _ => []
  }

  /** In the run such a delta adds its own increment, where it came, and nothing that comes later,
      the end included, is different for it. */
  lemma MismatchedDeltaOnlyShowsItself(read: JsonReader, before: seq<Frame>, delta: RawDelta, i: nat, raws: seq<Raw>)
    requires Mismatched(OpenAt(before, i), delta)
    ensures Eager(read, After(before), [Parsed(BlockDelta(i, delta))] + raws) ==
            Increment(delta) + Eager(read, After(before), raws)
  {
    FoldHoldsOpenBlocks(before, i);
    var core := After(before);
    if i in core.blocks { assert core.blocks[i := core.blocks[i]] == core.blocks; }
    assert Apply(core, BlockDelta(i, delta)) == core;
    OneFrameFirst(read, core, BlockDelta(i, delta), raws);
  }

  // ----- The shape of every run -----

  /** An item after which nothing comes. A tool call whose arguments do not parse is an error
      and not this: the turn goes on. */
  predicate Terminal(item: Item) {
    match item
    case Ok(event) => event.Stop?
    case Err(error) => !error.ToolInputMalformed?
  }

  predicate IsUsage(item: Item) {
    item.Ok? && item.value.Usage?
  }

  predicate Plain(items: seq<Item>) {
    forall k | 0 <= k < |items| :: !Terminal(items[k]) && !IsUsage(items[k])
  }

  lemma {:induction false} ItemsArePlain(read: JsonReader, frames: seq<Frame>)
    ensures Plain(RefItems(read, frames))
  {
    if frames != [] {
      ItemsArePlain(read, frames[..|frames| - 1]);
    }
  }

  lemma {:induction false} FlushIsPlain(read: JsonReader, frames: seq<Frame>, order: seq<nat>)
    ensures Plain(RefFlush(read, frames, order))
  {
    if order != [] {
      FlushIsPlain(read, frames, order[1..]);
    }
  }

  /** One terminal item, the last; usage only directly before it. */
  predicate EndsOnce(items: seq<Item>, usage: RawUsage) {
    var n := |items|;
    && n > 0
    && (forall k | 0 <= k < n :: Terminal(items[k]) <==> k == n - 1)
    && (forall k | 0 <= k < n :: IsUsage(items[k]) ==> k == n - 2 && items[k] == Ok(Usage(usage)))
  }

  predicate TellsUsage(items: seq<Item>) {
    |items| >= 2 && IsUsage(items[|items| - 2])
  }

  /** Every run, whatever the transport did, ends in exactly one terminal item, a `Stop` exactly
      when `message_stop` caused it; usage is reported at most once, directly before it, with
      each counter's last value, and never after a malformed frame. */
  lemma RunEndsExactlyOnce(read: JsonReader, raws: seq<Raw>)
    ensures var items, frames, cause := Eager(read, FRESH, raws), FramesOf(raws), CauseOf(raws);
            && EndsOnce(items, ReportedUsage(frames))
            && (items[|items| - 1].Ok? <==> cause == Some(Parsed(MessageStop)))
            && (TellsUsage(items) <==> ReportedUsage(frames) != NO_USAGE && !(cause.Some? && cause.value.Malformed?))
  {
    var frames, cause := FramesOf(raws), CauseOf(raws);
    RunReadsTheFrames(read, raws);
    ItemsArePlain(read, frames);
    var flushed, usage, last := FinalSplits(read, frames, cause);
    PlainJoins(RefItems(read, frames), flushed);
    var body, items := RefItems(read, frames) + flushed, Eager(read, FRESH, raws);
    RegroupItems(RefItems(read, frames), flushed, UsageEvent(usage), last);
    ShapeOfARun(items, body, usage, last);
    if !TellsUsage(items) { UsageIsMoot(items, usage, ReportedUsage(frames)); }
  }

  lemma PlainJoins(a: seq<Item>, b: seq<Item>)
    requires Plain(a) && Plain(b)
    ensures Plain(a + b)
  {
  }

  lemma RegroupItems(a: seq<Item>, b: seq<Item>, c: seq<Item>, last: Item)
    ensures a + (b + c + [last]) == a + b + c + [last]
  {
  }

  lemma UsageIsMoot(items: seq<Item>, usage: RawUsage, other: RawUsage)
    requires EndsOnce(items, usage) && !TellsUsage(items)
    ensures EndsOnce(items, other)
  {
  }

  lemma FinalSplits(read: JsonReader, frames: seq<Frame>, cause: Option<Raw>)
    returns (flushed: seq<Item>, usage: RawUsage, last: Item)
    requires cause.Some? ==> Ending(cause.value)
    ensures RefFinal(read, frames, cause) == flushed + UsageEvent(usage) + [last]
    ensures flushed == if cause == Some(Parsed(MessageStop)) then RefFlush(read, frames, Ascending(OpenIndices(frames))) else []
    ensures Plain(flushed) && Terminal(last) && (last.Ok? <==> cause == Some(Parsed(MessageStop)))
    ensures usage == if cause.Some? && cause.value.Malformed? then NO_USAGE else ReportedUsage(frames)
  {
    var order := Ascending(OpenIndices(frames));
    FlushIsPlain(read, frames, order);
    flushed := if cause == Some(Parsed(MessageStop)) then RefFlush(read, frames, order) else [];
    usage := if cause.Some? && cause.value.Malformed? then NO_USAGE else ReportedUsage(frames);
    last := match cause
      case None => Err(StreamEndedUnexpectedly)
      case Some(Malformed(why)) => Err(UnrecognizedEvent(why))
      case Some(Broken(error)) => Err(Transport(error))
      case Some(Parsed(ApiFailure(kind, message))) => Err(ApiError(kind, message))
      case Some(Parsed(_)) => Ok(Stop(LastReason(frames).GetOr(Unspecified)));
  }

  lemma ShapeOfARun(items: seq<Item>, body: seq<Item>, usage: RawUsage, last: Item)
    requires Plain(body) && Terminal(last) && items == body + UsageEvent(usage) + [last]
    ensures EndsOnce(items, usage) && items[|items| - 1] == last && (TellsUsage(items) <==> usage != NO_USAGE)
  {
  }

  /** No frame is read past the one that ends the turn. */
  lemma {:induction false} NothingIsReadPastTheEnd(raws: seq<Raw>)
    ensures var n := EndAt(raws);
            && (CauseOf(raws).Some? ==> n > 0 && CauseOf(raws) == Some(raws[n - 1]))
            && (CauseOf(raws).None? ==> n == |raws|)
            && forall later: seq<Raw> :: CauseOf(raws).Some? ==>
                 FramesOf(raws[..n] + later) == FramesOf(raws) && CauseOf(raws[..n] + later) == CauseOf(raws)
  {
    if raws != [] && !Ending(raws[0]) {
      NothingIsReadPastTheEnd(raws[1..]);
      var n := EndAt(raws);
      forall later: seq<Raw> | CauseOf(raws).Some?
        ensures FramesOf(raws[..n] + later) == FramesOf(raws) && CauseOf(raws[..n] + later) == CauseOf(raws)
      {
        assert (raws[..n] + later)[1..] == raws[1..][..n - 1] + later;
      }
    }
  }

  // ----- The one error that does not end a run -----

  /** A tool call whose argument text is there and does not parse. */
  predicate Broken(read: JsonReader, block: OpenBlock) {
    block.ToolUse? && !IsBlank(block.partialJson) && read(block.partialJson).None?
  }

  predicate BrokenAt(read: JsonReader, frames: seq<Frame>, i: nat) {
    OpenAt(frames, i).Some? && Broken(read, OpenAt(frames, i).value)
  }

  /** The stop at `j` closes a broken call. */
  predicate ClosesBroken(read: JsonReader, frames: seq<Frame>, j: nat)
    requires j < |frames|
  {
    frames[j].BlockStop? && BrokenAt(read, frames[..j], frames[j].index)
  }

  ghost predicate ClosedABrokenCall(read: JsonReader, frames: seq<Frame>) {
    exists j | 0 <= j < |frames| :: ClosesBroken(read, frames, j)
  }

  ghost predicate LeftABrokenCall(read: JsonReader, frames: seq<Frame>) {
    exists i | i in OpenIndices(frames) :: BrokenAt(read, frames, i)
  }

  ghost predicate HasError(items: seq<Item>) {
    exists item | item in items :: item.Err?
  }

  lemma ErrorsJoin(a: seq<Item>, b: seq<Item>)
    ensures HasError(a + b) <==> HasError(a) || HasError(b)
  {
  }

  lemma OnlyBrokenBlocksErr(read: JsonReader, index: nat, block: OpenBlock)
    ensures HasError(ClosedBlockEvent(read, index, block)) <==> Broken(read, block)
  {
    var items := ClosedBlockEvent(read, index, block);
    if items != [] { assert items[0] in items; }
  }

  lemma EmitErrsIffItClosesBroken(read: JsonReader, before: seq<Frame>, frame: Frame)
    ensures HasError(RefEmit(read, before, frame)) <==> frame.BlockStop? && BrokenAt(read, before, frame.index)
  {
    if frame.BlockStop? && OpenAt(before, frame.index).Some? {
      OnlyBrokenBlocksErr(read, frame.index, OpenAt(before, frame.index).value);
    }
  }

  lemma {:induction false} ItemsErrIffOneClosedBroken(read: JsonReader, frames: seq<Frame>)
    ensures HasError(RefItems(read, frames)) <==> ClosedABrokenCall(read, frames)
  {
    if frames != [] {
      var n := |frames| - 1;
      var before := frames[..n];
      ItemsErrIffOneClosedBroken(read, before);
      EmitErrsIffItClosesBroken(read, before, frames[n]);
      ErrorsJoin(RefItems(read, before), RefEmit(read, before, frames[n]));
      forall j | 0 <= j < n ensures ClosesBroken(read, frames, j) <==> ClosesBroken(read, before, j) {
        assert frames[..j] == before[..j];
      }
      assert ClosedABrokenCall(read, frames) <==> ClosedABrokenCall(read, before) || ClosesBroken(read, frames, n);
    }
  }

  lemma {:induction false} FlushErrsIffOneIsBroken(read: JsonReader, frames: seq<Frame>, order: seq<nat>)
    ensures HasError(RefFlush(read, frames, order)) <==> exists i | i in order :: BrokenAt(read, frames, i)
  {
    if order != [] {
      var i, rest := order[0], RefFlush(read, frames, order[1..]);
      FlushErrsIffOneIsBroken(read, frames, order[1..]);
      assert forall k :: k in order <==> k == i || k in order[1..];
      var closed := if OpenAt(frames, i).Some? then ClosedBlockEvent(read, i, OpenAt(frames, i).value) else [];
      assert HasError(closed) <==> BrokenAt(read, frames, i) by {
        if OpenAt(frames, i).Some? { OnlyBrokenBlocksErr(read, i, OpenAt(frames, i).value); }
      }
      ErrorsJoin(closed, rest);
      assert RefFlush(read, frames, order) == closed + rest;
    }
  }

  /** An error before the end of a run: exactly when a tool call was closed, by its own stop or by
      the end of the message, on argument text that does not parse. */
  lemma ErrorsMidRunAreBrokenCalls(read: JsonReader, raws: seq<Raw>)
    ensures var items, frames := Eager(read, FRESH, raws), FramesOf(raws);
            && |items| > 0
            && (HasError(items[..|items| - 1]) <==>
                  || ClosedABrokenCall(read, frames)
                  || (CauseOf(raws) == Some(Parsed(MessageStop)) && LeftABrokenCall(read, frames)))
  {
    var frames, cause := FramesOf(raws), CauseOf(raws);
    RunReadsTheFrames(read, raws);
    var flushed, usage, last := FinalSplits(read, frames, cause);
    var body, items := RefItems(read, frames), Eager(read, FRESH, raws);
    RegroupItems(body, flushed, UsageEvent(usage), last);
    assert items[..|items| - 1] == body + flushed + UsageEvent(usage);
    ErrorsJoin(body + flushed, UsageEvent(usage));
    ErrorsJoin(body, flushed);
    ItemsErrIffOneClosedBroken(read, frames);
    FlushErrsIffOneIsBroken(read, frames, Ascending(OpenIndices(frames)));
  }

  /** It happens: a call whose arguments are rejected, and then the turn's ordinary end. */
  lemma AnErrorCanComeFirst(read: JsonReader, text: string)
    requires !IsBlank(text) && read(text).None?
    ensures var raws := [Parsed(BlockStart(0, StartToolUse("id", "tool"))), Parsed(BlockDelta(0, InputJsonDelta(text))),
                         Parsed(BlockStop(0)), Parsed(MessageStop)];
            Eager(read, FRESH, raws) == [Err(ToolInputMalformed(0)), Ok(Stop(Unspecified))]
  {
    var start, delta, stop := BlockStart(0, StartToolUse("id", "tool")), BlockDelta(0, InputJsonDelta(text)), BlockStop(0);
    var core := FRESH.(blocks := map[0 := ToolUse("id", "tool", text)]);
    assert "" + text == text;
    assert Apply(Apply(FRESH, start), delta) == core && Apply(core, stop) == FRESH;
    OneFrameFirst(read, FRESH, start, [Parsed(delta), Parsed(stop), Parsed(MessageStop)]);
    OneFrameFirst(read, Apply(FRESH, start), delta, [Parsed(stop), Parsed(MessageStop)]);
    OneFrameFirst(read, core, stop, [Parsed(MessageStop)]);
    StoppingAtOnce(read);
  }

  lemma OneFrameFirst(read: JsonReader, core: Core, frame: Frame, raws: seq<Raw>)
    requires !Ending(Parsed(frame))
    ensures Eager(read, core, [Parsed(frame)] + raws) == Emit(read, core, frame) + Eager(read, Apply(core, frame), raws)
  {
    assert ([Parsed(frame)] + raws)[1..] == raws;
  }

  lemma StoppingAtOnce(read: JsonReader)
    ensures Eager(read, FRESH, [Parsed(MessageStop)]) == [Ok(Stop(Unspecified))]
  {
    assert FRESH.blocks.Keys == {} && Ascending({}) == [];
  }
}
