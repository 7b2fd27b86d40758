/** The streaming accumulator (`anthropic_wire_accumulate.rs`): wire frames folded into agent
    events, pulled one at a time through a pending queue. Frames arrive parsed, or malformed. */
module WireAccumulate {
  import opened Wrappers
  import opened Text

  // ----- What arrives -----

  datatype RawUsage = RawUsage(inputTokens: Option<nat>, outputTokens: Option<nat>,
                               cacheCreation: Option<nat>, cacheRead: Option<nat>)

  datatype RawBlockStart =
    | StartText
    | StartThinking(thinking: string)
    | StartRedacted(data: string)
    | StartToolUse(id: string, name: string)
    | StartUnknown

  datatype RawDelta =
    | TextDelta(text: string)
    | ThinkingDelta(thinking: string)
    | SignatureDelta(signature: string)
    | InputJsonDelta(partialJson: string)
    | UnknownDelta

  datatype Frame =
    | MessageStart(usage: RawUsage)
    | BlockStart(index: nat, block: RawBlockStart)
    | BlockDelta(index: nat, delta: RawDelta)
    | BlockStop(index: nat)
    | MessageDelta(stopReason: Option<string>, usage: RawUsage)
    | MessageStop
    | Ping
    | ApiFailure(kind: string, message: string)
    | UnknownFrame

  /** One item of the transport: a heartbeat has an empty payload, a malformed one is no frame. */
  datatype Raw = Heartbeat | Malformed(why: string) | Parsed(frame: Frame) | Broken(error: string)

  // ----- What is emitted -----

  datatype Json = Object(members: seq<(string, Json)>) | Scalar(text: string)

  datatype StopReason = EndTurn | ToolUseStop | MaxTokens | StopSequence | Unspecified | Other(text: string)

  datatype AgentEvent =
    | Text(delta: string)
    | Thinking(delta: string)
    | ThinkingBlock(text: string, signature: string)
    | RedactedThinking(data: string)
    | ToolCallRequested(id: string, name: string, input: Json)
    | Usage(usage: RawUsage)
    | Stop(reason: StopReason)

  /** The first two are both `MalformedEvent` on the wire, told apart by their detail. */
  datatype ProviderError =
    | ToolInputMalformed(index: nat)
    | UnrecognizedEvent(why: string)
    | StreamEndedUnexpectedly
    | ApiError(kind: string, message: string)
    | Transport(error: string)

  type Item = Result<AgentEvent, ProviderError>

  function StopReasonOf(value: string): StopReason {
    if value == "end_turn" then EndTurn
    else if value == "tool_use" then ToolUseStop
    else if value == "max_tokens" then MaxTokens
    else if value == "stop_sequence" then StopSequence
    else Other(value)
  }

  // ----- The state a fold carries -----

  datatype OpenBlock =
    | ToolUse(id: string, name: string, partialJson: string)
    | OpenThinking(text: string, signature: Option<string>)

  const NO_USAGE := RawUsage(None, None, None, None)

  /** Reading a tool call's arguments is the JSON library's business: an oracle. */
  type JsonReader = string -> Option<Json>

  datatype Core = Core(blocks: map<nat, OpenBlock>, usage: RawUsage, stopReason: Option<StopReason>)

  const FRESH := Core(map[], NO_USAGE, None)

  function Newer(newer: Option<nat>, held: Option<nat>): Option<nat> {
    if newer.Some? then newer else held
  }

  function Overlay(held: RawUsage, newer: RawUsage): RawUsage {
    RawUsage(Newer(newer.inputTokens, held.inputTokens), Newer(newer.outputTokens, held.outputTokens),
             Newer(newer.cacheCreation, held.cacheCreation), Newer(newer.cacheRead, held.cacheRead))
  }

  function ToolCallEvent(read: JsonReader, index: nat, id: string, name: string, partialJson: string): Item {
    if IsBlank(partialJson) then Ok(ToolCallRequested(id, name, Object([])))
    else match read(partialJson)
         case Some(input) => Ok(ToolCallRequested(id, name, input))
         case None => Err(ToolInputMalformed(index))
  }

  /** What a block that just closed is worth; an unsigned thinking block is worth nothing. */
  function ClosedBlockEvent(read: JsonReader, index: nat, block: OpenBlock): seq<Item> {
    match block
    case ToolUse(id, name, partialJson) => [ToolCallEvent(read, index, id, name, partialJson)]
    case OpenThinking(text, signature) =>
      if signature.Some? && signature.value != "" then [Ok(ThinkingBlock(text, signature.value))] else []
  }

  function UsageEvent(usage: RawUsage): seq<Item> {
    if usage == NO_USAGE then [] else [Ok(Usage(usage))]
  }

  // ----- Ascending index order -----

  predicate IsLeast(m: nat, s: set<nat>) {
    m in s && forall k | k in s :: m <= k
  }

  lemma {:induction false} LeastExists(s: set<nat>)
    requires s != {}
    ensures exists m :: m in s && IsLeast(m, s)
  {
    var x :| x in s;
    if s == {x} {
      assert IsLeast(x, s);
    } else {
      LeastExists(s - {x});
      var m :| m in s - {x} && IsLeast(m, s - {x});
      assert forall k | k in s :: k == x || k in s - {x};
      assert IsLeast(if m < x then m else x, s);
    }
  }

  function Least(s: set<nat>): (m: nat)
    requires s != {}
    ensures IsLeast(m, s)
  {
    LeastExists(s);
    var m :| m in s && IsLeast(m, s);
    m
  }

  function Ascending(s: set<nat>): (order: seq<nat>)
    ensures forall k :: k in order <==> k in s
    ensures forall i, j | 0 <= i < j < |order| :: order[i] < order[j]
  {
    if s == {} then [] else [Least(s)] + Ascending(s - {Least(s)})
  }

  function FlushInOrder(read: JsonReader, blocks: map<nat, OpenBlock>, order: seq<nat>): seq<Item>
    requires forall k | k in order :: k in blocks
  {
    if order == [] then []
    else ClosedBlockEvent(read, order[0], blocks[order[0]]) + FlushInOrder(read, blocks, order[1..])
  }

  function Flush(read: JsonReader, blocks: map<nat, OpenBlock>): seq<Item> {
    FlushInOrder(read, blocks, Ascending(blocks.Keys))
  }

  lemma FlushOneMore(read: JsonReader, blocks: map<nat, OpenBlock>, order: seq<nat>, i: nat, done: seq<Item>)
    requires i < |order| && forall k | k in order :: k in blocks
    ensures done + FlushInOrder(read, blocks, order[i..]) ==
            done + ClosedBlockEvent(read, order[i], blocks[order[i]]) + FlushInOrder(read, blocks, order[i + 1..])
  {
    assert order[i..][1..] == order[i + 1..];
  }

  // ----- The eager fold -----

  predicate Ending(raw: Raw) {
    raw.Malformed? || raw.Broken? || (raw.Parsed? && (raw.frame.MessageStop? || raw.frame.ApiFailure?))
  }

  function Started(blocks: map<nat, OpenBlock>, index: nat, block: RawBlockStart): map<nat, OpenBlock> {
    match block
    case StartToolUse(id, name) => blocks[index := ToolUse(id, name, "")]
    case StartThinking(thinking) => blocks[index := OpenThinking(thinking, None)]
    case _ => blocks - {index}
  }

  function Grown(block: OpenBlock, delta: RawDelta): OpenBlock {
    match (block, delta)
    case (OpenThinking(text, signature), ThinkingDelta(thinking)) => OpenThinking(text + thinking, signature)
    case (OpenThinking(text, signature), SignatureDelta(value)) => OpenThinking(text, Some(signature.GetOr("") + value))
    case (ToolUse(id, name, buffered), InputJsonDelta(partialJson)) => ToolUse(id, name, buffered + partialJson)
    case _ => block
  }

  function Apply(core: Core, frame: Frame): Core {
    match frame
    case MessageStart(usage) => core.(usage := Overlay(core.usage, usage))
    case BlockStart(index, block) => core.(blocks := Started(core.blocks, index, block))
    case BlockDelta(index, delta) =>
      if index in core.blocks then core.(blocks := core.blocks[index := Grown(core.blocks[index], delta)]) else core
    case BlockStop(index) => core.(blocks := core.blocks - {index})
    case MessageDelta(reason, usage) =>
      core.(usage := Overlay(core.usage, usage),
            stopReason := if reason.Some? then Some(StopReasonOf(reason.value)) else core.stopReason)
    case _ => core
  }

  function Emit(read: JsonReader, core: Core, frame: Frame): seq<Item> {
    match frame
    case BlockStart(_, StartRedacted(data)) => [Ok(RedactedThinking(data))]
    case BlockDelta(_, TextDelta(text)) => [Ok(Text(text))]
    case BlockDelta(_, ThinkingDelta(thinking)) => [Ok(Thinking(thinking))]
    case BlockStop(index) =>
      if index in core.blocks then ClosedBlockEvent(read, index, core.blocks[index]) else []
    case _ => []
  }

  /** What ending on `raw` emits; `None` is the transport running out. */
  function Final(read: JsonReader, core: Core, raw: Option<Raw>): seq<Item>
    requires raw.Some? ==> Ending(raw.value)
  {
    match raw
    case None => UsageEvent(core.usage) + [Err(StreamEndedUnexpectedly)]
    case Some(Malformed(why)) => [Err(UnrecognizedEvent(why))]
    case Some(Broken(error)) => UsageEvent(core.usage) + [Err(Transport(error))]
    case Some(Parsed(ApiFailure(kind, message))) => UsageEvent(core.usage) + [Err(ApiError(kind, message))]
    case Some(Parsed(_)) =>
      Flush(read, core.blocks) + UsageEvent(core.usage) + [Ok(Stop(core.stopReason.GetOr(Unspecified)))]
  }

  function Eager(read: JsonReader, core: Core, raws: seq<Raw>): seq<Item>
    decreases |raws|
  {
    if raws == [] then Final(read, core, None)
    else if Ending(raws[0]) then Final(read, core, Some(raws[0]))
    else if raws[0].Heartbeat? then Eager(read, core, raws[1..])
    else Emit(read, core, raws[0].frame) + Eager(read, Apply(core, raws[0].frame), raws[1..])
  }

  /** How much of the transport a run reads: up to and including what ends it. */
  function EndAt(raws: seq<Raw>): (n: nat)
    ensures n <= |raws|
  {
    if raws == [] then 0 else if Ending(raws[0]) then 1 else 1 + EndAt(raws[1..])
  }

  // ----- The pulled machine -----

  class WireState {
    const read: JsonReader
    var raw: seq<Raw>
    var blocks: map<nat, OpenBlock>
    var usage: RawUsage
    var stopReason: Option<StopReason>
    var pending: seq<Item>
    var ended: bool

    constructor (read: JsonReader, raw: seq<Raw>)
      ensures this.read == read && this.raw == raw && !ended && pending == []
      ensures State() == FRESH && Rest() == Eager(read, FRESH, raw) && Unread() == raw[EndAt(raw)..]
    {
      this.read, this.raw := read, raw;
      blocks, usage, stopReason, pending, ended := map[], NO_USAGE, None, [], false;
    }

    function State(): Core
      reads this
    {
      Core(blocks, usage, stopReason)
    }

    /** Every item still to come, as the eager fold would give them. */
    ghost function Rest(): seq<Item>
      reads this
    {
      pending + if ended then [] else Eager(read, State(), raw)
    }

    /** The transport's items no pull will ever read. */
    ghost function Unread(): seq<Raw>
      reads this
    {
      if ended then raw else raw[EndAt(raw)..]
    }

    method Absorb(newer: RawUsage)
      modifies this`usage
      ensures usage == Overlay(old(usage), newer)
    {
      usage := RawUsage(Newer(newer.inputTokens, usage.inputTokens), Newer(newer.outputTokens, usage.outputTokens),
                        Newer(newer.cacheCreation, usage.cacheCreation), Newer(newer.cacheRead, usage.cacheRead));
    }

    method PushUsage()
      modifies this`usage, this`pending
      ensures pending == old(pending) + UsageEvent(old(usage)) && usage == NO_USAGE
    {
      if usage != NO_USAGE {
        pending := pending + [Ok(Usage(usage))];
        usage := NO_USAGE;
      }
    }

    method FlushOpenBlocks()
      modifies this`blocks, this`pending
      ensures pending == old(pending) + Flush(read, old(blocks)) && blocks == map[]
    {
      var taken := blocks;
      blocks := map[];
      var order := Ascending(taken.Keys);
      for i := 0 to |order|
        invariant blocks == map[]
        invariant pending + FlushInOrder(read, taken, order[i..]) == old(pending) + Flush(read, taken)
      {
        FlushOneMore(read, taken, order, i, pending);
        pending := pending + ClosedBlockEvent(read, order[i], taken[order[i]]);
      }
    }

    /** One frame that does not end the turn. */
    method Fold(frame: Frame)
      requires !frame.MessageStop? && !frame.ApiFailure?
      modifies this`blocks, this`usage, this`stopReason, this`pending
      ensures State() == Apply(old(State()), frame)
      ensures pending == old(pending) + Emit(read, old(State()), frame)
    {
      match frame
      case MessageStart(newer) => Absorb(newer);
      case BlockStart(index, block) =>
        match block {
          case StartToolUse(id, name) => blocks := blocks[index := ToolUse(id, name, "")];
          case StartThinking(thinking) => blocks := blocks[index := OpenThinking(thinking, None)];
          case StartRedacted(data) =>
            blocks := blocks - {index};
            pending := pending + [Ok(RedactedThinking(data))];
          case StartText => blocks := blocks - {index};
          case StartUnknown => blocks := blocks - {index};
        }
      case BlockDelta(index, delta) =>
        if index in blocks { blocks := blocks[index := Grown(blocks[index], delta)]; }
        match delta {
          case TextDelta(text) => pending := pending + [Ok(Text(text))];
          case ThinkingDelta(thinking) => pending := pending + [Ok(Thinking(thinking))];
          case _ =>
        }
      case BlockStop(index) =>
        if index in blocks {
          var block := blocks[index];
          blocks := blocks - {index};
          pending := pending + ClosedBlockEvent(read, index, block);
        }
      case MessageDelta(reason, newer) =>
        Absorb(newer);
        if reason.Some? { stopReason := Some(StopReasonOf(reason.value)); }
      case Ping =>
      case UnknownFrame =>
    }

    /** The one end that says the model had finished. */
    method EndMessage()
      modifies this`blocks, this`usage, this`stopReason, this`pending
      ensures pending == old(pending) + Final(read, old(State()), Some(Parsed(MessageStop)))
    {
      FlushOpenBlocks();
      PushUsage();
      pending := pending + [Ok(Stop(stopReason.GetOr(Unspecified)))];
      stopReason := None;
    }

    /** One item that ends the turn. */
    method End(data: Raw)
      requires Ending(data)
      modifies this`blocks, this`usage, this`stopReason, this`pending, this`ended
      ensures ended && pending == old(pending) + Final(read, old(State()), Some(data))
    {
      ended := true;
      match data
      case Malformed(why) => pending := pending + [Err(UnrecognizedEvent(why))];
      case Broken(error) =>
        PushUsage();
        pending := pending + [Err(Transport(error))];
      case Parsed(MessageStop) => EndMessage();
      case Parsed(ApiFailure(kind, message)) =>
        PushUsage();
        pending := pending + [Err(ApiError(kind, message))];
    }

    /** One item off the transport, or its end: what is owed and what stays unread do not change. */
    method Advance()
      requires pending == [] && !ended
      modifies this
      ensures Rest() == old(Rest()) && Unread() == old(Unread())
      ensures |raw| < old(|raw|) || (|raw| == old(|raw|) && ended)
    {
      if raw == [] {
        ended := true;
        PushUsage();
        pending := pending + [Err(StreamEndedUnexpectedly)];
        return;
      }
      var data := raw[0];
      raw := raw[1..];
      if Ending(data) {
        End(data);
      } else if data.Parsed? {
        Fold(data.frame);
      }
    }

    /** One pull: the head of what the eager fold still owes, or nothing once it owes nothing. */
    method Next() returns (item: Option<Item>)
      modifies this
      ensures item == (if old(Rest()) == [] then None else Some(old(Rest())[0]))
      ensures Rest() == (if old(Rest()) == [] then [] else old(Rest())[1..])
      ensures Unread() == old(Unread())
      ensures old(ended) ==> ended && raw == old(raw)
      ensures item.None? ==> ended
    {
      while pending == [] && !ended
        invariant Rest() == old(Rest())
        invariant Unread() == old(Unread())
        invariant old(ended) ==> ended && raw == old(raw)
        decreases |raw|, !ended
      {
        Advance();
      }
      if pending == [] { return None; }
      item := Some(pending[0]);
      pending := pending[1..];
    }
  }

  lemma OneMoreItem(items: seq<Item>, next: Item, rest: seq<Item>)
    ensures items + ([next] + rest) == (items + [next]) + rest
  {
  }

  /** Pulling until the machine says there is no more. */
  method EventStream(read: JsonReader, raws: seq<Raw>) returns (items: seq<Item>, unread: seq<Raw>)
    ensures items == Eager(read, FRESH, raws)
    ensures unread == raws[EndAt(raws)..]
  {
    var state := new WireState(read, raws);
    items := [];
    var more := true;
    while more
      invariant items + state.Rest() == Eager(read, FRESH, raws)
      invariant !more ==> state.Rest() == [] && state.ended
      invariant state.Unread() == raws[EndAt(raws)..]
      invariant fresh(state) && state.read == read
      decreases |state.Rest()|, more
    {
      ghost var rest := state.Rest();
      var item := state.Next();
      match item
      case None => more := false;
      case Some(next) =>
        OneMoreItem(items, next, state.Rest());
        assert rest == [next] + state.Rest();
        items := items + [next];
    }
    unread := state.raw;
  }
}
