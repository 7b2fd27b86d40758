/** What crosses the helper's two seams, its argv and its audit channel, and what a policy comes to hold,
    said on the texts and on the builder calls themselves. */
module SeamLaws {
  import opened Wrappers
  import opened Bits
  import opened Policy
  import opened Numerals
  import opened HelperArgs
  import Audit = AuditChannel
  import Spawn = SpawnId

  // ----- What builders build -----

  /** The paths granted on an axis, in the order they were. */
  function Granted(calls: seq<Widening>, axis: Axis): seq<VettedPath> {
    if calls == [] then []
    else
      var last := calls[|calls| - 1];
      Granted(calls[..|calls| - 1], axis) + if last.GrantPath? && last.axis == axis then [last.path] else []
  }

  /** The names allowed, skipping what is not a variable's. */
  function Allowed(calls: seq<Widening>): seq<string> {
    if calls == [] then []
    else
      var last := calls[|calls| - 1];
      Allowed(calls[..|calls| - 1])
      + if last.Env? && last.name != "" && (forall c | c in last.name :: c != '=' && c != '\0') then [last.name] else []
  }

  lemma OneGrantMore(policy: SandboxPolicy, widening: Widening, axis: Axis)
    ensures Widen(policy, widening).Paths(axis) ==
            policy.Paths(axis) + if widening.GrantPath? && widening.axis == axis then [widening.path] else []
  {
  }

  lemma {:induction false} GrantsAreKept(calls: seq<Widening>, axis: Axis)
    ensures Build(calls).Paths(axis) == Granted(calls, axis)
  {
    if calls != [] {
      var before, last := calls[..|calls| - 1], calls[|calls| - 1];
      GrantsAreKept(before, axis);
      OneGrantMore(Build(before), last, axis);
    }
  }

  lemma {:induction false} NamesAreKept(calls: seq<Widening>)
    ensures Build(calls).env == Allowed(calls)
  {
    if calls != [] { NamesAreKept(calls[..|calls| - 1]); }
  }

  /** A switch is on exactly if it was asked for, and a name is bounded exactly if it was allowed and can
      be carried. */
  lemma {:induction false} SwitchesAreAskedFor(calls: seq<Widening>, name: string)
    ensures Build(calls).unixSockets <==> UnixSockets in calls
    ensures Build(calls).dnsOverTcp <==> DnsHint in calls
    ensures name in Build(calls).dnsNames <==> Dns(name) in calls && IsResolvableName(name)
  {
    if calls != [] {
      var front, last := calls[..|calls| - 1], calls[|calls| - 1];
      SwitchesAreAskedFor(front, name);
      assert forall call :: call in calls <==> call in front || call == last;
    }
  }

  /** Every port once any was asked to be, whatever else; otherwise the ports asked for by number, zero
      excepted; otherwise none. */
  lemma {:induction false} TheWidestNetworkWins(calls: seq<Widening>, port: u16)
    ensures Build(calls).network.AnyPort? <==> Network in calls
    ensures Build(calls).network.Ports? ==>
              (port in Build(calls).network.ports <==> port != 0 && NetworkPort(port) in calls)
    ensures Build(calls).network.Denied? ==> port != 0 ==> NetworkPort(port) !in calls
  {
    if calls != [] {
      var front, last := calls[..|calls| - 1], calls[|calls| - 1];
      TheWidestNetworkWins(front, port);
      assert forall call :: call in calls <==> call in front || call == last;
    }
  }

  /** A name is carried up to 253 bytes of UTF-8. */
  lemma BytesAreCounted(c: char, text: string)
    ensures Utf8Size([c] + text) == (if c <= '\U{7F}' then 1 else if c <= '\U{7FF}' then 2 else if c <= '\U{FFFF}' then 3 else 4)
                                    + Utf8Size(text)
    ensures IsResolvableName(text) ==> 0 < Utf8Size(text) <= 253
  {
    assert ([c] + text)[1..] == text;
  }

  // ----- What the decoder refuses -----

  /** A name allowlist is refused exactly beside what would let every name be resolved all the same: the
      resolver hint, unix sockets, every port, or port 53. */
  lemma ANameListMustBoundSomething(helper: Helper)
    requires helper.policy.Built() && (helper.pin.Some? ==> helper.program != "" && helper.program[0] == '/')
    ensures var policy := helper.policy;
            Decoded(Encoded(helper)) ==
            if policy.dnsNames != [] && (policy.dnsOverTcp || policy.unixSockets || policy.network.AnyPort?
                                         || (policy.network.Ports? && 53 in policy.network.ports))
            then Err(UnboundedResolution) else Ok(helper)
  {
    EncodeThenDecode(helper);
  }

  /** And a pin exactly beside a program that is not absolute. */
  lemma APinNeedsAnAbsoluteProgram(helper: Helper)
    requires helper.policy.Built() && helper.pin.Some? && (helper.program == "" || helper.program[0] != '/')
    ensures Decoded(Encoded(helper)) == Err(PinnedProgramNotAbsolute)
  {
    EncodeThenDecode(helper);
  }

  /** However it was spelled, what is accepted bounds the names it lists. */
  lemma AcceptedNamesAreBounded(argv: seq<string>)
    requires Decoded(argv).Ok? && Decoded(argv).value.policy.dnsNames != []
    ensures var policy := Decoded(argv).value.policy;
            !policy.dnsOverTcp && !policy.unixSockets && !policy.network.AnyPort?
            && (policy.network.Ports? ==> 53 !in policy.network.ports)
  {
    DecodedIsSendable(argv, DEFAULT, None);
  }

  /** Neither a command nor a flag without its value is an argv. */
  lemma NothingIsNoArgv()
    ensures Decoded([]) == Err(MissingSeparator) && Decoded([Flag(End)]) == Err(NoCommand)
  {
    FlagsAreTheirOwnTokens(End);
  }

  lemma APortIsNamed()
    ensures Decoded([Flag(NetPort)]) == Err(NoPort)
  {
    FlagsAreTheirOwnTokens(NetPort);
  }

  lemma AVariableIsNamed()
    ensures Decoded([Flag(EnvName)]) == Err(NoEnvName)
  {
    FlagsAreTheirOwnTokens(EnvName);
  }

  lemma AHostIsNamed()
    ensures Decoded([Flag(DnsName)]) == Err(NoDnsName)
  {
    FlagsAreTheirOwnTokens(DnsName);
  }

  lemma ADigestIsGiven()
    ensures Decoded([Flag(Pin)]) == Err(NoDigest)
  {
    FlagsAreTheirOwnTokens(Pin);
  }

  lemma APathIsGivenWithItsObject(axis: Axis, path: string)
    ensures Decoded([Flag(Grant(axis))]) == Err(NoPath) && Decoded([Flag(Grant(axis)), path]) == Err(NoObjectPin)
  {
    FlagsAreTheirOwnTokens(Grant(axis));
  }

  lemma AnUnknownFlagIsRefused(flag: string, tail: seq<string>)
    requires forall token :: flag != Flag(token)
    ensures Decoded([flag] + tail) == Err(UnrecognisedFlag)
  {
    assert ([flag] + tail)[0] == flag;
  }

  /** And a flag whose value is not one is refused for that. */
  lemma ABadPortIsRefused(value: string, tail: seq<string>)
    ensures ParseUnsigned(value, 0x1_0000).None? ==> Decoded([Flag(NetPort), value] + tail) == Err(PortNotANumber)
    ensures ParseUnsigned(value, 0x1_0000) == Some(0) ==> Decoded([Flag(NetPort), value] + tail) == Err(PortZero)
  {
    FlagsAreTheirOwnTokens(NetPort);
    var argv := [Flag(NetPort), value] + tail;
    assert argv[0] == Flag(NetPort) && argv[1] == value;
  }

  lemma ABadVariableIsRefused(value: string, tail: seq<string>)
    requires '=' in value
    ensures Decoded([Flag(EnvName), value] + tail) == Err(EnvNameHasEquals)
  {
    FlagsAreTheirOwnTokens(EnvName);
    var argv := [Flag(EnvName), value] + tail;
    assert argv[0] == Flag(EnvName) && argv[1] == value;
  }

  lemma ABadHostIsRefused(value: string, tail: seq<string>)
    requires !IsResolvableName(value)
    ensures Decoded([Flag(DnsName), value] + tail) == Err(UnresolvableName)
  {
    FlagsAreTheirOwnTokens(DnsName);
    var argv := [Flag(DnsName), value] + tail;
    assert argv[0] == Flag(DnsName) && argv[1] == value;
  }

  lemma ABadDigestIsRefused(value: string, tail: seq<string>)
    requires ParseDigest(value).None?
    ensures Decoded([Flag(Pin), value] + tail) == Err(NotADigest)
  {
    FlagsAreTheirOwnTokens(Pin);
    var argv := [Flag(Pin), value] + tail;
    assert argv[0] == Flag(Pin) && argv[1] == value;
  }

  lemma ABadObjectIsRefused(axis: Axis, path: string, value: string, tail: seq<string>)
    requires ParseObject(value).None?
    ensures Decoded([Flag(Grant(axis)), path, value] + tail) == Err(NotAnObjectPin)
  {
    FlagsAreTheirOwnTokens(Grant(axis));
    var argv := [Flag(Grant(axis)), path, value] + tail;
    assert argv[0] == Flag(Grant(axis)) && argv[2] == value;
  }

  /** One pin, and no second. */
  lemma ASecondPinIsRefused(one: string, other: string, tail: seq<string>)
    requires ParseDigest(one).Some? && ParseDigest(other).Some?
    ensures Decoded([Flag(Pin), one] + ([Flag(Pin), other] + tail)) == Err(SecondPin)
  {
    FlagsAreTheirOwnTokens(Pin);
    var rest := [Flag(Pin), other] + tail;
    var argv := [Flag(Pin), one] + rest;
    assert argv[2..] == rest;
    assert OneFlag(argv, DEFAULT, None) == Ok(Progress(DEFAULT, ParseDigest(one), 2));
    assert DecodeFrom(rest, DEFAULT, ParseDigest(one)) == Err(SecondPin);
  }

  // ----- An argv in full -----

  lemma OneDigit(n: nat)
    requires n < 10
    ensures Digits(n, 10) == [('0' as int + n) as char]
  {
  }

  lemma OneOfEach(axis: Axis, path: VettedPath, name: string, flag: Token, port: u16)
    ensures PathTokens(axis, [path]) == [Flag(Grant(axis)), path.path, SpellObject(path.objectId)]
    ensures NameTokens(flag, [name]) == [Flag(flag), name]
    ensures PortTokens([port]) == [Flag(NetPort), Digits(port, 10)]
  {
    assert [path][..0] == [] && [name][..0] == [] && [port][..0] == [];
  }

  lemma AnObjectInFull(dev: u64, ino: u64)
    requires dev < 10 && ino < 10
    ensures SpellObject(ObjectId(dev, ino)) == [('0' as int + dev) as char, ':', ('0' as int + ino) as char]
  {
    OneDigit(dev);
    OneDigit(ino);
  }

  /** One of everything, as the helper is handed it. */
  lemma AnArgvInFull(r: VettedPath, w: VettedPath, x: VettedPath, port: u16, name: string, host: string, digest: Sha256Digest,
                     program: string, args: seq<string>)
    requires port < 10
    ensures var policy := SandboxPolicy([r], [w], [x], Ports([port]), true, [name], true, [host]);
            Encoded(Helper(policy, program, args, Some(digest))) ==
            ["--ro", r.path, SpellObject(r.objectId)] + ["--rw", w.path, SpellObject(w.objectId)]
            + ["--rx", x.path, SpellObject(x.objectId)] + ["--allow-network-port", [('0' as int + port) as char]]
            + (["--allow-unix-sockets"] + ["--dns-over-tcp"]) + ["--env", name] + ["--allow-dns-name", host]
            + ["--pin-sha256", SpellDigest(digest)] + (["--", program] + args)
  {
    OneDigit(port);
    OneOfEach(Read, r, name, EnvName, port);
    OneOfEach(Write, w, host, DnsName, port);
    OneOfEach(ReadExecute, x, host, DnsName, port);
  }

  lemma EveryPortInFull(policy: SandboxPolicy)
    requires policy.network.AnyPort?
    ensures NetworkTokens(policy.network) == ["--allow-network"]
  {
  }

  /** A digest's bytes, high half first, in lower case. */
  lemma ADigestGoesByteByByte(bytes: seq<byte>)
    requires bytes != []
    ensures SpellDigest(bytes) == [HexChar(bytes[0] / 16), HexChar(bytes[0] % 16)] + SpellDigest(bytes[1..])
  {
  }

  function HexChar(d: nat): char
    requires d < 16
  {
    if d < 10 then (48 + d) as char else (87 + d) as char
  }

  // ----- The audit channel -----

  /** What crosses of a detail is its characters that part no fields, in order. */
  lemma {:induction false} DetailsLoseOnlySeparators(a: string, b: string, c: char)
    ensures Audit.Kept(a + b) == Audit.Kept(a) + Audit.Kept(b)
    ensures Audit.Kept([c]) == if c == '\n' || c == '\t' then "" else [c]
    decreases b
  {
    assert [c][..0] == "";
    if b == "" {
      assert a + b == a;
    } else {
      assert (a + b)[..|a + b| - 1] == a + b[..|b| - 1];
      DetailsLoseOnlySeparators(a, b[..|b| - 1], c);
    }
  }

  /** Nothing in it that the channel takes away: no separator, no more than 256 characters, and no
      carriage return at its end. */
  predicate ComesThrough(detail: string) {
    && (forall c | c in detail :: c != '\n' && c != '\t')
    && |detail| <= 256
    && (detail != "" ==> detail[|detail| - 1] != '\r')
  }

  lemma {:induction false} NothingIsLost(detail: string)
    requires forall c | c in detail :: c != '\n' && c != '\t'
    ensures Audit.Kept(detail) == detail
  {
    if detail != "" {
      var front, last := detail[..|detail| - 1], detail[|detail| - 1];
      assert forall c | c in front :: c in detail;
      NothingIsLost(front);
      assert last in detail && front + [last] == detail;
    }
  }

  function Sent(records: seq<Audit.Degraded>, refusal: Option<Audit.HelperRefusal>): string {
    Audit.Encoded(records) + if refusal.Some? then Audit.EncodedRefusal(refusal.value) else ""
  }

  function Reports(records: seq<Audit.Degraded>): (reports: seq<Audit.Report>)
    ensures |reports| == |records| && forall i | 0 <= i < |records| :: reports[i] == Audit.DegradedReport(records[i])
  {
    if records == [] then [] else [Audit.DegradedReport(records[0])] + Reports(records[1..])
  }

  lemma {:induction false} ReceivedAsSent(records: seq<Audit.Degraded>)
    requires forall i | 0 <= i < |records| :: ComesThrough(records[i].detail)
    ensures Audit.AllReceived(records) == Reports(records)
  {
    if records != [] {
      NothingIsLost(records[0].detail);
      ReceivedAsSent(records[1..]);
    }
  }

  /** Details of that kind are read back as they were sent, each under its own step, and the refusal
      after them. */
  lemma PlainDetailsComeThroughWhole(records: seq<Audit.Degraded>, refusal: Option<Audit.HelperRefusal>)
    requires Audit.OncePerStep(records)
    requires forall i | 0 <= i < |records| :: ComesThrough(records[i].detail)
    ensures Audit.Decoded(Sent(records, refusal)) ==
            Reports(records) + if refusal.Some? then [Audit.Failed(refusal.value)] else []
  {
    Audit.ChannelRoundTrips(records, refusal);
    ReceivedAsSent(records);
  }

  /** A line in full, of a degradation and of a refusal. */
  lemma AChannelInFull(detail: string)
    requires ComesThrough(detail)
    ensures Sent([Audit.Degraded(Audit.CapabilityBoundingSet, detail)], Some(Audit.Landlock)) ==
            "capability_bounding_set" + ['\t'] + detail + ['\n'] + ("landlock" + ['\t'] + ['\n'])
  {
    ALineInFull(Audit.CapabilityBoundingSet, "capability_bounding_set", detail);
    assert Audit.EncodedRefusal(Audit.Landlock) == "landlock" + ['\t'] + "" + ['\n'] == "landlock" + ['\t'] + ['\n'];
  }

  lemma ALineInFull(step: Audit.Degradation, name: string, detail: string)
    requires ComesThrough(detail) && name == Audit.Label(Audit.Step(step))
    ensures Audit.Encoded([Audit.Degraded(step, detail)]) == name + ['\t'] + detail + ['\n']
  {
    NothingIsLost(detail);
    var record := Audit.Degraded(step, detail);
    assert [record][1..] == [] && Audit.Encoded([]) == "";
    assert name + ['\t'] + detail + ['\n'] + "" == name + ['\t'] + detail + ['\n'];
  }

  // ----- A spawn id in full -----

  /** Pid and nanoseconds in hex, the count in decimal. */
  lemma AnIdInFull()
    ensures Spawn.IdText(Spawn.NonceText(255, 16), 10) == "ff.10.10"
  {
    assert Digits(15, 16) == "f" && Digits(255, 16) == Digits(15, 16) + ['f'] == "ff";
    assert Digits(1, 16) == "1" && Digits(16, 16) == Digits(1, 16) + ['0'] == "10";
    assert Digits(1, 10) == "1" && Digits(10, 10) == Digits(1, 10) + ['0'] == "10";
  }
}
