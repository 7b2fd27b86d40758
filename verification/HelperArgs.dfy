/** The argv seam (`helper_args.rs`): a policy and a command rendered as helper argv, and parsed
    back by a decoder that refuses most of what the encoder could not have written. What it lets
    through besides is said exactly below. */
module HelperArgs {
  import opened Wrappers
  import opened Bits
  import opened Policy
  import opened Numerals

  type byte = x: nat | x < 256

  type Sha256Digest = bytes: seq<byte> | |bytes| == 32 witness seq(32, _ => 0)

  datatype Helper = Helper(policy: SandboxPolicy, program: string, args: seq<string>, pin: Option<Sha256Digest>)

  datatype BadHelperArgs =
    | MissingSeparator | NoCommand | NoPort | PortNotANumber | PortZero | NoEnvName | EnvNameHasEquals
    | NoDnsName | UnresolvableName | NoDigest | NotADigest | SecondPin | UnrecognisedFlag | NoPath | NoObjectPin
    | NotAnObjectPin | PinnedProgramNotAbsolute | UnboundedResolution

  datatype Token = End | Net | NetPort | Unix | DnsOverTcp | EnvName | DnsName | Pin | Grant(axis: Axis)

  /** How each token is spelled. */
  function Flag(token: Token): string {
    match token
    case End => "--"
    case Net => "--allow-network"
    case NetPort => "--allow-network-port"
    case Unix => "--allow-unix-sockets"
    case DnsOverTcp => "--dns-over-tcp"
    case EnvName => "--env"
    case DnsName => "--allow-dns-name"
    case Pin => "--pin-sha256"
    case Grant(Read) => "--ro"
    case Grant(Write) => "--rw"
    case Grant(ReadExecute) => "--rx"
  }

  const TOKENS: seq<Token> :=
    [End, Net, NetPort, Unix, DnsOverTcp, EnvName, DnsName, Pin, Grant(Read), Grant(Write), Grant(ReadExecute)]

  lemma SpellingsDiffer(a: Token, b: Token)
    requires Flag(a) == Flag(b)
    ensures a == b
  {
    assert |Flag(a)| == |Flag(b)|;
    assert |Flag(a)| > 8 ==> Flag(a)[8] == Flag(b)[8];
    assert |Flag(a)| == 4 ==> Flag(a)[3] == Flag(b)[3];
  }

  /** A lookup over the spellings, not a second list of them. */
  function TokenOf(arg: string): (token: Option<Token>)
    ensures token.Some? ==> Flag(token.value) == arg
  {
    if exists token | token in TOKENS :: Flag(token) == arg then
      SpellingsDifferAll();
      var token :| token in TOKENS && Flag(token) == arg;
      Some(token)
    else None
  }

  lemma SpellingsDifferAll()
    ensures forall a, b | Flag(a) == Flag(b) :: a == b
  {
    forall a, b | Flag(a) == Flag(b) ensures a == b {
      SpellingsDiffer(a, b);
    }
  }

  lemma EveryTokenIsListed(token: Token)
    ensures token in TOKENS
  {
    match token
    case End => assert TOKENS[0] == token;
    case Net => assert TOKENS[1] == token;
    case NetPort => assert TOKENS[2] == token;
    case Unix => assert TOKENS[3] == token;
    case DnsOverTcp => assert TOKENS[4] == token;
    case EnvName => assert TOKENS[5] == token;
    case DnsName => assert TOKENS[6] == token;
    case Pin => assert TOKENS[7] == token;
    case Grant(Read) => assert TOKENS[8] == token;
    case Grant(Write) => assert TOKENS[9] == token;
    case Grant(ReadExecute) => assert TOKENS[10] == token;
  }

  lemma FlagsAreTheirOwnTokens(token: Token)
    ensures TokenOf(Flag(token)) == Some(token)
  {
    EveryTokenIsListed(token);
    SpellingsDiffer(token, TokenOf(Flag(token)).value);
  }

  // ----- Values on the wire -----

  function SpellObject(id: ObjectId): string {
    Digits(id.dev, 10) + [':'] + Digits(id.ino, 10)
  }

  function ParseObject(token: string): Option<ObjectId> {
    var halves := SplitOnce(token, ':');
    if halves.None? then None
    else
      var dev := ParseUnsigned(halves.value.0, 0x1_0000_0000_0000_0000);
      var ino := ParseUnsigned(halves.value.1, 0x1_0000_0000_0000_0000);
      if dev.Some? && ino.Some? then Some(ObjectId(dev.value, ino.value)) else None
  }

  function SpellDigest(bytes: seq<byte>): string {
    if bytes == [] then "" else [DigitChar(bytes[0] / 16), DigitChar(bytes[0] % 16)] + SpellDigest(bytes[1..])
  }

  /** Pairs of lower-case hex characters, no folding of upper case. */
  function ParseBytes(hex: string): Option<seq<byte>>
    requires |hex| % 2 == 0
  {
    if hex == "" then Some([])
    else
      var high, low, rest := DigitValue(hex[0]), DigitValue(hex[1]), ParseBytes(hex[2..]);
      if high.Some? && low.Some? && rest.Some? then Some([high.value * 16 + low.value] + rest.value) else None
  }

  lemma {:induction false} ParsedBytesAreHalf(hex: string)
    requires |hex| % 2 == 0
    ensures ParseBytes(hex).Some? ==> |ParseBytes(hex).value| == |hex| / 2
  {
    if hex != "" { ParsedBytesAreHalf(hex[2..]); }
  }

  function ParseDigest(hex: string): Option<Sha256Digest> {
    if |hex| != 64 then None
    else
      ParsedBytesAreHalf(hex);
      var bytes := ParseBytes(hex);
      if bytes.Some? then Some(bytes.value) else None
  }

  lemma ObjectRoundTrips(id: ObjectId)
    ensures ParseObject(SpellObject(id)) == Some(id)
  {
    var dev := Digits(id.dev, 10);
    assert ':' !in dev by { assert !IsDigit(':', 10); }
    SplitOnceFinds(dev, ':', Digits(id.ino, 10));
    ParseReadsDigits(id.dev, 0x1_0000_0000_0000_0000);
    ParseReadsDigits(id.ino, 0x1_0000_0000_0000_0000);
  }

  lemma {:induction false} BytesRoundTrip(bytes: seq<byte>)
    ensures |SpellDigest(bytes)| == 2 * |bytes| && ParseBytes(SpellDigest(bytes)) == Some(bytes)
  {
    if bytes != [] {
      var hex := SpellDigest(bytes);
      DigitsAreRead(bytes[0] / 16, 16);
      DigitsAreRead(bytes[0] % 16, 16);
      assert hex[2..] == SpellDigest(bytes[1..]);
      BytesRoundTrip(bytes[1..]);
      assert [bytes[0]] + bytes[1..] == bytes;
    }
  }

  lemma DigestRoundTrips(digest: Sha256Digest)
    ensures ParseDigest(SpellDigest(digest)) == Some(digest)
  {
    BytesRoundTrip(digest);
  }

  /** Both halves as the encoder writes them. */
  predicate PlainObject(token: string) {
    var halves := SplitOnce(token, ':');
    halves.Some? && Plain(halves.value.0) && Plain(halves.value.1)
  }

  lemma ParsedObjectIsSpelledIffPlain(token: string)
    requires ParseObject(token).Some?
    ensures SpellObject(ParseObject(token).value) == token <==> PlainObject(token)
  {
    var id := ParseObject(token).value;
    var (before, after) := SplitOnce(token, ':').value;
    var dev, ino := Digits(id.dev, 10), Digits(id.ino, 10);
    ParsedIsSpelledIffPlain(before, 0x1_0000_0000_0000_0000);
    ParsedIsSpelledIffPlain(after, 0x1_0000_0000_0000_0000);
    SplitOnceJoins(token, ':');
    assert ':' !in dev by { assert !IsDigit(':', 10); }
    SplitOnceFinds(dev, ':', ino);
  }

  /** So one object has more spellings than the one it is written in. */
  lemma ASecondObjectSpelling()
    ensures ParseObject("+1:02") == Some(ObjectId(1, 2)) && SpellObject(ObjectId(1, 2)) != "+1:02"
  {
    var token := "+1:02";
    SplitOnceFinds("+1", ':', "02");
    assert token == "+1" + [':'] + "02";
    OneIsRead();
    TwoIsRead();
    ParsedObjectIsSpelledIffPlain(token);
    assert !Plain("+1");
  }

  lemma OneIsRead()
    ensures ParseUnsigned("+1", 0x1_0000_0000_0000_0000) == Some(1)
  {
    assert "+1"[1..] == "1" && "1"[..0] == "";
    assert ValueOf("1", 10) == 1;
  }

  lemma TwoIsRead()
    ensures ParseUnsigned("02", 0x1_0000_0000_0000_0000) == Some(2)
  {
    assert "02"[..1] == "0" && "0"[..0] == "";
    assert ValueOf("0", 10) == 0;
    assert ValueOf("02", 10) == 2;
  }

  /** No two hex texts are one digest. */
  lemma DigestHasOneSpelling(hex: string)
    requires ParseDigest(hex).Some?
    ensures SpellDigest(ParseDigest(hex).value) == hex
  {
    ParsedBytesAreSpelled(hex);
  }

  lemma {:induction false} ParsedBytesAreSpelled(hex: string)
    requires |hex| % 2 == 0 && ParseBytes(hex).Some?
    ensures SpellDigest(ParseBytes(hex).value) == hex
    decreases |hex|
  {
    if hex != "" {
      DigitIsSpelled(hex[0], 16);
      DigitIsSpelled(hex[1], 16);
      ParsedBytesAreSpelled(hex[2..]);
      PairIsSpelled(DigitValue(hex[0]).value, DigitValue(hex[1]).value, ParseBytes(hex[2..]).value);
      assert hex == [hex[0], hex[1]] + hex[2..];
    }
  }

  lemma PairIsSpelled(high: nat, low: nat, rest: seq<byte>)
    requires high < 16 && low < 16
    ensures SpellDigest([high * 16 + low] + rest) == [DigitChar(high), DigitChar(low)] + SpellDigest(rest)
  {
    assert (high * 16 + low) / 16 == high && (high * 16 + low) % 16 == low;
    assert ([high * 16 + low] + rest)[1..] == rest;
  }

  // ----- Encoding -----

  function PathTokens(axis: Axis, paths: seq<VettedPath>): seq<string> {
    if paths == [] then []
    else PathTokens(axis, paths[..|paths| - 1])
         + [Flag(Grant(axis)), paths[|paths| - 1].path, SpellObject(paths[|paths| - 1].objectId)]
  }

  function PortTokens(ports: seq<u16>): seq<string> {
    if ports == [] then []
    else PortTokens(ports[..|ports| - 1]) + [Flag(NetPort), Digits(ports[|ports| - 1], 10)]
  }

  function NetworkTokens(network: NetworkPolicy): seq<string> {
    match network
    case Denied => []
    case AnyPort => [Flag(Net)]
    case Ports(ports) => PortTokens(ports)
  }

  function NameTokens(flag: Token, names: seq<string>): seq<string> {
    if names == [] then [] else NameTokens(flag, names[..|names| - 1]) + [Flag(flag), names[|names| - 1]]
  }

  function SwitchTokens(policy: SandboxPolicy): seq<string> {
    (if policy.unixSockets then [Flag(Unix)] else []) + if policy.dnsOverTcp then [Flag(DnsOverTcp)] else []
  }

  function PinTokens(pin: Option<Sha256Digest>): seq<string> {
    if pin.Some? then [Flag(Pin), SpellDigest(pin.value)] else []
  }

  /** The flags, in the one order they are written in. */
  function Front(policy: SandboxPolicy, pin: Option<Sha256Digest>): seq<string> {
    PathTokens(Read, policy.readable)
    + PathTokens(Write, policy.writable)
    + PathTokens(ReadExecute, policy.executable)
    + NetworkTokens(policy.network)
    + SwitchTokens(policy)
    + NameTokens(EnvName, policy.env)
    + NameTokens(DnsName, policy.dnsNames)
    + PinTokens(pin)
  }

  function Encoded(helper: Helper): seq<string> {
    Front(helper.policy, helper.pin) + ([Flag(End), helper.program] + helper.args)
  }

  method EncodePaths(before: seq<string>, axis: Axis, paths: seq<VettedPath>) returns (out: seq<string>)
    ensures out == before + PathTokens(axis, paths)
  {
    out := before;
    for i := 0 to |paths|
      invariant out == before + PathTokens(axis, paths[..i])
    {
      assert paths[..i + 1][..i] == paths[..i];
      out := out + [Flag(Grant(axis)), paths[i].path, SpellObject(paths[i].objectId)];
    }
    assert paths[..|paths|] == paths;
  }

  method EncodeNames(before: seq<string>, flag: Token, names: seq<string>) returns (out: seq<string>)
    ensures out == before + NameTokens(flag, names)
  {
    out := before;
    for i := 0 to |names|
      invariant out == before + NameTokens(flag, names[..i])
    {
      assert names[..i + 1][..i] == names[..i];
      out := out + [Flag(flag), names[i]];
    }
    assert names[..|names|] == names;
  }

  method EncodePorts(before: seq<string>, ports: seq<u16>) returns (out: seq<string>)
    ensures out == before + PortTokens(ports)
  {
    out := before;
    for i := 0 to |ports|
      invariant out == before + PortTokens(ports[..i])
    {
      assert ports[..i + 1][..i] == ports[..i];
      out := out + [Flag(NetPort), Digits(ports[i], 10)];
    }
    assert ports[..|ports|] == ports;
  }

  method EncodeNetwork(before: seq<string>, network: NetworkPolicy) returns (out: seq<string>)
    ensures out == before + NetworkTokens(network)
  {
    out := before;
    match network {
      case Denied =>
      case AnyPort => out := out + [Flag(Net)];
      case Ports(ports) => out := EncodePorts(out, ports);
    }
  }

  method EncodePin(before: seq<string>, pin: Option<Sha256Digest>) returns (out: seq<string>)
    ensures out == before + PinTokens(pin)
  {
    out := before;
    if pin.Some? { out := out + [Flag(Pin), SpellDigest(pin.value)]; }
  }

  method EncodeSwitches(before: seq<string>, policy: SandboxPolicy) returns (out: seq<string>)
    ensures out == before + SwitchTokens(policy)
  {
    out := before;
    if policy.unixSockets { out := out + [Flag(Unix)]; }
    if policy.dnsOverTcp { out := out + [Flag(DnsOverTcp)]; }
  }

  method Encode(helper: Helper) returns (out: seq<string>)
    ensures out == Encoded(helper)
  {
    var policy := helper.policy;
    out := EncodePaths([], Read, policy.readable);
    assert out == PathTokens(Read, policy.readable);
    out := EncodePaths(out, Write, policy.writable);
    out := EncodePaths(out, ReadExecute, policy.executable);
    out := EncodeNetwork(out, policy.network);
    out := EncodeSwitches(out, policy);
    out := EncodeNames(out, EnvName, policy.env);
    out := EncodeNames(out, DnsName, policy.dnsNames);
    out := EncodePin(out, helper.pin);
    ghost var before := out;
    out := out + [Flag(End), helper.program];
    out := out + helper.args;
    assert out == before + ([Flag(End), helper.program] + helper.args);
  }

  // ----- Decoding -----

  predicate IsAbsolute(program: string) {
    program != "" && program[0] == '/'
  }

  function Finish(program: string, args: seq<string>, policy: SandboxPolicy, pin: Option<Sha256Digest>): Result<Helper, BadHelperArgs> {
    if pin.Some? && !IsAbsolute(program) then Err(PinnedProgramNotAbsolute)
    else if policy.UnboundedResolution() then Err(UnboundedResolution)
    else Ok(Helper(policy, program, args, pin))
  }

  /** What one flag and its values do to what is decoded so far, and how many tokens that took. */
  datatype Progress = Progress(policy: SandboxPolicy, pin: Option<Sha256Digest>, taken: nat)

  function OneFlag(rest: seq<string>, policy: SandboxPolicy, pin: Option<Sha256Digest>): (step: Result<Progress, BadHelperArgs>)
    requires rest != [] && TokenOf(rest[0]) != Some(End)
    ensures step.Ok? ==> 1 <= step.value.taken <= |rest|
  {
    match TokenOf(rest[0])
    case Some(Net) => Ok(Progress(policy.AllowNetwork(), pin, 1))
    case Some(NetPort) =>
      if |rest| < 2 then Err(NoPort)
      else
        var port := ParseUnsigned(rest[1], 0x1_0000);
        if port.None? then Err(PortNotANumber)
        else if port.value == 0 then Err(PortZero)
        else ParsedFits(rest[1], 0x1_0000); Ok(Progress(policy.AllowNetworkPort(port.value), pin, 2))
    case Some(Unix) => Ok(Progress(policy.AllowUnixSockets(), pin, 1))
    case Some(DnsOverTcp) => Ok(Progress(policy.HintDnsOverTcp(), pin, 1))
    case Some(EnvName) =>
      if |rest| < 2 then Err(NoEnvName)
      else if '=' in rest[1] then Err(EnvNameHasEquals)
      else Ok(Progress(policy.AllowEnv(rest[1]), pin, 2))
    case Some(DnsName) =>
      if |rest| < 2 then Err(NoDnsName)
      else if !IsResolvableName(rest[1]) then Err(UnresolvableName)
      else Ok(Progress(policy.AllowDns(rest[1]), pin, 2))
    case Some(Pin) =>
      if |rest| < 2 then Err(NoDigest)
      else
        var digest := ParseDigest(rest[1]);
        if digest.None? then Err(NotADigest)
        else if pin.Some? then Err(SecondPin)
        else Ok(Progress(policy, digest, 2))
    case Some(Grant(axis)) =>
      if |rest| < 2 then Err(NoPath)
      else if |rest| < 3 then Err(NoObjectPin)
      else
        var id := ParseObject(rest[2]);
        if id.None? then Err(NotAnObjectPin)
        else Ok(Progress(policy.Grant(axis, VettedPath(rest[1], id.value)), pin, 3))
    case None => Err(UnrecognisedFlag)
  }

  lemma ParsedFits(text: string, limit: nat)
    ensures ParseUnsigned(text, limit).Some? ==> ParseUnsigned(text, limit).value < limit
  {
  }

  function DecodeFrom(rest: seq<string>, policy: SandboxPolicy, pin: Option<Sha256Digest>): Result<Helper, BadHelperArgs>
    decreases |rest|
  {
    if rest == [] then Err(MissingSeparator)
    else if TokenOf(rest[0]) == Some(End) then
      if |rest| < 2 then Err(NoCommand) else Finish(rest[1], rest[2..], policy, pin)
    else
      match OneFlag(rest, policy, pin)
      case Err(error) => Err(error)
      case Ok(step) => DecodeFrom(rest[step.taken..], step.policy, step.pin)
  }

  function Decoded(argv: seq<string>): Result<Helper, BadHelperArgs> {
    DecodeFrom(argv, DEFAULT, None)
  }

  /** The decoder's loop, flag by flag, refusing at the first thing that is not one. */
  method Decode(argv: seq<string>) returns (decoded: Result<Helper, BadHelperArgs>)
    ensures decoded == Decoded(argv)
  {
    var policy, pin, rest := DEFAULT, None, argv;
    while rest != [] && TokenOf(rest[0]) != Some(End)
      invariant DecodeFrom(rest, policy, pin) == Decoded(argv)
      decreases |rest|
    {
      var step := OneFlag(rest, policy, pin);
      if step.Err? {
        return Err(step.error);
      }
      policy, pin, rest := step.value.policy, step.value.pin, rest[step.value.taken..];
    }
    if rest == [] {
      return Err(MissingSeparator);
    }
    if |rest| == 1 {
      return Err(NoCommand);
    }
    decoded := Finish(rest[1], rest[2..], policy, pin);
  }

  // ----- As the encoder would have written it -----

  function Rank(token: Token): nat {
    match token
    case Grant(Read) => 0
    case Grant(Write) => 1
    case Grant(ReadExecute) => 2
    case Net => 3
    case NetPort => 3
    case Unix => 4
    case DnsOverTcp => 5
    case EnvName => 6
    case DnsName => 7
    case Pin => 8
    case End => 9
  }

  /** Nothing has been given that the encoder writes after rank `r`. */
  predicate NothingAfter(policy: SandboxPolicy, pin: Option<Sha256Digest>, r: nat) {
    && (r < 1 ==> policy.writable == [])
    && (r < 2 ==> policy.executable == [])
    && (r < 3 ==> policy.network.Denied?)
    && (r < 4 ==> !policy.unixSockets)
    && (r < 5 ==> !policy.dnsOverTcp)
    && (r < 6 ==> policy.env == [])
    && (r < 7 ==> policy.dnsNames == [])
    && (r < 8 ==> pin.None?)
  }

  /** The flag ahead says something new, and as the encoder spells it: plain numerals, no switch, port
      or name given already, no port under a grant of every port nor the other way round, and no
      name the policy would skip. */
  predicate SaysSomethingNew(rest: seq<string>, policy: SandboxPolicy) {
    && rest != []
    && match TokenOf(rest[0])
       case Some(Grant(_)) => |rest| >= 3 && PlainObject(rest[2])
       case Some(Net) => policy.network.Denied?
       case Some(NetPort) =>
         && |rest| >= 2 && Plain(rest[1]) && !policy.network.AnyPort?
         && (policy.network.Ports? ==> ParseUnsigned(rest[1], 0x1_0000).GetOr(0) !in policy.network.ports)
       case Some(Unix) => !policy.unixSockets
       case Some(DnsOverTcp) => !policy.dnsOverTcp
       case Some(EnvName) => |rest| >= 2 && IsEnvName(rest[1])
       case Some(DnsName) => |rest| >= 2 && rest[1] !in policy.dnsNames
       case Some(Pin) => true
       case Some(End) => false
       case None => false
  }

  /** And stands where the encoder would have put it. */
  predicate AsWritten(rest: seq<string>, policy: SandboxPolicy, pin: Option<Sha256Digest>) {
    SaysSomethingNew(rest, policy) && NothingAfter(policy, pin, Rank(TokenOf(rest[0]).value))
  }

  predicate Canonical(rest: seq<string>, policy: SandboxPolicy, pin: Option<Sha256Digest>)
    decreases |rest|
  {
    rest == [] || TokenOf(rest[0]) == Some(End)
    || (&& AsWritten(rest, policy, pin)
        && var step := OneFlag(rest, policy, pin);
           step.Ok? && Canonical(rest[step.value.taken..], step.value.policy, step.value.pin))
  }

  // ----- The round trip -----

  /** In front of anything, `tokens` turn what is decoded so far from one into the other, and leave
      what is as the encoder wrote it so. */
  ghost predicate Turns(tokens: seq<string>, policy: SandboxPolicy, pin: Option<Sha256Digest>,
                        policy': SandboxPolicy, pin': Option<Sha256Digest>)
  {
    forall tail {:trigger DecodeFrom(tokens + tail, policy, pin)} ::
      && DecodeFrom(tokens + tail, policy, pin) == DecodeFrom(tail, policy', pin')
      && (Canonical(tail, policy', pin') ==> Canonical(tokens + tail, policy, pin))
  }

  lemma TurnsNothing(policy: SandboxPolicy, pin: Option<Sha256Digest>)
    ensures Turns([], policy, pin, policy, pin)
  {
    forall tail: seq<string> ensures [] + tail == tail {
    }
  }

  lemma TurnsJoin(a: seq<string>, b: seq<string>, p1: SandboxPolicy, pin1: Option<Sha256Digest>,
                  p2: SandboxPolicy, pin2: Option<Sha256Digest>, p3: SandboxPolicy, pin3: Option<Sha256Digest>)
    requires Turns(a, p1, pin1, p2, pin2) && Turns(b, p2, pin2, p3, pin3)
    ensures Turns(a + b, p1, pin1, p3, pin3)
  {
    forall tail
      ensures DecodeFrom(a + b + tail, p1, pin1) == DecodeFrom(tail, p3, pin3)
      ensures Canonical(tail, p3, pin3) ==> Canonical(a + b + tail, p1, pin1)
    {
      assert a + b + tail == a + (b + tail);
    }
  }

  /** One flag and its values. */
  lemma OneFlagTurns(tokens: seq<string>, policy: SandboxPolicy, pin: Option<Sha256Digest>, step: Progress)
    requires tokens != [] && TokenOf(tokens[0]) != Some(End) && step.taken == |tokens|
    requires forall tail :: OneFlag(tokens + tail, policy, pin) == Ok(step)
    requires forall tail :: AsWritten(tokens + tail, policy, pin)
    ensures Turns(tokens, policy, pin, step.policy, step.pin)
  {
    forall tail
      ensures DecodeFrom(tokens + tail, policy, pin) == DecodeFrom(tail, step.policy, step.pin)
      ensures Canonical(tail, step.policy, step.pin) ==> Canonical(tokens + tail, policy, pin)
    {
      assert (tokens + tail)[|tokens|..] == tail;
    }
  }

  lemma GrantTurns(axis: Axis, path: VettedPath, policy: SandboxPolicy, pin: Option<Sha256Digest>)
    requires NothingAfter(policy, pin, Rank(Grant(axis)))
    ensures Turns([Flag(Grant(axis)), path.path, SpellObject(path.objectId)], policy, pin, policy.Grant(axis, path), pin)
  {
    FlagsAreTheirOwnTokens(Grant(axis));
    ObjectRoundTrips(path.objectId);
    ParsedObjectIsSpelledIffPlain(SpellObject(path.objectId));
    var tokens := [Flag(Grant(axis)), path.path, SpellObject(path.objectId)];
    OneFlagTurns(tokens, policy, pin, Progress(policy.Grant(axis, path), pin, 3));
  }

  lemma PortTurns(port: u16, policy: SandboxPolicy, pin: Option<Sha256Digest>)
    requires port != 0 && NothingAfter(policy, pin, Rank(NetPort))
    requires !policy.network.AnyPort? && (policy.network.Ports? ==> port !in policy.network.ports)
    ensures Turns([Flag(NetPort), Digits(port, 10)], policy, pin, policy.AllowNetworkPort(port), pin)
  {
    FlagsAreTheirOwnTokens(NetPort);
    ParseReadsDigits(port, 0x1_0000);
    DigitsArePlain(port);
    OneFlagTurns([Flag(NetPort), Digits(port, 10)], policy, pin, Progress(policy.AllowNetworkPort(port), pin, 2));
  }

  function Named(flag: Token, policy: SandboxPolicy, name: string): SandboxPolicy {
    if flag == EnvName then policy.AllowEnv(name) else policy.AllowDns(name)
  }

  lemma NameTurns(flag: Token, name: string, policy: SandboxPolicy, pin: Option<Sha256Digest>)
    requires (flag == EnvName && IsEnvName(name)) || (flag == DnsName && IsResolvableName(name) && name !in policy.dnsNames)
    requires NothingAfter(policy, pin, Rank(flag))
    ensures Turns([Flag(flag), name], policy, pin, Named(flag, policy, name), pin)
  {
    FlagsAreTheirOwnTokens(flag);
    OneFlagTurns([Flag(flag), name], policy, pin, Progress(Named(flag, policy, name), pin, 2));
  }

  function Switched(flag: Token, policy: SandboxPolicy): SandboxPolicy {
    if flag == Net then policy.AllowNetwork()
    else if flag == Unix then policy.AllowUnixSockets()
    else policy.HintDnsOverTcp()
  }

  lemma SwitchTurns(flag: Token, policy: SandboxPolicy, pin: Option<Sha256Digest>)
    requires flag in {Net, Unix, DnsOverTcp} && NothingAfter(policy, pin, Rank(flag))
    requires policy.network.Denied? || flag != Net
    requires (flag == Unix ==> !policy.unixSockets) && (flag == DnsOverTcp ==> !policy.dnsOverTcp)
    ensures Turns([Flag(flag)], policy, pin, Switched(flag, policy), pin)
  {
    FlagsAreTheirOwnTokens(flag);
    OneFlagTurns([Flag(flag)], policy, pin, Progress(Switched(flag, policy), pin, 1));
  }

  function Granting(policy: SandboxPolicy, axis: Axis, paths: seq<VettedPath>): SandboxPolicy {
    match axis
    case Read => policy.(readable := policy.readable + paths)
    case Write => policy.(writable := policy.writable + paths)
    case ReadExecute => policy.(executable := policy.executable + paths)
  }

  lemma {:induction false} PathsTurn(axis: Axis, paths: seq<VettedPath>, policy: SandboxPolicy, pin: Option<Sha256Digest>)
    requires NothingAfter(policy, pin, Rank(Grant(axis)))
    ensures Turns(PathTokens(axis, paths), policy, pin, Granting(policy, axis, paths), pin)
    decreases |paths|
  {
    if paths == [] {
      TurnsNothing(policy, pin);
      assert Granting(policy, axis, paths) == policy;
    } else {
      var front, last := paths[..|paths| - 1], paths[|paths| - 1];
      PathsTurn(axis, front, policy, pin);
      OnePathTurns(axis, front, last, policy, pin);
      assert front + [last] == paths;
    }
  }

  lemma OnePathTurns(axis: Axis, front: seq<VettedPath>, last: VettedPath, policy: SandboxPolicy, pin: Option<Sha256Digest>)
    requires NothingAfter(policy, pin, Rank(Grant(axis)))
    requires Turns(PathTokens(axis, front), policy, pin, Granting(policy, axis, front), pin)
    ensures Turns(PathTokens(axis, front + [last]), policy, pin, Granting(policy, axis, front + [last]), pin)
  {
    var sofar := Granting(policy, axis, front);
    GrantTurns(axis, last, sofar, pin);
    GrantingOneMore(policy, axis, front, last);
    OneMorePath(axis, front, last);
    TurnsJoin(PathTokens(axis, front), [Flag(Grant(axis)), last.path, SpellObject(last.objectId)],
              policy, pin, sofar, pin, sofar.Grant(axis, last), pin);
  }

  lemma GrantingOneMore(policy: SandboxPolicy, axis: Axis, front: seq<VettedPath>, last: VettedPath)
    ensures Granting(policy, axis, front + [last]) == Granting(policy, axis, front).Grant(axis, last)
  {
    assert policy.Paths(axis) + (front + [last]) == policy.Paths(axis) + front + [last];
    match axis
    case Read =>
    case Write =>
    case ReadExecute =>
  }

  /** A list of ports a policy can come to hold. */
  predicate Listable(ports: seq<u16>) {
    && (forall port | port in ports :: port != 0)
    && forall i, j | 0 <= i < j < |ports| :: ports[i] != ports[j]
  }

  function Listing(policy: SandboxPolicy, ports: seq<u16>): SandboxPolicy {
    if ports == [] then policy else policy.(network := Ports(ports))
  }

  lemma ListingOneMore(policy: SandboxPolicy, front: seq<u16>, last: u16)
    requires policy.network.Denied? && Listable(front + [last])
    ensures Listable(front) && last != 0 && last !in front
    ensures Listing(policy, front + [last]) == Listing(policy, front).AllowNetworkPort(last)
  {
    var ports := front + [last];
    assert forall i | 0 <= i < |front| :: ports[i] == front[i];
    assert ports[|front|] == last && last in ports && forall port | port in front :: port in ports;
    if front == [] { assert ports == [last]; }
  }

  lemma {:induction false} PortsTurn(ports: seq<u16>, policy: SandboxPolicy, pin: Option<Sha256Digest>)
    requires policy.network.Denied? && Listable(ports) && NothingAfter(policy, pin, Rank(NetPort))
    ensures Turns(PortTokens(ports), policy, pin, Listing(policy, ports), pin)
    decreases |ports|
  {
    if ports == [] {
      TurnsNothing(policy, pin);
    } else {
      var front, last := ports[..|ports| - 1], ports[|ports| - 1];
      assert front + [last] == ports;
      ListingOneMore(policy, front, last);
      PortsTurn(front, policy, pin);
      OnePortTurns(front, last, policy, pin);
    }
  }

  lemma OnePortTurns(front: seq<u16>, last: u16, policy: SandboxPolicy, pin: Option<Sha256Digest>)
    requires policy.network.Denied? && Listable(front + [last]) && NothingAfter(policy, pin, Rank(NetPort))
    requires Turns(PortTokens(front), policy, pin, Listing(policy, front), pin)
    ensures Turns(PortTokens(front + [last]), policy, pin, Listing(policy, front + [last]), pin)
  {
    var sofar := Listing(policy, front);
    ListingOneMore(policy, front, last);
    PortTurns(last, sofar, pin);
    OneMorePort(front, last);
    TurnsJoin(PortTokens(front), [Flag(NetPort), Digits(last, 10)], policy, pin, sofar, pin, sofar.AllowNetworkPort(last), pin);
  }

  function Naming(policy: SandboxPolicy, flag: Token, names: seq<string>): SandboxPolicy {
    if flag == EnvName then policy.(env := policy.env + names) else policy.(dnsNames := policy.dnsNames + names)
  }

  predicate Nameable(policy: SandboxPolicy, flag: Token, names: seq<string>) {
    || (flag == EnvName && forall name | name in names :: IsEnvName(name))
    || (flag == DnsName && policy.dnsNames == []
        && (forall name | name in names :: IsResolvableName(name))
        && forall i, j | 0 <= i < j < |names| :: names[i] != names[j])
  }

  lemma {:induction false} NamesTurn(flag: Token, names: seq<string>, policy: SandboxPolicy, pin: Option<Sha256Digest>)
    requires Nameable(policy, flag, names) && NothingAfter(policy, pin, Rank(flag))
    ensures Turns(NameTokens(flag, names), policy, pin, Naming(policy, flag, names), pin)
    decreases |names|
  {
    if names == [] {
      TurnsNothing(policy, pin);
      assert policy.env + names == policy.env && policy.dnsNames + names == policy.dnsNames;
    } else {
      var front, last := names[..|names| - 1], names[|names| - 1];
      var sofar := Naming(policy, flag, front);
      NamesTurn(flag, front, policy, pin);
      assert last in names && front + [last] == names;
      NameTurns(flag, last, sofar, pin);
      OneMoreName(policy, flag, front, last);
      TurnsJoin(NameTokens(flag, front), [Flag(flag), last], policy, pin, sofar, pin, Naming(policy, flag, names), pin);
    }
  }

  lemma OneMoreName(policy: SandboxPolicy, flag: Token, front: seq<string>, last: string)
    requires Nameable(policy, flag, front + [last])
    ensures Naming(policy, flag, front + [last]) == Named(flag, Naming(policy, flag, front), last)
  {
    var names := front + [last];
    assert names[|front|] == last && forall i | 0 <= i < |front| :: names[i] == front[i];
    assert last in names;
    assert policy.env + names == policy.env + front + [last];
    assert policy.dnsNames + names == policy.dnsNames + front + [last];
  }

  lemma NetworkTurns(network: NetworkPolicy, policy: SandboxPolicy, pin: Option<Sha256Digest>)
    requires policy.network.Denied? && policy.(network := network).Built() && NothingAfter(policy, pin, Rank(Net))
    ensures Turns(NetworkTokens(network), policy, pin, policy.(network := network), pin)
  {
    match network
    case Denied => TurnsNothing(policy, pin);
    case AnyPort => SwitchTurns(Net, policy, pin);
    case Ports(ports) => PortsTurn(ports, policy, pin);
  }

  lemma SwitchesTurn(wanted: SandboxPolicy, policy: SandboxPolicy, pin: Option<Sha256Digest>)
    requires !policy.unixSockets && NothingAfter(policy, pin, Rank(Unix))
    ensures Turns(SwitchTokens(wanted), policy, pin,
                  policy.(unixSockets := wanted.unixSockets, dnsOverTcp := wanted.dnsOverTcp), pin)
  {
    var next := policy.(unixSockets := wanted.unixSockets);
    if wanted.unixSockets { SwitchTurns(Unix, policy, pin); } else { TurnsNothing(policy, pin); }
    if wanted.dnsOverTcp { SwitchTurns(DnsOverTcp, next, pin); } else { TurnsNothing(next, pin); }
    TurnsJoin(if wanted.unixSockets then [Flag(Unix)] else [], if wanted.dnsOverTcp then [Flag(DnsOverTcp)] else [],
              policy, pin, next, pin, next.(dnsOverTcp := wanted.dnsOverTcp), pin);
  }

  lemma PinIsRead(digest: Sha256Digest, rest: seq<string>, policy: SandboxPolicy)
    requires |rest| >= 2 && rest[0] == Flag(Pin) && rest[1] == SpellDigest(digest)
    ensures TokenOf(rest[0]) == Some(Pin)
    ensures OneFlag(rest, policy, None) == Ok(Progress(policy, Some(digest), 2))
  {
    FlagsAreTheirOwnTokens(Pin);
    DigestRoundTrips(digest);
  }

  lemma PinTurns(pin: Option<Sha256Digest>, policy: SandboxPolicy)
    ensures Turns(PinTokens(pin), policy, None, policy, pin)
  {
    if pin.None? {
      TurnsNothing(policy, pin);
    } else {
      FlagsAreTheirOwnTokens(Pin);
      var tokens := [Flag(Pin), SpellDigest(pin.value)];
      forall tail ensures OneFlag(tokens + tail, policy, None) == Ok(Progress(policy, pin, 2)) {
        PinIsRead(pin.value, tokens + tail, policy);
      }
      OneFlagTurns(tokens, policy, None, Progress(policy, pin, 2));
    }
  }

  /** What the harness may put on the wire. */
  predicate Sendable(helper: Helper) {
    && helper.policy.Built() && !helper.policy.UnboundedResolution()
    && (helper.pin.Some? ==> IsAbsolute(helper.program))
  }

  /** Every policy the builders can produce crosses the seam unchanged, whatever text its values,
      the program or the arguments hold; and what it may not be is refused. */
  lemma EncodeThenDecode(helper: Helper)
    requires helper.policy.Built()
    ensures Decoded(Encoded(helper)) == Finish(helper.program, helper.args, helper.policy, helper.pin)
    ensures Decoded(Encoded(helper)) == Ok(helper) <==> Sendable(helper)
    ensures Canonical(Encoded(helper), DEFAULT, None)
  {
    var command := [Flag(End), helper.program] + helper.args;
    FrontTurns(helper.policy, helper.pin);
    CommandDecodes(helper.program, helper.args, helper.policy, helper.pin);
    TurnsInFront(Front(helper.policy, helper.pin), command, DEFAULT, None, helper.policy, helper.pin);
  }

  lemma TurnsInFront(tokens: seq<string>, tail: seq<string>, policy: SandboxPolicy, pin: Option<Sha256Digest>,
                     policy': SandboxPolicy, pin': Option<Sha256Digest>)
    requires Turns(tokens, policy, pin, policy', pin') && Canonical(tail, policy', pin')
    ensures DecodeFrom(tokens + tail, policy, pin) == DecodeFrom(tail, policy', pin') && Canonical(tokens + tail, policy, pin)
  {
    assert DecodeFrom(tokens + tail, policy, pin) == DecodeFrom(tail, policy', pin');
  }

  lemma FrontTurns(policy: SandboxPolicy, pin: Option<Sha256Digest>)
    requires policy.Built()
    ensures Turns(Front(policy, pin), DEFAULT, None, policy, pin)
  {
    var t3 := PathTokens(Read, policy.readable) + PathTokens(Write, policy.writable) + PathTokens(ReadExecute, policy.executable);
    var p3 := DEFAULT.(readable := policy.readable, writable := policy.writable, executable := policy.executable);
    var t5 := t3 + NetworkTokens(policy.network) + SwitchTokens(policy);
    var p5 := policy.(env := [], dnsNames := []);
    GrantsTurn(policy);
    MiddleTurns(t3, p3, policy);
    TailTurns(t5, p5, policy, pin);
  }

  lemma MiddleTurns(t3: seq<string>, p3: SandboxPolicy, policy: SandboxPolicy)
    requires policy.Built() && Turns(t3, DEFAULT, None, p3, None)
    requires p3 == DEFAULT.(readable := policy.readable, writable := policy.writable, executable := policy.executable)
    ensures Turns(t3 + NetworkTokens(policy.network) + SwitchTokens(policy), DEFAULT, None, policy.(env := [], dnsNames := []), None)
  {
    var p4 := p3.(network := policy.network);
    NetworkTurns(policy.network, p3, None);
    TurnsJoin(t3, NetworkTokens(policy.network), DEFAULT, None, p3, None, p4, None);
    SwitchesTurn(policy, p4, None);
    TurnsJoin(t3 + NetworkTokens(policy.network), SwitchTokens(policy), DEFAULT, None, p4, None,
              policy.(env := [], dnsNames := []), None);
  }

  lemma TailTurns(t5: seq<string>, p5: SandboxPolicy, policy: SandboxPolicy, pin: Option<Sha256Digest>)
    requires policy.Built() && p5 == policy.(env := [], dnsNames := []) && Turns(t5, DEFAULT, None, p5, None)
    ensures Turns(t5 + NameTokens(EnvName, policy.env) + NameTokens(DnsName, policy.dnsNames) + PinTokens(pin),
                  DEFAULT, None, policy, pin)
  {
    var t6, p6 := t5 + NameTokens(EnvName, policy.env), policy.(dnsNames := []);
    NamesTurn(EnvName, policy.env, p5, None);
    assert Naming(p5, EnvName, policy.env) == p6;
    TurnsJoin(t5, NameTokens(EnvName, policy.env), DEFAULT, None, p5, None, p6, None);
    NamesTurn(DnsName, policy.dnsNames, p6, None);
    assert Naming(p6, DnsName, policy.dnsNames) == policy;
    TurnsJoin(t6, NameTokens(DnsName, policy.dnsNames), DEFAULT, None, p6, None, policy, None);
    PinTurns(pin, policy);
    TurnsJoin(t6 + NameTokens(DnsName, policy.dnsNames), PinTokens(pin), DEFAULT, None, policy, None, policy, pin);
  }

  lemma GrantsTurn(policy: SandboxPolicy)
    ensures Turns(PathTokens(Read, policy.readable) + PathTokens(Write, policy.writable) + PathTokens(ReadExecute, policy.executable),
                  DEFAULT, None,
                  DEFAULT.(readable := policy.readable, writable := policy.writable, executable := policy.executable), None)
  {
    var p1 := DEFAULT.(readable := policy.readable);
    var p2 := p1.(writable := policy.writable);
    var p3 := p2.(executable := policy.executable);
    PathsTurn(Read, policy.readable, DEFAULT, None);
    PathsTurn(Write, policy.writable, p1, None);
    PathsTurn(ReadExecute, policy.executable, p2, None);
    assert Granting(DEFAULT, Read, policy.readable) == p1;
    assert Granting(p1, Write, policy.writable) == p2 && Granting(p2, ReadExecute, policy.executable) == p3;
    TurnsJoin(PathTokens(Read, policy.readable), PathTokens(Write, policy.writable), DEFAULT, None, p1, None, p2, None);
    TurnsJoin(PathTokens(Read, policy.readable) + PathTokens(Write, policy.writable), PathTokens(ReadExecute, policy.executable),
              DEFAULT, None, p2, None, p3, None);
  }

  lemma CommandDecodes(program: string, args: seq<string>, policy: SandboxPolicy, pin: Option<Sha256Digest>)
    ensures DecodeFrom([Flag(End), program] + args, policy, pin) == Finish(program, args, policy, pin)
    ensures Canonical([Flag(End), program] + args, policy, pin)
  {
    FlagsAreTheirOwnTokens(End);
    assert ([Flag(End), program] + args)[2..] == args;
  }

  /** Whatever flag is read, what it does to the policy is one call of one builder, or nothing. */
  lemma OneFlagWidens(rest: seq<string>, policy: SandboxPolicy, pin: Option<Sha256Digest>) returns (widening: Option<Widening>)
    requires rest != [] && TokenOf(rest[0]) != Some(End) && OneFlag(rest, policy, pin).Ok?
    ensures OneFlag(rest, policy, pin).value.policy == if widening.Some? then Widen(policy, widening.value) else policy
  {
    match TokenOf(rest[0])
    case Some(Net) => widening := Some(Network);
    case Some(NetPort) =>
      ParsedFits(rest[1], 0x1_0000);
      widening := Some(NetworkPort(ParseUnsigned(rest[1], 0x1_0000).value));
    case Some(Unix) => widening := Some(UnixSockets);
    case Some(DnsOverTcp) => widening := Some(DnsHint);
    case Some(EnvName) => widening := Some(Env(rest[1]));
    case Some(DnsName) => widening := Some(Dns(rest[1]));
    case Some(Grant(axis)) => widening := Some(GrantPath(axis, VettedPath(rest[1], ParseObject(rest[2]).value)));
    case Some(Pin) => widening := None;
  }

  lemma OneFlagKeepsBuilt(rest: seq<string>, policy: SandboxPolicy, pin: Option<Sha256Digest>)
    requires rest != [] && TokenOf(rest[0]) != Some(End) && policy.Built()
    ensures OneFlag(rest, policy, pin).Ok? ==> OneFlag(rest, policy, pin).value.policy.Built()
  {
    if OneFlag(rest, policy, pin).Ok? {
      var widening := OneFlagWidens(rest, policy, pin);
      if widening.Some? { WideningKeepsTheShape(policy, widening.value); }
    }
  }

  lemma {:induction false} DecodedIsSendable(rest: seq<string>, policy: SandboxPolicy, pin: Option<Sha256Digest>)
    requires policy.Built()
    ensures DecodeFrom(rest, policy, pin).Ok? ==> Sendable(DecodeFrom(rest, policy, pin).value)
    decreases |rest|
  {
    if rest != [] && TokenOf(rest[0]) != Some(End) {
      var step := OneFlag(rest, policy, pin);
      OneFlagKeepsBuilt(rest, policy, pin);
      if step.Ok? {
        DecodedIsSendable(rest[step.value.taken..], step.value.policy, step.value.pin);
      }
    }
  }

  /** Whatever argv is accepted holds only non-zero ports, names without `=`, a pin only beside an
      absolute program, and is decoded to something its own encoding gives back. */
  lemma AcceptedArgvSurvivesACrossing(argv: seq<string>)
    requires Decoded(argv).Ok?
    ensures var helper := Decoded(argv).value;
            && (helper.policy.network.Ports? ==> forall port | port in helper.policy.network.ports :: port != 0)
            && (forall name | name in helper.policy.env :: '=' !in name)
            && (helper.pin.Some? ==> IsAbsolute(helper.program))
            && Decoded(Encoded(helper)) == Ok(helper)
  {
    DecodedIsSendable(argv, DEFAULT, None);
    EncodeThenDecode(Decoded(argv).value);
  }

  // ----- What the decoder accepts that the encoder does not write -----

  lemma OneMorePath(axis: Axis, paths: seq<VettedPath>, path: VettedPath)
    ensures PathTokens(axis, paths + [path]) ==
            PathTokens(axis, paths) + [Flag(Grant(axis)), path.path, SpellObject(path.objectId)]
  {
    assert (paths + [path])[..|paths|] == paths;
  }

  lemma OneMorePort(ports: seq<u16>, port: u16)
    ensures PortTokens(ports + [port]) == PortTokens(ports) + [Flag(NetPort), Digits(port, 10)]
  {
    assert (ports + [port])[..|ports|] == ports;
  }

  lemma OneMoreNameToken(flag: Token, names: seq<string>, name: string)
    ensures NameTokens(flag, names + [name]) == NameTokens(flag, names) + [Flag(flag), name]
  {
    assert (names + [name])[..|names|] == names;
  }

  /** The flags of one rank. */
  function Part(policy: SandboxPolicy, pin: Option<Sha256Digest>, r: nat): seq<string> {
    match r
    case 0 => PathTokens(Read, policy.readable)
    case 1 => PathTokens(Write, policy.writable)
    case 2 => PathTokens(ReadExecute, policy.executable)
    case 3 => NetworkTokens(policy.network)
    case 4 => if policy.unixSockets then [Flag(Unix)] else []
    case 5 => if policy.dnsOverTcp then [Flag(DnsOverTcp)] else []
    case 6 => NameTokens(EnvName, policy.env)
    case 7 => NameTokens(DnsName, policy.dnsNames)
    case _ => PinTokens(pin)
  }

  function Parts(policy: SandboxPolicy, pin: Option<Sha256Digest>, n: nat): seq<string> {
    if n == 0 then [] else Parts(policy, pin, n - 1) + Part(policy, pin, n - 1)
  }

  const RANKS := 9

  lemma OnePartMore(policy: SandboxPolicy, pin: Option<Sha256Digest>, n: nat)
    ensures Parts(policy, pin, n + 1) == Parts(policy, pin, n) + Part(policy, pin, n)
  {
  }

  lemma FirstParts(policy: SandboxPolicy, pin: Option<Sha256Digest>, n: nat)
    requires n == 3
    ensures Parts(policy, pin, n) ==
            PathTokens(Read, policy.readable) + PathTokens(Write, policy.writable) + PathTokens(ReadExecute, policy.executable)
  {
    OnePartMore(policy, pin, n - 1);
    OnePartMore(policy, pin, n - 2);
    OnePartMore(policy, pin, n - 3);
    assert Parts(policy, pin, n - 2) == [] + Part(policy, pin, n - 3) == Part(policy, pin, n - 3);
  }

  lemma SwitchParts(policy: SandboxPolicy, pin: Option<Sha256Digest>, n: nat)
    requires n == 6
    ensures Parts(policy, pin, n) == Parts(policy, pin, n - 3) + NetworkTokens(policy.network) + SwitchTokens(policy)
  {
    OnePartMore(policy, pin, n - 1);
    OnePartMore(policy, pin, n - 2);
    OnePartMore(policy, pin, n - 3);
    Regroup(Parts(policy, pin, n - 3) + NetworkTokens(policy.network), Part(policy, pin, n - 2), Part(policy, pin, n - 1));
  }

  lemma LastParts(policy: SandboxPolicy, pin: Option<Sha256Digest>, n: nat)
    requires n == RANKS
    ensures Parts(policy, pin, n) ==
            Parts(policy, pin, n - 3) + NameTokens(EnvName, policy.env) + NameTokens(DnsName, policy.dnsNames) + PinTokens(pin)
  {
    OnePartMore(policy, pin, n - 1);
    OnePartMore(policy, pin, n - 2);
    OnePartMore(policy, pin, n - 3);
  }

  lemma FrontIsItsParts(policy: SandboxPolicy, pin: Option<Sha256Digest>, n: nat)
    requires n == RANKS
    ensures Front(policy, pin) == Parts(policy, pin, n)
  {
    FirstParts(policy, pin, n - 6);
    SwitchParts(policy, pin, n - 3);
    LastParts(policy, pin, n);
  }

  lemma {:induction false} NothingMoreToWrite(policy: SandboxPolicy, pin: Option<Sha256Digest>, r: nat, n: nat)
    requires NothingAfter(policy, pin, r) && r < n <= RANKS
    ensures Parts(policy, pin, n) == Parts(policy, pin, r + 1)
  {
    if r + 1 < n {
      NothingMoreToWrite(policy, pin, r, n - 1);
      assert Part(policy, pin, n - 1) == [];
    }
  }

  /** Two policies that differ in nothing written before rank `n`. */
  predicate SameBefore(policy: SandboxPolicy, policy': SandboxPolicy, n: nat) {
    && (n > 0 ==> policy'.readable == policy.readable)
    && (n > 1 ==> policy'.writable == policy.writable)
    && (n > 2 ==> policy'.executable == policy.executable)
    && (n > 3 ==> policy'.network == policy.network)
    && (n > 4 ==> policy'.unixSockets == policy.unixSockets)
    && (n > 5 ==> policy'.dnsOverTcp == policy.dnsOverTcp)
    && (n > 6 ==> policy'.env == policy.env)
    && (n > 7 ==> policy'.dnsNames == policy.dnsNames)
  }

  lemma {:induction false} SamePartsBefore(policy: SandboxPolicy, pin: Option<Sha256Digest>,
                                           policy': SandboxPolicy, pin': Option<Sha256Digest>, n: nat)
    requires n < RANKS && SameBefore(policy, policy', n)
    ensures Parts(policy', pin', n) == Parts(policy, pin, n)
  {
    if n > 0 { SamePartsBefore(policy, pin, policy', pin', n - 1); }
  }

  lemma PartsGrow(policy: SandboxPolicy, pin: Option<Sha256Digest>, policy': SandboxPolicy, pin': Option<Sha256Digest>,
                  r: nat, n: nat, tokens: seq<string>)
    requires r < n == RANKS && SameBefore(policy, policy', r)
    requires NothingAfter(policy, pin, r) && NothingAfter(policy', pin', r)
    requires Part(policy', pin', r) == Part(policy, pin, r) + tokens
    ensures Parts(policy', pin', n) == Parts(policy, pin, n) + tokens
  {
    NothingMoreToWrite(policy, pin, r, n);
    NothingMoreToWrite(policy', pin', r, n);
    SamePartsBefore(policy, pin, policy', pin', r);
    OnePartMore(policy, pin, r);
    OnePartMore(policy', pin', r);
    Regroup(Parts(policy, pin, r), Part(policy, pin, r), tokens);
  }

  lemma Regroup(a: seq<string>, b: seq<string>, c: seq<string>)
    ensures a + (b + c) == a + b + c
  {
  }

  /** Adding to the last rank written so far adds to the end. */
  lemma FrontGrows(policy: SandboxPolicy, pin: Option<Sha256Digest>, policy': SandboxPolicy, pin': Option<Sha256Digest>,
                   r: nat, tokens: seq<string>)
    requires r < RANKS && SameBefore(policy, policy', r)
    requires NothingAfter(policy, pin, r) && NothingAfter(policy', pin', r)
    requires Part(policy', pin', r) == Part(policy, pin, r) + tokens
    ensures Front(policy', pin') == Front(policy, pin) + tokens
  {
    var n := RANKS;
    PartsGrow(policy, pin, policy', pin', r, n, tokens);
    FrontIsItsParts(policy, pin, n);
    FrontIsItsParts(policy', pin', n);
  }

  lemma GrantIsWritten(rest: seq<string>, policy: SandboxPolicy, pin: Option<Sha256Digest>, axis: Axis)
    requires AsWritten(rest, policy, pin) && TokenOf(rest[0]) == Some(Grant(axis)) && OneFlag(rest, policy, pin).Ok?
    ensures var step := OneFlag(rest, policy, pin).value;
            Front(step.policy, step.pin) == Front(policy, pin) + rest[..step.taken]
  {
    ParsedObjectIsSpelledIffPlain(rest[2]);
    var path := VettedPath(rest[1], ParseObject(rest[2]).value);
    OneMorePath(axis, policy.Paths(axis), path);
    assert rest[..3] == [rest[0], rest[1], rest[2]];
    FrontGrows(policy, pin, policy.Grant(axis, path), pin, Rank(Grant(axis)), rest[..3]);
  }

  lemma NetIsWritten(rest: seq<string>, policy: SandboxPolicy, pin: Option<Sha256Digest>)
    requires AsWritten(rest, policy, pin) && TokenOf(rest[0]) == Some(Net)
    ensures Front(policy.AllowNetwork(), pin) == Front(policy, pin) + rest[..1]
  {
    assert rest[..1] == [rest[0]];
    FrontGrows(policy, pin, policy.AllowNetwork(), pin, Rank(Net), rest[..1]);
  }

  lemma PortIsRead(rest: seq<string>, policy: SandboxPolicy, pin: Option<Sha256Digest>) returns (port: u16)
    requires AsWritten(rest, policy, pin) && TokenOf(rest[0]) == Some(NetPort) && OneFlag(rest, policy, pin).Ok?
    ensures |rest| >= 2 && rest[..2] == [Flag(NetPort), Digits(port, 10)] && port != 0
    ensures !policy.network.AnyPort? && (policy.network.Ports? ==> port !in policy.network.ports)
    ensures OneFlag(rest, policy, pin) == Ok(Progress(policy.AllowNetworkPort(port), pin, 2))
  {
    ParsedFits(rest[1], 0x1_0000);
    port := ParseUnsigned(rest[1], 0x1_0000).value;
    ParsedIsSpelledIffPlain(rest[1], 0x1_0000);
    assert rest[..2] == [rest[0], rest[1]];
  }

  lemma PortIsWritten(tokens: seq<string>, policy: SandboxPolicy, pin: Option<Sha256Digest>, port: u16)
    requires tokens == [Flag(NetPort), Digits(port, 10)] && NothingAfter(policy, pin, Rank(NetPort))
    requires port != 0 && !policy.network.AnyPort? && (policy.network.Ports? ==> port !in policy.network.ports)
    ensures Front(policy.AllowNetworkPort(port), pin) == Front(policy, pin) + tokens
  {
    var ports := if policy.network.Ports? then policy.network.ports else [];
    OneMorePort(ports, port);
    assert policy.AllowNetworkPort(port).network == Ports(ports + [port]);
    FrontGrows(policy, pin, policy.AllowNetworkPort(port), pin, Rank(NetPort), tokens);
  }

  lemma SwitchIsWritten(rest: seq<string>, policy: SandboxPolicy, pin: Option<Sha256Digest>, flag: Token)
    requires flag in {Unix, DnsOverTcp} && AsWritten(rest, policy, pin) && TokenOf(rest[0]) == Some(flag)
    ensures Front(Switched(flag, policy), pin) == Front(policy, pin) + rest[..1]
  {
    assert rest[..1] == [rest[0]];
    FrontGrows(policy, pin, Switched(flag, policy), pin, Rank(flag), rest[..1]);
  }

  lemma NameIsWritten(rest: seq<string>, policy: SandboxPolicy, pin: Option<Sha256Digest>, flag: Token)
    requires |rest| >= 2 && rest[0] == Flag(flag) && NothingAfter(policy, pin, Rank(flag))
    requires || (flag == EnvName && IsEnvName(rest[1]))
             || (flag == DnsName && IsResolvableName(rest[1]) && rest[1] !in policy.dnsNames)
    ensures Front(Named(flag, policy, rest[1]), pin) == Front(policy, pin) + rest[..2]
  {
    assert rest[..2] == [rest[0], rest[1]];
    OneMoreNameToken(flag, if flag == EnvName then policy.env else policy.dnsNames, rest[1]);
    FrontGrows(policy, pin, Named(flag, policy, rest[1]), pin, Rank(flag), rest[..2]);
  }

  lemma PinIsWritten(rest: seq<string>, policy: SandboxPolicy, pin: Option<Sha256Digest>)
    requires AsWritten(rest, policy, pin) && TokenOf(rest[0]) == Some(Pin) && OneFlag(rest, policy, pin).Ok?
    ensures var step := OneFlag(rest, policy, pin).value;
            Front(step.policy, step.pin) == Front(policy, pin) + rest[..step.taken]
  {
    ParsedBytesAreSpelled(rest[1]);
    assert rest[..2] == [rest[0], rest[1]];
    FrontGrows(policy, pin, policy, OneFlag(rest, policy, pin).value.pin, Rank(Pin), rest[..2]);
  }

  lemma FlagIsWritten(rest: seq<string>, policy: SandboxPolicy, pin: Option<Sha256Digest>)
    requires AsWritten(rest, policy, pin) && TokenOf(rest[0]) != Some(End) && OneFlag(rest, policy, pin).Ok?
    ensures var step := OneFlag(rest, policy, pin).value;
            Front(step.policy, step.pin) == Front(policy, pin) + rest[..step.taken]
  {
    match TokenOf(rest[0]).value
    case Grant(axis) => GrantIsWritten(rest, policy, pin, axis);
    case Net => NetIsWritten(rest, policy, pin);
    case NetPort =>
      var port := PortIsRead(rest, policy, pin);
      PortIsWritten(rest[..2], policy, pin, port);
    case Unix => SwitchIsWritten(rest, policy, pin, Unix);
    case DnsOverTcp => SwitchIsWritten(rest, policy, pin, DnsOverTcp);
    case EnvName => NameIsWritten(rest, policy, pin, EnvName);
    case DnsName => NameIsWritten(rest, policy, pin, DnsName);
    case Pin => PinIsWritten(rest, policy, pin);
  }

  lemma {:induction false} CanonicalIsWritten(rest: seq<string>, policy: SandboxPolicy, pin: Option<Sha256Digest>)
    requires Canonical(rest, policy, pin) && DecodeFrom(rest, policy, pin).Ok?
    ensures Encoded(DecodeFrom(rest, policy, pin).value) == Front(policy, pin) + rest
    decreases |rest|
  {
    if TokenOf(rest[0]) == Some(End) {
      CommandIsWritten(rest, Front(policy, pin));
    } else {
      var step := OneFlag(rest, policy, pin).value;
      FlagIsWritten(rest, policy, pin);
      CanonicalIsWritten(rest[step.taken..], step.policy, step.pin);
      PiecesAreWhole(Front(policy, pin), rest, step.taken);
    }
  }

  lemma CommandIsWritten(rest: seq<string>, front: seq<string>)
    requires |rest| >= 2
    ensures front + ([rest[0], rest[1]] + rest[2..]) == front + rest
  {
    assert [rest[0], rest[1]] + rest[2..] == rest;
  }

  lemma PiecesAreWhole(front: seq<string>, rest: seq<string>, n: nat)
    requires n <= |rest|
    ensures front + rest[..n] + rest[n..] == front + rest
  {
    assert rest[..n] + rest[n..] == rest;
  }

  /** Of what the decoder accepts, the encoder writes exactly what is canonical: every flag in the
      encoder's order, saying something new, in the encoder's spelling. */
  lemma AcceptedArgvIsWrittenIffCanonical(argv: seq<string>)
    requires Decoded(argv).Ok?
    ensures Encoded(Decoded(argv).value) == argv <==> Canonical(argv, DEFAULT, None)
  {
    if Canonical(argv, DEFAULT, None) {
      CanonicalIsWritten(argv, DEFAULT, None);
      assert Front(DEFAULT, None) == [];
    }
    if Encoded(Decoded(argv).value) == argv {
      DecodedIsSendable(argv, DEFAULT, None);
      EncodeThenDecode(Decoded(argv).value);
    }
  }

  /** A signed port is one shape that gets through: it is read as the port it names. */
  lemma ASignedPortIsAccepted()
    ensures var argv := [Flag(NetPort), "+80", Flag(End), "x"];
            Decoded(argv).Ok? && Encoded(Decoded(argv).value) != argv
  {
    var argv := [Flag(NetPort), "+80", Flag(End), "x"];
    var policy := DEFAULT.AllowNetworkPort(80);
    FlagsAreTheirOwnTokens(NetPort);
    FlagsAreTheirOwnTokens(End);
    EightyIsRead();
    assert argv[2..] == [Flag(End), "x"];
    assert OneFlag(argv, DEFAULT, None) == Ok(Progress(policy, None, 2));
    assert Decoded(argv) == DecodeFrom(argv[2..], policy, None);
    assert !Plain(argv[1]);
    AcceptedArgvIsWrittenIffCanonical(argv);
  }

  lemma EightyIsRead()
    ensures ParseUnsigned("+80", 0x1_0000) == Some(80)
  {
    assert "+80"[1..] == "80" && "80"[..1] == "8" && "8"[..0] == "";
    assert ValueOf("8", 10) == 8;
    assert ValueOf("80", 10) == 80;
  }
}
