/** What a run is allowed to reach, and the builders that widen it (`sandbox_policy.rs`,
    `vetted_path.rs`). Paths are UTF-8 text. */
module Policy {
  import opened Wrappers
  import opened Text
  import opened Bits

  datatype Axis = Read | Write | ReadExecute

  /** A device and an inode, compared and never interpreted. */
  datatype ObjectId = ObjectId(dev: u64, ino: u64)

  datatype VettedPath = VettedPath(path: string, objectId: ObjectId)

  type u16 = x: nat | x < 0x1_0000

  datatype NetworkPolicy = Denied | AnyPort | Ports(ports: seq<u16>)

  const DNS_NAME_LIMIT := 253
  const NAMESERVER_PORT: u16 := 53

  /** Bytes `c` takes in UTF-8. */
  function Utf8Len(c: char): nat {
    if c <= '\U{7F}' then 1 else if c <= '\U{7FF}' then 2 else if c <= '\U{FFFF}' then 3 else 4
  }

  function Utf8Size(text: string): nat {
    if text == "" then 0 else Utf8Len(text[0]) + Utf8Size(text[1..])
  }

  predicate IsResolvableName(name: string) {
    && name != "" && Utf8Size(name) <= DNS_NAME_LIMIT
    && forall c | c in name :: c != '#' && c != '\0' && !IsWhitespace(c)
  }

  predicate IsEnvName(name: string) {
    name != "" && '=' !in name && '\0' !in name
  }

  datatype SandboxPolicy = SandboxPolicy(
    readable: seq<VettedPath>, writable: seq<VettedPath>, executable: seq<VettedPath>,
    network: NetworkPolicy, unixSockets: bool, env: seq<string>, dnsOverTcp: bool, dnsNames: seq<string>)
  {
    function Grant(axis: Axis, path: VettedPath): SandboxPolicy {
      match axis
      case Read => this.(readable := readable + [path])
      case Write => this.(writable := writable + [path])
      case ReadExecute => this.(executable := executable + [path])
    }

    function Paths(axis: Axis): seq<VettedPath> {
      match axis
      case Read => readable
      case Write => writable
      case ReadExecute => executable
    }

    function AllowNetwork(): SandboxPolicy {
      this.(network := AnyPort)
    }

    function AllowNetworkPort(port: u16): SandboxPolicy {
      if port == 0 then this
      else
        match network
        case Denied => this.(network := Ports([port]))
        case AnyPort => this
        case Ports(ports) => if port in ports then this else this.(network := Ports(ports + [port]))
    }

    function AllowUnixSockets(): SandboxPolicy {
      this.(unixSockets := true)
    }

    function HintDnsOverTcp(): SandboxPolicy {
      this.(dnsOverTcp := true)
    }

    function AllowEnv(name: string): SandboxPolicy {
      if IsEnvName(name) then this.(env := env + [name]) else this
    }

    function AllowDns(name: string): SandboxPolicy {
      if IsResolvableName(name) && name !in dnsNames then this.(dnsNames := dnsNames + [name]) else this
    }

    predicate BoundsResolution() {
      dnsNames != []
    }

    /** A name allowlist that would report as applied and bound nothing. */
    predicate UnboundedResolution() {
      && BoundsResolution()
      && (dnsOverTcp || unixSockets || network == AnyPort || (network.Ports? && NAMESERVER_PORT in network.ports))
    }

    /** What every policy the builders produce satisfies. */
    predicate Built() {
      && (forall name | name in env :: IsEnvName(name))
      && (forall name | name in dnsNames :: IsResolvableName(name))
      && (forall i, j | 0 <= i < j < |dnsNames| :: dnsNames[i] != dnsNames[j])
      && (network.Ports? ==>
            && network.ports != []
            && (forall port | port in network.ports :: port != 0)
            && forall i, j | 0 <= i < j < |network.ports| :: network.ports[i] != network.ports[j])
    }
  }

  const DEFAULT := SandboxPolicy([], [], [], Denied, false, [], false, [])

  /** One call of one builder. */
  datatype Widening =
    | GrantPath(axis: Axis, path: VettedPath)
    | Network
    | NetworkPort(port: u16)
    | UnixSockets
    | DnsHint
    | Env(name: string)
    | Dns(name: string)

  function Widen(policy: SandboxPolicy, widening: Widening): SandboxPolicy {
    match widening
    case GrantPath(axis, path) => policy.Grant(axis, path)
    case Network => policy.AllowNetwork()
    case NetworkPort(port) => policy.AllowNetworkPort(port)
    case UnixSockets => policy.AllowUnixSockets()
    case DnsHint => policy.HintDnsOverTcp()
    case Env(name) => policy.AllowEnv(name)
    case Dns(name) => policy.AllowDns(name)
  }

  function Build(widenings: seq<Widening>): SandboxPolicy {
    if widenings == [] then DEFAULT else Widen(Build(widenings[..|widenings| - 1]), widenings[|widenings| - 1])
  }

  lemma WideningKeepsTheShape(policy: SandboxPolicy, widening: Widening)
    requires policy.Built()
    ensures Widen(policy, widening).Built()
  {
  }

  /** Whatever is called in whatever order, the policy keeps its shape. */
  lemma {:induction false} EveryPolicyIsBuilt(widenings: seq<Widening>)
    ensures Build(widenings).Built()
  {
    if widenings != [] {
      EveryPolicyIsBuilt(widenings[..|widenings| - 1]);
      WideningKeepsTheShape(Build(widenings[..|widenings| - 1]), widenings[|widenings| - 1]);
    }
  }
}
