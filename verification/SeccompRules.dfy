/** Which syscalls the filter denies, and under which policy (`helper_seccomp_rules.rs`): a map
    from syscall number to rules, OR-ed, each an AND of comparisons on 32-bit argument halves.
    Numbers are x86-64 Linux's. */
module SeccompRules {
  import opened Wrappers
  import opened Bits
  import opened Policy

  const SYS_SOCKET: u32 := 41
  const SYS_SENDTO: u32 := 44
  const SYS_SENDMSG: u32 := 46
  const SYS_SOCKETPAIR: u32 := 53
  const SYS_SETSOCKOPT: u32 := 54
  const SYS_CLONE: u32 := 56
  const SYS_SENDMMSG: u32 := 307
  const SYS_CLONE3: u32 := 435

  /** In the source's order: ptrace, process_vm_readv, process_vm_writev, mount, umount2,
      pivot_root, chroot, open_tree, move_mount, fsopen, fsconfig, fsmount, fspick,
      mount_setattr, setns, unshare, init_module, finit_module, delete_module, bpf, kexec_load,
      add_key, request_key, keyctl, perf_event_open, pidfd_open, pidfd_getfd, userfaultfd,
      io_uring_setup, io_uring_enter, io_uring_register, memfd_create, reboot, swapon, swapoff. */
  const BLOCKED_SYSCALLS: seq<u32> := [
    101, 310, 311, 165, 166, 155, 161, 428, 429, 430, 431, 432, 433, 442, 308, 272, 175, 313, 176,
    321, 246, 248, 249, 250, 298, 434, 438, 323, 425, 426, 427, 319, 169, 167, 168]

  /** The bits CLONE_NEWNS, NEWCGROUP, NEWUTS, NEWIPC, NEWUSER, NEWPID and NEWNET stand at. */
  const NAMESPACE_CLONE_BITS: seq<nat> := [17, 25, 26, 27, 28, 29, 30]

  const SOCK_TYPE_MASK := 0xf
  const SOCK_STREAM := 1
  const SOCK_SEQPACKET := 5
  const AF_UNIX := 1
  const AF_INET := 2
  const AF_INET6 := 10
  const IPPROTO_TCP := 6
  const TCP_ULP := 31
  const FASTOPEN_BIT := 29

  type Args = args: seq<u64> | |args| == 6 witness [0, 0, 0, 0, 0, 0]

  datatype Op = Eq | Ne | MaskedEq(mask: u64)

  /** One comparison against one argument's low half, as the kernel itself reads it. */
  datatype Condition = Condition(index: nat, op: Op, value: u64)

  datatype Error = NoSuchArgument | EmptyRule

  type Rule = seq<Condition>
  type Rules = map<u32, seq<Rule>>

  function Arg(index: nat, op: Op, value: u64): Result<Condition, Error> {
    if index > 5 then Err(NoSuchArgument) else Ok(Condition(index, op, value))
  }

  predicate Holds(condition: Condition, args: Args) {
    condition.index < 6 &&
    var given, value := Low(args[condition.index]), Low(condition.value);
    match condition.op
    case Eq => given == value
    case Ne => given != value
    case MaskedEq(mask) => And(given, Low(mask)) == And(value, Low(mask))
  }

  predicate Matches(rule: Rule, args: Args) {
    forall condition | condition in rule :: Holds(condition, args)
  }

  /** An empty rule vector matches every call. */
  predicate Denies(rules: Rules, nr: u32, args: Args) {
    nr in rules && (rules[nr] == [] || exists rule | rule in rules[nr] :: Matches(rule, args))
  }

  // ----- The rule map, filled in place -----

  class RuleMap {
    var rules: Rules

    constructor (seed: seq<u32>)
      ensures rules == map nr | nr in seed :: []
    {
      rules := map nr | nr in seed :: [];
    }

    /** Skips a syscall already denied outright, where one more rule would only weaken it. What
        is denied afterwards is exactly what was denied before, and what the rule matches. */
    method DenyWhen(syscall: u32, rule: Rule) returns (done: Result<(), Error>)
      modifies this
      ensures done.Err? <==> rule == [] && !(syscall in old(rules) && old(rules)[syscall] == [])
      ensures done.Err? ==> rules == old(rules)
      ensures done.Ok? ==>
                forall nr, args: Args :: Denies(rules, nr, args) <==>
                  Denies(old(rules), nr, args) || (nr == syscall && Matches(rule, args))
      ensures forall nr | nr in old(rules) && old(rules)[nr] == [] :: nr in rules && rules[nr] == []
    {
      if syscall in rules && rules[syscall] == [] {
        return Ok(());
      }
      if rule == [] {
        return Err(EmptyRule);
      }
      var held := if syscall in rules then rules[syscall] else [];
      ghost var before := rules;
      rules := rules[syscall := held + [rule]];
      forall nr, args: Args
        ensures Denies(rules, nr, args) <==> Denies(before, nr, args) || (nr == syscall && Matches(rule, args))
      {
        if nr == syscall && (Denies(before, nr, args) || Matches(rule, args)) {
          var matching :| matching in held + [rule] && Matches(matching, args);
        }
      }
      return Ok(());
    }

    /** Deny `syscall` when the flag at `bit` of argument `index` is set. */
    method DenyFlag(syscall: u32, index: nat, bit: nat)
      requires index <= 5 && bit <= 30
      modifies this
      ensures forall nr, args: Args :: Denies(rules, nr, args) <==>
                Denies(old(rules), nr, args) || (nr == syscall && Bit(Low(args[index]), bit))
      ensures forall nr | nr in old(rules) && old(rules)[nr] == [] :: nr in rules && rules[nr] == []
    {
      FlagFits(bit);
      var flag: u64 := Pow2(bit);
      var condition := Arg(index, MaskedEq(flag), flag).value;
      FlagRule(index, bit);
      var done := DenyWhen(syscall, [condition]);
    }

    /** One rule per flag: rules are OR-ed, so one mask over the union would need them all. */
    method DenyNamespaceClones()
      modifies this
      ensures forall nr, args: Args :: Denies(rules, nr, args) <==> Denies(old(rules), nr, args) || ClonesNamespace(nr, args)
      ensures forall nr | nr in old(rules) && old(rules)[nr] == [] :: nr in rules && rules[nr] == []
    {
      for i := 0 to |NAMESPACE_CLONE_BITS|
        invariant forall nr | nr in old(rules) && old(rules)[nr] == [] :: nr in rules && rules[nr] == []
        invariant forall nr, args: Args :: Denies(rules, nr, args) <==>
          Denies(old(rules), nr, args) || (nr == SYS_CLONE && AnyBit(Low(args[0]), i))
      {
        DenyFlag(SYS_CLONE, 0, NAMESPACE_CLONE_BITS[i]);
      }
    }

    method DenyUnixSockets()
      modifies this
      ensures forall nr, args: Args :: Denies(rules, nr, args) <==> Denies(old(rules), nr, args) || DialsUnix(nr, args)
      ensures forall nr | nr in old(rules) && old(rules)[nr] == [] :: nr in rules && rules[nr] == []
    {
      var isUnix := Arg(0, Eq, AF_UNIX).value;
      var done := DenyWhen(SYS_SOCKET, [isUnix]);
      forall args: Args ensures Matches([isUnix], args) <==> Low(args[0]) == AF_UNIX {
        MatchesOne(isUnix, args);
      }
      for socketType := 0 to SOCK_TYPE_MASK + 1
        invariant forall nr | nr in old(rules) && old(rules)[nr] == [] :: nr in rules && rules[nr] == []
        invariant forall nr, args: Args :: Denies(rules, nr, args) <==>
          || Denies(old(rules), nr, args)
          || (nr == SYS_SOCKET && Low(args[0]) == AF_UNIX)
          || (nr == SYS_SOCKETPAIR && Low(args[0]) == AF_UNIX
              && SocketType(args) < socketType && SocketType(args) !in {SOCK_STREAM, SOCK_SEQPACKET})
      {
        if socketType == SOCK_STREAM || socketType == SOCK_SEQPACKET {
          continue;
        }
        var isType := Arg(1, MaskedEq(SOCK_TYPE_MASK), socketType).value;
        TypeRule(isUnix, socketType);
        done := DenyWhen(SYS_SOCKETPAIR, [isUnix, isType]);
      }
    }

    /** A port list polices TCP alone, so every other IP socket and every road around `connect`
        is refused with it. */
    method ConfineToTcp()
      modifies this
      ensures forall nr, args: Args :: Denies(rules, nr, args) <==>
                Denies(old(rules), nr, args) || LeavesTcp(nr, args) || SwapsTheProtocol(nr, args) || OpensFast(nr, args)
      ensures forall nr | nr in old(rules) && old(rules)[nr] == [] :: nr in rules && rules[nr] == []
    {
      DenyOtherTypes();
      DenyOtherFamilies();
      var ulp0 := Arg(1, Eq, IPPROTO_TCP).value;
      var ulp1 := Arg(2, Eq, TCP_ULP).value;
      var done := DenyWhen(SYS_SETSOCKOPT, [ulp0, ulp1]);
      forall args: Args ensures Matches([ulp0, ulp1], args) <==> SwapsTheProtocol(SYS_SETSOCKOPT, args) {
        MatchesTwo(ulp0, ulp1, args);
      }
      DenyOtherProtocols();
      DenyFastOpen();
    }

    method DenyOtherTypes()
      modifies this
      ensures forall nr, args: Args :: Denies(rules, nr, args) <==> Denies(old(rules), nr, args) || OtherType(nr, args)
      ensures forall nr | nr in old(rules) && old(rules)[nr] == [] :: nr in rules && rules[nr] == []
    {
      var notUnix := Arg(0, Ne, AF_UNIX).value;
      for socketType := 0 to SOCK_TYPE_MASK + 1
        invariant forall nr | nr in old(rules) && old(rules)[nr] == [] :: nr in rules && rules[nr] == []
        invariant forall nr, args: Args :: Denies(rules, nr, args) <==>
          Denies(old(rules), nr, args) || (OtherType(nr, args) && SocketType(args) < socketType)
      {
        if socketType == SOCK_STREAM {
          continue;
        }
        var isType := Arg(1, MaskedEq(SOCK_TYPE_MASK), socketType).value;
        var done := DenyWhen(SYS_SOCKET, [notUnix, isType]);
        TypeRule(notUnix, socketType);
      }
    }

    method DenyOtherFamilies()
      modifies this
      ensures forall nr, args: Args :: Denies(rules, nr, args) <==> Denies(old(rules), nr, args) || OtherFamily(nr, args)
      ensures forall nr | nr in old(rules) && old(rules)[nr] == [] :: nr in rules && rules[nr] == []
    {
      var isStream := Arg(1, MaskedEq(SOCK_TYPE_MASK), SOCK_STREAM).value;
      var notUnix := Arg(0, Ne, AF_UNIX).value;
      var notInet := Arg(0, Ne, AF_INET).value;
      var notInet6 := Arg(0, Ne, AF_INET6).value;
      var rule := [isStream, notUnix, notInet, notInet6];
      var done := DenyWhen(SYS_SOCKET, rule);
      forall args: Args ensures Matches(rule, args) <==> OtherFamily(SYS_SOCKET, args) {
        TypeIsLowNibble(args, SOCK_STREAM);
        MatchesFour(isStream, notUnix, notInet, notInet6, args);
      }
    }

    method DenyOtherProtocols()
      modifies this
      ensures forall nr, args: Args :: Denies(rules, nr, args) <==> Denies(old(rules), nr, args) || OtherProtocol(nr, args)
      ensures forall nr | nr in old(rules) && old(rules)[nr] == [] :: nr in rules && rules[nr] == []
    {
      var families: seq<u32> := [AF_INET, AF_INET6];
      for i := 0 to |families|
        invariant forall nr | nr in old(rules) && old(rules)[nr] == [] :: nr in rules && rules[nr] == []
        invariant forall nr, args: Args :: Denies(rules, nr, args) <==>
          Denies(old(rules), nr, args) || (OtherProtocol(nr, args) && Low(args[0]) in families[..i])
      {
        var isFamily := Arg(0, Eq, families[i]).value;
        var notDefault := Arg(2, Ne, 0).value;
        var notTcp := Arg(2, Ne, IPPROTO_TCP).value;
        var rule := [isFamily, notDefault, notTcp];
        var done := DenyWhen(SYS_SOCKET, rule);
        assert families[..i + 1] == families[..i] + [families[i]];
        assert families[i] == AF_INET || families[i] == AF_INET6;
        forall args: Args
          ensures Matches(rule, args) <==> Low(args[0]) == families[i] && Low(args[2]) !in {0, IPPROTO_TCP}
        {
          MatchesThree(isFamily, notDefault, notTcp, args);
        }
      }
      assert families[..2] == families && families[0] == AF_INET && families[1] == AF_INET6;
    }

    method DenyFastOpen()
      modifies this
      ensures forall nr, args: Args :: Denies(rules, nr, args) <==> Denies(old(rules), nr, args) || OpensFast(nr, args)
      ensures forall nr | nr in old(rules) && old(rules)[nr] == [] :: nr in rules && rules[nr] == []
    {
      for i := 0 to |SENDS|
        invariant forall nr | nr in old(rules) && old(rules)[nr] == [] :: nr in rules && rules[nr] == []
        invariant forall nr, args: Args :: Denies(rules, nr, args) <==>
          Denies(old(rules), nr, args) || (OpensFast(nr, args) && exists k :: 0 <= k < i && SENDS[k].0 == nr)
      {
        var (syscall, flagsArg) := SENDS[i];
        DenyFlag(syscall, flagsArg, FASTOPEN_BIT);
      }
      assert SENDS[0].0 == SYS_SENDTO && SENDS[1].0 == SYS_SENDMSG && SENDS[2].0 == SYS_SENDMMSG;
    }
  }

  /** Each send call and where its flags are. */
  const SENDS: seq<(u32, nat)> := [(SYS_SENDTO, 3), (SYS_SENDMSG, 2), (SYS_SENDMMSG, 3)]

  lemma {:induction false} PowersGrow(m: nat, n: nat)
    requires m <= n
    ensures 0 < Pow2(m) <= Pow2(n)
  {
    if m < n { PowersGrow(m, n - 1); } else if m > 0 { PowersGrow(m - 1, m - 1); }
  }

  lemma FlagFits(bit: nat)
    requires bit <= 30
    ensures 0 < Pow2(bit) <= 0x4000_0000
  {
    PowersGrow(bit, 30);
    assert Pow2(10) == 0x400 && Pow2(20) == 0x10_0000;
  }

  lemma FlagIsOneBit(value: u64, bit: nat)
    requires bit <= 30
    ensures Pow2(bit) <= 0x4000_0000
    ensures And(Low(value), Pow2(bit)) == And(Pow2(bit), Pow2(bit)) <==> Bit(Low(value), bit)
  {
    FlagFits(bit);
    AndOneBit(Low(value), bit);
    AndItself(Pow2(bit));
  }

  lemma MatchesOne(a: Condition, args: Args)
    ensures Matches([a], args) <==> Holds(a, args)
  {
    assert [a][0] == a;
  }

  lemma MatchesTwo(a: Condition, b: Condition, args: Args)
    ensures Matches([a, b], args) <==> Holds(a, args) && Holds(b, args)
  {
    var rule := [a, b];
    assert rule[0] == a && rule[1] == b;
  }

  lemma MatchesThree(a: Condition, b: Condition, c: Condition, args: Args)
    ensures Matches([a, b, c], args) <==> Holds(a, args) && Holds(b, args) && Holds(c, args)
  {
    var rule := [a, b, c];
    assert rule[0] == a && rule[1] == b && rule[2] == c;
  }

  lemma MatchesFour(a: Condition, b: Condition, c: Condition, d: Condition, args: Args)
    ensures Matches([a, b, c, d], args) <==> Holds(a, args) && Holds(b, args) && Holds(c, args) && Holds(d, args)
  {
    var rule := [a, b, c, d];
    assert rule[0] == a && rule[1] == b && rule[2] == c && rule[3] == d;
  }

  lemma {:induction false} AndItself(a: nat)
    ensures And(a, a) == a
  {
    if a > 0 { AndItself(a / 2); }
  }

  lemma TypeIsLowNibble(args: Args, socketType: nat)
    requires socketType <= SOCK_TYPE_MASK
    ensures And(Low(args[1]), SOCK_TYPE_MASK) == And(socketType, SOCK_TYPE_MASK) <==> SocketType(args) == socketType
  {
    LowNibbleIs(Low(args[1]), socketType, SOCK_TYPE_MASK);
  }

  lemma LowFits(value: nat)
    requires value <= 0x4000_0000
    ensures Low(value) == value
  {
  }

  lemma FlagHolds(index: nat, bit: nat, args: Args)
    requires index <= 5 && bit <= 30
    ensures Pow2(bit) <= 0x4000_0000
    ensures Holds(Condition(index, MaskedEq(Pow2(bit)), Pow2(bit)), args) <==> Bit(Low(args[index]), bit)
  {
    FlagFits(bit);
    FlagIsOneBit(args[index], bit);
    LowFits(Pow2(bit));
  }

  lemma TypeHolds(socketType: nat, args: Args)
    requires socketType <= SOCK_TYPE_MASK
    ensures Holds(Condition(1, MaskedEq(SOCK_TYPE_MASK), socketType), args) <==> SocketType(args) == socketType
  {
    assert Low(SOCK_TYPE_MASK) == SOCK_TYPE_MASK && Low(socketType) == socketType;
    TypeIsLowNibble(args, socketType);
  }

  lemma FlagRule(index: nat, bit: nat)
    requires index <= 5 && bit <= 30
    ensures Pow2(bit) <= 0x4000_0000
    ensures forall args: Args ::
              Matches([Condition(index, MaskedEq(Pow2(bit)), Pow2(bit))], args) <==> Bit(Low(args[index]), bit)
  {
    FlagFits(bit);
    forall args: Args
      ensures Matches([Condition(index, MaskedEq(Pow2(bit)), Pow2(bit))], args) <==> Bit(Low(args[index]), bit)
    {
      var condition := Condition(index, MaskedEq(Pow2(bit)), Pow2(bit));
      MatchesOne(condition, args);
      FlagHolds(index, bit, args);
    }
  }

  lemma TypeRule(family: Condition, socketType: nat)
    requires socketType <= SOCK_TYPE_MASK
    ensures forall args: Args ::
              Matches([family, Condition(1, MaskedEq(SOCK_TYPE_MASK), socketType)], args) <==>
                Holds(family, args) && SocketType(args) == socketType
  {
    forall args: Args
      ensures Matches([family, Condition(1, MaskedEq(SOCK_TYPE_MASK), socketType)], args) <==>
                Holds(family, args) && SocketType(args) == socketType
    {
      MatchesTwo(family, Condition(1, MaskedEq(SOCK_TYPE_MASK), socketType), args);
      TypeHolds(socketType, args);
    }
  }

  // ----- The closed form -----

  function SocketType(args: Args): nat {
    Low(args[1]) % 16
  }

  /** Whether any of the first `n` namespace flags is set. */
  predicate AnyBit(value: nat, n: nat)
    requires n <= |NAMESPACE_CLONE_BITS|
  {
    n > 0 && (AnyBit(value, n - 1) || Bit(value, NAMESPACE_CLONE_BITS[n - 1]))
  }

  predicate ClonesNamespace(nr: u32, args: Args) {
    nr == SYS_CLONE && AnyBit(Low(args[0]), |NAMESPACE_CLONE_BITS|)
  }

  predicate DialsUnix(nr: u32, args: Args) {
    && Low(args[0]) == AF_UNIX
    && (nr == SYS_SOCKET || (nr == SYS_SOCKETPAIR && SocketType(args) !in {SOCK_STREAM, SOCK_SEQPACKET}))
  }

  predicate OtherType(nr: u32, args: Args) {
    nr == SYS_SOCKET && Low(args[0]) != AF_UNIX && SocketType(args) != SOCK_STREAM
  }

  predicate OtherFamily(nr: u32, args: Args) {
    nr == SYS_SOCKET && SocketType(args) == SOCK_STREAM && Low(args[0]) !in {AF_UNIX, AF_INET, AF_INET6}
  }

  predicate OtherProtocol(nr: u32, args: Args) {
    nr == SYS_SOCKET && Low(args[0]) in {AF_INET, AF_INET6} && Low(args[2]) !in {0, IPPROTO_TCP}
  }

  /** Not a unix socket, and not an IP stream socket speaking TCP. */
  predicate LeavesTcp(nr: u32, args: Args) {
    && nr == SYS_SOCKET
    && Low(args[0]) != AF_UNIX
    && !(Low(args[0]) in {AF_INET, AF_INET6} && SocketType(args) == SOCK_STREAM && Low(args[2]) in {0, IPPROTO_TCP})
  }

  predicate SwapsTheProtocol(nr: u32, args: Args) {
    nr == SYS_SETSOCKOPT && Low(args[1]) == IPPROTO_TCP && Low(args[2]) == TCP_ULP
  }

  /** A send whose own flags word asks for TCP Fast Open. */
  predicate OpensFast(nr: u32, args: Args) {
    || (nr == SYS_SENDTO && Bit(Low(args[3]), FASTOPEN_BIT))
    || (nr == SYS_SENDMSG && Bit(Low(args[2]), FASTOPEN_BIT))
    || (nr == SYS_SENDMMSG && Bit(Low(args[3]), FASTOPEN_BIT))
  }

  predicate ClosedForm(policy: SandboxPolicy, nr: u32, args: Args) {
    || nr in BLOCKED_SYSCALLS
    || ClonesNamespace(nr, args)
    || (!policy.unixSockets && DialsUnix(nr, args))
    || (policy.network.Ports? && (LeavesTcp(nr, args) || SwapsTheProtocol(nr, args) || OpensFast(nr, args)))
  }

  /** The whole denylist: no step of it can fail, and it denies exactly the closed form over every
      number and every argument, and denies the seed outright. */
  method BlockedSyscalls(policy: SandboxPolicy) returns (rules: Rules)
    ensures forall nr, args: Args :: Denies(rules, nr, args) <==> ClosedForm(policy, nr, args)
    ensures forall nr | nr in BLOCKED_SYSCALLS :: nr in rules && rules[nr] == []
  {
    var filling := new RuleMap(BLOCKED_SYSCALLS);
    filling.DenyNamespaceClones();
    if !policy.unixSockets {
      filling.DenyUnixSockets();
    }
    var confineToTcp := match policy.network
      case Denied => false
      case AnyPort => false
      case Ports(_) => true;
    if confineToTcp {
      filling.ConfineToTcp();
    }
    rules := filling.rules;
  }

  /** Granting unix sockets only ever shrinks what is denied, and by unix sockets alone; a port
      list only ever grows it, and never by a unix socket. */
  lemma GrantsMoveTheDenialOneWay(policy: SandboxPolicy, port: u16, nr: u32, args: Args)
    ensures ClosedForm(policy.AllowUnixSockets(), nr, args) ==> ClosedForm(policy, nr, args)
    ensures ClosedForm(policy, nr, args) && !ClosedForm(policy.AllowUnixSockets(), nr, args) ==> DialsUnix(nr, args)
    ensures ClosedForm(policy, nr, args) ==> ClosedForm(policy.AllowNetworkPort(port), nr, args)
    ensures ClosedForm(policy.AllowNetworkPort(port), nr, args) && !ClosedForm(policy, nr, args) ==> !DialsUnix(nr, args)
  {
  }
}
