/** What the installed filters answer to calls one can name, on the words the kernel hands them; and what
    the interpreter reads there. */
module SeccompLaws {
  import opened Bits
  import opened Bpf
  import opened Policy
  import opened SeccompRules
  import opened SeccompFilter

  // ----- The stack's answer to a call -----

  /** Whatever rule map the policy is built into, the stack answers the call with `verdict`. */
  ghost predicate Answers(policy: SandboxPolicy, nr: u32, args: Args, verdict: u32) {
    forall rules | SameDenial(rules, policy) :: KernelVerdict(Installed(rules), DataFor(nr, args)) == verdict
  }

  lemma TheIntentIsAnswered(policy: SandboxPolicy, nr: u32, args: Args)
    ensures Answers(policy, nr, args, IntendedVerdict(policy, DataFor(nr, args)))
    ensures IntendedVerdict(policy, DataFor(nr, args)) ==
            if IsX32(nr) then KILL else if nr == SYS_CLONE3 then ENOSYS else if ClosedForm(policy, nr, args) then EPERM else ALLOW
  {
    DataRoundTrips(nr, args);
    forall rules | SameDenial(rules, policy)
      ensures KernelVerdict(Installed(rules), DataFor(nr, args)) == IntendedVerdict(policy, DataFor(nr, args))
    {
      StackAnswersTheIntent(policy, rules, Installed(rules), DataFor(nr, args));
    }
  }

  /** A call made as another architecture's is killed, whatever it is. */
  lemma ForeignCallsAreKilled(policy: SandboxPolicy, rules: Rules, data: SeccompData)
    requires SameDenial(rules, policy) && data[1] != AUDIT_ARCH
    ensures KernelVerdict(Installed(rules), data) == KILL
  {
    StackAnswersTheIntent(policy, rules, Installed(rules), data);
  }

  /** What is denied to everyone, in groups: tracing and reading other processes; mounting and changing
      roots, by either interface; namespaces; modules, BPF and kexec; keys; performance events, other
      processes' descriptors and user faults; rings; anonymous files; reboot and swap. */
  lemma TheSeedByName(nr: u32)
    ensures nr in BLOCKED_SYSCALLS <==>
            nr in {101, 310, 311, 165, 166, 155, 161, 428, 429, 430, 431, 432, 433, 442, 308, 272, 175, 313, 176, 321, 246,
                   248, 249, 250, 298, 434, 438, 323, 425, 426, 427, 319, 169, 167, 168}
  {
  }

  lemma SomeCallsAreDeniedToEveryone(policy: SandboxPolicy, nr: u32, args: Args)
    requires nr in BLOCKED_SYSCALLS
    ensures Answers(policy, nr, args, EPERM)
  {
    TheIntentIsAnswered(policy, nr, args);
    SeedsAreTheirOwn(nr);
    X32IsARange(nr);
  }

  lemma SeedsAreTheirOwn(nr: u32)
    requires nr in BLOCKED_SYSCALLS
    ensures nr < 500 && nr !in {41, 44, 46, 53, 54, 56, 307, 435}
  {
    TheSeedByName(nr);
  }

  lemma {:induction false} TopBit(x: nat, n: nat)
    requires x < 2 * Pow2(n)
    ensures Bit(x, n) <==> x >= Pow2(n)
    decreases n
  {
    if n > 0 { TopBit(x / 2, n - 1); }
  }

  lemma X32IsARange(nr: u32)
    ensures IsX32(nr) <==> 0x4000_0000 <= nr < 0x8000_0000
  {
    PowersByName();
    if nr < 0x8000_0000 { TopBit(nr, 30); }
  }

  /** And a number nobody names is allowed to everyone. */
  lemma OtherCallsAreAllowed(policy: SandboxPolicy, nr: u32, args: Args)
    requires nr !in BLOCKED_SYSCALLS && nr < 0x4000_0000 && nr !in {41, 44, 46, 53, 54, 56, 307, 435}
    ensures Answers(policy, nr, args, ALLOW)
  {
    TheIntentIsAnswered(policy, nr, args);
    X32IsARange(nr);
  }

  lemma SocketCallsAreNotForEveryone(nr: u32)
    requires nr in {41, 44, 46, 53, 54, 56, 307, 435}
    ensures nr !in BLOCKED_SYSCALLS && !IsX32(nr)
  {
    if nr in BLOCKED_SYSCALLS { SeedsAreTheirOwn(nr); }
    X32IsARange(nr);
  }

  /** A number of the x32 table kills. */
  lemma X32CallsAreKilled(policy: SandboxPolicy, nr: u32, args: Args)
    requires 0x4000_0000 <= nr < 0x8000_0000
    ensures Answers(policy, nr, args, KILL)
  {
    X32IsARange(nr);
    TheIntentIsAnswered(policy, nr, args);
  }

  /** And `clone3` is as if the kernel had never had it. */
  lemma Clone3IsUnknown(policy: SandboxPolicy, nr: u32, args: Args)
    requires nr == 435
    ensures Answers(policy, nr, args, ENOSYS)
  {
    X32IsARange(nr);
    TheIntentIsAnswered(policy, nr, args);
  }

  // ----- Clone -----

  /** The seven namespace flags of a clone, by their values. */
  predicate AsksForANamespace(flags: u32) {
    || And(flags, 0x0002_0000) != 0 || And(flags, 0x0200_0000) != 0 || And(flags, 0x0400_0000) != 0
    || And(flags, 0x0800_0000) != 0 || And(flags, 0x1000_0000) != 0 || And(flags, 0x2000_0000) != 0
    || And(flags, 0x4000_0000) != 0
  }

  lemma FlagIsBit(flags: u32, bit: nat, flag: nat)
    requires bit <= 30 && flag == Pow2(bit)
    ensures And(flags, flag) != 0 <==> Bit(flags, bit)
  {
    FlagFits(bit);
    AndOneBit(flags, bit);
  }

  lemma PowersByName()
    ensures Pow2(17) == 0x0002_0000 && Pow2(25) == 0x0200_0000 && Pow2(26) == 0x0400_0000 && Pow2(27) == 0x0800_0000
    ensures Pow2(28) == 0x1000_0000 && Pow2(29) == 0x2000_0000 && Pow2(30) == 0x4000_0000
  {
    assert Pow2(10) == 0x400 && Pow2(17) == 0x0002_0000 && Pow2(20) == 0x10_0000 && Pow2(25) == 0x0200_0000;
    PowerDoubles(25);
    PowerDoubles(26);
    PowerDoubles(27);
    PowerDoubles(28);
    PowerDoubles(29);
  }

  lemma PowerDoubles(n: nat)
    ensures Pow2(n + 1) == 2 * Pow2(n)
  {
  }

  lemma NamespaceBitsByName(flags: u32)
    ensures AnyBit(flags, |NAMESPACE_CLONE_BITS|) <==> AsksForANamespace(flags)
  {
    PowersByName();
    FlagIsBit(flags, 17, 0x0002_0000);
    FlagIsBit(flags, 25, 0x0200_0000);
    FlagIsBit(flags, 26, 0x0400_0000);
    FlagIsBit(flags, 27, 0x0800_0000);
    FlagIsBit(flags, 28, 0x1000_0000);
    FlagIsBit(flags, 29, 0x2000_0000);
    FlagIsBit(flags, 30, 0x4000_0000);
    BitsOneByOne(flags);
  }

  lemma OneBitMore(flags: u32, n: nat)
    requires n < |NAMESPACE_CLONE_BITS|
    ensures AnyBit(flags, n + 1) <==> AnyBit(flags, n) || Bit(flags, NAMESPACE_CLONE_BITS[n])
  {
  }

  lemma BitsOneByOne(flags: u32)
    ensures AnyBit(flags, |NAMESPACE_CLONE_BITS|) <==>
            || Bit(flags, 17) || Bit(flags, 25) || Bit(flags, 26) || Bit(flags, 27) || Bit(flags, 28) || Bit(flags, 29)
            || Bit(flags, 30)
  {
    OneBitMore(flags, 0);
    OneBitMore(flags, 1);
    OneBitMore(flags, 2);
    OneBitMore(flags, 3);
    OneBitMore(flags, 4);
    OneBitMore(flags, 5);
    OneBitMore(flags, 6);
  }

  /** Cloning is denied exactly for a namespace, under every policy, whatever the high half says. */
  lemma ClonesAreDeniedForANamespace(policy: SandboxPolicy, args: Args)
    ensures Answers(policy, 56, args, if AsksForANamespace(Low(args[0])) then EPERM else ALLOW)
  {
    TheIntentIsAnswered(policy, 56, args);
    SocketCallsAreNotForEveryone(56);
    NamespaceBitsByName(Low(args[0]));
  }

  // ----- Sockets -----

  /** A unix socket is a grant of its own: without it none, whatever the type; with it any, whatever the
      network policy. */
  lemma UnixSocketsAreTheirOwnGrant(policy: SandboxPolicy, args: Args)
    requires Low(args[0]) == 1
    ensures Answers(policy, 41, args, if policy.unixSockets then ALLOW else EPERM)
  {
    TheIntentIsAnswered(policy, 41, args);
    SocketCallsAreNotForEveryone(41);
  }

  /** So is a pair of unix sockets, unless it is of a type that can reach nothing but its other end:
      1, a stream, or 5, a sequence of packets. */
  lemma UnixPairsMayBeConnected(policy: SandboxPolicy, args: Args)
    ensures Answers(policy, 53, args,
                    if !policy.unixSockets && Low(args[0]) == 1 && Low(args[1]) % 16 !in {1, 5} then EPERM else ALLOW)
  {
    TheIntentIsAnswered(policy, 53, args);
    SocketCallsAreNotForEveryone(53);
  }

  /** Under a port list any other socket is an IP stream over TCP or it is denied: 2 and 10 are the two
      families, 1 the stream type under any flags, 0 and 6 the protocols. Without a list none is. */
  lemma APortListConfinesSocketsToTcp(policy: SandboxPolicy, args: Args)
    requires Low(args[0]) != 1
    ensures var tcp := Low(args[0]) in {2, 10} && Low(args[1]) % 16 == 1 && Low(args[2]) in {0, 6};
            Answers(policy, 41, args, if policy.network.Ports? && !tcp then EPERM else ALLOW)
  {
    TheIntentIsAnswered(policy, 41, args);
    SocketCallsAreNotForEveryone(41);
  }

  /** Under a port list a TCP socket may not be turned into another protocol's: option 31 of level 6. */
  lemma APortListKeepsTheProtocol(policy: SandboxPolicy, args: Args)
    ensures Answers(policy, 54, args,
                    if policy.network.Ports? && Low(args[1]) == 6 && Low(args[2]) == 31 then EPERM else ALLOW)
  {
    TheIntentIsAnswered(policy, 54, args);
    SocketCallsAreNotForEveryone(54);
  }

  /** Nor may a send connect on its own: the flag 0x2000_0000 of the fourth word of `sendto` and
      `sendmmsg`, and of the third of `sendmsg`. */
  lemma APortListForbidsFastOpen(policy: SandboxPolicy, args: Args)
    ensures Answers(policy, 44, args, if policy.network.Ports? && And(Low(args[3]), 0x2000_0000) != 0 then EPERM else ALLOW)
    ensures Answers(policy, 46, args, if policy.network.Ports? && And(Low(args[2]), 0x2000_0000) != 0 then EPERM else ALLOW)
    ensures Answers(policy, 307, args, if policy.network.Ports? && And(Low(args[3]), 0x2000_0000) != 0 then EPERM else ALLOW)
  {
    PowersByName();
    FlagIsBit(Low(args[3]), 29, 0x2000_0000);
    FlagIsBit(Low(args[2]), 29, 0x2000_0000);
    SendIsAnswered(policy, 44, args);
    SendIsAnswered(policy, 46, args);
    SendIsAnswered(policy, 307, args);
  }

  lemma SendIsAnswered(policy: SandboxPolicy, nr: u32, args: Args)
    requires nr in {44, 46, 307}
    ensures Answers(policy, nr, args,
                    if policy.network.Ports? && Bit(Low(args[if nr == 46 then 2 else 3]), 29) then EPERM else ALLOW)
  {
    TheIntentIsAnswered(policy, nr, args);
    SocketCallsAreNotForEveryone(nr);
  }

  // ----- What the interpreter reads and compares -----

  function Compares(code: nat, acc: nat, k: nat): bool {
    if code == JEQ_K then acc == k else if code == JGT_K then acc > k else acc >= k
  }

  /** Load, compare, answer: of the number and of the architecture, */
  lemma AComparisonReadsItsWord(nr: u32, args: Args, code: nat, k: u32)
    requires code in {JEQ_K, JGT_K, JGE_K}
    ensures Meaning(Comparison(0, code, k), DataFor(nr, args)) == Verdict(if Compares(code, nr, k) then EPERM else ALLOW)
    ensures Meaning(Comparison(4, code, k), DataFor(nr, args)) == Verdict(if Compares(code, AUDIT_ARCH, k) then EPERM else ALLOW)
  {
    WordsOf(nr, args, 0);
    ComparisonMeans(DataFor(nr, args), 0, code, k);
    ComparisonMeans(DataFor(nr, args), 4, code, k);
  }

  /** and of either half of any argument. */
  lemma AComparisonReadsItsArgument(nr: u32, args: Args, i: nat, code: nat, k: u32)
    requires i < 6 && code in {JEQ_K, JGT_K, JGE_K}
    ensures Meaning(Comparison(16 + 8 * i, code, k), DataFor(nr, args)) ==
            Verdict(if Compares(code, Low(args[i]), k) then EPERM else ALLOW)
    ensures Meaning(Comparison(20 + 8 * i, code, k), DataFor(nr, args)) ==
            Verdict(if Compares(code, High(args[i]), k) then EPERM else ALLOW)
  {
    WordsOf(nr, args, i);
    ComparisonMeans(DataFor(nr, args), 16 + 8 * i, code, k);
    ComparisonMeans(DataFor(nr, args), 20 + 8 * i, code, k);
  }

  function Comparison(offset: u32, code: nat, k: u32): seq<Insn> {
    [Insn(LD_W_ABS, 0, 0, offset), Insn(code, 0, 1, k), Insn(RET_K, 0, 0, EPERM), Insn(RET_K, 0, 0, ALLOW)]
  }

  lemma WordsOf(nr: u32, args: Args, i: nat)
    requires i < 6
    ensures var data := DataFor(nr, args);
            data[0] == nr && data[1] == AUDIT_ARCH && data[4 + 2 * i] == Low(args[i]) && data[5 + 2 * i] == High(args[i])
  {
    assert (4 + 2 * i) % 2 == 0 && (5 + 2 * i) % 2 == 1;
  }

  lemma ComparisonMeans(data: SeccompData, offset: u32, code: nat, k: u32)
    requires offset % 4 == 0 && offset < 64 && code in {JEQ_K, JGT_K, JGE_K}
    ensures Meaning(Comparison(offset, code, k), data) ==
            Verdict(if Compares(code, data[offset / 4], k) then EPERM else ALLOW)
  {
    var program, acc := Comparison(offset, code, k), data[offset / 4];
    assert Run(program, data, 0, 0) == Run(program, data, acc, 1);
    assert Run(program, data, acc, 2) == Verdict(EPERM) && Run(program, data, acc, 3) == Verdict(ALLOW);
  }

  /** A mask keeps the bits it has, and a plain jump skips what it says. */
  lemma MasksAndJumps(data: SeccompData, mask: u32, k: u32)
    ensures Meaning([Insn(LD_W_ABS, 0, 0, 0), Insn(ALU_AND_K, 0, 0, mask), Insn(JEQ_K, 0, 1, k), Insn(RET_K, 0, 0, EPERM),
                     Insn(RET_K, 0, 0, ALLOW)], data)
         == Verdict(if And(data[0], mask) == k then EPERM else ALLOW)
    ensures Meaning([Insn(JA, 0, 0, 1), Insn(RET_K, 0, 0, KILL), Insn(RET_K, 0, 0, ALLOW)], data) == Verdict(ALLOW)
  {
    AndIsBounded(data[0], mask);
    var program := [Insn(LD_W_ABS, 0, 0, 0), Insn(ALU_AND_K, 0, 0, mask), Insn(JEQ_K, 0, 1, k), Insn(RET_K, 0, 0, EPERM),
                    Insn(RET_K, 0, 0, ALLOW)];
    var masked: u32 := And(data[0], mask);
    assert Run(program, data, 0, 0) == Run(program, data, data[0], 1) == Run(program, data, masked, 2);
    assert Run(program, data, masked, 3) == Verdict(EPERM) && Run(program, data, masked, 4) == Verdict(ALLOW);
    var jump := [Insn(JA, 0, 0, 1), Insn(RET_K, 0, 0, KILL), Insn(RET_K, 0, 0, ALLOW)];
    assert Run(jump, data, 0, 0) == Run(jump, data, 0, 2);
  }

  /** Masking is bit by bit. */
  lemma {:induction false} AndIsBitwise(a: nat, b: nat, j: nat)
    ensures Bit(And(a, b), j) <==> Bit(a, j) && Bit(b, j)
    decreases j
  {
    if a == 0 || b == 0 {
      NoBits(j);
    } else {
      var rest, last := And(a / 2, b / 2), if a % 2 == 1 && b % 2 == 1 then 1 else 0;
      assert And(a, b) == 2 * rest + last;
      Halving(rest, last);
      if j > 0 { AndIsBitwise(a / 2, b / 2, j - 1); }
    }
  }

  lemma Halving(rest: nat, last: nat)
    requires last <= 1
    ensures (2 * rest + last) / 2 == rest && (2 * rest + last) % 2 == last
  {
  }

  lemma {:induction false} NoBits(j: nat)
    ensures !Bit(0, j)
  {
    if j > 0 { NoBits(j - 1); }
  }
}
