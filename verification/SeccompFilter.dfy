/** The filters a stage installs (`helper_seccomp_filter.rs`), and what the kernel answers with
    them stacked. A seccompiler program is given its meaning, not its code: a foreign
    architecture is killed, the rule map decides, everything else is allowed. */
module SeccompFilter {
  import opened Bits
  import opened Bpf
  import opened Policy
  import opened SeccompRules

  /** AUDIT_ARCH_X86_64. */
  const AUDIT_ARCH: u32 := 0xc000_003e
  const X32_SYSCALL_BIT: u32 := 0x4000_0000

  datatype Filter =
    | Compiled(rules: Rules, answer: u32)
    | Assembled(program: seq<Insn>)

  function ArgsOf(data: SeccompData): Args {
    seq(6, i requires 0 <= i < 6 =>
      var low: u64, high: u64 := data[4 + 2 * i], data[5 + 2 * i]; low + 0x1_0000_0000 * high)
  }

  /** The struct the kernel hands a filter, written word by word. */
  method SeccompDataFor(nr: u32, args: Args) returns (data: array<u32>)
    ensures fresh(data) && data.Length == 16
    ensures data[..] == DataFor(nr, args)
  {
    data := new u32[16](_ => 0);
    data[0] := nr;
    data[1] := AUDIT_ARCH;
    for i := 0 to 6
      invariant data[0] == nr && data[1] == AUDIT_ARCH && data[2] == 0 && data[3] == 0
      invariant forall k | 4 <= k < 4 + 2 * i :: data[k] == DataFor(nr, args)[k]
    {
      data[4 + 2 * i] := Low(args[i]);
      data[5 + 2 * i] := High(args[i]);
    }
  }

  function DataFor(nr: u32, args: Args): SeccompData {
    seq(16, k requires 0 <= k < 16 =>
      if k == 0 then nr
      else if k == 1 then AUDIT_ARCH
      else if k < 4 then 0
      else if k % 2 == 0 then Low(args[(k - 4) / 2])
      else High(args[(k - 4) / 2]))
  }

  /** No argument lands on another's words, and none loses a half. */
  lemma DataRoundTrips(nr: u32, args: Args)
    ensures DataFor(nr, args)[0] == nr && DataFor(nr, args)[1] == AUDIT_ARCH
    ensures ArgsOf(DataFor(nr, args)) == args
  {
    forall i | 0 <= i < 6 ensures ArgsOf(DataFor(nr, args))[i] == args[i] {
      assert (4 + 2 * i) % 2 == 0 && (5 + 2 * i) % 2 == 1;
    }
  }

  /** Six instructions, both returns last, both jumps forward. */
  const X32_GATE: seq<Insn> := [
    Insn(LD_W_ABS, 0, 0, 0),
    Insn(JGE_K, 3, 0, 0x8000_0000),
    Insn(ALU_AND_K, 0, 0, X32_SYSCALL_BIT),
    Insn(JEQ_K, 0, 1, X32_SYSCALL_BIT),
    Insn(RET_K, 0, 0, KILL),
    Insn(RET_K, 0, 0, ALLOW)]

  predicate IsX32(nr: u32) {
    nr < 0x8000_0000 && Bit(nr, 30)
  }

  lemma X32GateIsAccepted()
    ensures WellFormed(X32_GATE)
  {
    forall pc | 0 <= pc < |X32_GATE| ensures Sound(X32_GATE, pc) {
      assert pc in {0, 1, 2, 3, 4, 5};
    }
  }

  /** The gate kills exactly the numbers with the sign bit clear and bit 30 set. */
  lemma X32GateKillsExactlyX32(data: SeccompData)
    ensures Meaning(X32_GATE, data) == Verdict(if IsX32(data[0]) then KILL else ALLOW)
  {
    var nr := data[0];
    var masked := And(nr, X32_SYSCALL_BIT);
    assert Pow2(10) == 0x400 && Pow2(20) == 0x10_0000 && Pow2(30) == X32_SYSCALL_BIT;
    AndOneBit(nr, 30);
    AndIsBounded(nr, X32_SYSCALL_BIT);
    GateStep(data, nr, 4);
    GateStep(data, nr, 5);
    GateStep(data, masked, 4);
    GateStep(data, masked, 5);
    GateStep(data, masked, 3);
    GateStep(data, nr, 2);
    GateStep(data, nr, 1);
    GateStep(data, 0, 0);
  }

  lemma GateStep(data: SeccompData, acc: u32, pc: nat)
    requires pc < 6
    ensures Run(X32_GATE, data, acc, pc) ==
            match Step(X32_GATE[pc], data, acc, pc + 1)
            case Halt(outcome) => outcome
            case Goto(target, acc') => Run(X32_GATE, data, acc', target)
  {
  }

  /** What one installed filter answers. An assembled program that panicked would be a bug no
      accepted program has. */
  function Answer(filter: Filter, data: SeccompData): u32 {
    match filter
    case Compiled(rules, answer) =>
      if data[1] != AUDIT_ARCH then KILL
      else if Denies(rules, data[0], ArgsOf(data)) then answer
      else ALLOW
    case Assembled(program) =>
      var outcome := Meaning(program, data);
      if outcome.Verdict? then outcome.value else KILL
  }

  /** A verdict's action, as the signed number the kernel orders by: the least is the most severe. */
  function Severity(verdict: u32): int {
    var action := verdict - verdict % 0x1_0000;
    if action >= 0x8000_0000 then action - 0x1_0000_0000 else action
  }

  /** The kernel asks the newest filter first and keeps the first of the most severe. */
  function KernelVerdictFrom(filters: seq<Filter>, data: SeccompData, kept: u32): u32 {
    if filters == [] then kept
    else
      var answer := Answer(filters[|filters| - 1], data);
      KernelVerdictFrom(filters[..|filters| - 1], data, if Severity(answer) < Severity(kept) then answer else kept)
  }

  function KernelVerdict(filters: seq<Filter>, data: SeccompData): u32 {
    KernelVerdictFrom(filters, data, ALLOW)
  }

  ghost predicate SameDenial(rules: Rules, policy: SandboxPolicy) {
    forall nr, args: Args :: Denies(rules, nr, args) <==> ClosedForm(policy, nr, args)
  }

  /** The stack, as built from a rule map `BlockedSyscalls` filled. */
  function Installed(rules: Rules): seq<Filter> {
    [Compiled(rules, EPERM), Compiled(map[SYS_CLONE3 := []], ENOSYS), Assembled(X32_GATE)]
  }

  method InstalledFilters(policy: SandboxPolicy) returns (filters: seq<Filter>, ghost rules: Rules)
    ensures SameDenial(rules, policy) && filters == Installed(rules)
    ensures forall data :: KernelVerdict(filters, data) == IntendedVerdict(policy, data)
  {
    var denylist := BlockedSyscalls(policy);
    rules := denylist;
    filters := [Compiled(denylist, EPERM), Compiled(map[SYS_CLONE3 := []], ENOSYS), Assembled(X32_GATE)];
    forall data ensures KernelVerdict(filters, data) == IntendedVerdict(policy, data) {
      StackAnswersTheIntent(policy, denylist, filters, data);
    }
  }

  /** What the policy means for one call. */
  function IntendedVerdict(policy: SandboxPolicy, data: SeccompData): u32 {
    if data[1] != AUDIT_ARCH || IsX32(data[0]) then KILL
    else if data[0] == SYS_CLONE3 then ENOSYS
    else if ClosedForm(policy, data[0], ArgsOf(data)) then EPERM
    else ALLOW
  }

  /** No number is answered by two errnos, so the tie the kernel breaks by age never arises. */
  lemma Clone3IsNeverEperm(policy: SandboxPolicy, args: Args)
    ensures !ClosedForm(policy, SYS_CLONE3, args)
  {
    assert SYS_CLONE3 !in BLOCKED_SYSCALLS;
  }

  lemma {:induction false} KernelVerdictIsMostSevere(filters: seq<Filter>, data: SeccompData, kept: u32)
    ensures var verdict := KernelVerdictFrom(filters, data, kept);
            && (verdict == kept || exists f | f in filters :: Answer(f, data) == verdict)
            && (forall f | f in filters :: Severity(verdict) <= Severity(Answer(f, data)))
            && Severity(verdict) <= Severity(kept)
    decreases filters
  {
    if filters != [] {
      var older, newest := filters[..|filters| - 1], filters[|filters| - 1];
      var answer := Answer(newest, data);
      KernelVerdictIsMostSevere(older, data, if Severity(answer) < Severity(kept) then answer else kept);
      assert forall f :: f in filters <==> f in older || f == newest;
    }
  }

  lemma EachFilterAnswers(rules: Rules, data: SeccompData)
    ensures Answer(Installed(rules)[0], data) ==
            if data[1] != AUDIT_ARCH then KILL else if Denies(rules, data[0], ArgsOf(data)) then EPERM else ALLOW
    ensures Answer(Installed(rules)[1], data) ==
            if data[1] != AUDIT_ARCH then KILL else if data[0] == SYS_CLONE3 then ENOSYS else ALLOW
    ensures Answer(Installed(rules)[2], data) == if IsX32(data[0]) then KILL else ALLOW
  {
    X32GateKillsExactlyX32(data);
  }

  /** The stack answers what the policy meant, for every call there is, whatever order the three
      filters went in and however often. */
  lemma StackAnswersTheIntent(policy: SandboxPolicy, rules: Rules, stack: seq<Filter>, data: SeccompData)
    requires SameDenial(rules, policy)
    requires forall f :: f in stack <==> f in Installed(rules)
    ensures KernelVerdict(stack, data) == IntendedVerdict(policy, data)
  {
    EachFilterAnswers(rules, data);
    KernelVerdictIsMostSevere(stack, data, ALLOW);
    Clone3IsNeverEperm(policy, ArgsOf(data));
    var three := Installed(rules);
    assert three[0] in stack && three[1] in stack && three[2] in stack;
    assert forall f | f in stack :: f == three[0] || f == three[1] || f == three[2];
    SeverityOrder();
  }

  lemma SeverityOrder()
    ensures Severity(KILL) < Severity(EPERM) == Severity(ENOSYS) < Severity(ALLOW)
  {
  }
}
