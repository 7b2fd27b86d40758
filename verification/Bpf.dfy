/** The classic-BPF interpreter every seccomp filter is read through, and the structural check
    that says which programs it may be handed (`helper_seccomp_tests_bpf.rs`,
    `helper_seccomp_tests_denylist.rs`). */
module Bpf {
  import opened Bits

  datatype Insn = Insn(code: nat, jt: nat, jf: nat, k: u32)

  // linux/seccomp.h, linux/bpf_common.h and linux/filter.h.
  const ALLOW: u32 := 0x7fff_0000
  const EPERM: u32 := 0x0005_0001
  const ENOSYS: u32 := 0x0005_0026
  const KILL: u32 := 0x8000_0000

  const LD_W_ABS := 0x20
  const ALU_AND_K := 0x54
  const JA := 0x05
  const JEQ_K := 0x15
  const JGT_K := 0x25
  const JGE_K := 0x35
  const RET_K := 0x06

  const KNOWN_OPCODES := {LD_W_ABS, ALU_AND_K, JA, JEQ_K, JGT_K, JGE_K, RET_K}
  const VERDICTS := {ALLOW, EPERM, ENOSYS, KILL}

  /** BPF_CLASS, and the class of a return. */
  const CLASSES := 8
  const RET_CLASS := 6

  /** `struct seccomp_data` as the sixteen words an absolute load addresses. */
  type SeccompData = words: seq<u32> | |words| == 16 witness [0, 0, 0, 0, 0, 0, 0, 0, 0, 0, 0, 0, 0, 0, 0, 0]

  datatype Panic = OffTheEnd | UnalignedLoad | LoadOutsideData | UnknownOpcode

  datatype Outcome = Verdict(value: u32) | Panicked(why: Panic)

  /** Where control goes from one instruction, what the accumulator becomes, or how it stops. */
  datatype Stepped = Goto(target: nat, acc: u32) | Halt(outcome: Outcome)

  function Step(insn: Insn, data: SeccompData, acc: u32, next: nat): (stepped: Stepped)
    ensures stepped.Goto? ==> stepped.target >= next
  {
    if insn.code == LD_W_ABS then
      var offset := insn.k;
      if offset % 4 != 0 then Halt(Panicked(UnalignedLoad))
      else if offset / 4 >= 16 then Halt(Panicked(LoadOutsideData))
      else Goto(next, data[offset / 4])
    else if insn.code == ALU_AND_K then AndIsBounded(acc, insn.k); Goto(next, And(acc, insn.k))
    else if insn.code == JA then Goto(next + insn.k, acc)
    else if insn.code == JEQ_K then Goto(next + if acc == insn.k then insn.jt else insn.jf, acc)
    else if insn.code == JGT_K then Goto(next + if acc > insn.k then insn.jt else insn.jf, acc)
    else if insn.code == JGE_K then Goto(next + if acc >= insn.k then insn.jt else insn.jf, acc)
    else if insn.code == RET_K then Halt(Verdict(insn.k))
    else Halt(Panicked(UnknownOpcode))
  }

  function Run(program: seq<Insn>, data: SeccompData, acc: u32, pc: nat): Outcome
    decreases if pc < |program| then |program| - pc else 0
  {
    if pc >= |program| then Panicked(OffTheEnd)
    else
      match Step(program[pc], data, acc, pc + 1)
      case Halt(outcome) => outcome
      case Goto(target, acc') => Run(program, data, acc', target)
  }

  function Meaning(program: seq<Insn>, data: SeccompData): Outcome {
    Run(program, data, 0, 0)
  }

  /** The interpreter's loop. It cannot spin: every target is past the instruction it left. */
  method Eval(program: seq<Insn>, data: SeccompData) returns (outcome: Outcome)
    ensures outcome == Meaning(program, data)
  {
    var acc: u32 := 0;
    var pc := 0;
    while pc < |program|
      invariant Run(program, data, acc, pc) == Meaning(program, data)
      decreases if pc < |program| then |program| - pc else 0
    {
      match Step(program[pc], data, acc, pc + 1)
      case Halt(stopped) => return stopped;
      case Goto(target, acc') => acc, pc := acc', target;
    }
    return Panicked(OffTheEnd);
  }

  predicate Sound(program: seq<Insn>, pc: nat)
    requires pc < |program|
  {
    var insn, next, len := program[pc], pc + 1, |program|;
    && insn.code in KNOWN_OPCODES
    && (insn.code == LD_W_ABS ==> insn.k % 4 == 0 && insn.k < 64)
    && (insn.code == JA ==> next + insn.k < len)
    && (insn.code in {JEQ_K, JGT_K, JGE_K} ==> next + insn.jt < len && next + insn.jf < len)
    && (insn.code == RET_K ==> insn.k in VERDICTS)
  }

  predicate WellFormed(program: seq<Insn>) {
    && 1 <= |program| <= 4096
    && program[|program| - 1].code % CLASSES == RET_CLASS
    && forall pc | 0 <= pc < |program| :: Sound(program, pc)
  }

  /** The structural check, collecting the verdicts the program can return as it goes. */
  method CheckProgramIsWellFormed(program: seq<Insn>) returns (accepted: bool)
    ensures accepted <==> WellFormed(program)
  {
    var len := |program|;
    if !(1 <= len <= 4096) || program[len - 1].code % CLASSES != RET_CLASS {
      return false;
    }
    var verdicts: set<u32> := {};
    for pc := 0 to len
      invariant verdicts == set i | 0 <= i < pc && program[i].code == RET_K :: program[i].k
      invariant forall i | 0 <= i < pc :: program[i].code == RET_K || Sound(program, i)
    {
      var insn, next := program[pc], pc + 1;
      if insn.code !in KNOWN_OPCODES {
        assert !Sound(program, pc);
        return false;
      }
      if insn.code == LD_W_ABS {
        if insn.k % 4 != 0 || insn.k >= 64 { assert !Sound(program, pc); return false; }
      } else if insn.code == JA {
        if next + insn.k >= len { assert !Sound(program, pc); return false; }
      } else if insn.code == JEQ_K || insn.code == JGT_K || insn.code == JGE_K {
        if next + insn.jt >= len || next + insn.jf >= len { assert !Sound(program, pc); return false; }
      } else if insn.code == RET_K {
        verdicts := verdicts + {insn.k};
      }
    }
    accepted := verdicts <= VERDICTS;
    if accepted {
      assert forall i | 0 <= i < len && program[i].code == RET_K :: program[i].k in verdicts;
    } else {
      var v :| v in verdicts && v !in VERDICTS;
      var i :| 0 <= i < len && program[i].code == RET_K && program[i].k == v;
      assert !Sound(program, i);
    }
  }

  lemma {:induction false} RunsToAVerdict(program: seq<Insn>, data: SeccompData, acc: u32, pc: nat)
    requires WellFormed(program) && pc < |program|
    ensures Run(program, data, acc, pc).Verdict? && Run(program, data, acc, pc).value in VERDICTS
    decreases |program| - pc
  {
    assert Sound(program, pc);
    match Step(program[pc], data, acc, pc + 1)
    case Halt(_) =>
    case Goto(target, acc') => RunsToAVerdict(program, data, acc', target);
  }

  /** No accepted program can make the interpreter panic, on any data at all, and the verdict is
      one the filters were asked for. */
  lemma AcceptedProgramsNeverPanic(program: seq<Insn>, data: SeccompData)
    requires WellFormed(program)
    ensures Meaning(program, data).Verdict? && Meaning(program, data).value in VERDICTS
  {
    RunsToAVerdict(program, data, 0, 0);
  }

  // ----- What is refused -----

  /** An instruction that does not hold up wherever it is reached, on any data. */
  lemma RefusedInstructionsMisbehave(program: seq<Insn>, data: SeccompData, acc: u32, pc: nat)
    requires pc < |program|
    requires program[pc].code !in KNOWN_OPCODES
          || (program[pc].code == LD_W_ABS && (program[pc].k % 4 != 0 || program[pc].k >= 64))
          || (program[pc].code == JA && pc + 1 + program[pc].k >= |program|)
          || (program[pc].code == RET_K && program[pc].k !in VERDICTS)
    ensures Run(program, data, acc, pc).Panicked? || Run(program, data, acc, pc).value !in VERDICTS
  {
  }

  /** A program that does not end in a return runs off its end if it ever gets there, and one of
      no instructions at all does so at once. */
  lemma LastMustReturn(program: seq<Insn>, data: SeccompData, acc: u32)
    requires program != [] ==> program[|program| - 1].code % CLASSES != RET_CLASS
    ensures Run(program, data, acc, if program == [] then 0 else |program| - 1).Panicked?
  {
  }

  predicate IsConditional(insn: Insn) {
    insn.code in {JEQ_K, JGT_K, JGE_K}
  }

  /** Some accumulator makes the comparison come out as `met`: all but two of the six do. */
  predicate CanBe(insn: Insn, met: bool) {
    && (insn.code == JGT_K && met ==> insn.k < 0xffff_ffff)
    && (insn.code == JGE_K && !met ==> insn.k > 0)
  }

  /** A conditional jump that leaves the program by either of its two targets does so for some
      accumulator, exactly unless that is the side its comparison never takes. So the check refuses
      more than what can panic, by those two jumps and by what is never reached. */
  lemma RefusedJumpsCanLeave(insn: Insn, data: SeccompData, next: nat, len: nat)
    requires IsConditional(insn)
    ensures (exists acc: u32 :: Leaves(Step(insn, data, acc, next), len)) <==>
            (next + insn.jt >= len && CanBe(insn, true)) || (next + insn.jf >= len && CanBe(insn, false))
  {
    var below: u32 := if insn.k == 0 then 0 else insn.k - 1;
    var above: u32 := if insn.k == 0xffff_ffff then insn.k else insn.k + 1;
    var same: u32 := insn.k;
    if next + insn.jt >= len && CanBe(insn, true) {
      assert Leaves(Step(insn, data, if insn.code == JGT_K then above else same, next), len);
    } else if next + insn.jf >= len && CanBe(insn, false) {
      var other: u32 := if insn.code == JGT_K then same else if insn.k > 0 then below else above;
      assert Leaves(Step(insn, data, other, next), len);
    }
  }

  predicate Leaves(stepped: Stepped, len: nat) {
    stepped.Goto? && stepped.target >= len
  }

  /** And a jump that leaves is a panic. */
  lemma LeavingPanics(program: seq<Insn>, data: SeccompData, acc: u32, pc: nat)
    requires pc < |program| && Leaves(Step(program[pc], data, acc, pc + 1), |program|)
    ensures Run(program, data, acc, pc) == Panicked(OffTheEnd)
  {
  }

  /** A whole program that is refused and never panics: the side of its jump that leaves is the one an
      unsigned number at least zero never takes. */
  lemma AHarmlessProgramIsRefused(data: SeccompData)
    ensures var program := [Insn(JGE_K, 0, 7, 0), Insn(RET_K, 0, 0, ALLOW)];
            !WellFormed(program) && Meaning(program, data) == Verdict(ALLOW)
  {
    var program := [Insn(JGE_K, 0, 7, 0), Insn(RET_K, 0, 0, ALLOW)];
    assert !Sound(program, 0);
    assert Run(program, data, 0, 1) == Verdict(ALLOW);
  }
}
