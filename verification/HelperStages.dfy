/** The helper's two stages as the straight-line programs they are (`helper_exec.rs`,
    `helper_hardening.rs`), each system call an oracle that may refuse. What a stage did is the
    list of steps it took; `Confinement` is where the stages meet the rest of the world. */
module HelperStages {
  import opened Wrappers
  import opened Text
  import opened Confinement

  // ----- Stage 2 -----

  /** Without the audit flag there is no channel to claim, so claiming it cannot fail. */
  predicate Refused(refuses: InnerStep -> bool, audit: bool, step: InnerStep) {
    refuses(step) && (step == ClaimChannel ==> audit)
  }

  /** Where the steps from `from` up to `to` come to a stop: the first refused, or `to`. */
  function Stop(refuses: InnerStep -> bool, audit: bool, from: nat, until: nat): (k: nat)
    requires from <= until <= |INNER|
    ensures from <= k <= until
    ensures k < until ==> Refused(refuses, audit, INNER[k])
    ensures (forall j | from <= j < k :: !Refused(refuses, audit, INNER[j]))
    decreases until - from
  {
    if from == until || Refused(refuses, audit, INNER[from]) then from else Stop(refuses, audit, from + 1, until)
  }

  lemma StopJoins(refuses: InnerStep -> bool, audit: bool, from: nat, mid: nat, until: nat)
    requires from <= mid <= until <= |INNER|
    ensures var first := Stop(refuses, audit, from, mid);
            Stop(refuses, audit, from, until) == if first < mid then first else Stop(refuses, audit, mid, until)
  {
  }

  /** Where a list of steps that stands in the order stops is where the order does. */
  lemma StopIs(refuses: InnerStep -> bool, audit: bool, from: nat, steps: seq<InnerStep>, n: nat)
    requires 0 < from && from + |steps| <= |INNER| && steps == INNER[from..from + |steps|]
    requires n <= |steps| && (n < |steps| ==> refuses(steps[n])) && forall j | 0 <= j < n :: !refuses(steps[j])
    ensures Stop(refuses, audit, from, from + |steps|) == from + n
    ensures INNER[..from] + steps[..n] == INNER[..from + n]
  {
    PiecesJoin(INNER, from, steps, n);
    if n < |steps| { RefusedThere(refuses, audit, from, steps, n); }
    forall i | from <= i < from + n ensures !Refused(refuses, audit, INNER[i]) {
      RefusedThere(refuses, audit, from, steps, i - from);
    }
    OneStop(refuses, audit, from, from + |steps|, from + n);
  }

  lemma RefusedThere(refuses: InnerStep -> bool, audit: bool, from: nat, steps: seq<InnerStep>, j: nat)
    requires 0 < from && from + |steps| <= |INNER| && steps == INNER[from..from + |steps|] && j < |steps|
    ensures Refused(refuses, audit, INNER[from + j]) <==> refuses(steps[j])
  {
    assert steps[j] == INNER[from + j];
    ClaimIsFirst(from + j);
  }

  lemma PiecesJoin(plan: seq<InnerStep>, from: nat, steps: seq<InnerStep>, n: nat)
    requires from + |steps| <= |plan| && steps == plan[from..from + |steps|] && n <= |steps|
    ensures plan[..from] + steps[..n] == plan[..from + n]
  {
  }

  lemma {:induction false} OneStop(refuses: InnerStep -> bool, audit: bool, from: nat, until: nat, k: nat)
    requires from <= k <= until <= |INNER|
    requires k < until ==> Refused(refuses, audit, INNER[k])
    requires forall i | from <= i < k :: !Refused(refuses, audit, INNER[i])
    ensures Stop(refuses, audit, from, until) == k
    decreases k - from
  {
    if from < k { OneStop(refuses, audit, from + 1, until, k); }
  }

  lemma ClaimIsFirst(i: nat)
    requires 0 < i < |INNER|
    ensures INNER[i] != ClaimChannel
  {
  }

  lemma NamedSteps()
    ensures [DecodePolicy, ArmDeathSignal, ReadParent, CompareParent, CheckEnvironment] == INNER[1..6]
    ensures [OpenPinnedImage, MakeNonDumpable, SpawnCommand] == INNER[11..14]
  {
  }

  class InnerStage {
    const refuses: InnerStep -> bool
    const audit: bool
    var taken: seq<InnerStep>
    var written: seq<Record>

    constructor (refuses: InnerStep -> bool, audit: bool)
      ensures this.refuses == refuses && this.audit == audit && taken == [] && written == []
    {
      this.refuses, this.audit, taken, written := refuses, audit, [], [];
    }

    method Attempt(step: InnerStep) returns (done: bool)
      modifies this`taken
      ensures done <==> !refuses(step)
      ensures taken == if done then old(taken) + [step] else old(taken)
    {
      done := !refuses(step);
      if done { taken := taken + [step]; }
    }

    /** A run of steps, the first refusal ending it. */
    method AttemptAll(steps: seq<InnerStep>, ghost from: nat) returns (done: bool)
      requires 0 < from && from + |steps| <= |INNER| && steps == INNER[from..from + |steps|] && taken == INNER[..from]
      modifies this`taken
      ensures var stopped := Stop(refuses, audit, from, from + |steps|);
              taken == INNER[..stopped] && (done <==> stopped == from + |steps|)
    {
      var n := AttemptUpTo(steps);
      StopIs(refuses, audit, from, steps, n);
      done := n == |steps|;
    }

    method AttemptUpTo(steps: seq<InnerStep>) returns (n: nat)
      modifies this`taken
      ensures n <= |steps| && taken == old(taken) + steps[..n]
      ensures (n < |steps| ==> refuses(steps[n])) && forall j | 0 <= j < n :: !refuses(steps[j])
    {
      n := 0;
      while n < |steps|
        invariant n <= |steps| && taken == old(taken) + steps[..n]
        invariant forall j | 0 <= j < n :: !refuses(steps[j])
      {
        var done := Attempt(steps[n]);
        if !done {
          return;
        }
        n := n + 1;
      }
    }

    /** One install per filter, stopping at the first the kernel refuses. */
    method DenyDangerousSyscalls() returns (done: bool)
      requires taken == INNER[..7]
      modifies this`taken
      ensures taken == INNER[..Stop(refuses, audit, 7, 10)] && (done <==> Stop(refuses, audit, 7, 10) == 10)
    {
      done := AttemptAll([InstallDenylist, InstallClone3, InstallX32Gate], 7);
    }

    method Apply() returns (done: bool)
      requires taken == INNER[..6]
      modifies this`taken
      ensures taken == INNER[..Stop(refuses, audit, 6, 11)] && (done <==> Stop(refuses, audit, 6, 11) == 11)
    {
      done := Attempt(SetNoNewPrivs);
      if !done {
        return;
      }
      done := DenyDangerousSyscalls();
      StopJoins(refuses, audit, 7, 10, 11);
      if !done {
        return;
      }
      done := Attempt(EnforceRuleset);
    }

    method RestrictAndSpawn() returns (done: bool)
      requires taken == INNER[..1]
      modifies this`taken
      ensures taken == INNER[..Stop(refuses, audit, 1, 14)] && (done <==> Stop(refuses, audit, 1, 14) == 14)
    {
      NamedSteps();
      StopJoins(refuses, audit, 1, 6, 14);
      StopJoins(refuses, audit, 6, 11, 14);
      done := AttemptAll([DecodePolicy, ArmDeathSignal, ReadParent, CompareParent, CheckEnvironment], 1);
      if !done {
        return;
      }
      done := Apply();
      if !done {
        return;
      }
      done := AttemptAll([OpenPinnedImage, MakeNonDumpable, SpawnCommand], 11);
    }

    /** Takes the steps in order up to the first refusal, and reports that refusal if the channel
        is in hand to report it on. */
    method ExecInner() returns (started: bool)
      requires taken == [] && written == []
      modifies this
      ensures var stopped := Stop(refuses, audit, 0, |INNER|);
              && taken == INNER[..stopped]
              && (started <==> stopped == |INNER|)
              && written == InnerWritten(refuses, audit)
    {
      if audit {
        var claimed := Attempt(ClaimChannel);
        if !claimed {
          return false;
        }
      } else {
        taken := taken + [ClaimChannel];
      }
      StopJoins(refuses, audit, 0, 1, 14);
      started := RestrictAndSpawn();
      if !started && audit {
        written := written + [RefusalRecord];
      }
    }
  }

  // ----- Stage 1 -----

  predicate OuterRefused(refuses: OuterStep -> bool, step: OuterStep) {
    refuses(step) && step != ResolveNames && step != ReportDegraded
  }

  function OuterStop(refuses: OuterStep -> bool, from: nat): (k: nat)
    requires from <= |OUTER|
    ensures from <= k <= |OUTER|
    ensures k < |OUTER| ==> OuterRefused(refuses, OUTER[k])
    ensures (forall j | from <= j < k :: !OuterRefused(refuses, OUTER[j]))
    decreases |OUTER| - from
  {
    if from == |OUTER| || OuterRefused(refuses, OUTER[from]) then from else OuterStop(refuses, from + 1)
  }

  lemma OneMoreOuterStep(i: nat)
    requires i < |OUTER|
    ensures OUTER[..i] + [OUTER[i]] == OUTER[..i + 1]
  {
  }

  /** What the first `n` steps leave to report. */
  function Degradations(degrades: OuterStep -> bool, n: nat): seq<Record>
    requires n <= |OUTER|
  {
    if n == 0 then []
    else
      var step := OUTER[n - 1];
      Degradations(degrades, n - 1)
      + if step in {ResolveNames, IsolateNamespaces, DropCapabilities} && degrades(step) then [DegradedRecord] else []
  }

  /** How stage 1 ends: nothing to run itself again from, a refusal, or stage 2's own end. */
  datatype Outcome = NoImage | RefusedToStart | WaitFailed | Relayed(raised: Option<nat>, code: nat)

  const LAST_SIGNAL := 31

  function Raised(status: Fate): Option<nat> {
    if status.Signal? && 1 <= status.number <= LAST_SIGNAL then Some(status.number) else None
  }

  /** What stage 1 leaves on the channel: its degradations if it came as far as reporting them,
      and its refusal if it made one. */
  function OuterWritten(refuses: OuterStep -> bool, degrades: OuterStep -> bool, audit: bool): seq<Record> {
    var stopped := OuterStop(refuses, 0);
    (if audit && stopped > REPORT then Degradations(degrades, REPORT) else [])
    + if audit && stopped < |OUTER| then [RefusalRecord] else []
  }

  function InnerWritten(refuses: InnerStep -> bool, audit: bool): seq<Record> {
    if audit && 0 < Stop(refuses, audit, 0, |INNER|) < |INNER| then [RefusalRecord] else []
  }

  class OuterStage {
    const refuses: OuterStep -> bool
    const degrades: OuterStep -> bool
    const audit: bool
    var taken: seq<OuterStep>
    var degraded: seq<Record>
    var written: seq<Record>

    constructor (refuses: OuterStep -> bool, degrades: OuterStep -> bool, audit: bool)
      ensures this.refuses == refuses && this.degrades == degrades && this.audit == audit
      ensures taken == [] && degraded == [] && written == []
    {
      this.refuses, this.degrades, this.audit := refuses, degrades, audit;
      taken, degraded, written := [], [], [];
    }

    ghost predicate Degraded()
      reads this
    {
      |taken| <= |OUTER| && degraded == Degradations(degrades, |taken|)
    }

    method Attempt(step: OuterStep) returns (done: bool)
      requires |taken| < |OUTER| && step == OUTER[|taken|] && Degraded()
      requires step != ReportDegraded
      modifies this`taken, this`degraded
      ensures done <==> !OuterRefused(refuses, step)
      ensures taken == if done then old(taken) + [step] else old(taken)
      ensures Degraded()
    {
      done := step == ResolveNames || !refuses(step);
      if done {
        if step in {ResolveNames, IsolateNamespaces, DropCapabilities} && degrades(step) {
          degraded := degraded + [DegradedRecord];
        }
        taken := taken + [step];
      }
    }

    /** Decoding, then building the namespaces and dropping what must be dropped. */
    method PrepareSupervisor() returns (prepared: bool)
      requires taken == [] && degraded == []
      modifies this`taken, this`degraded
      ensures var stopped := OuterStop(refuses, 0);
              && taken == OUTER[..if prepared then REPORT else stopped]
              && (prepared <==> stopped >= REPORT)
      ensures Degraded() && OuterStop(refuses, 0) == OuterStop(refuses, |taken|)
    {
      for i := 0 to REPORT
        invariant taken == OUTER[..i] && Degraded() && OuterStop(refuses, 0) == OuterStop(refuses, i)
      {
        OneMoreOuterStep(i);
        prepared := Attempt(OUTER[i]);
        if !prepared {
          return;
        }
      }
      prepared := true;
    }

    /** Everything up to the spawn, in one region, so that whatever refuses in it is reported by
        one site and stage 2 does not exist yet. */
    method StartInnerStage() returns (started: bool)
      requires taken == [] && degraded == [] && written == []
      modifies this
      ensures var stopped := OuterStop(refuses, 0);
              && taken == OUTER[..stopped]
              && (started <==> stopped == |OUTER|)
              && written == if audit && stopped > REPORT then Degradations(degrades, REPORT) else []
    {
      started := PrepareSupervisor();
      if !started {
        return;
      }
      if audit {
        written := written + degraded;
      }
      OneMoreOuterStep(REPORT);
      OneMoreOuterStep(SPAWN);
      taken := taken + [ReportDegraded];
      started := Attempt(SpawnInner);
    }

    /** The whole of stage 1. `waited` is what waiting for stage 2 answers; by then the channel is
        no longer this stage's to write on. */
    method ExecSandboxed(exeFound: bool, waited: Option<Fate>) returns (outcome: Outcome)
      requires taken == [] && degraded == [] && written == []
      modifies this
      ensures !exeFound ==> taken == [] && written == [] && outcome == NoImage
      ensures exeFound ==>
                var stopped := OuterStop(refuses, 0);
                && taken == OUTER[..stopped]
                && written == OuterWritten(refuses, degrades, audit)
                && outcome == if stopped < |OUTER| then RefusedToStart
                              else if waited.None? then WaitFailed
                              else Relayed(Raised(waited.value), ExitCode(waited.value))
    {
      if !exeFound { return NoImage; }
      var started := StartInnerStage();
      if !started {
        if audit {
          written := written + [RefusalRecord];
        }
        return RefusedToStart;
      }
      if waited.None? { return WaitFailed; }
      outcome := Relay(waited.value);
    }

    /** Exits the way the inner stage did: a signal is raised again, and the numbered form is what
        is left when raising it returns. */
    method Relay(status: Fate) returns (outcome: Outcome)
      ensures outcome == Relayed(Raised(status), ExitCode(status))
    {
      var raised := None;
      if status.Signal? && 1 <= status.number <= LAST_SIGNAL {
        raised := Some(status.number);
      }
      outcome := Relayed(raised, ExitCode(status));
    }
  }

  // ----- The init, once the command runs -----

  datatype WaitStatus =
    | Exited(pid: nat, code: nat)
    | Signaled(pid: nat, signal: nat)
    | OtherStatus(pid: nat)
    | Interrupted
    | NoChildLeft

  predicate EndsReaping(status: WaitStatus, command: nat) {
    || status.NoChildLeft?
    || ((status.Exited? || status.Signaled?) && status.pid == command)
  }

  /** How a process ended, as its parent can tell. */
  datatype Fate = Code(code: nat) | Signal(number: nat) | Neither

  function FateOf(status: WaitStatus): Fate {
    match status
    case Exited(_, code) => Code(code % 256)
    case Signaled(_, signal) => Signal(signal)
    case _ => Code(1)
  }

  /** A shell's translation of a fate: the code, or 128 and the signal, or a plain failure. */
  function ExitCode(fate: Fate): nat {
    match fate
    case Code(code) => code
    case Signal(number) => 128 + number
    case Neither => 1
  }

  /** Reaps whatever comes until the command does, then exits as it did: orphans and interrupts
      never decide the code, and the first answer that ends the wait always does. */
  method ReapUntil(command: nat, waits: seq<WaitStatus>) returns (code: nat, reaped: nat)
    requires exists i :: 0 <= i < |waits| && EndsReaping(waits[i], command)
    ensures reaped < |waits| && EndsReaping(waits[reaped], command) && code == ExitCode(FateOf(waits[reaped]))
    ensures forall i | 0 <= i < reaped :: !EndsReaping(waits[i], command)
  {
    reaped := 0;
    while !EndsReaping(waits[reaped], command)
      invariant reaped < |waits|
      invariant forall i | 0 <= i < reaped :: !EndsReaping(waits[i], command)
      decreases |waits| - reaped
    {
      reaped := reaped + 1;
    }
    code := ExitCode(FateOf(waits[reaped]));
  }

  const LAST_LINUX_SIGNAL := 64

  /** The command's own end comes out of both stages unchanged. What stage 2 exits with is a code that
      fits one, stage 1 raises nothing for it and exits with that same code, and it says success
      exactly when the command did. */
  lemma TheCommandsCodeComesOut(status: WaitStatus, command: nat)
    requires EndsReaping(status, command) && (status.Signaled? ==> status.signal <= LAST_LINUX_SIGNAL)
    ensures var code := ExitCode(FateOf(status));
            && code < 256
            && Raised(Code(code)) == None && ExitCode(Code(code)) == code
            && (code == 0 <==> status.Exited? && status.code % 256 == 0)
            && (status.Exited? ==> code == status.code % 256)
            && (status.Signaled? ==> 128 <= code && code - 128 == status.signal)
  {
  }

  /** The three writes of the identity map, stopping at the first refused. */
  method MapIdentity(refuses: string -> bool) returns (written: seq<string>, degraded: Option<string>)
    ensures degraded.None? <==> forall path | path in IDENTITY_MAPS :: !refuses(path)
    ensures degraded.Some? ==>
              && degraded.value in IDENTITY_MAPS && refuses(degraded.value)
              && written + [degraded.value] <= IDENTITY_MAPS
    ensures degraded.None? ==> written == IDENTITY_MAPS
    ensures forall path | path in written :: !refuses(path)
  {
    written, degraded := [], None;
    for i := 0 to |IDENTITY_MAPS|
      invariant degraded.None? && written == IDENTITY_MAPS[..i]
      invariant forall path | path in written :: !refuses(path)
    {
      if refuses(IDENTITY_MAPS[i]) {
        degraded := Some(IDENTITY_MAPS[i]);
        assert IDENTITY_MAPS[..i] + [IDENTITY_MAPS[i]] == IDENTITY_MAPS[..i + 1];
        return;
      }
      written := written + [IDENTITY_MAPS[i]];
    }
  }

  const IDENTITY_MAPS := ["/proc/self/setgroups", "/proc/self/gid_map", "/proc/self/uid_map"]

  // ----- Reading the parent -----

  /** What follows the last `mark`. */
  function AfterLast(text: string, mark: char): Option<string>
    decreases |text|
  {
    if mark !in text then None
    else
      var later := AfterLast(text[1..], mark);
      if text[0] == mark && later.None? then Some(text[1..]) else later
  }

  function WordLength(text: string): (n: nat)
    ensures n <= |text|
  {
    if text == "" || IsWhitespace(text[0]) then 0 else 1 + WordLength(text[1..])
  }

  function Words(text: string): seq<string>
    decreases |text|
  {
    if text == "" then []
    else if IsWhitespace(text[0]) then Words(text[1..])
    else [text[..WordLength(text)]] + Words(text[WordLength(text)..])
  }

  /** The fourth field of a `/proc/pid/stat` line, counted from the last `)`. */
  function PpidFromStat(stat: string): Option<string> {
    var rest := AfterLast(stat, ')');
    if rest.None? then None
    else
      var words := Words(rest.value);
      if |words| > 1 then Some(words[1]) else None
  }

  predicate Word(text: string) {
    text != "" && forall c | c in text :: !IsWhitespace(c) && c != ')'
  }

  lemma {:induction false} AfterLastSkips(before: string, mark: char, after: string)
    requires mark !in after
    ensures AfterLast(before + [mark] + after, mark) == Some(after)
    decreases |before|
  {
    var text := before + [mark] + after;
    assert text[|before|] == mark;
    if before == "" {
      assert text[1..] == after;
    } else {
      assert text[1..] == before[1..] + [mark] + after;
      AfterLastSkips(before[1..], mark, after);
    }
  }

  lemma {:induction false} WordEnds(word: string, rest: string)
    requires forall c | c in word :: !IsWhitespace(c)
    requires rest == "" || IsWhitespace(rest[0])
    ensures WordLength(word + rest) == |word|
  {
    if word == "" {
      assert word + rest == rest;
    } else {
      assert (word + rest)[1..] == word[1..] + rest;
      WordEnds(word[1..], rest);
    }
  }

  lemma WordsBegin(word: string, rest: string)
    requires Word(word) && (rest == "" || IsWhitespace(rest[0]))
    ensures Words(" " + word + rest) == [word] + Words(rest)
  {
    var text := " " + word + rest;
    assert text[1..] == word + rest;
    WordEnds(word, rest);
    assert (word + rest)[0] == word[0] && word[0] in word;
    assert (word + rest)[..|word|] == word && (word + rest)[|word|..] == rest;
  }

  /** The executable's name sits unquoted in front, and may hold anything: spaces, parentheses, a
      whole forged tail. The parent is read right all the same. */
  lemma NoNameMisleadsTheParentCheck(pid: string, name: string, state: string, ppid: string, tail: string)
    requires Word(state) && Word(ppid)
    requires ')' !in tail && (tail == "" || IsWhitespace(tail[0]))
    ensures PpidFromStat(pid + " (" + name + ") " + state + " " + ppid + tail) == Some(ppid)
  {
    var stat := pid + " (" + name + ") " + state + " " + ppid + tail;
    var after := " " + state + (" " + ppid + tail);
    assert stat == (pid + " (" + name) + [')'] + after;
    AfterLastSkips(pid + " (" + name, ')', after);
    WordsBegin(state, " " + ppid + tail);
    WordsBegin(ppid, tail);
  }

  // ----- The stages are runs of the protocol -----

  /** Where an init just born stands after the first `pc` steps of the source's order went well. */
  function Along(config: Config, born: State, pc: nat): State
    requires pc <= |INNER|
  {
    var done := pc == |INNER|;
    born.(init := if done then Reaping else Running(pc), trail := INNER[..pc], armed := pc > 2,
          seen := if pc > 3 then Some(config.supervisor) else None,
          procs := if done then map[1 := Proc(0, true, false)] else map[],
          command := if done then Some(1) else None)
  }

  lemma TheOrder(pc: nat)
    requires pc < |INNER|
    ensures INNER[..pc] + [INNER[pc]] == INNER[..pc + 1]
    ensures (INNER[pc] == ArmDeathSignal <==> pc == 2) && (INNER[pc] == ReadParent <==> pc == 3)
    ensures (INNER[pc] == CompareParent <==> pc == 4) && (INNER[pc] == SpawnCommand <==> pc == |INNER| - 1)
    ensures ClaimChannel in INNER[..pc] <==> pc > 0
  {
    if pc > 0 { assert INNER[..pc][0] == ClaimChannel; }
  }

  lemma OneEventMore(config: Config, s: State, events: seq<Event>, event: Event)
    ensures Run(config, s, events + [event]) == Take(config, Run(config, s, events), event)
  {
    RunsJoin(config, s, events, [event]);
  }

  lemma LastStepAlong(config: Config, born: State)
    requires config.plan == INNER && born.zombies == {}
    ensures Take(config, Along(config, born, |INNER| - 1), InnerStepDone(1)) == Along(config, born, |INNER|)
  {
    TheOrder(|INNER| - 1);
    assert map[][1 := Proc(0, true, false)] == map[1 := Proc(0, true, false)];
  }

  lemma OneStepAlong(config: Config, born: State, pc: nat)
    requires config.plan == INNER && pc < |INNER| && born.parent == config.supervisor && born.zombies == {}
    ensures Take(config, Along(config, born, pc), InnerStepDone(1)) == Along(config, born, pc + 1)
  {
    if pc + 1 == |INNER| { LastStepAlong(config, born); } else { TheOrder(pc); }
  }

  lemma {:induction false} StepsAlong(config: Config, born: State, n: nat)
    requires config.plan == INNER && n <= |INNER| && born == Along(config, born, 0)
    requires born.parent == config.supervisor && born.zombies == {}
    ensures Run(config, born, Repeat(InnerStepDone(1), n)) == Along(config, born, n)
  {
    if n > 0 {
      StepsAlong(config, born, n - 1);
      assert Repeat(InnerStepDone(1), n) == Repeat(InnerStepDone(1), n - 1) + [InnerStepDone(1)];
      OneEventMore(config, born, Repeat(InnerStepDone(1), n - 1), InnerStepDone(1));
      OneStepAlong(config, born, n - 1);
    }
  }

  lemma FailsAlong(config: Config, born: State, pc: nat)
    requires config.plan == INNER && pc < |INNER|
    ensures var t := Take(config, Along(config, born, pc), InnerStepFails);
            && t.trail == INNER[..pc] && t.command.None?
            && t.channel == born.channel + if config.audit && pc > 0 then [RefusalRecord] else []
  {
    TheOrder(pc);
  }

  lemma JustBorn(config: Config, s: State)
    requires Inv(config, s) && s.init == Running(0) && s.supervisorAlive && config.plan == INNER
    ensures s == Along(config, s, 0) && s.parent == config.supervisor && s.zombies == {}
  {
  }

  /** Left to itself, a stage 2 whose supervisor lives takes the protocol from its birth to the
      same steps, the same channel and the same end. */
  lemma InnerStageIsARun(config: Config, s: State, refuses: InnerStep -> bool) returns (events: seq<Event>)
    requires config.plan == INNER && Inv(config, s) && s.init == Running(0) && s.supervisorAlive
    ensures var t, stopped := Run(config, s, events), Stop(refuses, config.audit, 0, |INNER|);
            && t.trail == INNER[..stopped]
            && (t.command.Some? <==> stopped == |INNER|)
            && t.channel == s.channel + InnerWritten(refuses, config.audit)
  {
    var stopped := Stop(refuses, config.audit, 0, |INNER|);
    events := Repeat(InnerStepDone(1), stopped);
    JustBorn(config, s);
    StepsAlong(config, s, stopped);
    if stopped < |INNER| {
      RunsJoin(config, s, events, [InnerStepFails]);
      FailsAlong(config, s, stopped);
      events := events + [InnerStepFails];
    }
  }

  // ----- Stage 1, and the two together -----

  /** Where the supervisor stands after its first `n` steps went well. */
  function Prepared(config: Config, degrades: OuterStep -> bool, n: nat): State
    requires n <= |OUTER|
  {
    Start(config).(outer := n, degraded := Degradations(degrades, n),
                   init := if n == |OUTER| then Running(0) else Unborn,
                   channel := if config.audit && n > REPORT then Degradations(degrades, REPORT) else [])
  }

  lemma TheOuterOrder(n: nat)
    requires n < |OUTER|
    ensures (OUTER[n] == ReportDegraded <==> n == REPORT) && (OUTER[n] == SpawnInner <==> n == SPAWN)
    ensures OUTER[n] == ResolveNames <==> n == RESOLVE
  {
  }

  lemma OnePreparedMore(config: Config, degrades: OuterStep -> bool, n: nat)
    requires n < |OUTER|
    ensures Take(config, Prepared(config, degrades, n), OuterStepDone(degrades(OUTER[n]))) == Prepared(config, degrades, n + 1)
  {
    TheOuterOrder(n);
  }

  function OuterEvents(degrades: OuterStep -> bool, n: nat): seq<Event>
    requires n <= |OUTER|
  {
    if n == 0 then [] else OuterEvents(degrades, n - 1) + [OuterStepDone(degrades(OUTER[n - 1]))]
  }

  lemma NothingPrepared(config: Config, degrades: OuterStep -> bool)
    ensures Prepared(config, degrades, 0) == Start(config)
  {
  }

  lemma {:induction false} StepsPrepare(config: Config, degrades: OuterStep -> bool, n: nat)
    requires n <= |OUTER|
    ensures Run(config, Start(config), OuterEvents(degrades, n)) == Prepared(config, degrades, n)
  {
    if n == 0 {
      NothingPrepared(config, degrades);
    } else {
      var event := OuterStepDone(degrades(OUTER[n - 1]));
      StepsPrepare(config, degrades, n - 1);
      OnePreparedMore(config, degrades, n - 1);
      OneEventMore(config, Start(config), OuterEvents(degrades, n - 1), event);
    }
  }

  lemma FailsPreparing(config: Config, degrades: OuterStep -> bool, n: nat)
    requires n < |OUTER| && n != RESOLVE && n != REPORT
    ensures var s := Prepared(config, degrades, n);
            var t := Take(config, s, OuterStepFails);
            && t.outer == n && !t.supervisorAlive && t.init.Unborn?
            && t.channel == s.channel + if config.audit then [RefusalRecord] else []
  {
  }

  /** Stage 1 left to itself is a run of the protocol from its start: the same steps, the same
      channel, and an init born exactly when it came to the end of them. */
  lemma OuterStageIsARun(config: Config, refuses: OuterStep -> bool, degrades: OuterStep -> bool)
    returns (events: seq<Event>)
    ensures var t, stopped := Run(config, Start(config), events), OuterStop(refuses, 0);
            && t.outer == stopped
            && t.channel == OuterWritten(refuses, degrades, config.audit)
            && (t.supervisorAlive <==> stopped == |OUTER|)
            && t.init == if stopped == |OUTER| then Running(0) else Unborn
  {
    var stopped := OuterStop(refuses, 0);
    events := OuterEvents(degrades, stopped);
    StepsPrepare(config, degrades, stopped);
    if stopped < |OUTER| {
      TheOuterOrder(stopped);
      RunsJoin(config, Start(config), events, [OuterStepFails]);
      FailsPreparing(config, degrades, stopped);
      events := events + [OuterStepFails];
    }
  }

  /** The whole helper left to itself is a run of the protocol: what its two stages write, one
      after the other, is that run's channel, and the command starts in both or in neither. */
  lemma TheHelperIsARun(config: Config, outer: OuterStep -> bool, degrades: OuterStep -> bool, inner: InnerStep -> bool)
    returns (events: seq<Event>)
    requires config.plan == INNER && config.supervisor != config.reaper
    ensures var t, prepared := Run(config, Start(config), events), OuterStop(outer, 0) == |OUTER|;
            && t.channel == OuterWritten(outer, degrades, config.audit)
                            + (if prepared then InnerWritten(inner, config.audit) else [])
            && (t.command.Some? <==> prepared && Stop(inner, config.audit, 0, |INNER|) == |INNER|)
  {
    TheSourceArmsFirst();
    StartKeepsInv(config);
    events := OuterStageIsARun(config, outer, degrades);
    RunKeepsInv(config, Start(config), events);
    if OuterStop(outer, 0) == |OUTER| {
      var more := InnerStageIsARun(config, Run(config, Start(config), events), inner);
      RunsJoin(config, Start(config), events, more);
      events := events + more;
    }
  }

  /** So what the two stages write obeys the protocol: degradations, then at most one refusal, and
      none where the command started. */
  lemma TheHelperWritesOneStory(outer: OuterStep -> bool, degrades: OuterStep -> bool, inner: InnerStep -> bool, audit: bool)
    ensures var prepared := OuterStop(outer, 0) == |OUTER|;
            var written := OuterWritten(outer, degrades, audit) + (if prepared then InnerWritten(inner, audit) else []);
            && (forall i | 0 <= i < |written| - 1 :: written[i].DegradedRecord?)
            && (prepared && Stop(inner, audit, 0, |INNER|) == |INNER| ==> RefusalRecord !in written)
  {
    var config := Config(audit, 2, 1, INNER);
    var events := TheHelperIsARun(config, outer, degrades, inner);
    TheSourceArmsFirst();
    ChannelTellsOneStory(config, events);
  }
}
