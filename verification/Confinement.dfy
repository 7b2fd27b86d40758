/** The two-stage confinement protocol as a transition system (`helper_exec.rs`,
    `helper_hardening.rs`): a supervisor, the init it starts in a fresh PID namespace, and
    whatever the command below that init does. Anything may fail or die at any step; a run is
    any sequence of events, one that is not possible where it stands changing nothing.

    Three kernel rules are assumed. An armed death signal dooms the init when its supervisor
    dies, the init's end dooms every process of the namespace, and orphans go to the init. A
    doomed process is killed at some later moment, and may run until then. */
module Confinement {
  import opened Wrappers

  // ----- The two stages -----

  /** What the supervisor does before it waits, in order. */
  datatype OuterStep =
    | DecodeRequest | ResolveNames | IsolateNamespaces | BoundResolution | DropCapabilities | LimitCore | OuterNoNewPrivs
    | ReportDegraded | SpawnInner

  const OUTER: seq<OuterStep> := [DecodeRequest, ResolveNames, IsolateNamespaces, BoundResolution, DropCapabilities,
                                  LimitCore, OuterNoNewPrivs, ReportDegraded, SpawnInner]
  const RESOLVE := 1
  const REPORT := 7
  const SPAWN := 8

  /** What the init does before it reaps. Reading the parent and comparing what was read are two
      moments. */
  datatype InnerStep =
    | ClaimChannel | DecodePolicy | ArmDeathSignal | ReadParent | CompareParent | CheckEnvironment
    | SetNoNewPrivs | InstallDenylist | InstallClone3 | InstallX32Gate | EnforceRuleset | OpenPinnedImage
    | MakeNonDumpable | SpawnCommand

  /** The order the source takes them in. */
  const INNER: seq<InnerStep> := [ClaimChannel, DecodePolicy, ArmDeathSignal, ReadParent, CompareParent, CheckEnvironment,
                                  SetNoNewPrivs, InstallDenylist, InstallClone3, InstallX32Gate, EnforceRuleset,
                                  OpenPinnedImage, MakeNonDumpable, SpawnCommand]

  // ----- The state -----

  datatype Record = DegradedRecord | RefusalRecord

  datatype InitState = Unborn | Running(pc: nat) | Reaping | Gone

  /** A namespace process other than the init; parent 0 is the init itself. */
  datatype Proc = Proc(parent: nat, inGroup: bool, doomed: bool)

  /** `plan` is the order of the inner steps, so that the order itself can be questioned. */
  datatype Config = Config(audit: bool, supervisor: nat, reaper: nat, plan: seq<InnerStep>)

  datatype State = State(
    supervisorAlive: bool,
    outer: nat,
    degraded: seq<Record>,
    init: InitState,
    trail: seq<InnerStep>,
    parent: nat,
    armed: bool,
    seen: Option<nat>,
    doomed: bool,
    procs: map<nat, Proc>,
    zombies: set<nat>,
    command: Option<nat>,
    channel: seq<Record>)

  function Start(config: Config): State {
    State(true, 0, [], Unborn, [], config.supervisor, false, None, false, map[], {}, None, [])
  }

  predicate InitAlive(s: State) {
    s.init.Running? || s.init.Reaping?
  }

  // ----- What the kernel does -----

  /** The init's parent link moves to a reaper, and an armed signal fires. */
  function SupervisorDies(config: Config, s: State): State {
    s.(supervisorAlive := false, parent := config.reaper, doomed := s.doomed || (InitAlive(s) && s.armed))
  }

  function InitDies(s: State): State {
    s.(init := Gone, doomed := false, procs := map p | p in s.procs :: s.procs[p].(doomed := true))
  }

  /** Its children go to the init, as does the zombie it leaves if it was the init's own child. */
  function ProcDies(s: State, p: nat): State
    requires p in s.procs
  {
    var rest := map q | q in s.procs && q != p ::
      if s.procs[q].parent == p then s.procs[q].(parent := 0) else s.procs[q];
    s.(procs := rest, zombies := if s.procs[p].parent == 0 then s.zombies + {p} else s.zombies)
  }

  // ----- What can happen -----

  datatype Event =
    | OuterStepDone(degrades: bool)
    | OuterStepFails
    | InnerStepDone(pid: nat)
    | InnerStepFails
    | Fork(p: nat, child: nat)
    | Detach(p: nat)
    | ProcExits(p: nat)
    | InitReaps(p: nat)
    | NothingToReap
    | InitKilled
    | SupervisorKilled
    | GroupKilled
    | InitKillDelivered
    | KillDelivered(p: nat)
    | WaitReturns
    | WaitFails

  function Report(config: Config, s: State, records: seq<Record>): State {
    if config.audit then s.(channel := s.channel + records) else s
  }

  /** Refusals cross the channel only once it has been claimed. */
  function Refuse(config: Config, s: State, pc: nat): State
    requires pc < |config.plan|
  {
    InitDies(if ClaimChannel in config.plan[..pc] then Report(config, s, [RefusalRecord]) else s)
  }

  /** A child the init could be waiting for. */
  predicate HasChild(s: State) {
    s.zombies != {} || exists p | p in s.procs :: s.procs[p].parent == 0
  }

  function OuterStepTaken(config: Config, s: State, degrades: bool): State
    requires s.outer < |OUTER|
  {
    var step := OUTER[s.outer];
    var next := s.(outer := s.outer + 1);
    if step == ReportDegraded then Report(config, next, s.degraded)
    else if step == SpawnInner then next.(init := Running(0))
    else if degrades && (step == ResolveNames || step == IsolateNamespaces || step == DropCapabilities)
    then next.(degraded := s.degraded + [DegradedRecord])
    else next
  }

  /** A step that does what it is for; comparing the parent can only do so one way. */
  function InnerStepTaken(config: Config, s: State, pc: nat, pid: nat): State
    requires pc < |config.plan|
  {
    var next := s.(init := Running(pc + 1), trail := s.trail + [config.plan[pc]]);
    match config.plan[pc]
    case ArmDeathSignal => next.(armed := true)
    case ReadParent => next.(seen := Some(s.parent))
    case CompareParent => if s.seen == Some(config.supervisor) then next else Refuse(config, s, pc)
    case SpawnCommand =>
      if pid == 0 || pid in s.procs || pid in s.zombies then s
      else next.(init := Reaping, procs := s.procs[pid := Proc(0, true, false)], command := Some(pid))
    case _ => next
  }

  function Take(config: Config, s: State, event: Event): State {
    match event
    case OuterStepDone(degrades) =>
      if s.supervisorAlive && s.outer < |OUTER| then OuterStepTaken(config, s, degrades) else s
    case OuterStepFails =>
      if s.supervisorAlive && s.outer < |OUTER| && s.outer != RESOLVE && s.outer != REPORT
      then SupervisorDies(config, Report(config, s, [RefusalRecord])) else s
    case InnerStepDone(pid) =>
      if s.init.Running? && s.init.pc < |config.plan| then InnerStepTaken(config, s, s.init.pc, pid) else s
    case InnerStepFails =>
      if s.init.Running? && s.init.pc < |config.plan| then Refuse(config, s, s.init.pc) else s
    case Fork(p, child) =>
      if InitAlive(s) && p in s.procs && !s.procs[p].doomed && child != 0 && child !in s.procs && child !in s.zombies
      then s.(procs := s.procs[child := Proc(p, s.procs[p].inGroup, false)]) else s
    case Detach(p) =>
      if p in s.procs then s.(procs := s.procs[p := s.procs[p].(inGroup := false)]) else s
    case ProcExits(p) => if p in s.procs then ProcDies(s, p) else s
    case InitReaps(p) =>
      if s.init.Reaping? && p in s.zombies then
        var reaped := s.(zombies := s.zombies - {p});
        if s.command == Some(p) then InitDies(reaped) else reaped
      else s
    case NothingToReap => if s.init.Reaping? && !HasChild(s) then InitDies(s) else s
    case InitKilled => if InitAlive(s) then s.(doomed := true) else s
    case SupervisorKilled => if s.supervisorAlive then SupervisorDies(config, s) else s
    case GroupKilled =>
      var killed := if s.supervisorAlive then SupervisorDies(config, s) else s;
      killed.(doomed := killed.doomed || InitAlive(s),
              procs := map p | p in s.procs :: s.procs[p].(doomed := s.procs[p].doomed || s.procs[p].inGroup))
    case InitKillDelivered => if InitAlive(s) && s.doomed then InitDies(s) else s
    case KillDelivered(p) => if p in s.procs && s.procs[p].doomed then ProcDies(s, p) else s
    case WaitReturns => if s.supervisorAlive && s.outer == |OUTER| && s.init.Gone? then SupervisorDies(config, s) else s
    case WaitFails => if s.supervisorAlive && s.outer == |OUTER| then SupervisorDies(config, s) else s
  }

  /** Where a run stands after `events`. */
  function Run(config: Config, s: State, events: seq<Event>): State
    decreases |events|
  {
    if events == [] then s else Run(config, Take(config, s, events[0]), events[1..])
  }

  // ----- Plans -----

  predicate Before(plan: seq<InnerStep>, a: InnerStep, b: InnerStep) {
    exists i, j :: 0 <= i < j < |plan| && plan[i] == a && plan[j] == b
  }

  /** Every inner step exactly once, the channel claimed first, the parent read before it is
      compared, the command last. Where the signal is armed is left open. */
  predicate Plausible(plan: seq<InnerStep>) {
    && (forall i, j | 0 <= i < j < |plan| :: plan[i] != plan[j])
    && (forall step | step in INNER :: step in plan)
    && Before(plan, ReadParent, CompareParent)
    && |plan| > 0 && plan[0] == ClaimChannel && plan[|plan| - 1] == SpawnCommand
  }

  predicate Sane(config: Config) {
    config.supervisor != config.reaper && Plausible(config.plan)
  }

  // ----- What every run keeps -----

  /** How far the init has come. */
  function Progress(config: Config, s: State): nat {
    match s.init
    case Unborn => 0
    case Running(pc) => if pc <= |config.plan| then pc else |config.plan|
    case Reaping => |config.plan|
    case Gone => 0
  }

  predicate NoRefusal(records: seq<Record>) {
    RefusalRecord !in records
  }

  /** Degradations first, then at most one refusal. */
  predicate Orderly(records: seq<Record>) {
    forall i | 0 <= i < |records| - 1 :: records[i].DegradedRecord?
  }

  predicate ChannelInv(config: Config, s: State) {
    && Orderly(s.channel)
    && NoRefusal(s.degraded)
    && (InitAlive(s) || (s.init.Unborn? && s.supervisorAlive) || s.command.Some? ==> NoRefusal(s.channel))
    && (s.init.Unborn? && s.supervisorAlive && s.outer <= REPORT ==> s.channel == [])
  }

  predicate InitInv(config: Config, s: State) {
    && s.outer <= |OUTER|
    && (s.init.Unborn? <==> s.outer <= SPAWN)
    && (s.init.Running? ==> s.init.pc < |config.plan|)
    && s.parent == (if s.supervisorAlive then config.supervisor else config.reaper)
    && (InitAlive(s) ==>
          var passed := config.plan[..Progress(config, s)];
          && (s.armed <==> ArmDeathSignal in passed)
          && (s.seen.Some? <==> ReadParent in passed)
          && (CompareParent in passed ==> s.seen == Some(config.supervisor)))
    && (s.init.Unborn? ==> !s.armed && s.seen.None?)
  }

  predicate CommandInv(config: Config, s: State) {
    && (s.init.Unborn? || s.init.Running? ==> s.procs == map[] && s.zombies == {} && s.command.None?)
    && (s.init.Reaping? ==> s.command.Some?)
    && (s.doomed ==> InitAlive(s))
    && (s.init.Gone? ==> forall p | p in s.procs :: s.procs[p].doomed)
    && (s.procs != map[] ==> s.command.Some?)
    && (InitAlive(s) ==> s.trail == config.plan[..Progress(config, s)])
    && (s.command.Some? ==> s.trail == config.plan)
    && (s.init.Unborn? ==> s.trail == [])
  }

  /** An armed init that is not doomed either has a live supervisor or never read one. */
  predicate LifetimeInv(config: Config, s: State) {
    InitAlive(s) && !s.supervisorAlive && !s.doomed ==> s.seen != Some(config.supervisor)
  }

  predicate Inv(config: Config, s: State) {
    InitInv(config, s) && CommandInv(config, s) && ChannelInv(config, s)
  }

  lemma PassedOneMore(plan: seq<InnerStep>, pc: nat)
    requires pc < |plan|
    ensures forall step :: step in plan[..pc + 1] <==> step in plan[..pc] || step == plan[pc]
  {
    assert plan[..pc + 1] == plan[..pc] + [plan[pc]];
  }

  lemma NotPassedTwice(plan: seq<InnerStep>, pc: nat)
    requires Plausible(plan) && pc < |plan|
    ensures plan[pc] !in plan[..pc]
    ensures plan[pc] == CompareParent ==> ReadParent in plan[..pc]
    ensures plan[pc] == SpawnCommand <==> pc == |plan| - 1
  {
    if plan[pc] == CompareParent {
      var i, j :| 0 <= i < j < |plan| && plan[i] == ReadParent && plan[j] == CompareParent;
      assert plan[..pc][i] == ReadParent;
    }
  }

  lemma RefusingKeepsInv(config: Config, s: State, pc: nat)
    requires Inv(config, s) && s.init == Running(pc)
    ensures Inv(config, Refuse(config, s, pc))
  {
  }

  function Spawned(config: Config, s: State, pid: nat): State {
    s.(init := Reaping, trail := s.trail + [SpawnCommand], procs := s.procs[pid := Proc(0, true, false)], command := Some(pid))
  }

  lemma SpawnedInit(config: Config, s: State, pid: nat)
    requires |config.plan| > 0 && config.plan[|config.plan| - 1] == SpawnCommand
    requires Inv(config, s) && s.init == Running(|config.plan| - 1)
    ensures InitInv(config, Spawned(config, s, pid)) && Spawned(config, s, pid).trail == config.plan
  {
    var last := |config.plan| - 1;
    PassedOneMore(config.plan, last);
    assert config.plan[..last] + [config.plan[last]] == config.plan == config.plan[..|config.plan|];
  }

  lemma SpawnKeepsInv(config: Config, s: State, pc: nat, pid: nat)
    requires Sane(config) && Inv(config, s) && s.init == Running(pc) && config.plan[pc] == SpawnCommand
    ensures Inv(config, InnerStepTaken(config, s, pc, pid))
  {
    NotPassedTwice(config.plan, pc);
    if pid != 0 {
      assert InnerStepTaken(config, s, pc, pid) == Spawned(config, s, pid);
      SpawnedInit(config, s, pid);
      SpawnedCommand(config, s, pid);
    }
  }

  lemma SpawnedCommand(config: Config, s: State, pid: nat)
    requires Inv(config, s) && s.init.Running? && Spawned(config, s, pid).trail == config.plan
    ensures CommandInv(config, Spawned(config, s, pid)) && ChannelInv(config, Spawned(config, s, pid))
  {
    assert config.plan == config.plan[..|config.plan|];
  }

  lemma OrdinaryStepKeepsInv(config: Config, s: State, pc: nat, armed: bool, seen: Option<nat>)
    requires Sane(config) && Inv(config, s) && s.init == Running(pc) && pc + 1 < |config.plan|
    requires armed == (s.armed || config.plan[pc] == ArmDeathSignal)
    requires seen == if config.plan[pc] == ReadParent then Some(s.parent) else s.seen
    requires config.plan[pc] == CompareParent ==> s.seen == Some(config.supervisor)
    ensures Inv(config, s.(init := Running(pc + 1), trail := s.trail + [config.plan[pc]], armed := armed, seen := seen))
  {
    PassedOneMore(config.plan, pc);
    NotPassedTwice(config.plan, pc);
    assert config.plan[..pc + 1] == config.plan[..pc] + [config.plan[pc]];
    if CompareParent in config.plan[..pc] { ComparedAfterRead(config.plan, pc); }
  }

  lemma ComparedAfterRead(plan: seq<InnerStep>, pc: nat)
    requires Plausible(plan) && pc < |plan| && CompareParent in plan[..pc]
    ensures ReadParent in plan[..pc] && plan[pc] != ReadParent
  {
    var i, j :| 0 <= i < j < |plan| && plan[i] == ReadParent && plan[j] == CompareParent;
    var k :| 0 <= k < pc && plan[..pc][k] == CompareParent;
    assert plan[k] == CompareParent && k == j;
    assert plan[..pc][i] == ReadParent;
  }

  lemma InnerStepKeepsInv(config: Config, s: State, pc: nat, pid: nat)
    requires Sane(config) && Inv(config, s) && s.init == Running(pc)
    ensures Inv(config, InnerStepTaken(config, s, pc, pid))
  {
    var step := config.plan[pc];
    if step == SpawnCommand {
      SpawnKeepsInv(config, s, pc, pid);
    } else if step == CompareParent && s.seen != Some(config.supervisor) {
      RefusingKeepsInv(config, s, pc);
    } else {
      SpawnIsLast(config.plan, pc);
      OrdinaryStepIs(config, s, pc, pid);
      OrdinaryStepKeepsInv(config, s, pc, s.armed || step == ArmDeathSignal, if step == ReadParent then Some(s.parent) else s.seen);
    }
  }

  lemma SpawnIsLast(plan: seq<InnerStep>, pc: nat)
    requires Plausible(plan) && pc < |plan| && plan[pc] != SpawnCommand
    ensures pc + 1 < |plan|
  {
  }

  lemma OrdinaryStepIs(config: Config, s: State, pc: nat, pid: nat)
    requires pc < |config.plan| && config.plan[pc] != SpawnCommand
    requires config.plan[pc] == CompareParent ==> s.seen == Some(config.supervisor)
    ensures InnerStepTaken(config, s, pc, pid) ==
            s.(init := Running(pc + 1), trail := s.trail + [config.plan[pc]],
               armed := s.armed || config.plan[pc] == ArmDeathSignal,
               seen := if config.plan[pc] == ReadParent then Some(s.parent) else s.seen)
  {
  }

  lemma OuterStepKeepsInv(config: Config, s: State, degrades: bool)
    requires |config.plan| > 0 && Inv(config, s) && s.supervisorAlive && s.outer < |OUTER|
    ensures Inv(config, OuterStepTaken(config, s, degrades))
  {
  }

  predicate OfTheCommand(event: Event) {
    event.Fork? || event.Detach? || event.ProcExits?
  }

  lemma CommandStepKeepsInv(config: Config, s: State, event: Event)
    requires Inv(config, s) && OfTheCommand(event)
    ensures Inv(config, Take(config, s, event))
  {
    if event.ProcExits? && event.p in s.procs { ProcsDeathKeepsInv(config, s, event.p); }
  }

  predicate ClearsTheNamespace(event: Event) {
    event.InitReaps? || event.NothingToReap? || event.KillDelivered?
  }

  lemma ProcsDeathKeepsInv(config: Config, s: State, p: nat)
    requires Inv(config, s) && p in s.procs
    ensures Inv(config, ProcDies(s, p))
  {
  }

  lemma ClearingKeepsInv(config: Config, s: State, event: Event)
    requires Inv(config, s) && ClearsTheNamespace(event)
    ensures Inv(config, Take(config, s, event))
  {
    match event
    case InitReaps(p) =>
      if s.init.Reaping? && p in s.zombies { ReapingKeepsInv(config, s, p); }
    case NothingToReap => if InitAlive(s) { InitsDeathKeepsInv(config, s); }
    case KillDelivered(p) => if p in s.procs { ProcsDeathKeepsInv(config, s, p); }
  }

  lemma ReapingKeepsInv(config: Config, s: State, p: nat)
    requires Inv(config, s) && s.init.Reaping? && p in s.zombies
    ensures Inv(config, Take(config, s, InitReaps(p)))
  {
    var reaped := s.(zombies := s.zombies - {p});
    assert Inv(config, reaped);
    InitsDeathKeepsInv(config, reaped);
  }

  lemma SupervisorsDeathKeepsInv(config: Config, s: State)
    requires Inv(config, s) && s.supervisorAlive
    ensures Inv(config, SupervisorDies(config, s))
  {
  }

  lemma InitsDeathKeepsInv(config: Config, s: State)
    requires Inv(config, s) && InitAlive(s)
    ensures Inv(config, InitDies(s))
  {
  }

  predicate Kills(event: Event) {
    !OfTheCommand(event) && !ClearsTheNamespace(event) && !event.InnerStepDone? && !event.InnerStepFails?
    && !event.OuterStepDone? && !event.OuterStepFails?
  }

  lemma KillStepKeepsInv(config: Config, s: State, event: Event)
    requires Inv(config, s) && Kills(event)
    ensures Inv(config, Take(config, s, event))
  {
    if s.supervisorAlive { SupervisorsDeathKeepsInv(config, s); }
    if InitAlive(s) { InitsDeathKeepsInv(config, s); }
  }

  lemma OuterRefusalKeepsInv(config: Config, s: State)
    requires Inv(config, s)
    ensures Inv(config, Take(config, s, OuterStepFails))
  {
  }

  lemma StepKeepsInv(config: Config, s: State, event: Event)
    requires Sane(config) && Inv(config, s)
    ensures Inv(config, Take(config, s, event))
  {
    match event
    case OuterStepDone(degrades) => if s.supervisorAlive && s.outer < |OUTER| { OuterStepKeepsInv(config, s, degrades); }
    case InnerStepDone(pid) => if s.init.Running? { InnerStepKeepsInv(config, s, s.init.pc, pid); }
    case InnerStepFails => if s.init.Running? { RefusingKeepsInv(config, s, s.init.pc); }
    case OuterStepFails => OuterRefusalKeepsInv(config, s);
    case _ =>
      if OfTheCommand(event) {
        CommandStepKeepsInv(config, s, event);
      } else if ClearsTheNamespace(event) {
        ClearingKeepsInv(config, s, event);
      } else {
        KillStepKeepsInv(config, s, event);
      }
  }

  // ----- Over every run -----

  lemma StartKeepsInv(config: Config)
    requires Sane(config)
    ensures Inv(config, Start(config)) && LifetimeInv(config, Start(config))
  {
    assert config.plan[..0] == [];
  }

  lemma {:induction false} RunKeepsInv(config: Config, s: State, events: seq<Event>)
    requires Sane(config) && Inv(config, s)
    ensures Inv(config, Run(config, s, events))
    decreases |events|
  {
    if events != [] {
      StepKeepsInv(config, s, events[0]);
      RunKeepsInv(config, Take(config, s, events[0]), events[1..]);
    }
  }

  /** A command exists only where every inner step was taken, each in its place in the plan, and
      only in a namespace the supervisor finished preparing. */
  lemma CommandMeansEveryStepWasTaken(config: Config, events: seq<Event>)
    requires Sane(config)
    ensures var s := Run(config, Start(config), events);
            s.command.Some? || s.procs != map[] ==> s.trail == config.plan && s.outer == |OUTER|
  {
    StartKeepsInv(config);
    RunKeepsInv(config, Start(config), events);
  }

  /** Whatever fails or dies, the channel holds degradations and then at most one refusal, and no
      refusal where the command started. */
  lemma ChannelTellsOneStory(config: Config, events: seq<Event>)
    requires Sane(config)
    ensures var s := Run(config, Start(config), events);
            && (forall i | 0 <= i < |s.channel| - 1 :: s.channel[i].DegradedRecord?)
            && (s.command.Some? ==> RefusalRecord !in s.channel)
  {
    StartKeepsInv(config);
    RunKeepsInv(config, Start(config), events);
  }

  /** Arming before reading is what makes the parent that was read a parent that still matters. */
  lemma StepKeepsLifetime(config: Config, s: State, event: Event)
    requires Sane(config) && Before(config.plan, ArmDeathSignal, ReadParent)
    requires Inv(config, s) && LifetimeInv(config, s)
    ensures LifetimeInv(config, Take(config, s, event))
  {
    if s.seen.Some? && InitAlive(s) { ArmedOnceRead(config.plan, Progress(config, s)); }
    ArmedStepKeepsLifetime(config, s, event);
  }

  lemma ArmedStepKeepsLifetime(config: Config, s: State, event: Event)
    requires config.supervisor != config.reaper && LifetimeInv(config, s)
    requires s.parent == (if s.supervisorAlive then config.supervisor else config.reaper)
    requires s.seen.Some? ==> !InitAlive(s) || s.armed
    requires s.init.Unborn? ==> s.seen.None?
    ensures LifetimeInv(config, Take(config, s, event))
  {
  }

  lemma ArmedOnceRead(plan: seq<InnerStep>, pc: nat)
    requires Plausible(plan) && Before(plan, ArmDeathSignal, ReadParent)
    requires pc <= |plan| && ReadParent in plan[..pc]
    ensures ArmDeathSignal in plan[..pc]
  {
    var i, j :| 0 <= i < j < |plan| && plan[i] == ArmDeathSignal && plan[j] == ReadParent;
    var k :| 0 <= k < pc && plan[..pc][k] == ReadParent;
    assert plan[k] == ReadParent && k == j;
    assert plan[..pc][i] == ArmDeathSignal;
  }

  lemma {:induction false} RunKeepsLifetime(config: Config, s: State, events: seq<Event>)
    requires Sane(config) && Before(config.plan, ArmDeathSignal, ReadParent)
    requires Inv(config, s) && LifetimeInv(config, s)
    ensures Inv(config, Run(config, s, events)) && LifetimeInv(config, Run(config, s, events))
    decreases |events|
  {
    if events != [] {
      StepKeepsInv(config, s, events[0]);
      StepKeepsLifetime(config, s, events[0]);
      RunKeepsLifetime(config, Take(config, s, events[0]), events[1..]);
    }
  }

  /** Nothing outlives the supervisor unless it is already condemned. */
  predicate Doomed(s: State) {
    !s.supervisorAlive && s.procs != map[] ==>
      (InitAlive(s) && s.doomed) || (s.init.Gone? && forall p | p in s.procs :: s.procs[p].doomed)
  }

  lemma OrphansAreDoomed(config: Config, events: seq<Event>)
    requires Sane(config) && Before(config.plan, ArmDeathSignal, ReadParent)
    ensures Doomed(Run(config, Start(config), events))
  {
    StartKeepsInv(config);
    RunKeepsLifetime(config, Start(config), events);
    var s := Run(config, Start(config), events);
    if s.init.Reaping? { assert config.plan[..|config.plan|] == config.plan; }
  }

  predicate NothingPending(s: State) {
    !s.doomed && forall p | p in s.procs :: !s.procs[p].doomed
  }

  /** Once the supervisor's call is over and the pending kills have landed, the namespace is
      empty, save for an init that has still to find out and will refuse. */
  lemma NothingOutlivesTheCall(config: Config, events: seq<Event>)
    requires Sane(config) && Before(config.plan, ArmDeathSignal, ReadParent)
    ensures var s := Run(config, Start(config), events);
            !s.supervisorAlive && NothingPending(s) ==>
              s.procs == map[] && !s.init.Reaping? && (s.init.Running? ==> Lost(config, s))
  {
    StartKeepsInv(config);
    RunKeepsLifetime(config, Start(config), events);
    OrphansAreDoomed(config, events);
    var s := Run(config, Start(config), events);
    if s.procs != map[] && s.init.Gone? {
      var p :| p in s.procs;
    }
    if s.init.Reaping? { assert config.plan[..|config.plan|] == config.plan; }
  }

  /** The supervisor died before the init could read it as its parent. */
  predicate Lost(config: Config, s: State) {
    !s.supervisorAlive && s.command.None? && s.seen != Some(config.supervisor)
  }

  lemma LostStaysLost(config: Config, s: State, event: Event)
    requires Sane(config) && InitInv(config, s) && Lost(config, s)
    ensures Lost(config, Take(config, s, event))
  {
    match event
    case InnerStepDone(pid) =>
      if s.init.Running? {
        ComparedBeforeSpawn(config.plan);
        NotPassedTwice(config.plan, s.init.pc);
        LostInnerStep(config, s, s.init.pc, pid);
      }
    case _ =>
  }

  lemma LostInnerStep(config: Config, s: State, pc: nat, pid: nat)
    requires config.supervisor != config.reaper && s.parent == config.reaper && pc < |config.plan|
    requires Lost(config, s) && s.init == Running(pc) && config.plan[pc] != SpawnCommand
    ensures Lost(config, InnerStepTaken(config, s, pc, pid))
  {
  }

  /** From there, no continuation whatever starts a command. */
  lemma {:induction false} LostNeverStarts(config: Config, s: State, events: seq<Event>)
    requires Sane(config) && Inv(config, s) && Lost(config, s)
    ensures Lost(config, Run(config, s, events)) && Run(config, s, events).procs == map[]
    decreases |events|
  {
    if events != [] {
      StepKeepsInv(config, s, events[0]);
      LostStaysLost(config, s, events[0]);
      LostNeverStarts(config, Take(config, s, events[0]), events[1..]);
    }
  }

  predicate IsTheInits(event: Event) {
    event.InnerStepDone? || event.InnerStepFails?
  }

  function InitsEvents(events: seq<Event>): nat {
    if events == [] then 0 else (if IsTheInits(events[0]) then 1 else 0) + InitsEvents(events[1..])
  }

  /** Whatever happens, a lost init stays where it is or is gone; its own events take it one step on
      or end it. */
  lemma LostInitMovesOn(config: Config, s: State, pc: nat, event: Event)
    requires Sane(config) && InitInv(config, s) && Lost(config, s) && s.init == Running(pc)
    ensures pc + 1 < |config.plan|
    ensures var t := Take(config, s, event);
            t.init.Gone? || t.init == Running(if IsTheInits(event) then pc + 1 else pc)
  {
    ComparedBeforeSpawn(config.plan);
    NotPassedTwice(config.plan, pc);
  }

  lemma {:induction false} GoneForGood(config: Config, s: State, events: seq<Event>)
    requires Sane(config) && Inv(config, s) && s.init.Gone?
    ensures Run(config, s, events).init.Gone?
    decreases |events|
  {
    if events != [] {
      GoneStaysGone(config, s, events[0]);
      StepKeepsInv(config, s, events[0]);
      GoneForGood(config, Take(config, s, events[0]), events[1..]);
    }
  }

  /** And it does not linger: in every run in which it gets to take as many steps as its plan has
      left, each done or failed and anything whatever in between, it ends. */
  lemma {:induction false} LostInitsEnd(config: Config, s: State, pc: nat, events: seq<Event>)
    requires Sane(config) && Inv(config, s) && Lost(config, s) && s.init == Running(pc)
    requires InitsEvents(events) + pc >= |config.plan|
    ensures Run(config, s, events).init.Gone? && Run(config, s, events).procs == map[]
    decreases |events|
  {
    LostInitMovesOn(config, s, pc, events[0]);
    var next := Take(config, s, events[0]);
    StepKeepsInv(config, s, events[0]);
    LostStaysLost(config, s, events[0]);
    if next.init.Gone? {
      GoneForGood(config, next, events[1..]);
    } else {
      LostInitsEnd(config, next, if IsTheInits(events[0]) then pc + 1 else pc, events[1..]);
    }
    LostNeverStarts(config, s, events);
  }

  lemma ComparedBeforeSpawn(plan: seq<InnerStep>)
    requires Plausible(plan)
    ensures CompareParent in plan[..|plan| - 1]
  {
    assert CompareParent in INNER;
    var k :| 0 <= k < |plan| && plan[k] == CompareParent;
    assert plan[..|plan| - 1][k] == CompareParent;
  }

  /** After the init is gone nothing joins the namespace, and each kill that lands empties it by one. */
  lemma GoneStaysGone(config: Config, s: State, event: Event)
    requires InitInv(config, s) && s.init.Gone?
    ensures var t := Take(config, s, event);
            && t.init.Gone? && t.procs.Keys <= s.procs.Keys
            && (event.KillDelivered? && event.p in s.procs && s.procs[event.p].doomed ==>
                  t.procs.Keys == s.procs.Keys - {event.p})
  {
  }

  /** And it can be emptied: as many deliveries as there are processes left. */
  lemma {:induction false} KillsEmptyTheNamespace(config: Config, s: State) returns (events: seq<Event>)
    requires Sane(config) && Inv(config, s) && s.init.Gone?
    ensures |events| == |s.procs| && Run(config, s, events).procs == map[]
    decreases |s.procs|
  {
    if s.procs == map[] {
      events := [];
    } else {
      var p :| p in s.procs;
      var next := Take(config, s, KillDelivered(p));
      StepKeepsInv(config, s, KillDelivered(p));
      GoneStaysGone(config, s, KillDelivered(p));
      assert |next.procs.Keys| == |s.procs.Keys| - 1;
      var rest := KillsEmptyTheNamespace(config, next);
      events := [KillDelivered(p)] + rest;
      assert events[1..] == rest;
    }
  }

  // ----- Why the signal is armed first -----

  function Repeat(event: Event, n: nat): seq<Event> {
    seq(n, _ => event)
  }

  lemma {:induction false} RunsJoin(config: Config, s: State, a: seq<Event>, b: seq<Event>)
    ensures Run(config, s, a + b) == Run(config, Run(config, s, a), b)
    decreases |a|
  {
    if a == [] {
      assert a + b == b;
    } else {
      assert (a + b)[1..] == a[1..] + b;
      RunsJoin(config, Take(config, s, a[0]), a[1..], b);
    }
  }

  /** From `s` to `t` the init has come to step `pc`. */
  ghost predicate Unharmed(config: Config, s: State, t: State, pc: nat) {
    && t.init == Running(pc) && t.supervisorAlive == s.supervisorAlive && t.doomed == s.doomed
    && (s.seen == Some(config.supervisor) ==> t.seen == s.seen) && t.parent == s.parent
  }

  lemma StepMoves(config: Config, s: State, pc: nat)
    requires s.init == Running(pc) && pc < |config.plan| && config.plan[pc] != SpawnCommand
    requires s.seen == Some(config.supervisor) || config.plan[pc] != CompareParent
    requires s.seen.Some? ==> config.plan[pc] != ReadParent
    ensures var t := Take(config, s, InnerStepDone(1));
            && Unharmed(config, s, t, pc + 1)
            && t.seen == if config.plan[pc] == ReadParent then Some(s.parent) else s.seen
  {
  }

  /** Nothing in `stretch` stands to fail, nor is a parent read twice. */
  ghost predicate Smooth(config: Config, s: State, stretch: seq<InnerStep>) {
    && SpawnCommand !in stretch
    && (s.seen == Some(config.supervisor) || CompareParent !in stretch)
    && (s.seen.Some? ==> ReadParent !in stretch)
    && (forall i, j | 0 <= i < j < |stretch| :: stretch[i] != stretch[j])
  }

  lemma {:induction false} SmoothStepsMove(config: Config, s: State, pc: nat, n: nat)
    requires s.init == Running(pc) && pc + n <= |config.plan| && Smooth(config, s, config.plan[pc..pc + n])
    ensures Unharmed(config, s, Run(config, s, Repeat(InnerStepDone(1), n)), pc + n)
    decreases n
  {
    if n > 0 {
      var stretch := config.plan[pc..pc + n];
      assert config.plan[pc] == stretch[0];
      assert config.plan[pc + 1..pc + n] == stretch[1..];
      StepMoves(config, s, pc);
      assert Smooth(config, Take(config, s, InnerStepDone(1)), stretch[1..]);
      assert Repeat(InnerStepDone(1), n)[1..] == Repeat(InnerStepDone(1), n - 1);
      SmoothStepsMove(config, Take(config, s, InnerStepDone(1)), pc + 1, n - 1);
    }
  }

  lemma StretchIsSmooth(config: Config, s: State, pc: nat, n: nat)
    requires Sane(config) && InitInv(config, s) && s.init == Running(pc) && pc + n < |config.plan|
    requires s.seen == Some(config.supervisor) || CompareParent !in config.plan[pc..pc + n]
    ensures Smooth(config, s, config.plan[pc..pc + n])
  {
    var stretch := config.plan[pc..pc + n];
    assert forall i | 0 <= i < n :: stretch[i] == config.plan[pc + i];
    if s.seen.Some? {
      var k :| 0 <= k < pc && config.plan[..pc][k] == ReadParent;
      assert config.plan[k] == ReadParent;
    }
  }

  /** The inner steps go well for as long as no comparison stands to fail. */
  lemma InnerStepsGoWell(config: Config, s: State, pc: nat, n: nat)
    requires Sane(config) && Inv(config, s) && s.init == Running(pc) && pc + n < |config.plan|
    requires s.seen == Some(config.supervisor) || CompareParent !in config.plan[pc..pc + n]
    ensures var t := Run(config, s, Repeat(InnerStepDone(1), n));
            Inv(config, t) && Unharmed(config, s, t, pc + n)
  {
    StretchIsSmooth(config, s, pc, n);
    SmoothStepsMove(config, s, pc, n);
    RunKeepsInv(config, s, Repeat(InnerStepDone(1), n));
  }

  lemma OuterStepsGoWell(config: Config) returns (events: seq<Event>)
    requires Sane(config)
    ensures var s := Run(config, Start(config), events);
            Inv(config, s) && s.init == Running(0) && s.supervisorAlive && !s.doomed
  {
    events := [];
    var s := Start(config);
    StartKeepsInv(config);
    while s.outer < |OUTER|
      invariant Inv(config, s) && s == Run(config, Start(config), events)
      invariant s.supervisorAlive && !s.doomed && (s.outer == |OUTER| ==> s.init == Running(0))
      decreases |OUTER| - s.outer
    {
      StepKeepsInv(config, s, OuterStepDone(false));
      RunsJoin(config, Start(config), events, [OuterStepDone(false)]);
      s := Take(config, s, OuterStepDone(false));
      events := events + [OuterStepDone(false)];
    }
  }

  /** The exception to an empty namespace is real: a supervisor that dies as soon as the init is
      born leaves one nothing dooms. */
  lemma AnInitCanBeLost(config: Config) returns (events: seq<Event>)
    requires Sane(config)
    ensures var s := Run(config, Start(config), events);
            !s.supervisorAlive && NothingPending(s) && s.init == Running(0) && Lost(config, s)
  {
    var born := OuterStepsGoWell(config);
    var s := Run(config, Start(config), born);
    events := born + [SupervisorKilled];
    RunsJoin(config, Start(config), born, [SupervisorKilled]);
    assert config.plan[..0] == [];
  }

  lemma ReadComesBetween(plan: seq<InnerStep>) returns (r: nat)
    requires Plausible(plan) && !Before(plan, ArmDeathSignal, ReadParent)
    ensures r + 1 < |plan| && plan[r] == ReadParent
    ensures CompareParent !in plan[0..r + 1] && ArmDeathSignal !in plan[..r + 1]
  {
    var i, j :| 0 <= i < j < |plan| && plan[i] == ReadParent && plan[j] == CompareParent;
    r := i;
  }

  /** Once the parent was read, the signal not being armed yet, the supervisor's death goes
      unnoticed: the rest of the plan runs to a command that nothing will ever kill. */
  lemma DeathInBetween(config: Config, s: State, r: nat) returns (events: seq<Event>)
    requires Sane(config) && Inv(config, s) && s.init == Running(r + 1) && r + 1 < |config.plan|
    requires ArmDeathSignal !in config.plan[..r + 1]
    requires s.supervisorAlive && !s.doomed && s.seen == Some(config.supervisor)
    ensures !Doomed(Run(config, s, events))
  {
    var died := Take(config, s, SupervisorKilled);
    StepKeepsInv(config, s, SupervisorKilled);
    var n := |config.plan| - r - 2;
    var steps := Repeat(InnerStepDone(1), n);
    InnerStepsGoWell(config, died, r + 1, n);
    StartsUndoomed(config, Run(config, died, steps));
    RunsJoin(config, died, steps, [InnerStepDone(1)]);
    events := [SupervisorKilled] + (steps + [InnerStepDone(1)]);
    assert events[1..] == steps + [InnerStepDone(1)];
  }

  /** With the whole plan but its last step behind it, an init nothing doomed starts the command. */
  lemma StartsUndoomed(config: Config, s: State)
    requires Sane(config) && Inv(config, s) && s.init == Running(|config.plan| - 1)
    requires !s.supervisorAlive && !s.doomed
    ensures !Doomed(Run(config, s, [InnerStepDone(1)]))
  {
    NotPassedTwice(config.plan, |config.plan| - 1);
    var started := Take(config, s, InnerStepDone(1));
    assert 1 in started.procs;
    assert Run(config, s, [InnerStepDone(1)]) == started;
  }

  lemma ArmedTooLateLeaksACommand(config: Config) returns (events: seq<Event>)
    requires Sane(config) && !Before(config.plan, ArmDeathSignal, ReadParent)
    ensures !Doomed(Run(config, Start(config), events))
  {
    var r := ReadComesBetween(config.plan);
    var prepared := OuterStepsGoWell(config);
    var s := Run(config, Start(config), prepared);
    InnerStepsGoWell(config, s, 0, r + 1);
    ReadWhileAlive(config, s, r);
    var read := Run(config, s, Repeat(InnerStepDone(1), r + 1));
    var late := DeathInBetween(config, read, r);
    RunsJoin(config, s, Repeat(InnerStepDone(1), r + 1), late);
    RunsJoin(config, Start(config), prepared, Repeat(InnerStepDone(1), r + 1) + late);
    events := prepared + (Repeat(InnerStepDone(1), r + 1) + late);
  }

  /** A parent read while the supervisor lives is the supervisor. */
  lemma ReadWhileAlive(config: Config, s: State, r: nat)
    requires Sane(config) && Inv(config, s) && s.init == Running(0) && s.supervisorAlive
    requires r + 1 < |config.plan| && config.plan[r] == ReadParent && CompareParent !in config.plan[0..r + 1]
    ensures Run(config, s, Repeat(InnerStepDone(1), r + 1)).seen == Some(config.supervisor)
  {
    assert CompareParent !in config.plan[0..r] by {
      forall k | 0 <= k < r ensures config.plan[0..r][k] != CompareParent {
        assert config.plan[0..r + 1][k] == config.plan[0..r][k];
      }
    }
    InnerStepsGoWell(config, s, 0, r);
    assert Repeat(InnerStepDone(1), r + 1) == Repeat(InnerStepDone(1), r) + [InnerStepDone(1)];
    RunsJoin(config, s, Repeat(InnerStepDone(1), r), [InnerStepDone(1)]);
    NotPassedTwice(config.plan, r);
    StepMoves(config, Run(config, s, Repeat(InnerStepDone(1), r)), r);
  }

  /** Arm, then check: of all the places the signal could be armed in, the protocol is safe in
      every run exactly where it is armed before the parent is read. */
  lemma SafeExactlyWhenArmedFirst(config: Config)
    requires Sane(config)
    ensures (forall events :: Doomed(Run(config, Start(config), events))) <==> Before(config.plan, ArmDeathSignal, ReadParent)
  {
    if Before(config.plan, ArmDeathSignal, ReadParent) {
      forall events ensures Doomed(Run(config, Start(config), events)) {
        OrphansAreDoomed(config, events);
      }
    } else {
      var events := ArmedTooLateLeaksACommand(config);
    }
  }

  /** The source's own order is one of the safe ones, and takes its steps as the order demands. */
  lemma TheSourceArmsFirst()
    ensures Plausible(INNER) && Before(INNER, ArmDeathSignal, ReadParent)
  {
    assert INNER[0] == ClaimChannel && INNER[2] == ArmDeathSignal && INNER[3] == ReadParent && INNER[4] == CompareParent;
  }
}
