/** What the protocol's events may and may not do, said of any event and any run without going
    through the cases that define them: when the namespace ends, what dooms and whom, where
    processes come from, and in what order a command came to be restricted. */
module ConfinementLaws {
  import opened Wrappers
  import opened Confinement
  import opened HelperStages

  // ----- The end of the command is the end of the namespace -----

  /** A reaping init has its command still to reap: running as its child, or a zombie. */
  predicate CommandTracked(s: State) {
    s.init.Reaping? ==>
      && s.command.Some?
      && (s.command.value in s.zombies || (s.command.value in s.procs && s.procs[s.command.value].parent == 0))
  }

  lemma StepKeepsTracked(config: Config, s: State, event: Event)
    requires Inv(config, s) && CommandTracked(s)
    ensures CommandTracked(Take(config, s, event))
  {
    match event
    case InnerStepDone(pid) => if s.init.Running? && s.init.pc < |config.plan| { AStepKeepsTracked(config, s, s.init.pc, pid); }
    case OuterStepDone(degrades) => if s.outer < |OUTER| { ItsOwnStepsSpareIt(config, s, degrades); }
    case _ => OthersKeepTracked(config, s, event);
  }

  lemma AStepKeepsTracked(config: Config, s: State, pc: nat, pid: nat)
    requires pc < |config.plan| && s.init == Running(pc)
    ensures CommandTracked(InnerStepTaken(config, s, pc, pid))
  {
  }

  lemma OthersKeepTracked(config: Config, s: State, event: Event)
    requires !event.InnerStepDone? && !event.OuterStepDone? && CommandTracked(s)
    ensures CommandTracked(Take(config, s, event))
  {
  }

  lemma {:induction false} RunKeepsTracked(config: Config, s: State, events: seq<Event>)
    requires Sane(config) && Inv(config, s) && CommandTracked(s)
    ensures CommandTracked(Run(config, s, events))
    decreases |events|
  {
    if events != [] {
      StepKeepsInv(config, s, events[0]);
      StepKeepsTracked(config, s, events[0]);
      RunKeepsTracked(config, Take(config, s, events[0]), events[1..]);
    }
  }

  /** In every run, an init that reaps has a command that exists or is waiting to be reaped. */
  lemma TheCommandIsWaitedFor(config: Config, events: seq<Event>)
    requires Sane(config)
    ensures var s := Run(config, Start(config), events);
            s.init.Reaping? ==>
              s.command.Some? && (s.command.value in s.procs || s.command.value in s.zombies)
  {
    StartKeepsInv(config);
    RunKeepsTracked(config, Start(config), events);
  }

  /** In every run: reaping the command's own zombie ends the init, and every process left is doomed;
      reaping any other leaves the init reaping and every process as it was. */
  lemma ReapingTheCommandEndsTheNamespace(config: Config, events: seq<Event>, p: nat)
    requires Sane(config)
    requires Run(config, Start(config), events).init.Reaping? && p in Run(config, Start(config), events).zombies
    ensures var s := Run(config, Start(config), events);
            var t := Take(config, s, InitReaps(p));
            if s.command == Some(p)
            then t.init.Gone? && t.procs.Keys == s.procs.Keys && forall q | q in t.procs :: t.procs[q].doomed
            else t.init.Reaping? && t.procs == s.procs && t.zombies == s.zombies - {p}
  {
  }

  /** The command's exit, reaped, ends everything: its own children, detached or not, outlive it by
      no more than the kill that is already theirs. */
  lemma TheCommandsExitDoomsTheRest(config: Config, events: seq<Event>, p: nat)
    requires Sane(config)
    requires var s := Run(config, Start(config), events);
             s.init.Reaping? && s.command == Some(p) && p in s.procs
    ensures var s := Run(config, Start(config), events);
            var t := Run(config, s, [ProcExits(p), InitReaps(p)]);
            t.init.Gone? && t.procs.Keys == s.procs.Keys - {p} && forall q | q in t.procs :: t.procs[q].doomed
  {
    StartKeepsInv(config);
    RunKeepsInv(config, Start(config), events);
    RunKeepsTracked(config, Start(config), events);
    var s := Run(config, Start(config), events);
    AnExitLeavesAZombie(config, s, p);
    ItsZombieEndsTheInit(config, Take(config, s, ProcExits(p)), p);
    TwoSteps(config, s, ProcExits(p), InitReaps(p));
  }

  lemma AnExitLeavesAZombie(config: Config, s: State, p: nat)
    requires CommandTracked(s) && s.init.Reaping? && s.command == Some(p) && p in s.procs
    ensures var t := Take(config, s, ProcExits(p));
            t.init.Reaping? && t.command == Some(p) && p in t.zombies && t.procs.Keys == s.procs.Keys - {p}
  {
  }

  lemma ItsZombieEndsTheInit(config: Config, s: State, p: nat)
    requires s.init.Reaping? && s.command == Some(p) && p in s.zombies
    ensures var t := Take(config, s, InitReaps(p));
            t.init.Gone? && t.procs.Keys == s.procs.Keys && forall q | q in t.procs :: t.procs[q].doomed
  {
  }

  lemma TwoSteps(config: Config, s: State, a: Event, b: Event)
    ensures Run(config, s, [a, b]) == Take(config, Take(config, s, a), b)
  {
    assert [a, b][1..] == [b] && [b][1..] == [];
    assert Run(config, s, [a, b]) == Run(config, Take(config, s, a), [b]);
  }

  // ----- What dooms, and whom -----

  /** Whatever ended it, an init's end dooms every process of its namespace and takes none away. */
  lemma TheInitsEndDoomsEveryProcess(config: Config, s: State, event: Event)
    requires InitInv(config, s) && InitAlive(s) && Take(config, s, event).init.Gone?
    ensures DoomsAll(s, Take(config, s, event))
  {
    match event
    case InnerStepDone(pid) => RefusalDoomsAll(config, s, s.init.pc); AStepDoomsAllOrGoesOn(config, s, s.init.pc, pid);
    case InnerStepFails => RefusalDoomsAll(config, s, s.init.pc);
    case _ => OtherEndsDoomAll(config, s, event);
  }

  predicate DoomsAll(s: State, t: State) {
    t.procs.Keys == s.procs.Keys && forall p | p in t.procs :: t.procs[p].doomed
  }

  lemma RefusalDoomsAll(config: Config, s: State, pc: nat)
    requires pc < |config.plan|
    ensures DoomsAll(s, Refuse(config, s, pc))
  {
  }

  lemma AStepDoomsAllOrGoesOn(config: Config, s: State, pc: nat, pid: nat)
    requires pc < |config.plan| && s.init == Running(pc)
    ensures InnerStepTaken(config, s, pc, pid).init.Gone? ==> DoomsAll(s, InnerStepTaken(config, s, pc, pid))
  {
    RefusalDoomsAll(config, s, pc);
  }

  lemma OtherEndsDoomAll(config: Config, s: State, event: Event)
    requires InitAlive(s) && !event.InnerStepDone? && !event.InnerStepFails? && (event.OuterStepDone? ==> s.outer > SPAWN)
    requires Take(config, s, event).init.Gone?
    ensures DoomsAll(s, Take(config, s, event))
  {
  }

  /** An init ends in five ways and no other: it refuses, by a failing step or by a parent that is not
      its supervisor; it reaps its command; nothing is left to reap; or a kill it was due is delivered. */
  lemma WhatEndsAnInit(config: Config, s: State, event: Event)
    requires InitInv(config, s) && InitAlive(s)
    ensures Take(config, s, event).init.Gone? <==>
            || (event.InnerStepFails? && s.init.Running?)
            || (&& event.InnerStepDone? && s.init.Running? && config.plan[s.init.pc] == CompareParent
                && s.seen != Some(config.supervisor))
            || (event.InitReaps? && s.init.Reaping? && event.p in s.zombies && s.command == Some(event.p))
            || (event.NothingToReap? && s.init.Reaping? && s.zombies == {} && forall p | p in s.procs :: s.procs[p].parent != 0)
            || (event.InitKillDelivered? && s.doomed)
  {
    match event
    case InnerStepDone(pid) => if s.init.Running? && s.init.pc < |config.plan| { WhatAStepEnds(config, s, s.init.pc, pid); }
    case OuterStepDone(degrades) => if s.outer < |OUTER| { ItsOwnStepsEndNoInit(config, s, degrades); }
    case _ =>
  }

  lemma WhatAStepEnds(config: Config, s: State, pc: nat, pid: nat)
    requires pc < |config.plan| && InitAlive(s)
    ensures InnerStepTaken(config, s, pc, pid).init.Gone? <==>
              config.plan[pc] == CompareParent && s.seen != Some(config.supervisor)
  {
  }

  lemma ItsOwnStepsEndNoInit(config: Config, s: State, degrades: bool)
    requires s.outer < |OUTER| && InitAlive(s)
    ensures !OuterStepTaken(config, s, degrades).init.Gone?
  {
  }

  /** A process once doomed stays so until it is gone, and so does an init. */
  lemma DoomIsFinal(config: Config, s: State, event: Event, p: nat)
    ensures var t := Take(config, s, event);
            && (p in s.procs && s.procs[p].doomed && p in t.procs ==> t.procs[p].doomed)
            && (s.doomed && InitAlive(s) ==> t.init.Gone? || t.doomed)
  {
    if p in s.procs && s.procs[p].doomed && p in Take(config, s, event).procs { ADoomedProcessStaysSo(config, s, event, p); }
    if s.doomed && InitAlive(s) { ADoomedInitStaysSo(config, s, event); }
  }

  lemma ADoomedProcessStaysSo(config: Config, s: State, event: Event, p: nat)
    requires p in s.procs && s.procs[p].doomed && p in Take(config, s, event).procs
    ensures Take(config, s, event).procs[p].doomed
  {
    match event
    case InnerStepDone(pid) => if s.init.Running? && s.init.pc < |config.plan| { AStepLeavesDoom(config, s, s.init.pc, pid, p); }
    case OuterStepDone(degrades) => if s.outer < |OUTER| { ItsOwnStepsSpareIt(config, s, degrades); }
    case _ => OthersLeaveDoom(config, s, event, p);
  }

  lemma AStepLeavesDoom(config: Config, s: State, pc: nat, pid: nat, p: nat)
    requires pc < |config.plan| && p in s.procs && s.procs[p].doomed
    ensures var t := InnerStepTaken(config, s, pc, pid); p in t.procs && t.procs[p].doomed
  {
    RefusalDoomsAll(config, s, pc);
  }

  lemma OthersLeaveDoom(config: Config, s: State, event: Event, p: nat)
    requires !event.InnerStepDone? && !event.OuterStepDone?
    requires p in s.procs && s.procs[p].doomed && p in Take(config, s, event).procs
    ensures Take(config, s, event).procs[p].doomed
  {
  }

  lemma ADoomedInitStaysSo(config: Config, s: State, event: Event)
    requires s.doomed && InitAlive(s)
    ensures Take(config, s, event).init.Gone? || Take(config, s, event).doomed
  {
  }

  /** The supervisor's death, however it comes, dooms an armed init at once and leaves it a parent
      no init takes for its supervisor. */
  lemma AnArmedSignalFires(config: Config, s: State, event: Event)
    requires s.supervisorAlive && !Take(config, s, event).supervisorAlive
    ensures Orphaned(config, s, Take(config, s, event))
  {
    match event
    case InnerStepDone(pid) => if s.init.Running? && s.init.pc < |config.plan| { TheInitsStepsSpareIt(config, s, s.init.pc, pid); }
    case OuterStepDone(degrades) => if s.outer < |OUTER| { ItsOwnStepsSpareIt(config, s, degrades); }
    case _ => OtherEventsOrphan(config, s, event);
  }

  predicate Orphaned(config: Config, s: State, t: State) {
    && t.parent == config.reaper && t.init == s.init && t.procs.Keys == s.procs.Keys
    && (InitAlive(s) && s.armed ==> t.doomed)
  }

  lemma TheInitsStepsSpareIt(config: Config, s: State, pc: nat, pid: nat)
    requires pc < |config.plan|
    ensures InnerStepTaken(config, s, pc, pid).supervisorAlive == s.supervisorAlive
  {
  }

  lemma ItsOwnStepsSpareIt(config: Config, s: State, degrades: bool)
    requires s.outer < |OUTER|
    ensures OuterStepTaken(config, s, degrades).supervisorAlive == s.supervisorAlive
    ensures OuterStepTaken(config, s, degrades).procs == s.procs
    ensures OuterStepTaken(config, s, degrades).init in {s.init, Running(0)}
    ensures OuterStepTaken(config, s, degrades).zombies == s.zombies && OuterStepTaken(config, s, degrades).command == s.command
  {
  }

  lemma OtherEventsOrphan(config: Config, s: State, event: Event)
    requires !event.InnerStepDone? && !event.OuterStepDone?
    requires s.supervisorAlive && !Take(config, s, event).supervisorAlive
    ensures Orphaned(config, s, Take(config, s, event))
  {
  }

  /** A supervisor ends by refusing, by a kill, or once its wait is over; and its wait returns only to
      tell that the init is gone. */
  lemma WhatEndsASupervisor(config: Config, s: State, event: Event)
    requires s.supervisorAlive
    ensures !Take(config, s, event).supervisorAlive <==>
            || (event.OuterStepFails? && s.outer < |OUTER| && OUTER[s.outer] !in {ResolveNames, ReportDegraded})
            || event.SupervisorKilled? || event.GroupKilled?
            || (event.WaitReturns? && s.outer == |OUTER| && s.init.Gone?)
            || (event.WaitFails? && s.outer == |OUTER|)
  {
    if s.outer < |OUTER| { TheOuterOrder(s.outer); }
  }

  /** A kill of the group dooms the supervisor's init and exactly the processes still in the group: a
      detached one is left to the init's end. */
  lemma AGroupKillSparesTheDetached(config: Config, s: State)
    ensures var t := Take(config, s, GroupKilled);
            && !t.supervisorAlive && (InitAlive(s) ==> t.doomed)
            && t.procs.Keys == s.procs.Keys
            && forall p | p in s.procs :: t.procs[p].doomed <==> s.procs[p].doomed || s.procs[p].inGroup
  {
  }

  // ----- Where processes come from, and where they go -----

  /** A process comes to be as the command, at the plan's last step, or as a child of one that runs. */
  lemma WhereProcessesComeFrom(config: Config, s: State, event: Event, p: nat)
    requires InitInv(config, s) && p !in s.procs && p in Take(config, s, event).procs
    ensures var t := Take(config, s, event);
            || (&& event == InnerStepDone(p) && s.init.Running? && config.plan[s.init.pc] == SpawnCommand
                && t.command == Some(p) && t.procs[p] == Proc(0, true, false))
            || (&& event.Fork? && event.child == p && InitAlive(s) && event.p in s.procs && !s.procs[event.p].doomed
                && t.procs[p] == Proc(event.p, s.procs[event.p].inGroup, false))
  {
    match event
    case InnerStepDone(pid) => if s.init.Running? && s.init.pc < |config.plan| { WhatAStepStarts(config, s, s.init.pc, pid, p); }
    case OuterStepDone(degrades) => if s.outer < |OUTER| { ItsOwnStepsSpareIt(config, s, degrades); }
    case _ => OnlyForksStart(config, s, event, p);
  }

  lemma WhatAStepStarts(config: Config, s: State, pc: nat, pid: nat, p: nat)
    requires pc < |config.plan| && p !in s.procs && p in InnerStepTaken(config, s, pc, pid).procs
    ensures var t := InnerStepTaken(config, s, pc, pid);
            pid == p && config.plan[pc] == SpawnCommand && t.command == Some(p) && t.procs[p] == Proc(0, true, false)
  {
    RefusalDoomsAll(config, s, pc);
  }

  lemma OnlyForksStart(config: Config, s: State, event: Event, p: nat)
    requires !event.InnerStepDone? && !event.OuterStepDone?
    requires p !in s.procs && p in Take(config, s, event).procs
    ensures event.Fork? && event.child == p
  {
  }

  /** The command, and what it starts, may fork into any pid that is free for as long as it is not
      doomed, leave the group at any time, and exit at any time. */
  lemma ProcessesAreFree(config: Config, s: State, p: nat, child: nat)
    requires p in s.procs
    ensures InitAlive(s) && !s.procs[p].doomed && child != 0 && child !in s.procs && child !in s.zombies ==>
              child in Take(config, s, Fork(p, child)).procs
    ensures !Take(config, s, Detach(p)).procs[p].inGroup
    ensures p !in Take(config, s, ProcExits(p)).procs
  {
  }

  /** A process goes by exiting or by a kill it was due; its children become the init's own, and it
      is left to be reaped exactly if it was one of those. */
  lemma WhereProcessesGo(config: Config, s: State, event: Event, p: nat)
    requires p in s.procs && p !in Take(config, s, event).procs
    ensures event == ProcExits(p) || (event == KillDelivered(p) && s.procs[p].doomed)
    ensures var t := Take(config, s, event);
            && t.procs.Keys == s.procs.Keys - {p}
            && t.zombies == (if s.procs[p].parent == 0 then s.zombies + {p} else s.zombies)
            && forall q | q in t.procs ::
                 t.procs[q] == if s.procs[q].parent == p then s.procs[q].(parent := 0) else s.procs[q]
  {
    match event
    case InnerStepDone(pid) => if s.init.Running? && s.init.pc < |config.plan| { AStepTakesNoProcess(config, s, s.init.pc, pid); }
    case OuterStepDone(degrades) => if s.outer < |OUTER| { ItsOwnStepsSpareIt(config, s, degrades); }
    case _ => OnlyDeathsTakeProcesses(config, s, event, p);
  }

  lemma AStepTakesNoProcess(config: Config, s: State, pc: nat, pid: nat)
    requires pc < |config.plan|
    ensures s.procs.Keys <= InnerStepTaken(config, s, pc, pid).procs.Keys
  {
    RefusalDoomsAll(config, s, pc);
  }

  lemma OnlyDeathsTakeProcesses(config: Config, s: State, event: Event, p: nat)
    requires !event.InnerStepDone? && !event.OuterStepDone?
    requires p in s.procs && p !in Take(config, s, event).procs
    ensures event == ProcExits(p) || (event == KillDelivered(p) && s.procs[p].doomed)
    ensures Take(config, s, event) == ProcDies(s, p)
  {
  }

  // ----- The order of the restrictions -----

  lemma StepKeepsPrefix(config: Config, s: State, event: Event)
    requires Inv(config, s) && s.trail <= config.plan
    ensures Take(config, s, event).trail <= config.plan
  {
    if s.init.Running? && event.InnerStepDone? {
      var pc := s.init.pc;
      assert s.trail == config.plan[..pc];
      assert config.plan[..pc] + [config.plan[pc]] == config.plan[..pc + 1];
      OneMoreStepOfTheTrail(config, s, pc, event.pid);
    } else {
      assert Take(config, s, event).trail == s.trail;
    }
  }

  lemma OneMoreStepOfTheTrail(config: Config, s: State, pc: nat, pid: nat)
    requires pc < |config.plan|
    ensures InnerStepTaken(config, s, pc, pid).trail in {s.trail, s.trail + [config.plan[pc]]}
  {
  }

  /** In every run what was done is a beginning of the plan: nothing is skipped and nothing is early. */
  lemma {:induction false} TheTrailIsAPrefix(config: Config, s: State, events: seq<Event>)
    requires Sane(config) && Inv(config, s) && s.trail <= config.plan
    ensures Run(config, s, events).trail <= config.plan
    decreases |events|
  {
    if events != [] {
      StepKeepsInv(config, s, events[0]);
      StepKeepsPrefix(config, s, events[0]);
      TheTrailIsAPrefix(config, Take(config, s, events[0]), events[1..]);
    }
  }

  /** Wherever `b` was done, `a` had been. */
  predicate Precedes(trail: seq<InnerStep>, a: InnerStep, b: InnerStep) {
    forall j | 0 <= j < |trail| && trail[j] == b :: a in trail[..j]
  }

  /** In every run, of any plausible order, a step comes after every one the plan puts before it. */
  lemma StepsComeInPlanOrder(config: Config, events: seq<Event>, i: nat, j: nat)
    requires Sane(config) && i < j < |config.plan|
    ensures Precedes(Run(config, Start(config), events).trail, config.plan[i], config.plan[j])
  {
    StartKeepsInv(config);
    TheTrailIsAPrefix(config, Start(config), events);
    var trail := Run(config, Start(config), events).trail;
    forall k | 0 <= k < |trail| && trail[k] == config.plan[j] ensures config.plan[i] in trail[..k] {
      assert k == j && trail[..k][i] == config.plan[i];
    }
  }

  /** The places the source gives its steps. */
  lemma TheSourceOrder()
    ensures |INNER| == 14
    ensures INNER[0] == ClaimChannel && INNER[1] == DecodePolicy && INNER[2] == ArmDeathSignal && INNER[3] == ReadParent
    ensures INNER[4] == CompareParent && INNER[5] == CheckEnvironment && INNER[6] == SetNoNewPrivs
    ensures INNER[7] == InstallDenylist && INNER[8] == InstallClone3 && INNER[9] == InstallX32Gate
    ensures INNER[10] == EnforceRuleset && INNER[11] == OpenPinnedImage && INNER[12] == MakeNonDumpable
    ensures INNER[13] == SpawnCommand
  {
  }

  /** In every run of it: no filter and no ruleset before no_new_privs, which waits for a confirmed
      supervisor and a checked environment; a pinned image opened and the init made unreadable only
      under every filter and the ruleset; and the command after all of it. */
  lemma RestrictionsComeInOrder(config: Config, events: seq<Event>)
    requires Sane(config) && config.plan == INNER
    ensures var trail := Run(config, Start(config), events).trail;
            && Precedes(trail, CompareParent, SetNoNewPrivs) && Precedes(trail, CheckEnvironment, SetNoNewPrivs)
            && (forall step | step in {InstallDenylist, InstallClone3, InstallX32Gate, EnforceRuleset} ::
                  && Precedes(trail, SetNoNewPrivs, step) && Precedes(trail, step, OpenPinnedImage)
                  && Precedes(trail, step, MakeNonDumpable))
            && forall step | step in {OpenPinnedImage, MakeNonDumpable} :: Precedes(trail, step, SpawnCommand)
  {
    TheSourceOrder();
    StepsComeInPlanOrder(config, events, 4, 6);
    StepsComeInPlanOrder(config, events, 5, 6);
    StepsComeInPlanOrder(config, events, 11, 13);
    StepsComeInPlanOrder(config, events, 12, 13);
    forall k: nat | 7 <= k <= 10
      ensures var trail := Run(config, Start(config), events).trail;
              && Precedes(trail, SetNoNewPrivs, INNER[k]) && Precedes(trail, INNER[k], OpenPinnedImage)
              && Precedes(trail, INNER[k], MakeNonDumpable)
    {
      StepsComeInPlanOrder(config, events, 6, k);
      StepsComeInPlanOrder(config, events, k, 11);
      StepsComeInPlanOrder(config, events, k, 12);
    }
  }

  // ----- It can all go well -----

  /** A run in which nothing refuses, the command starts, exits and is reaped, and the call ends: no
      process is left and the channel holds only what degraded. */
  lemma TheHelperCanFinish(config: Config, degrades: OuterStep -> bool) returns (events: seq<Event>)
    requires config.plan == INNER && config.supervisor != config.reaper
    ensures var t := Run(config, Start(config), events);
            && t.init.Gone? && !t.supervisorAlive && t.procs == map[] && t.trail == INNER
            && t.channel == if config.audit then Degradations(degrades, REPORT) else []
  {
    var willing := (step: OuterStep) => false;
    var able := (step: InnerStep) => false;
    TheSourceArmsFirst();
    StartKeepsInv(config);
    var prepared := OuterStageIsARun(config, willing, degrades);
    RunKeepsInv(config, Start(config), prepared);
    var s := Run(config, Start(config), prepared);
    JustBorn(config, s);
    StepsAlong(config, s, |INNER|);
    var steps := Repeat(InnerStepDone(1), |INNER|);
    var started := Run(config, s, steps);
    var ending := [ProcExits(1), InitReaps(1), WaitReturns];
    AndFinishes(config, started);
    RunsJoin(config, s, steps, ending);
    RunsJoin(config, Start(config), prepared, steps + ending);
    events := prepared + (steps + ending);
  }

  lemma AndFinishes(config: Config, s: State)
    requires s.init.Reaping? && s.supervisorAlive && s.outer == |OUTER|
    requires s.procs == map[1 := Proc(0, true, false)] && s.command == Some(1)
    ensures var t := Run(config, s, [ProcExits(1), InitReaps(1), WaitReturns]);
            t.init.Gone? && !t.supervisorAlive && t.procs == map[] && t.trail == s.trail && t.channel == s.channel
  {
    var exited := Take(config, s, ProcExits(1));
    assert exited.procs == map[];
    var reaped := Take(config, exited, InitReaps(1));
    assert reaped.procs == map[];
    var ending := [ProcExits(1), InitReaps(1), WaitReturns];
    assert ending[1..][1..] == [WaitReturns] && ending[1..] == [InitReaps(1), WaitReturns] && [WaitReturns][1..] == [];
    assert Run(config, s, ending) == Run(config, exited, ending[1..]) == Run(config, reaped, [WaitReturns]);
  }
}
