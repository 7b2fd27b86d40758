/** What the two stages answer with, case by case: which statuses end the reaping, which ends are raised
    again, what is reported as degraded, and the names everything is reported under. */
module StageLaws {
  import opened Wrappers
  import opened Confinement
  import opened HelperStages
  import Audit = AuditChannel

  /** The reaping goes on past every other process, every status that is no end and every interrupt; the
      command's own exit or signal ends it, and so does having no child, as a plain failure. */
  lemma WhatEndsTheReaping(pid: nat, command: nat, code: nat, signal: nat)
    ensures EndsReaping(Exited(pid, code), command) <==> pid == command
    ensures EndsReaping(Signaled(pid, signal), command) <==> pid == command
    ensures !EndsReaping(OtherStatus(pid), command) && !EndsReaping(Interrupted, command)
    ensures EndsReaping(NoChildLeft, command) && ExitCode(FateOf(NoChildLeft)) == 1
  {
  }

  /** However many orphans end before it, the command's status is the one the init exits by. */
  lemma OrphansDecideNothing(before: seq<WaitStatus>, status: WaitStatus, after: seq<WaitStatus>, command: nat, reaped: nat)
    requires forall other | other in before :: !other.NoChildLeft? && !((other.Exited? || other.Signaled?) && other.pid == command)
    requires (status.Exited? || status.Signaled?) && status.pid == command
    requires var waits := before + [status] + after;
             reaped < |waits| && EndsReaping(waits[reaped], command) && forall i | 0 <= i < reaped :: !EndsReaping(waits[i], command)
    ensures reaped == |before| && (before + [status] + after)[reaped] == status
  {
    var waits := before + [status] + after;
    assert waits[|before|] == status;
    assert forall i | 0 <= i < |before| :: waits[i] == before[i] && before[i] in before && !EndsReaping(before[i], command);
  }

  /** Stage 1 raises again exactly the signals a shell knows by number up to the last, and has the code to
      exit with besides, for when the raising returns. */
  lemma WhatIsRaisedAgain(number: nat)
    ensures Raised(Signal(number)).Some? <==> 1 <= number <= 31
    ensures Raised(Signal(number)).Some? ==> Raised(Signal(number)).value == number
    ensures Raised(Neither).None? && ExitCode(Neither) == 1
    ensures ExitCode(Signal(number)) == 128 + number
  {
  }

  function One(degraded: bool): seq<Record> {
    if degraded then [DegradedRecord] else []
  }

  lemma ReportOneMore(degrades: OuterStep -> bool, n: nat, step: OuterStep)
    requires n < |OUTER| && OUTER[n] == step
    ensures Degradations(degrades, n + 1) ==
            Degradations(degrades, n)
            + One((step == ResolveNames || step == IsolateNamespaces || step == DropCapabilities) && degrades(step))
  {
  }

  lemma ReportedFirst(degrades: OuterStep -> bool, start: nat)
    requires start == 0
    ensures Degradations(degrades, start + 3) == One(degrades(ResolveNames)) + One(degrades(IsolateNamespaces))
  {
    ReportOneMore(degrades, start, DecodeRequest);
    ReportOneMore(degrades, start + 1, ResolveNames);
    ReportOneMore(degrades, start + 2, IsolateNamespaces);
  }

  lemma ReportedNext(degrades: OuterStep -> bool, start: nat)
    requires start == 0
    ensures Degradations(degrades, start + 5) == Degradations(degrades, start + 3) + One(degrades(DropCapabilities))
  {
    ReportOneMore(degrades, start + 3, BoundResolution);
    ReportOneMore(degrades, start + 4, DropCapabilities);
  }

  lemma ReportedLast(degrades: OuterStep -> bool, start: nat)
    requires start == 0
    ensures Degradations(degrades, start + 7) == Degradations(degrades, start + 5)
  {
    ReportOneMore(degrades, start + 5, LimitCore);
    ReportOneMore(degrades, start + 6, OuterNoNewPrivs);
  }

  /** What stage 1 has to report when it reports: one record for each of three steps that came out degraded,
      in the order they were taken, and nothing for any other. */
  lemma EveryDegradationIsReported(degrades: OuterStep -> bool)
    ensures Degradations(degrades, REPORT) ==
            One(degrades(ResolveNames)) + One(degrades(IsolateNamespaces)) + One(degrades(DropCapabilities))
  {
    ReportedFirst(degrades, 0);
    ReportedNext(degrades, 0);
    ReportedLast(degrades, 0);
  }

  /** A name on the wire is read as a degraded step exactly if it is the step's own. */
  lemma WhatAStepIsCalled(name: string, step: Audit.Degradation)
    ensures Audit.StepFrom(name, Audit.STEPS) == Some(step) <==>
            match step
            case CapabilityBoundingSet => name == "capability_bounding_set"
            case UsernsIdentityMap => name == "userns_identity_map"
            case UnresolvedDnsName => name == "unresolved_dns_name"
  {
    Audit.EveryStepIsListed(step);
    Audit.StepIsFound(step, Audit.STEPS);
    AFoundStepIsNamed(name, Audit.STEPS);
  }

  lemma {:induction false} AFoundStepIsNamed(name: string, steps: seq<Audit.Degradation>)
    ensures var found := Audit.StepFrom(name, steps); found.Some? ==> Audit.Label(Audit.Step(found.value)) == name
  {
    if steps != [] { AFoundStepIsNamed(name, steps[1..]); }
  }

  /** And as a refusal exactly if it is the refusal's own. */
  lemma WhatARefusalIsCalled(name: string, refusal: Audit.HelperRefusal)
    ensures Audit.RefusalFrom(name, Audit.REFUSALS) == Some(refusal) <==>
            match refusal
            case BadHelperArgs => name == "bad_helper_args"
            case Landlock => name == "landlock"
            case GrantRedirected => name == "grant_redirected"
            case GrantReplaced => name == "grant_replaced"
            case Seccomp => name == "seccomp"
            case NamespaceSetupFailed => name == "namespace_setup_failed"
            case ProcessHardening => name == "process_hardening"
            case InnerStageFailed => name == "inner_stage_failed"
            case ExecFailed => name == "exec_failed"
            case PinMismatch => name == "pin_mismatch"
            case PinUnreadable => name == "pin_unreadable"
            case PinnedScript => name == "pinned_script"
            case Unsupported => name == "unsupported"
  {
    Audit.EveryRefusalIsListed(refusal);
    Audit.RefusalIsFound(refusal, Audit.REFUSALS);
    AFoundRefusalIsNamed(name, Audit.REFUSALS);
  }

  lemma {:induction false} AFoundRefusalIsNamed(name: string, refusals: seq<Audit.HelperRefusal>)
    ensures var found := Audit.RefusalFrom(name, refusals); found.Some? ==> Audit.Label(Audit.Refused(found.value)) == name
  {
    if refusals != [] { AFoundRefusalIsNamed(name, refusals[1..]); }
  }
}
