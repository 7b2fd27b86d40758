/** The audit channel's wire format (`degradation.rs`, `helper_refusal.rs`): one record a line, a
    name and a detail parted by a tab, read back against two closed sets of labels. */
module AuditChannel {
  import opened Wrappers
  import opened Numerals

  datatype Degradation = CapabilityBoundingSet | UsernsIdentityMap | UnresolvedDnsName

  datatype HelperRefusal =
    | BadHelperArgs | Landlock | GrantRedirected | GrantReplaced | Seccomp | NamespaceSetupFailed | ProcessHardening
    | InnerStageFailed | ExecFailed | PinMismatch | PinUnreadable | PinnedScript | Unsupported

  datatype Degraded = Degraded(step: Degradation, detail: string)

  datatype Report = DegradedReport(record: Degraded) | Failed(refusal: HelperRefusal)

  const STEPS: seq<Degradation> := [CapabilityBoundingSet, UsernsIdentityMap, UnresolvedDnsName]

  const REFUSALS: seq<HelperRefusal> :=
    [BadHelperArgs, Landlock, GrantRedirected, GrantReplaced, Seccomp, NamespaceSetupFailed, ProcessHardening,
     InnerStageFailed, ExecFailed, PinMismatch, PinUnreadable, PinnedScript, Unsupported]

  const DETAIL_LIMIT := 256
  const RECORD_LIMIT := 4

  // ----- Labels -----

  /** A thing with a name on the wire, from either set. */
  datatype Named = Step(step: Degradation) | Refused(refusal: HelperRefusal)

  function Label(named: Named): string {
    match named
    case Step(CapabilityBoundingSet) => "capability_bounding_set"
    case Step(UsernsIdentityMap) => "userns_identity_map"
    case Step(UnresolvedDnsName) => "unresolved_dns_name"
    case Refused(BadHelperArgs) => "bad_helper_args"
    case Refused(Landlock) => "landlock"
    case Refused(GrantRedirected) => "grant_redirected"
    case Refused(GrantReplaced) => "grant_replaced"
    case Refused(Seccomp) => "seccomp"
    case Refused(NamespaceSetupFailed) => "namespace_setup_failed"
    case Refused(ProcessHardening) => "process_hardening"
    case Refused(InnerStageFailed) => "inner_stage_failed"
    case Refused(ExecFailed) => "exec_failed"
    case Refused(PinMismatch) => "pin_mismatch"
    case Refused(PinUnreadable) => "pin_unreadable"
    case Refused(PinnedScript) => "pinned_script"
    case Refused(Unsupported) => "unsupported"
  }

  function StepFrom(name: string, steps: seq<Degradation>): Option<Degradation> {
    if steps == [] then None
    else if Label(Step(steps[0])) == name then Some(steps[0])
    else StepFrom(name, steps[1..])
  }

  function RefusalFrom(name: string, refusals: seq<HelperRefusal>): Option<HelperRefusal> {
    if refusals == [] then None
    else if Label(Refused(refusals[0])) == name then Some(refusals[0])
    else RefusalFrom(name, refusals[1..])
  }

  /** The two sets are disjoint and no label is used twice, so the order they are looked up in
      never decides what one means. */
  lemma LabelsDiffer(a: Named, b: Named)
    requires Label(a) == Label(b)
    ensures a == b
  {
    assert |Label(a)| == |Label(b)|;
    assert Label(a)[0] == Label(b)[0] && Label(a)[1] == Label(b)[1];
  }

  predicate OneField(text: string) {
    '\t' !in text && '\n' !in text
  }

  lemma StepLabelsAreOneField(step: Degradation)
    ensures OneField(Label(Step(step)))
  {
  }

  predicate OfTheSandbox(refusal: HelperRefusal) {
    refusal in {Landlock, GrantRedirected, GrantReplaced, Seccomp}
  }

  predicate OfTheStages(refusal: HelperRefusal) {
    refusal in {NamespaceSetupFailed, ProcessHardening}
  }

  lemma SandboxLabelsAreOneField(refusal: HelperRefusal)
    requires OfTheSandbox(refusal)
    ensures OneField(Label(Refused(refusal)))
  {
  }

  lemma StageLabelsAreOneField(refusal: HelperRefusal)
    requires OfTheStages(refusal)
    ensures OneField(Label(Refused(refusal)))
  {
  }

  lemma OtherLabelsAreOneField(refusal: HelperRefusal)
    requires !OfTheSandbox(refusal) && !OfTheStages(refusal)
    ensures OneField(Label(Refused(refusal)))
  {
  }

  lemma LabelsAreOneField(named: Named)
    ensures OneField(Label(named))
  {
    match named
    case Step(step) => StepLabelsAreOneField(step);
    case Refused(refusal) =>
      if OfTheSandbox(refusal) {
        SandboxLabelsAreOneField(refusal);
      } else if OfTheStages(refusal) {
        StageLabelsAreOneField(refusal);
      } else {
        OtherLabelsAreOneField(refusal);
      }
  }

  lemma {:induction false} StepIsFound(step: Degradation, steps: seq<Degradation>)
    requires step in steps
    ensures StepFrom(Label(Step(step)), steps) == Some(step)
  {
    if Label(Step(steps[0])) == Label(Step(step)) {
      LabelsDiffer(Step(steps[0]), Step(step));
    } else {
      StepIsFound(step, steps[1..]);
    }
  }

  lemma {:induction false} RefusalIsFound(refusal: HelperRefusal, refusals: seq<HelperRefusal>)
    requires refusal in refusals
    ensures RefusalFrom(Label(Refused(refusal)), refusals) == Some(refusal)
  {
    if Label(Refused(refusals[0])) == Label(Refused(refusal)) {
      LabelsDiffer(Refused(refusals[0]), Refused(refusal));
    } else {
      RefusalIsFound(refusal, refusals[1..]);
    }
  }

  lemma {:induction false} RefusalIsNoStep(refusal: HelperRefusal, steps: seq<Degradation>)
    ensures StepFrom(Label(Refused(refusal)), steps) == None
  {
    if steps != [] {
      if Label(Step(steps[0])) == Label(Refused(refusal)) { LabelsDiffer(Step(steps[0]), Refused(refusal)); }
      RefusalIsNoStep(refusal, steps[1..]);
    }
  }

  // ----- Encoding -----

  function Kept(detail: string): (kept: string)
    ensures OneField(kept)
  {
    if detail == "" then ""
    else
      var last := detail[|detail| - 1];
      Kept(detail[..|detail| - 1]) + if last != '\n' && last != '\t' then [last] else ""
  }

  function FirstOf(text: string, limit: nat): string {
    if |text| <= limit then text else text[..limit]
  }

  /** What crosses of a detail. */
  function Crossing(detail: string): (crossing: string)
    ensures OneField(crossing) && |crossing| <= DETAIL_LIMIT
  {
    FirstOf(Kept(detail), DETAIL_LIMIT)
  }

  function Line(name: string, detail: string): string {
    name + ['\t'] + detail
  }

  function Encoded(records: seq<Degraded>): string {
    if records == [] then ""
    else Line(Label(Step(records[0].step)), Crossing(records[0].detail)) + ['\n'] + Encoded(records[1..])
  }

  function EncodedRefusal(refusal: HelperRefusal): string {
    Line(Label(Refused(refusal)), "") + ['\n']
  }

  /** A detail, character by character, dropping what parts records and stopping at the cap. */
  method TakeDetail(detail: string) returns (crossing: string)
    ensures crossing == Crossing(detail)
  {
    crossing := "";
    for i := 0 to |detail|
      invariant crossing == Crossing(detail[..i])
    {
      assert detail[..i + 1][..i] == detail[..i];
      if detail[i] != '\n' && detail[i] != '\t' && |crossing| < DETAIL_LIMIT {
        crossing := crossing + [detail[i]];
      }
    }
    assert detail[..|detail|] == detail;
  }

  method Encode(records: seq<Degraded>) returns (out: string)
    ensures out == Encoded(records)
  {
    out := "";
    for i := 0 to |records|
      invariant out + Encoded(records[i..]) == Encoded(records)
    {
      var detail := TakeDetail(records[i].detail);
      var line := Line(Label(Step(records[i].step)), detail) + ['\n'];
      assert records[i..][1..] == records[i + 1..];
      assert out + (line + Encoded(records[i + 1..])) == out + line + Encoded(records[i + 1..]);
      out := out + line;
    }
    assert out + Encoded(records[|records|..]) == out;
  }

  // ----- Decoding -----

  function StripCr(line: string): string {
    if line != "" && line[|line| - 1] == '\r' then line[..|line| - 1] else line
  }

  /** Rust's `str::lines`: a terminated line loses its newline and one carriage return before it. */
  function Lines(text: string): seq<string>
    decreases |text|
  {
    if text == "" then []
    else
      var split := SplitOnce(text, '\n');
      SplitShrinks(text, '\n');
      if split.None? then [text] else [StripCr(split.value.0)] + Lines(split.value.1)
  }

  lemma {:induction false} SplitShrinks(text: string, mark: char)
    ensures var split := SplitOnce(text, mark);
            split.Some? ==> text == split.value.0 + [mark] + split.value.1 && mark !in split.value.0
    decreases |text|
  {
    if text != "" && text[0] != mark {
      SplitShrinks(text[1..], mark);
    }
  }

  function ReadLine(line: string): Option<Report> {
    var fields := SplitOnce(line, '\t');
    if fields.None? then None
    else
      var (name, detail) := fields.value;
      var step := StepFrom(name, STEPS);
      if step.Some? then Some(DegradedReport(Degraded(step.value, detail)))
      else
        var refusal := RefusalFrom(name, REFUSALS);
        if refusal.Some? then Some(Failed(refusal.value)) else None
  }

  /** The records among `lines`, an unrecognised line being skipped. */
  function Recognised(lines: seq<string>): seq<Report> {
    if lines == [] then []
    else (if ReadLine(lines[0]).Some? then [ReadLine(lines[0]).value] else []) + Recognised(lines[1..])
  }

  function Decoded(channel: string): (reports: seq<Report>)
    ensures |reports| <= RECORD_LIMIT
  {
    var reports := Recognised(Lines(channel));
    if |reports| <= RECORD_LIMIT then reports else reports[..RECORD_LIMIT]
  }

  // ----- What crosses -----

  /** A record as the parent reads it back. */
  function Received(record: Degraded): Report {
    DegradedReport(Degraded(record.step, StripCr(Crossing(record.detail))))
  }

  function AllReceived(records: seq<Degraded>): (reports: seq<Report>)
    ensures |reports| == |records|
  {
    if records == [] then [] else [Received(records[0])] + AllReceived(records[1..])
  }

  lemma LinesPeel(line: string, rest: string)
    requires '\n' !in line
    ensures Lines(line + ['\n'] + rest) == [StripCr(line)] + Lines(rest)
  {
    SplitOnceFinds(line, '\n', rest);
  }

  lemma FieldsPart(named: Named, detail: string)
    requires OneField(detail)
    ensures StripCr(Line(Label(named), detail)) == Line(Label(named), StripCr(detail))
    ensures SplitOnce(Line(Label(named), StripCr(detail)), '\t') == Some((Label(named), StripCr(detail)))
  {
    var name := Label(named);
    LabelsAreOneField(named);
    SplitOnceFinds(name, '\t', StripCr(detail));
    var line := Line(name, detail);
    assert line[|name|] == '\t';
    if detail != "" { assert line[|line| - 1] == detail[|detail| - 1]; }
  }

  lemma StepLineIsRead(step: Degradation, detail: string)
    requires OneField(detail)
    ensures ReadLine(StripCr(Line(Label(Step(step)), detail))) == Some(DegradedReport(Degraded(step, StripCr(detail))))
  {
    FieldsPart(Step(step), detail);
    EveryStepIsListed(step);
    StepIsFound(step, STEPS);
  }

  lemma RefusalLineIsRead(refusal: HelperRefusal)
    ensures ReadLine(StripCr(Line(Label(Refused(refusal)), ""))) == Some(Failed(refusal))
  {
    FieldsPart(Refused(refusal), "");
    RefusalIsNoStep(refusal, STEPS);
    EveryRefusalIsListed(refusal);
    RefusalIsFound(refusal, REFUSALS);
  }

  lemma EveryStepIsListed(step: Degradation)
    ensures step in STEPS
  {
    assert STEPS[0] == CapabilityBoundingSet && STEPS[1] == UsernsIdentityMap && STEPS[2] == UnresolvedDnsName;
  }

  lemma EveryRefusalIsListed(refusal: HelperRefusal)
    ensures refusal in REFUSALS
  {
    assert REFUSALS[0] == BadHelperArgs && REFUSALS[1] == Landlock && REFUSALS[2] == GrantRedirected;
    assert REFUSALS[3] == GrantReplaced && REFUSALS[4] == Seccomp && REFUSALS[5] == NamespaceSetupFailed;
    assert REFUSALS[6] == ProcessHardening && REFUSALS[7] == InnerStageFailed && REFUSALS[8] == ExecFailed;
    assert REFUSALS[9] == PinMismatch && REFUSALS[10] == PinUnreadable && REFUSALS[11] == PinnedScript;
    assert REFUSALS[12] == Unsupported;
  }

  lemma {:induction false} EncodedThenRead(records: seq<Degraded>, rest: string)
    ensures Recognised(Lines(Encoded(records) + rest)) == AllReceived(records) + Recognised(Lines(rest))
    decreases |records|
  {
    if records == [] {
      assert Encoded(records) + rest == rest;
    } else {
      var record, more := records[0], Encoded(records[1..]) + rest;
      var detail := Crossing(record.detail);
      var line := Line(Label(Step(record.step)), detail);
      LabelsAreOneField(Step(record.step));
      assert Encoded(records) + rest == line + ['\n'] + more;
      LinesPeel(line, more);
      StepLineIsRead(record.step, detail);
      EncodedThenRead(records[1..], rest);
    }
  }

  predicate OncePerStep(records: seq<Degraded>) {
    forall i, j | 0 <= i < j < |records| :: records[i].step != records[j].step
  }

  /** What a run reports, as whoever reads the channel is told it. */
  function Told(records: seq<Degraded>, refusal: Option<HelperRefusal>): seq<Report> {
    AllReceived(records) + if refusal.Some? then [Failed(refusal.value)] else []
  }

  /** The whole channel read back: the steps in order, each detail without its separators, cut to
      the cap and short of at most one carriage return, and the refusal last. So no detail, whatever
      it holds, adds a record or takes one away; and while each step reports once, as in a run it
      does, the limit on records cuts nothing. */
  lemma ChannelRoundTrips(records: seq<Degraded>, refusal: Option<HelperRefusal>)
    ensures var told := Told(records, refusal);
            var decoded := Decoded(Encoded(records) + if refusal.Some? then EncodedRefusal(refusal.value) else "");
            && decoded == (if |told| <= RECORD_LIMIT then told else told[..RECORD_LIMIT])
            && (OncePerStep(records) ==> decoded == told)
  {
    StepsReportOnce(records);
    if refusal.None? {
      EncodedThenRead(records, "");
    } else {
      EncodedThenRead(records, EncodedRefusal(refusal.value));
      RefusalIsRead(refusal.value);
    }
  }

  lemma RefusalIsRead(refusal: HelperRefusal)
    ensures Recognised(Lines(EncodedRefusal(refusal))) == [Failed(refusal)]
  {
    var line := Line(Label(Refused(refusal)), "");
    LabelsAreOneField(Refused(refusal));
    LinesPeel(line, "");
    assert line + ['\n'] + "" == EncodedRefusal(refusal);
    RefusalLineIsRead(refusal);
  }

  /** Each step reporting at most once, a channel never holds more than the limit. */
  lemma StepsReportOnce(records: seq<Degraded>)
    ensures |records| < RECORD_LIMIT || !OncePerStep(records)
  {
    if |records| >= RECORD_LIMIT {
      var a, b, c, d := records[0].step, records[1].step, records[2].step, records[3].step;
      assert a == b || a == c || a == d || b == c || b == d || c == d;
    }
  }

  /** A channel somebody else also wrote to: lines, each terminated. */
  function Joined(lines: seq<string>): string {
    if lines == [] then "" else lines[0] + ['\n'] + Joined(lines[1..])
  }

  /** Lines nobody recognises change nothing, wherever they are put. */
  lemma {:induction false} JunkChangesNothing(before: seq<string>, junk: string, after: seq<string>)
    requires '\n' !in junk && ReadLine(StripCr(junk)).None?
    requires forall line | line in before :: '\n' !in line
    ensures Decoded(Joined(before + [junk] + after)) == Decoded(Joined(before + after))
  {
    JunkIsSkipped(before, junk, after);
  }

  lemma {:induction false} JunkIsSkipped(before: seq<string>, junk: string, after: seq<string>)
    requires '\n' !in junk && ReadLine(StripCr(junk)).None?
    requires forall line | line in before :: '\n' !in line
    ensures Recognised(Lines(Joined(before + [junk] + after))) == Recognised(Lines(Joined(before + after)))
    decreases |before|
  {
    if before == [] {
      assert before + [junk] + after == [junk] + after && before + after == after;
      assert ([junk] + after)[1..] == after;
      LinesPeel(junk, Joined(after));
    } else {
      assert (before + [junk] + after)[1..] == before[1..] + [junk] + after;
      assert (before + after)[1..] == before[1..] + after;
      LinesPeel(before[0], Joined(before[1..] + [junk] + after));
      LinesPeel(before[0], Joined(before[1..] + after));
      JunkIsSkipped(before[1..], junk, after);
    }
  }
}
