/** What reaches the terminal and the pipe, said on the texts: the rounds and their gaps, the reasoning,
    the remarks, the line an error comes to, and the characters that are let through. */
module OutputLaws {
  import opened Wrappers
  import opened Text
  import opened Wire = WireAccumulate
  import opened Render
  import Terminal = TerminalSpelling

  // ----- The answer -----

  function Say(text: string): Op {
    Happened(AgentEvent.Text(text))
  }

  /** Text after a separation starts a round of its own, and text after text continues one. */
  lemma RoundsStartWhereSeparated(ops: seq<Op>, text: string)
    ensures Rounds(ops + [Separated]) == Rounds(ops) + [""]
    ensures var rounds := Rounds(ops);
            Rounds(ops + [Say(text)]) == rounds[..|rounds| - 1] + [rounds[|rounds| - 1] + text]
  {
    assert (ops + [Separated])[..|ops|] == ops && (ops + [Say(text)])[..|ops|] == ops;
  }

  lemma TwoTextsApart(a: string, b: string)
    requires a != "" && b != ""
    ensures Joined([a, b]) == a + (if a[|a| - 1] == '\n' then ['\n'] else ['\n', '\n']) + b
  {
    assert [a, b][..1] == [a] && [a][..0] == [];
    assert Joined([]) == "" && Joined([a]) == a;
  }

  /** Two rounds in full, told apart and ended. */
  lemma TwoRoundsInFull(a: string, b: string)
    requires a != "" && b != "" && a[|a| - 1] != '\n' && b[|b| - 1] != '\n'
    ensures Closed(Joined(Rounds([Say(a)] + [Separated] + [Say(b)]))) == a + ['\n', '\n'] + b + ['\n']
  {
    RoundsStartWhereSeparated([], a);
    assert Rounds([]) == [""] && [] + [Say(a)] == [Say(a)] && "" + a == a && [""][..0] + [a] == [a];
    RoundsStartWhereSeparated([Say(a)], a);
    RoundsStartWhereSeparated([Say(a)] + [Separated], b);
    LastGrows(a, b);
    TwoTextsApart(a, b);
  }

  lemma AnEmptyRoundComesFirst(a: string)
    requires a != ""
    ensures Joined(["", a]) == a
  {
    assert ["", a][..1] == [""] && [""][..0] == [];
    assert Joined([]) == "" && Joined([""]) == "";
  }

  lemma LastGrows(round: string, text: string)
    ensures var rounds := [round] + [""];
            rounds[..|rounds| - 1] + [rounds[|rounds| - 1] + text] == [round, text]
  {
    assert ([round] + [""])[..1] == [round] && "" + text == text;
  }

  lemma ASeparationAlone(none: seq<Op>, one: seq<Op>)
    requires none == [] && one == [Separated]
    ensures Rounds(one) == [""] + [""]
  {
    RoundsStartWhereSeparated(none, "");
    assert one == none + [Separated];
  }

  lemma ASeparationOpensTheSecond(a: string)
    ensures Rounds([Separated] + [Say(a)]) == ["", a]
  {
    ASeparationAlone([], [Separated]);
    RoundsStartWhereSeparated([Separated], a);
    LastGrows("", a);
  }

  /** A separation asked for before anything was said leaves nothing in front of it. */
  lemma NoGapComesFirst(a: string)
    requires a != ""
    ensures Joined(Rounds([Separated] + [Say(a)])) == a
  {
    ASeparationOpensTheSecond(a);
    AnEmptyRoundComesFirst(a);
  }

  // ----- The reasoning -----

  /** The reasoning shown, in order, made inert. */
  function Thoughts(ops: seq<Op>): string {
    if ops == [] then ""
    else
      Thoughts(ops[..|ops| - 1]) +
      if ops[|ops| - 1].Happened? && ops[|ops| - 1].event.Thinking? then Inert(ops[|ops| - 1].event.delta) else ""
  }

  /** The bursts hold it and nothing else; hidden, they hold nothing. */
  lemma {:induction false} BurstsHoldTheThoughts(ops: seq<Op>)
    ensures Concat(Bursts(ops, true)) == Thoughts(ops)
  {
    if ops != [] {
      var before := ops[..|ops| - 1];
      BurstsHoldTheThoughts(before);
      var bursts, last := Bursts(before, true), ops[|ops| - 1];
      if last.Happened? {
        if EndsABurst(last.event) {
          assert (bursts + [""])[..|bursts|] == bursts;
        } else if last.event.Thinking? {
          var next := BurstsAfter(bursts, last.event, true);
          assert next[..|next| - 1] == bursts[..|bursts| - 1];
        }
      }
    }
  }

  lemma {:induction false} HiddenReasoningIsNotWritten(ops: seq<Op>)
    ensures AllClosed(Bursts(ops, false)) == ""
  {
    if ops != [] {
      var before := ops[..|ops| - 1];
      HiddenReasoningIsNotWritten(before);
      var bursts, last := Bursts(before, false), ops[|ops| - 1];
      if last.Happened? && EndsABurst(last.event) { assert (bursts + [""])[..|bursts|] == bursts; }
    }
  }

  /** A line separator is the newline it stands for; anything else that could rewrite the screen is the
      replacement character; a newline and a tab are themselves. */
  lemma WhatAReplacementIs(c: char)
    ensures InertChar('\n') == '\n' && InertChar('\t') == '\t'
    ensures InertChar('\U{2028}') == '\n' && InertChar('\U{2029}') == '\n'
    ensures c != '\n' && c != '\t' && IsControl(c) ==> InertChar(c) == '\U{FFFD}'
    ensures !LineSeparator(c) && Invisible(c) ==> InertChar(c) == '\U{FFFD}'
  {
  }

  // ----- The remarks -----

  /** A cut answer is said to be one, and an ending what it was, once each; where stdout failed, only a
      lost operator still is, and where both are said the operator comes first. */
  lemma WhatIsRemarked(ending: Option<Unfinished>, answer: Answer, failed: bool)
    ensures var remarks := Remarks(ending, answer, failed);
            && (AtMaxTokens in remarks <==> answer == Truncated && !failed)
            && (forall e :: About(e) in remarks <==> ending == Some(e) && (!failed || e == Aborted))
            && |remarks| <= 2
            && (|remarks| == 2 ==> remarks[0] != remarks[1] && (remarks[0] == About(Aborted) <==> ending == Some(Aborted)))
  {
  }

  /** A remark is its line, after a reset of the rendition where that renders. */
  lemma ARemarkIsALine(line: Line)
    ensures Account(Device.Terminal, line) == ['\U{1B}', '[', '0', 'm'] + line + ['\n']
    ensures Account(Redirected, line) == line + ['\n']
  {
    assert "" + line == line;
  }

  // ----- The error line -----

  /** The line grows by each printed link's spelling, after a colon and a space, and by nothing for one
      that is not. */
  lemma TheLineGrowsByPrintedLinks(chain: seq<string>, k: nat)
    requires 0 < k < |chain|
    ensures Terminal.LineUpTo(chain, 1) == Terminal.Spelled(chain[0])
    ensures Terminal.LineUpTo(chain, k + 1) ==
            if Terminal.Within(chain[k], chain[k - 1]) then Terminal.LineUpTo(chain, k)
            else Terminal.LineUpTo(chain, k) + ": " + Terminal.Spelled(chain[k])
  {
  }

  lemma OneLinkOnlyAdds(chain: seq<string>, n: nat, before: string, after: string)
    requires 0 < n < |chain| && before == Terminal.LineUpTo(chain, n) && after == Terminal.LineUpTo(chain, n + 1)
    ensures before <= after
  {
    TheLineGrowsByPrintedLinks(chain, n);
  }

  lemma {:induction false} TheLineOnlyGrows(chain: seq<string>, m: nat, n: nat)
    requires 0 < m <= n <= |chain|
    ensures Terminal.LineUpTo(chain, m) <= Terminal.LineUpTo(chain, n)
    decreases n - m
  {
    if m < n {
      TheLineOnlyGrows(chain, m, n - 1);
      OneLinkOnlyAdds(chain, n - 1, Terminal.LineUpTo(chain, n - 1), Terminal.LineUpTo(chain, n));
    }
  }

  function StartOf(chain: seq<string>, k: nat): nat
    requires k < |chain|
  {
    if k == 0 then 0 else |Terminal.LineUpTo(chain, k)| + 2
  }

  lemma ItEndsTheLineSoFar(before: string, spelled: string, line: string)
    requires line == before + ": " + spelled
    ensures |line| == |before| + 2 + |spelled| && line[|before| + 2..] == spelled && line[|before|..|before| + 2] == ": "
  {
  }

  lemma ABeginningKeepsItsPlaces(before: string, line: string, i: nat, j: nat)
    requires before <= line && i <= j <= |before|
    ensures line[i..j] == before[i..j]
  {
  }

  /** So every printed link's spelling is on the line, after the separator if it is not the first, and
      each after the ones before it. */
  lemma EveryPrintedLinkIsOnTheLine(chain: seq<string>, k: nat, n: nat)
    requires k < n <= |chain| && Terminal.IsPrinted(chain, k)
    ensures var line, start := Terminal.LineUpTo(chain, n), StartOf(chain, k);
            var end := start + |Terminal.Spelled(chain[k])|;
            && end <= |line| && line[start..end] == Terminal.Spelled(chain[k])
            && (k > 0 ==> line[start - 2..start] == ": ")
            && end == |Terminal.LineUpTo(chain, k + 1)|
  {
    var line, upTo, spelled := Terminal.LineUpTo(chain, n), Terminal.LineUpTo(chain, k + 1), Terminal.Spelled(chain[k]);
    var start := StartOf(chain, k);
    TheLineOnlyGrows(chain, k + 1, n);
    if k > 0 {
      TheLineGrowsByPrintedLinks(chain, k);
      ItEndsTheLineSoFar(Terminal.LineUpTo(chain, k), spelled, upTo);
      ABeginningKeepsItsPlaces(upTo, line, start - 2, start);
    }
    ABeginningKeepsItsPlaces(upTo, line, start, |upTo|);
  }

  // ----- The characters -----

  /** Printable ASCII and the replacement character are neither control, nor invisible, nor a line
      break, so no strip or spelling of them loops; the escape, a joiner and an override are not let by. */
  lemma WhoIsWho(c: char)
    ensures ' ' <= c <= '~' ==> !IsControl(c) && !Invisible(c) && !LineSeparator(c)
    ensures !IsControl('\U{FFFD}') && !Invisible('\U{FFFD}') && !LineSeparator('\U{FFFD}')
    ensures IsControl('\U{1B}') && IsControl('\U{9B}') && IsControl('\n') && IsControl('\U{7F}')
    ensures Invisible('\U{200B}') && Invisible('\U{200D}') && Invisible('\U{202E}') && Invisible('\U{FEFF}') && Invisible('\U{AD}')
    ensures LineSeparator('\U{2028}') && LineSeparator('\U{2029}')
  {
  }

  /** What each character is spelled as. */
  lemma SpelledOneByOne(a: string, b: string, c: char)
    ensures Terminal.Spelled(a + b) == Terminal.Spelled(a) + Terminal.Spelled(b)
    ensures Terminal.Spell('\n') == "\\n" && Terminal.Spell('\t') == "\\t" && Terminal.Spell('\\') == "\\\\"
    ensures Terminal.Spell('\U{2028}') == "\\u{2028}" && Terminal.Spell('\U{2029}') == "\\u{2029}"
    ensures c !in {'\n', '\t'} && (IsControl(c) || Invisible(c)) ==> Terminal.Spell(c) == ['\U{FFFD}']
    ensures ' ' <= c <= '~' && c != '\\' ==> Terminal.Spell(c) == [c]
  {
    SpellingGoesOn(a, b);
    WhoIsWho(c);
  }

  lemma {:induction false} SpellingGoesOn(a: string, b: string)
    ensures Terminal.Spelled(a + b) == Terminal.Spelled(a) + Terminal.Spelled(b)
  {
    if a == "" {
      assert a + b == b;
    } else {
      assert (a + b)[1..] == a[1..] + b;
      SpellingGoesOn(a[1..], b);
    }
  }
}
