/** How model-chosen and foreign text reaches a terminal on one line (`error_line.rs`, and the
    spelling half of `agent_gate.rs`). */
module TerminalSpelling {
  import opened Text

  const SUBJECT_CAP := 512
  const ELLIPSIS: char := '\U{2026}'

  function Spell(c: char): string {
    if c == '\n' then ['\\', 'n']
    else if c == '\t' then ['\\', 't']
    else if c == '\\' then ['\\', '\\']
    else if c == '\U{2028}' then ['\\', 'u', '{', '2', '0', '2', '8', '}']
    else if c == '\U{2029}' then ['\\', 'u', '{', '2', '0', '2', '9', '}']
    else if IsControl(c) || Invisible(c) then [REPLACEMENT]
    else [c]
  }

  function Spelled(text: string): string {
    if text == "" then "" else Spell(text[0]) + Spelled(text[1..])
  }

  method PushSpelled(before: string, text: string) returns (line: string)
    ensures line == before + Spelled(text)
  {
    line := before;
    for i := 0 to |text|
      invariant line + Spelled(text[i..]) == before + Spelled(text)
    {
      var c := text[i];
      assert text[i..][1..] == text[i + 1..];
      assert line + (Spell(c) + Spelled(text[i + 1..])) == line + Spell(c) + Spelled(text[i + 1..]);
      match c {
        case '\n' => line := line + ['\\', 'n'];
        case '\t' => line := line + ['\\', 't'];
        case '\\' => line := line + ['\\', '\\'];
        case _ =>
          if LineSeparator(c) {
            line := line + ['\\', 'u', '{', '2', '0', '2', if c == '\U{2028}' then '8' else '9', '}'];
          } else if IsControl(c) || Invisible(c) {
            line := line + [REPLACEMENT];
          } else {
            line := line + [c];
          }
      }
    }
    assert line + Spelled(text[|text|..]) == line;
  }

  // ----- Reading it back -----

  /** What the spelling cannot tell apart. */
  function CanonicalChar(c: char): char {
    if c != '\n' && c != '\t' && (IsControl(c) || Invisible(c)) then REPLACEMENT else c
  }

  function Canonical(text: string): (canonical: string)
    ensures |canonical| == |text|
    ensures forall i | 0 <= i < |text| :: canonical[i] == CanonicalChar(text[i])
  {
    if text == "" then "" else [CanonicalChar(text[0])] + Canonical(text[1..])
  }

  function Unspelled(text: string): string
    decreases |text|
  {
    if text == "" then ""
    else if text[0] != '\\' || |text| == 1 then [text[0]] + Unspelled(text[1..])
    else if text[1] == 'n' then ['\n'] + Unspelled(text[2..])
    else if text[1] == 't' then ['\t'] + Unspelled(text[2..])
    else if text[1] == 'u' && |text| >= 8 then
      [if text[6] == '8' then '\U{2028}' else '\U{2029}'] + Unspelled(text[8..])
    else ['\\'] + Unspelled(text[2..])
  }

  lemma OneCharIsRead(c: char, rest: string)
    ensures Unspelled(Spell(c) + rest) == [CanonicalChar(c)] + Unspelled(rest)
  {
    var text := Spell(c) + rest;
    assert text[|Spell(c)|..] == rest;
    assert text[0] == Spell(c)[0];
    if |Spell(c)| > 1 { assert text[1] == Spell(c)[1]; }
    if |Spell(c)| == 8 { assert text[6] == Spell(c)[6]; }
  }

  /** A decoder recovers everything but which character was replaced. */
  lemma {:induction false} SpellingIsRead(text: string, rest: string)
    ensures Unspelled(Spelled(text) + rest) == Canonical(text) + Unspelled(rest)
    decreases |text|
  {
    if text == "" {
      assert Spelled(text) + rest == rest;
    } else {
      assert Spelled(text) + rest == Spell(text[0]) + (Spelled(text[1..]) + rest);
      OneCharIsRead(text[0], Spelled(text[1..]) + rest);
      SpellingIsRead(text[1..], rest);
    }
  }

  lemma {:induction false} SpellingReadsCanonical(text: string)
    ensures Spelled(text) == Spelled(Canonical(text))
  {
    if text != "" {
      assert Canonical(text)[1..] == Canonical(text[1..]);
      SpellingReadsCanonical(text[1..]);
    }
  }

  /** Uniquely decodable: two texts are spelled alike exactly when they are alike once every
      character that could rewrite the terminal is replaced. */
  lemma SpelledAlikeIffCanonicallyAlike(a: string, b: string)
    ensures Spelled(a) == Spelled(b) <==> Canonical(a) == Canonical(b)
  {
    SpellingIsRead(a, "");
    SpellingIsRead(b, "");
    assert Spelled(a) + "" == Spelled(a) && Spelled(b) + "" == Spelled(b);
    assert Canonical(a) + Unspelled("") == Canonical(a) && Canonical(b) + Unspelled("") == Canonical(b);
    SpellingReadsCanonical(a);
    SpellingReadsCanonical(b);
  }

  // ----- The sink's own strip -----

  function Replaced(c: char): char {
    if IsControl(c) || Invisible(c) || LineSeparator(c) then REPLACEMENT else c
  }

  function Stripped(text: string): (stripped: string)
    ensures |stripped| == |text|
    ensures forall i | 0 <= i < |text| :: stripped[i] == Replaced(text[i])
  {
    if text == "" then "" else [Replaced(text[0])] + Stripped(text[1..])
  }

  /** Nothing in it can rewrite or break the line it is printed on. */
  predicate Inert(text: string) {
    forall c | c in text :: !IsControl(c) && !Invisible(c) && !LineSeparator(c)
  }

  /** The strip leaves alone exactly what is inert, and always leaves something inert: it is
      idempotent. */
  lemma StrippingStops(text: string)
    ensures Inert(Stripped(text)) && Stripped(Stripped(text)) == Stripped(text)
    ensures Stripped(text) == text <==> Inert(text)
  {
    var stripped := Stripped(text);
    forall c | c in stripped ensures !IsControl(c) && !Invisible(c) && !LineSeparator(c) {
      var i :| 0 <= i < |stripped| && stripped[i] == c;
    }
    if stripped == text {
      forall c | c in text ensures Replaced(c) == c {
        var i :| 0 <= i < |text| && text[i] == c;
      }
    } else {
      var i :| 0 <= i < |text| && stripped[i] != text[i];
      assert text[i] in text;
    }
  }

  lemma InertJoins(a: string, b: string)
    requires Inert(a) && Inert(b)
    ensures Inert(a + b)
  {
  }

  lemma OneSpellingIsInert(c: char)
    ensures Inert(Spell(c))
  {
  }

  lemma {:induction false} SpellingIsInert(text: string)
    ensures Inert(Spelled(text))
  {
    if text != "" {
      OneSpellingIsInert(text[0]);
      SpellingIsInert(text[1..]);
      InertJoins(Spell(text[0]), Spelled(text[1..]));
    }
  }

  /** How the two layers compose: the field's spelling holds nothing the sink's strip changes. */
  lemma StripLeavesSpelling(text: string)
    ensures Stripped(Spelled(text)) == Spelled(text)
  {
    SpellingIsInert(text);
    StrippingStops(Spelled(text));
  }

  // ----- One field, cut to length -----

  function Head(text: string): string {
    if |text| <= SUBJECT_CAP then text else text[..SUBJECT_CAP]
  }

  function Printable(text: string): string {
    Spelled(Head(text)) + if |text| > SUBJECT_CAP then [ELLIPSIS] else ""
  }

  lemma PrintableIsRead(text: string)
    ensures Unspelled(Printable(text)) == Canonical(Head(text)) + if |text| > SUBJECT_CAP then [ELLIPSIS] else ""
  {
    var mark := if |text| > SUBJECT_CAP then [ELLIPSIS] else "";
    SpellingIsRead(Head(text), mark);
    assert Unspelled(mark) == mark;
  }

  /** A cut is never mistaken for the end: two fields print alike exactly when what was kept is
      canonically alike and both were cut or neither was. */
  lemma PrintedAlikeIffKeptAlike(a: string, b: string)
    ensures Printable(a) == Printable(b) <==>
            Canonical(Head(a)) == Canonical(Head(b)) && (|a| > SUBJECT_CAP <==> |b| > SUBJECT_CAP)
  {
    PrintableIsRead(a);
    PrintableIsRead(b);
    SpelledAlikeIffCanonicallyAlike(Head(a), Head(b));
    var keptA, keptB := Canonical(Head(a)), Canonical(Head(b));
    if Printable(a) == Printable(b) {
      assert |Unspelled(Printable(a))| == |Unspelled(Printable(b))|;
      assert Unspelled(Printable(a))[..|keptA|] == keptA && Unspelled(Printable(b))[..|keptB|] == keptB;
    }
  }

  // ----- An error and its causes -----

  predicate Within(text: string, whole: string) {
    exists i, j :: 0 <= i <= j <= |whole| && whole[i..j] == text
  }

  /** A link is printed unless its parent's text already holds it. */
  predicate IsPrinted(chain: seq<string>, k: nat)
    requires k < |chain|
  {
    k == 0 || !Within(chain[k], chain[k - 1])
  }

  function LineUpTo(chain: seq<string>, n: nat): string
    requires 0 < n <= |chain|
  {
    if n == 1 then Spelled(chain[0])
    else if IsPrinted(chain, n - 1) then LineUpTo(chain, n - 1) + [':', ' '] + Spelled(chain[n - 1])
    else LineUpTo(chain, n - 1)
  }

  /** The walk down the causes, `parent` reassigned as it goes. */
  method ErrorLine(chain: seq<string>) returns (line: string)
    requires chain != []
    ensures line == LineUpTo(chain, |chain|)
  {
    var parent := chain[0];
    line := PushSpelled("", parent);
    assert line == Spelled(parent);
    for k := 1 to |chain|
      invariant parent == chain[k - 1] && line == LineUpTo(chain, k)
    {
      var text := chain[k];
      if !Within(text, parent) {
        line := PushSpelled(line + [':', ' '], text);
      }
      parent := text;
    }
  }

  lemma SliceOfSlice(text: string, k: nat, l: nat, i: nat, j: nat)
    requires k <= l <= |text| && i <= j <= l - k
    ensures text[k..l][i..j] == text[k + i..k + j]
  {
    forall x | 0 <= x < j - i ensures text[k..l][i..j][x] == text[k + i..k + j][x] {
      assert text[k..l][i + x] == text[k + i + x];
    }
  }

  lemma WithinIsTransitive(a: string, b: string, c: string)
    requires Within(a, b) && Within(b, c)
    ensures Within(a, c)
  {
    var i, j :| 0 <= i <= j <= |b| && b[i..j] == a;
    var k, l :| 0 <= k <= l <= |c| && c[k..l] == b;
    SliceOfSlice(c, k, l, i, j);
  }

  /** No cause goes missing: each one's text lies within some link that was printed. */
  lemma {:induction false} NoCauseIsHidden(chain: seq<string>, k: nat) returns (printed: nat)
    requires k < |chain|
    ensures printed <= k && IsPrinted(chain, printed) && Within(chain[k], chain[printed])
  {
    if IsPrinted(chain, k) {
      printed := k;
      assert chain[k][0..|chain[k]|] == chain[k];
    } else {
      printed := NoCauseIsHidden(chain, k - 1);
      WithinIsTransitive(chain[k], chain[k - 1], chain[printed]);
    }
  }

  /** And the report is one line the terminal can only print. */
  lemma {:induction false} ErrorLineIsInert(chain: seq<string>, n: nat)
    requires 0 < n <= |chain|
    ensures Inert(LineUpTo(chain, n)) && '\n' !in LineUpTo(chain, n)
    decreases n
  {
    SpellingIsInert(chain[n - 1]);
    if n > 1 {
      ErrorLineIsInert(chain, n - 1);
      SeparatorIsInert();
      InertJoins(LineUpTo(chain, n - 1), [':', ' ']);
      InertJoins(LineUpTo(chain, n - 1) + [':', ' '], Spelled(chain[n - 1]));
    }
    NewlineIsNotInert(LineUpTo(chain, n));
  }

  lemma SeparatorIsInert()
    ensures Inert([':', ' '])
  {
  }

  lemma NewlineIsNotInert(text: string)
    requires Inert(text)
    ensures '\n' !in text
  {
    assert IsControl('\n');
  }
}
