/** Character classes the terminal sinks and the parsers share. `IsControl` and `IsWhitespace`
    are Rust's `char::is_control` and `char::is_whitespace`. */
module Text {

  /** General category Cc, and nothing else. */
  predicate IsControl(c: char) {
    c <= '\U{1F}' || '\U{7F}' <= c <= '\U{9F}'
  }

  /** The White_Space property. */
  predicate IsWhitespace(c: char) {
    || '\U{9}' <= c <= '\U{D}' || c == ' ' || c == '\U{85}' || c == '\U{A0}' || c == '\U{1680}'
    || '\U{2000}' <= c <= '\U{200A}' || c == '\U{2028}' || c == '\U{2029}' || c == '\U{202F}'
    || c == '\U{205F}' || c == '\U{3000}'
  }

  /** Renders as nothing, or reorders what follows. */
  predicate Invisible(c: char) {
    || c == '\U{AD}' || c == '\U{34F}' || c == '\U{61C}' || c == '\U{6DD}' || c == '\U{70F}' || c == '\U{8E2}'
    || c == '\U{180E}' || c == '\U{3164}' || c == '\U{FEFF}' || c == '\U{FFA0}' || c == '\U{110BD}' || c == '\U{110CD}'
    || '\U{600}' <= c <= '\U{605}' || '\U{890}' <= c <= '\U{891}' || '\U{115F}' <= c <= '\U{1160}'
    || '\U{200B}' <= c <= '\U{200F}' || '\U{202A}' <= c <= '\U{202E}' || '\U{2060}' <= c <= '\U{2064}'
    || '\U{2066}' <= c <= '\U{206F}' || '\U{FE00}' <= c <= '\U{FE0F}' || '\U{FFF9}' <= c <= '\U{FFFB}'
    || '\U{1BCA0}' <= c <= '\U{1BCA3}' || '\U{1D173}' <= c <= '\U{1D17A}' || '\U{13430}' <= c <= '\U{1343F}'
    || '\U{E0000}' <= c <= '\U{E007F}' || '\U{E0100}' <= c <= '\U{E01EF}'
  }

  predicate LineSeparator(c: char) {
    c == '\U{2028}' || c == '\U{2029}'
  }

  const REPLACEMENT: char := '\U{FFFD}'

  /** Neither a newline nor the empty text is part-way through a line. */
  predicate MidLine(text: string) {
    text != "" && text[|text| - 1] != '\n'
  }

  predicate IsBlank(text: string) {
    forall c | c in text :: IsWhitespace(c)
  }
}
