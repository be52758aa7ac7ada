/** The part of serde_json the stored transcript depends on: how a Rust `String`
    is written as a JSON string literal, how such a literal is read back, and
    JSON's insignificant whitespace. */
module JsonText {
  import opened Wrappers

  datatype JsonError =
    | UnexpectedEnd
    | UnexpectedChar(found: char)
    | ControlCharacter
    | InvalidEscape
    | LoneSurrogate
    | UnknownField(name: string)
    | UnknownVariant(tag: string)
    | TrailingCharacters

  predicate IsWhitespace(c: char)
  {
    c == ' ' || c == '\t' || c == '\n' || c == '\r'
  }

  /** Drops leading JSON whitespace; what is left is a suffix of `s`. */
  function SkipWhitespace(s: string): (r: string)
    ensures |r| <= |s|
    ensures r == [] || !IsWhitespace(r[0])
  {
    if |s| > 0 && IsWhitespace(s[0]) then SkipWhitespace(s[1..]) else s
  }

  /** Consumes optional whitespace and then the punctuation character `c`. */
  function Expect(s: string, c: char): (r: Result<string, JsonError>)
    ensures r.Success? ==> |r.value| < |s|
    ensures r.Success? <==> (var t := SkipWhitespace(s); |t| > 0 && t[0] == c)
  {
    var t := SkipWhitespace(s);
    if |t| == 0 then Failure(UnexpectedEnd)
    else if t[0] == c then Success(t[1..])
    else Failure(UnexpectedChar(t[0]))
  }

  const HexDigits: string := "0123456789abcdef"

  function HexValue(c: char): (r: Option<nat>)
    ensures r.Some? ==> r.value < 16
  {
    if '0' <= c <= '9' then Some(c as int - '0' as int)
    else if 'a' <= c <= 'f' then Some(c as int - 'a' as int + 10)
    else if 'A' <= c <= 'F' then Some(c as int - 'A' as int + 10)
    else None
  }

  lemma HexDigitValue(k: nat)
    requires k < 16
    ensures HexValue(HexDigits[k]) == Some(k)
  {
  }

  /** How serde_json writes one character inside a string literal: the two
      structural characters and the control characters are escaped (short forms
      where JSON has one, `\u00xx` with lower-case hex otherwise), every other
      character is written as it is. */
  function EscapeChar(c: char): (r: string)
    ensures |r| > 0 && r[0] != '"'
    ensures r[0] == '\\' || ((c as int) >= 0x20 && r == [c])
  {
    if c == '"' then "\\\""
    else if c == '\\' then "\\\\"
    else if c == '\n' then "\\n"
    else if c == '\r' then "\\r"
    else if c == '\t' then "\\t"
    else if c as int == 0x08 then "\\b"
    else if c as int == 0x0C then "\\f"
    else if (c as int) < 0x20 then "\\u00" + [HexDigits[c as int / 16], HexDigits[c as int % 16]]
    else [c]
  }

  function Escape(s: string): string
  {
    if s == [] then [] else EscapeChar(s[0]) + Escape(s[1..])
  }

  /** A Rust `String` as serde_json writes it. */
  function EncodeString(s: string): (r: string)
    ensures |r| >= 2 && r[0] == '"'
  {
    "\"" + Escape(s) + "\""
  }

  /** The character an escape `\e` stands for, for the one-letter escapes. */
  function SimpleUnescape(e: char): Option<char>
  {
    if e == '"' then Some('"')
    else if e == '\\' then Some('\\')
    else if e == '/' then Some('/')
    else if e == 'b' then Some(0x08 as char)
    else if e == 'f' then Some(0x0C as char)
    else if e == 'n' then Some('\n')
    else if e == 'r' then Some('\r')
    else if e == 't' then Some('\t')
    else None
  }

  /** Reads `\uXXXX` at the start of `s`; a code in the surrogate range is
      rejected, since surrogate pairs are not part of this model. */
  function ParseUnicodeEscape(s: string): (r: Result<(char, nat), JsonError>)
    requires |s| >= 2
    ensures r.Success? ==> r.value.1 == 6 <= |s|
  {
    if |s| < 6 then Failure(UnexpectedEnd)
    else
      match (HexValue(s[2]), HexValue(s[3]), HexValue(s[4]), HexValue(s[5]))
      case (Some(a), Some(b), Some(c), Some(d)) =>
        var code := a * 4096 + b * 256 + c * 16 + d;
        if 0xD800 <= code < 0xE000 then Failure(LoneSurrogate)
        else Success((code as char, 6))
      case _ => Failure(InvalidEscape)
  }

  /** Reads one character of a string literal's body (not its closing quote):
      the character and how many input characters it took. */
  function ParseOneChar(s: string): (r: Result<(char, nat), JsonError>)
    requires |s| > 0
    ensures r.Success? ==> 1 <= r.value.1 <= |s|
  {
    if s[0] == '\\' then
      if |s| < 2 then Failure(UnexpectedEnd)
      else if s[1] == 'u' then ParseUnicodeEscape(s)
      else match SimpleUnescape(s[1])
        case Some(c) => Success((c, 2))
        case None => Failure(InvalidEscape)
    else if (s[0] as int) < 0x20 then Failure(ControlCharacter)
    else Success((s[0], 1))
  }

  /** Reads a string literal's body up to and including its closing quote:
      the decoded text and what follows the quote. */
  function ParseStringBody(s: string): (r: Result<(string, string), JsonError>)
    ensures r.Success? ==> |r.value.1| < |s|
    decreases |s|
  {
    if |s| == 0 then Failure(UnexpectedEnd)
    else if s[0] == '"' then Success(([], s[1..]))
    else
      match ParseOneChar(s)
      case Failure(e) => Failure(e)
      case Success((c, n)) =>
        match ParseStringBody(s[n..])
        case Failure(e) => Failure(e)
        case Success((text, rest)) => Success(([c] + text, rest))
  }

  /** Reads a string literal after optional whitespace. */
  function ParseString(s: string): (r: Result<(string, string), JsonError>)
    ensures r.Success? ==> |r.value.1| < |s|
  {
    var t := SkipWhitespace(s);
    if |t| == 0 then Failure(UnexpectedEnd)
    else if t[0] != '"' then Failure(UnexpectedChar(t[0]))
    else ParseStringBody(t[1..])
  }

  /** Reading back one escaped character yields that character and consumes
      exactly its escape. */
  lemma ParseOneCharEscaped(c: char, rest: string)
    ensures |EscapeChar(c) + rest| > 0
    ensures ParseOneChar(EscapeChar(c) + rest) == Success((c, |EscapeChar(c)|))
  {
    var s := EscapeChar(c) + rest;
    if c != '"' && c != '\\' && c != '\n' && c != '\r' && c != '\t'
       && c as int != 0x08 && c as int != 0x0C && (c as int) < 0x20 {
      var hi, lo := c as int / 16, c as int % 16;
      HexDigitValue(0);
      HexDigitValue(hi);
      HexDigitValue(lo);
      assert s[2] == '0' && s[3] == '0' && s[4] == HexDigits[hi] && s[5] == HexDigits[lo];
      assert hi * 16 + lo == c as int;
    }
  }

  /** Text made only of lower-case ASCII letters is written unescaped. */
  lemma {:induction false} EscapePlain(s: string)
    requires forall i :: 0 <= i < |s| ==> 'a' <= s[i] <= 'z'
    ensures Escape(s) == s
  {
    if s != [] {
      EscapePlain(s[1..]);
      assert [s[0]] + s[1..] == s;
    }
  }

  /** The string-literal body round trip: the escaped text followed by a quote
      reads back as the text, leaving whatever followed untouched. */
  lemma {:induction false} ParseStringBodyEscaped(text: string, rest: string)
    ensures ParseStringBody(Escape(text) + "\"" + rest) == Success((text, rest))
  {
    if text == [] {
      assert Escape(text) + "\"" + rest == "\"" + rest;
    } else {
      var e := EscapeChar(text[0]);
      var tail := Escape(text[1..]) + "\"" + rest;
      assert Escape(text) + "\"" + rest == e + tail;
      ParseOneCharEscaped(text[0], tail);
      assert (e + tail)[|e|..] == tail;
      ParseStringBodyEscaped(text[1..], rest);
      assert [text[0]] + text[1..] == text;
    }
  }

  /** Decoding the serialisation of any string yields that string. */
  lemma StringRoundTrip(text: string, rest: string)
    ensures ParseString(EncodeString(text) + rest) == Success((text, rest))
  {
    var s := EncodeString(text) + rest;
    assert s[1..] == Escape(text) + "\"" + rest;
    ParseStringBodyEscaped(text, rest);
  }
}
