/** `Prompt` (src/routes/lm/prompt.rs) and the transcript `Vec<Prompt>` as it is
    stored: the JSON text serde_json writes for the `prompt` column and the
    decoder that reads that column back. */
module Prompts {
  import opened Wrappers
  import opened JsonText
  import opened ChatRoles

  /** One message of a conversation; equality is structural, as derived. */
  datatype Prompt = Prompt(role: ChatRole, content: string)

  type Transcript = seq<Prompt>

  /** The two field names serde writes for a prompt. */
  const RoleKey: string := "role"
  const ContentKey: string := "content"

  /** One object member as serde_json writes it, preceded by the character
      `sep` that opens the object or separates it from the previous member. */
  function EncodeMember(sep: char, key: string, value: string): (r: string)
    ensures |r| > 0 && r[0] == sep
  {
    [sep] + EncodeString(key) + ":" + EncodeString(value)
  }

  /** serde_json's compact form of a prompt: `{"role":<tag>,"content":<text>}`. */
  function EncodePrompt(p: Prompt): (r: string)
    ensures |r| > 0 && r[0] == '{' && r[|r| - 1] == '}'
  {
    EncodeMember('{', RoleKey, Tag(p.role)) + EncodeMember(',', ContentKey, p.content) + "}"
  }

  /** The serialised shape of a prompt: an object whose first key is `role`,
      holding the role's tag, and whose second key is `content`, holding the
      escaped text. */
  lemma PromptShape(p: Prompt)
    ensures EncodePrompt(p) ==
      ("{" + ("\"" + "role" + "\"") + ":" + ("\"" + Tag(p.role) + "\""))
      + ("," + ("\"" + "content" + "\"") + ":" + ("\"" + Escape(p.content) + "\""))
      + "}"
  {
    assert EncodeMember('{', RoleKey, Tag(p.role))
      == "{" + ("\"" + "role" + "\"") + ":" + ("\"" + Tag(p.role) + "\"") by {
      PlainString(RoleKey);
      PlainTag(p.role);
    }
    assert EncodeMember(',', ContentKey, p.content)
      == "," + ("\"" + "content" + "\"") + ":" + ("\"" + Escape(p.content) + "\"") by {
      PlainString(ContentKey);
    }
  }

  /** A role's tag is written as itself between quotes. */
  lemma PlainTag(r: ChatRole)
    ensures EncodeString(Tag(r)) == "\"" + Tag(r) + "\""
  {
    PlainString(Tag(r));
  }

  /** A lower-case word is written as itself between quotes. */
  lemma PlainString(s: string)
    requires forall i :: 0 <= i < |s| ==> 'a' <= s[i] <= 'z'
    ensures EncodeString(s) == "\"" + s + "\""
  {
    EscapePlain(s);
  }

  /** Reads `sep`, the member name `key` and a string value, each after
      optional whitespace: the value and what follows it. */
  function ParseMember(s: string, sep: char, key: string): (r: Result<(string, string), JsonError>)
    ensures r.Success? ==> |r.value.1| < |s|
  {
    var s1 :- Expect(s, sep);
    var k :- ParseString(s1);
    if k.0 != key then Failure(UnknownField(k.0))
    else
      var s2 :- Expect(k.1, ':');
      ParseString(s2)
  }

  /** Reads one prompt object after optional whitespace; its fields must come
      in the order serde writes them. */
  function ParsePrompt(s: string): (r: Result<(Prompt, string), JsonError>)
    ensures r.Success? ==> |r.value.1| < |s|
  {
    var tag :- ParseMember(s, '{', RoleKey);
    var role :- FromTag(tag.0);
    var content :- ParseMember(tag.1, ',', ContentKey);
    var rest :- Expect(content.1, '}');
    Success((Prompt(role, content.0), rest))
  }

  /** The JSON array serde_json writes for a `Vec<Prompt>`. */
  function EncodeTranscript(ps: Transcript): (r: string)
    ensures |r| >= 2 && r[0] == '[' && r[|r| - 1] == ']'
  {
    if ps == [] then "[]" else "[" + EncodePrompt(ps[0]) + EncodeTail(ps[1..]) + "]"
  }

  /** The elements after the first, each preceded by a comma. */
  function EncodeTail(ps: Transcript): string
  {
    if ps == [] then "" else "," + EncodePrompt(ps[0]) + EncodeTail(ps[1..])
  }

  /** Reads the rest of an array after an element: either its closing bracket
      or a comma and one more element, and so on. */
  function ParseTail(s: string): (r: Result<(Transcript, string), JsonError>)
    ensures r.Success? ==> |r.value.1| < |s|
    decreases |s|
  {
    var t := SkipWhitespace(s);
    if |t| == 0 then Failure(UnexpectedEnd)
    else if t[0] == ']' then Success(([], t[1..]))
    else if t[0] == ',' then
      var p :- ParsePrompt(t[1..]);
      var more :- ParseTail(p.1);
      Success(([p.0] + more.0, more.1))
    else Failure(UnexpectedChar(t[0]))
  }

  /** The whole text must be one value, with nothing but whitespace after it. */
  function Finish(ps: Transcript, rest: string): Result<Transcript, JsonError>
  {
    if SkipWhitespace(rest) == [] then Success(ps) else Failure(TrailingCharacters)
  }

  /** Decodes the `prompt` column (`#[sqlx(json)]`) into a transcript. */
  function DecodeTranscript(s: string): (r: Result<Transcript, JsonError>)
    ensures r.Success? ==> var t := SkipWhitespace(s); |t| > 0 && t[0] == '['
  {
    var s1 :- Expect(s, '[');
    var t := SkipWhitespace(s1);
    if |t| > 0 && t[0] == ']' then Finish([], t[1..])
    else
      var first :- ParsePrompt(t);
      var more :- ParseTail(first.1);
      Finish([first.0] + more.0, more.1)
  }

  /** Concatenation regrouped so that a parser's view (one token, then the
      rest) matches the encoder's left-to-right construction. */
  lemma Regroup(a: string, b: string, c: string, d: string, f: string)
    ensures a + b + c + d + f == a + (b + (c + d + f))
  {
  }

  lemma Regroup4(a: string, b: string, c: string, d: string)
    ensures a + b + c + d == a + (b + (c + d))
  {
  }

  /** A text that does not start with whitespace is left alone by the
      whitespace skipper. */
  lemma NoLeadingWhitespace(s: string)
    requires |s| > 0 && !IsWhitespace(s[0])
    ensures SkipWhitespace(s) == s
  {
  }

  /** A member written by EncodeMember reads back as its value, leaving what
      follows it untouched. */
  lemma MemberRoundTrip(sep: char, key: string, value: string, rest: string)
    requires !IsWhitespace(sep)
    ensures ParseMember(EncodeMember(sep, key, value) + rest, sep, key) == Success((value, rest))
  {
    var r3 := EncodeString(value) + rest;
    var r2 := ":" + r3;
    var r1 := EncodeString(key) + r2;
    var s := [sep] + r1;
    assert EncodeMember(sep, key, value) + rest == s;
    NoLeadingWhitespace(s);
    assert s[1..] == r1;
    StringRoundTrip(key, r2);
    NoLeadingWhitespace(r2);
    assert r2[1..] == r3;
    StringRoundTrip(value, rest);
  }

  /** Decoding the serialisation of any prompt yields an equal prompt, leaving
      what follows it untouched. */
  lemma PromptRoundTrip(p: Prompt, rest: string)
    ensures ParsePrompt(EncodePrompt(p) + rest) == Success((p, rest))
  {
    var tag := Tag(p.role);
    var r2 := "}" + rest;
    var r1 := EncodeMember(',', ContentKey, p.content) + r2;
    assert EncodePrompt(p) + rest == EncodeMember('{', RoleKey, tag) + r1;
    MemberRoundTrip('{', RoleKey, tag, r1);
    TagRoundTrip(p.role);
    MemberRoundTrip(',', ContentKey, p.content, r2);
    CloseBrace(rest);
    ParsePromptSteps(EncodePrompt(p) + rest, tag, r1, p.role, p.content, r2, rest);
  }

  /** ParsePrompt, read off the results of its four steps. */
  lemma ParsePromptSteps(s: string, tag: string, r1: string, role: ChatRole,
                         content: string, r2: string, rest: string)
    requires ParseMember(s, '{', RoleKey) == Success((tag, r1))
    requires FromTag(tag) == Success(role)
    requires ParseMember(r1, ',', ContentKey) == Success((content, r2))
    requires Expect(r2, '}') == Success(rest)
    ensures ParsePrompt(s) == Success((Prompt(role, content), rest))
  {
  }

  /** A closing brace is expected and consumed. */
  lemma CloseBrace(rest: string)
    ensures Expect("}" + rest, '}') == Success(rest)
  {
    NoLeadingWhitespace("}" + rest);
    assert ("}" + rest)[1..] == rest;
  }

  /** One step of ParseTail: a comma, the first element, then the rest of the array. */
  lemma ParseTailStep(x: string, after: string, ps: Transcript, rest: string)
    requires ps != []
    requires ParsePrompt(x) == Success((ps[0], after))
    requires ParseTail(after) == Success((ps[1..], rest))
    ensures ParseTail("," + x) == Success((ps, rest))
  {
    NoLeadingWhitespace("," + x);
    assert ("," + x)[1..] == x;
    assert [ps[0]] + ps[1..] == ps;
  }

  /** The closing bracket ends ParseTail. */
  lemma ParseTailEnd(rest: string)
    ensures ParseTail("]" + rest) == Success(([], rest))
  {
    NoLeadingWhitespace("]" + rest);
    assert ("]" + rest)[1..] == rest;
  }

  /** A tail whose elements after the first read back reads back too. */
  lemma TailCons(ps: Transcript, rest: string)
    requires ps != []
    requires ParseTail(EncodeTail(ps[1..]) + "]" + rest) == Success((ps[1..], rest))
    ensures ParseTail(EncodeTail(ps) + "]" + rest) == Success((ps, rest))
  {
    var e, t := EncodePrompt(ps[0]), EncodeTail(ps[1..]);
    var after := t + "]" + rest;
    assert EncodeTail(ps) + "]" + rest == "," + (e + after) by {
      assert EncodeTail(ps) == "," + e + t;
      Regroup(",", e, t, "]", rest);
    }
    assert ParsePrompt(e + after) == Success((ps[0], after)) by {
      PromptRoundTrip(ps[0], after);
    }
    ParseTailStep(e + after, after, ps, rest);
  }

  /** The array tail round trip, by induction on the remaining elements. */
  lemma {:induction false} TailRoundTrip(ps: Transcript, rest: string)
    ensures ParseTail(EncodeTail(ps) + "]" + rest) == Success((ps, rest))
  {
    if ps == [] {
      assert EncodeTail(ps) + "]" + rest == "]" + rest;
      ParseTailEnd(rest);
    } else {
      TailRoundTrip(ps[1..], rest);
      TailCons(ps, rest);
    }
  }

  /** Decoding an array whose first element and tail parse as given. */
  lemma DecodeNonEmpty(x: string, after: string, ps: Transcript)
    requires ps != []
    requires ParsePrompt(x) == Success((ps[0], after))
    requires ParseTail(after) == Success((ps[1..], []))
    requires |x| > 0 && x[0] == '{'
    ensures DecodeTranscript("[" + x) == Success(ps)
  {
    NoLeadingWhitespace("[" + x);
    assert ("[" + x)[1..] == x;
    NoLeadingWhitespace(x);
    assert [ps[0]] + ps[1..] == ps;
  }

  /** The empty array decodes to the empty transcript. */
  lemma DecodeEmpty()
    ensures DecodeTranscript("[]") == Success([])
  {
    var s := "[]";
    NoLeadingWhitespace(s);
    assert s[1..] == "]";
    NoLeadingWhitespace(s[1..]);
    assert s[1..][1..] == [];
  }

  /** A non-empty transcript's text, split as the decoder reads it. */
  lemma EncodeNonEmpty(ps: Transcript)
    requires ps != []
    ensures EncodeTranscript(ps) == "[" + (EncodePrompt(ps[0]) + (EncodeTail(ps[1..]) + "]"))
  {
    var e, t := EncodePrompt(ps[0]), EncodeTail(ps[1..]);
    assert EncodeTranscript(ps) == "[" + e + t + "]";
    Regroup4("[", e, t, "]");
  }

  /** Writing a transcript to the `prompt` column and reading it back yields the
      same messages, in the same order, with the same content. */
  lemma {:induction false} TranscriptRoundTrip(ps: Transcript)
    ensures DecodeTranscript(EncodeTranscript(ps)) == Success(ps)
  {
    if ps == [] {
      DecodeEmpty();
    } else {
      var e, t := EncodePrompt(ps[0]), EncodeTail(ps[1..]);
      var after := t + "]";
      assert EncodeTranscript(ps) == "[" + (e + after) by {
        EncodeNonEmpty(ps);
      }
      assert ParsePrompt(e + after) == Success((ps[0], after)) by {
        PromptRoundTrip(ps[0], after);
      }
      assert ParseTail(after) == Success((ps[1..], [])) by {
        TailRoundTrip(ps[1..], []);
        assert t + "]" + [] == after;
      }
      DecodeNonEmpty(e + after, after, ps);
    }
  }

  /** A prompt whose role tag is not one of the four known tags is rejected
      with an "unknown variant" error, whatever its content. */
  lemma UnknownRoleRejected(tag: string, content: string, rest: string)
    requires !IsTag(tag)
    ensures ParsePrompt(EncodeMember('{', RoleKey, tag) + EncodeMember(',', ContentKey, content) + "}" + rest)
            == Failure(UnknownVariant(tag))
  {
    var r1 := EncodeMember(',', ContentKey, content) + "}" + rest;
    var s := EncodeMember('{', RoleKey, tag) + EncodeMember(',', ContentKey, content) + "}" + rest;
    assert s == EncodeMember('{', RoleKey, tag) + r1;
    MemberRoundTrip('{', RoleKey, tag, r1);
    assert ParseMember(s, '{', RoleKey) == Success((tag, r1));
    assert FromTag(tag) == Failure(UnknownVariant(tag));
  }
}
