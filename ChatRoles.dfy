/** `ChatRole` (src/routes/lm/chat_role.rs): the closed set of speakers in a
    transcript, serialised by serde as a lower-case tag. */
module ChatRoles {
  import opened Wrappers
  import opened JsonText

  datatype ChatRole = System | Assistant | User | Tool

  /** The `#[serde(rename = ...)]` tag of each variant: a non-empty
      lower-case word, one of the four the deserialiser accepts. */
  function Tag(r: ChatRole): (s: string)
    ensures |s| > 0 && IsTag(s)
    ensures forall i :: 0 <= i < |s| ==> 'a' <= s[i] <= 'z'
  {
    match r
    case System => "system"
    case Assistant => "assistant"
    case User => "user"
    case Tool => "tool"
  }

  predicate IsTag(s: string)
  {
    s == "system" || s == "assistant" || s == "user" || s == "tool"
  }

  /** serde's derived deserialiser for the enum: one of the four tags, or an
      "unknown variant" error naming what it found. */
  function FromTag(s: string): (r: Result<ChatRole, JsonError>)
    ensures r.Success? <==> IsTag(s)
    ensures r.Success? ==> Tag(r.value) == s
    ensures r.Failure? ==> r.error == UnknownVariant(s)
  {
    if s == "system" then Success(System)
    else if s == "assistant" then Success(Assistant)
    else if s == "user" then Success(User)
    else if s == "tool" then Success(Tool)
    else Failure(UnknownVariant(s))
  }

  /** Every role's tag decodes back to that role. */
  lemma TagRoundTrip(r: ChatRole)
    ensures IsTag(Tag(r))
    ensures FromTag(Tag(r)) == Success(r)
  {
  }

  /** The four tags are distinct, so the encoding is injective. */
  lemma TagInjective(a: ChatRole, b: ChatRole)
    ensures Tag(a) == Tag(b) ==> a == b
  {
  }
}
