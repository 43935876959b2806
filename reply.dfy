/**
 * The reply splitter and end-of-call detector of `receive_from_deepgram`
 * (backend/main.py, lines 193-220 and 260-262): a generated reply may end
 * with a brace-delimited JSON record; when that record decodes and its
 * `end_call` is truthy, the call ends.
 */
module Reply {
  import opened Wrappers
  import opened Text
  import opened Json

  /** The values `text_part` and `json_part` hold after line 210. */
  datatype Split = Split(textPart: string, jsonPart: Option<Payload>)

  /** What the turn does with the reply. */
  datatype TurnAction =
    | Speak(text: string)                       // lines 261-262: the reply is sent and synthesised
    | EndCall(goodbye: string, payload: Payload) // lines 213-258: goodbye (if any), then finalisation

  /** The guards of lines 198 and 202: a `{` and a `}`, the last `}` after the first `{`. */
  predicate HasBracePair(reply: string) {
    '{' in reply && '}' in reply && RFind(reply, '}') + 1 > Find(reply, '{')
  }

  /** The text from the first `{` through the last `}`, inclusive. */
  function Candidate(reply: string): (c: string)
    requires HasBracePair(reply)
    ensures 2 <= |c| && c[0] == '{' && c[|c| - 1] == '}'
  {
    reply[Find(reply, '{')..RFind(reply, '}') + 1]
  }

  /** Lines 194-210. Without a brace pair both parts keep their initial
      values ("" and None); when the candidate fails to decode, `text_part`
      is reset to the whole reply. */
  function SplitReply(reply: string, parse: Parser): (r: Split)
  {
    if '{' in reply && '}' in reply then
      var jsonStart := Find(reply, '{');
      var jsonEnd := RFind(reply, '}') + 1;
      if jsonStart >= 0 && jsonEnd > jsonStart then
        var textPart := Strip(reply[..jsonStart]);
        var jsonStr := Strip(reply[jsonStart..jsonEnd]);
        var jsonPart := parse(jsonStr);
        if jsonPart.Some? then Split(textPart, jsonPart) else Split(reply, None)
      else Split("", None)
    else Split("", None)
  }

  /** Line 213: `json_part and json_part.get("end_call")`. */
  predicate SignalsEndOfCall(payload: Payload) {
    payload != map[] && KeyTruthy(payload, "end_call")
  }

  /** Lines 213-220 and 262: on the end-of-call path only `text_part` is
      spoken; on every other path the whole `bot_reply` is, whatever
      `text_part` holds. */
  function DecideTurn(reply: string, parse: Parser): (a: TurnAction)
    ensures a.EndCall? ==> SignalsEndOfCall(a.payload)
    ensures a.Speak? ==> a.text == reply
  {
    var s := SplitReply(reply, parse);
    if s.jsonPart.Some? && SignalsEndOfCall(s.jsonPart.value) then
      EndCall(s.textPart, s.jsonPart.value)
    else
      Speak(reply)
  }

  /** `HasBracePair` is exactly "some `{` comes before some `}`". */
  lemma BracePairIff(reply: string)
    ensures HasBracePair(reply) <==>
      exists i, j :: 0 <= i < j < |reply| && reply[i] == '{' && reply[j] == '}'
  {
    if exists i, j :: 0 <= i < j < |reply| && reply[i] == '{' && reply[j] == '}' {
      var i, j :| 0 <= i < j < |reply| && reply[i] == '{' && reply[j] == '}';
      var f, l := Find(reply, '{'), RFind(reply, '}');
      assert f <= i;
      assert l >= j;
    }
  }

  /** Without a brace pair there is no payload, `text_part` stays "", the call
      goes on and the whole reply is what gets spoken. */
  lemma NoBracePairSpeaksWholeReply(reply: string, parse: Parser)
    requires !HasBracePair(reply)
    ensures SplitReply(reply, parse) == Split("", None)
    ensures DecideTurn(reply, parse) == Speak(reply)
  {
  }

  /** The `strip()` of line 204 leaves the candidate as it is. */
  lemma CandidateIsTrimmed(reply: string)
    requires HasBracePair(reply)
    ensures Strip(reply[Find(reply, '{')..RFind(reply, '}') + 1]) == Candidate(reply)
  {
    BracedIsTrimmed(Candidate(reply));
  }

  /** When the candidate decodes, the payload is the decoding of the text from
      the first `{` through the last `}`: the `strip()` of line 204 changes
      nothing. */
  lemma {:induction false} ParsedPayload(reply: string, parse: Parser)
    requires HasBracePair(reply) && parse(Candidate(reply)).Some?
    ensures SplitReply(reply, parse).jsonPart == parse(Candidate(reply))
  {
    CandidateIsTrimmed(reply);
  }

  /** When the candidate decodes, `text_part` is the trimmed text before the
      first `{`. */
  lemma {:induction false} ParsedTextPart(reply: string, parse: Parser)
    requires HasBracePair(reply) && parse(Candidate(reply)).Some?
    ensures SplitReply(reply, parse).textPart == Strip(reply[..Find(reply, '{')])
  {
    CandidateIsTrimmed(reply);
  }

  /** When the candidate does not decode, `text_part` is the whole original
      reply, braces included, there is no payload, and the call goes on. */
  lemma {:induction false} MalformedPayloadFallsBack(reply: string, parse: Parser)
    requires HasBracePair(reply) && parse(Candidate(reply)).None?
    ensures SplitReply(reply, parse) == Split(reply, None)
    ensures DecideTurn(reply, parse) == Speak(reply)
  {
    CandidateIsTrimmed(reply);
  }

  /** The call ends exactly when the candidate decodes to a non-empty record
      with a truthy `end_call`; the goodbye is then the trimmed text before
      the first `{`. */
  lemma {:induction false} EndCallIff(reply: string, parse: Parser)
    ensures DecideTurn(reply, parse).EndCall? <==>
      HasBracePair(reply) && parse(Candidate(reply)).Some? &&
      SignalsEndOfCall(parse(Candidate(reply)).value)
    ensures DecideTurn(reply, parse).EndCall? ==>
      DecideTurn(reply, parse) ==
        EndCall(Strip(reply[..Find(reply, '{')]), parse(Candidate(reply)).value)
  {
    if HasBracePair(reply) {
      if parse(Candidate(reply)).Some? {
        ParsedPayload(reply, parse);
        ParsedTextPart(reply, parse);
      } else {
        MalformedPayloadFallsBack(reply, parse);
      }
    }
  }

  /** The goodbye spoken on the end-of-call path never contains a `{`. */
  lemma {:induction false} GoodbyeHasNoBrace(reply: string, parse: Parser)
    requires DecideTurn(reply, parse).EndCall?
    ensures '{' !in DecideTurn(reply, parse).goodbye
  {
    EndCallIff(reply, parse);
    var prefix := reply[..Find(reply, '{')];
    StripIsSlice(prefix);
  }
}
