/**
 * The filter at the head of the dialogue loop (backend/main.py, lines
 * 165-171): which frames from the speech-recognition stream start a turn.
 * A decoded message is reduced to the fields the filter reads.
 */
module Recognition {
  import opened Wrappers

  /** One recognition hypothesis; `transcript` is `None` when the key is
      absent, which `.get("transcript", "")` reads as "". */
  datatype Alternative = Alternative(transcript: Option<string>)

  /** `data["channel"]`; `alternatives` is `None` when the key is absent. */
  datatype Channel = Channel(alternatives: Option<seq<Alternative>>)

  /** A decoded recognition message; `channel` is `None` when the key is
      absent (metadata and speech-started events, for instance). */
  datatype Message = Message(channel: Option<Channel>)

  /** A frame of the recognition stream. `TextFrame(None)` is a text frame
      that `json.loads` rejects. */
  datatype Frame = NonTextFrame | TextFrame(message: Option<Message>)

  /** What the dialogue loop does with a frame: nothing, a turn for a
      transcript, or an exception that ends the dialogue task. */
  datatype Outcome = Ignored | Utterance(transcript: string) | Raises(error: string)

  const DecodeError := "JSONDecodeError"
  const NoAlternative := "IndexError: list index out of range"

  /** `alternatives[0].get("transcript", "")`. */
  function TranscriptOf(alt: Alternative): string {
    if alt.transcript.Some? then alt.transcript.value else ""
  }

  /** Lines 165-171. */
  function Classify(frame: Frame): (o: Outcome)
    ensures o.Utterance? ==> o.transcript != []
  {
    match frame
    case NonTextFrame => Ignored
    case TextFrame(None) => Raises(DecodeError)
    case TextFrame(Some(m)) =>
      if m.channel.Some? && m.channel.value.alternatives.Some? then
        var alternatives := m.channel.value.alternatives.value;
        if alternatives == [] then Raises(NoAlternative)
        else if TranscriptOf(alternatives[0]) != "" then Utterance(TranscriptOf(alternatives[0]))
        else Ignored
      else Ignored
  }

  /** A turn starts exactly for a decodable text frame with a channel whose
      first alternative carries a non-empty transcript, and the turn's
      transcript is that one. */
  lemma UtteranceIff(frame: Frame, t: string)
    ensures Classify(frame) == Utterance(t) <==>
      frame.TextFrame? && frame.message.Some? &&
      frame.message.value.channel.Some? &&
      frame.message.value.channel.value.alternatives.Some? &&
      |frame.message.value.channel.value.alternatives.value| > 0 &&
      frame.message.value.channel.value.alternatives.value[0].transcript == Some(t) &&
      t != []
  {
  }

  /** The dialogue task fails only on an undecodable text frame or on a
      channel whose alternatives list is empty. */
  lemma RaisesIff(frame: Frame)
    ensures Classify(frame).Raises? <==>
      frame == TextFrame(None) ||
      (frame.TextFrame? && frame.message.Some? &&
       frame.message.value.channel.Some? &&
       frame.message.value.channel.value.alternatives == Some([]))
  {
  }

  /** Messages without a channel, a channel without alternatives, and
      non-text frames never start a turn or fail. */
  lemma NoChannelIgnored(frame: Frame)
    requires frame.NonTextFrame? ||
      (frame.message.Some? && (frame.message.value.channel.None? ||
                               frame.message.value.channel.value.alternatives.None?))
    ensures Classify(frame) == Ignored
  {
  }
}
