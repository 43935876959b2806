/**
 * The per-call state of `websocket_endpoint` (backend/main.py, lines 76-299)
 * as a sequential state machine. The real fields are the four variables the
 * endpoint keeps (lines 92-95) and the state of the dialogue task; the files
 * written and the frames sent are recorded in ghost fields. Every external
 * service answers through a parameter: the speech-synthesis response, the
 * generated reply, the JSON parser, the clock readings and the text of the
 * disconnect exception.
 */
module Session {
  import opened Wrappers
  import opened Json
  import opened Clock
  import opened Reply
  import opened Summary
  import opened CallAudio
  import opened Artifacts
  import opened Recognition

  /** Line 105. */
  const Greeting := "Hello! This is Raqmi's complaint assistant speaking. How are you today?"

  /** Line 256. */
  const CallEndedNotice := "Bot: Call ended."

  datatype Role = System | User | Assistant

  /** One `{"role": ..., "content": ...}` entry of `conversation_history`. */
  datatype ChatEntry = ChatEntry(role: Role, content: string)

  /** The answer of the speech-synthesis endpoint: the HTTP status and body. */
  datatype TtsResponse = TtsResponse(status: int, body: Bytes)

  /** The answer of the chat-completion call: the reply's text, or the
      exception it raised. */
  datatype Generation = Generated(reply: string) | GenerationFailed(error: string)

  /** A frame sent to the caller's browser. */
  datatype Outbound = TextOut(text: string) | BytesOut(data: Bytes) | CloseOut

  /** A frame received from the caller's browser (lines 270-277). */
  datatype CallerFrame = CallerAudio(data: Bytes) | CallerText(text: string)

  /** The dialogue task of `receive_from_deepgram`: still reading, returned
      after finalising the call, or ended by an exception. */
  datatype TaskState = Listening | Finished | Failed(error: string)

  /** A write of `call_summary.json`. */
  datatype SummaryWrite = FinalSummary(payload: Payload) | IncompleteSummaryWrite(payload: Payload)

  /** What one frame of the recognition stream makes the dialogue do. */
  datatype Turn =
    | Silent                                               // line 171: no transcript
    | FrameFails(error: string)                            // lines 167-170 raise
    | GenerationFails(transcript: string, error: string)   // lines 183-187 raise
    | Continues(transcript: string, reply: string)         // lines 261-262
    | Ends(transcript: string, reply: string, goodbye: string, payload: Payload) // lines 213-258

  /** Lines 165-262: the turn a frame starts. A turn that reaches generation
      has a non-empty transcript; a turn that ends the call carries the
      payload that signalled it. */
  function PlanTurn(frame: Frame, generation: Generation, parse: Parser): (t: Turn)
    ensures (t.GenerationFails? || t.Continues? || t.Ends?) ==> t.transcript != ""
    ensures t.Ends? ==> SignalsEndOfCall(t.payload)
  {
    match Classify(frame)
    case Ignored => Silent
    case Raises(e) => FrameFails(e)
    case Utterance(transcript) =>
      match generation
      case GenerationFailed(e) => GenerationFails(transcript, e)
      case Generated(reply) =>
        match DecideTurn(reply, parse)
        case Speak(_) => Continues(transcript, reply)
        case EndCall(goodbye, payload) => Ends(transcript, reply, goodbye, payload)
  }

  /** The entries a turn appends to `conversation_history` (lines 180, 189). */
  function HistoryAdded(turn: Turn): (added: seq<ChatEntry>)
  {
    match turn
    case GenerationFails(t, _) => [ChatEntry(User, t)]
    case Continues(t, reply) => [ChatEntry(User, t), ChatEntry(Assistant, reply)]
    case Ends(t, reply, _, _) => [ChatEntry(User, t), ChatEntry(Assistant, reply)]
    case _ => []
  }

  /** The text a turn hands to speech synthesis, if any: the whole reply on
      the normal path, the goodbye on the end-of-call path when it is not
      empty. */
  function SpokenText(turn: Turn): Option<string>
  {
    match turn
    case Continues(_, reply) => Some(reply)
    case Ends(_, _, goodbye, _) => if goodbye != "" then Some(goodbye) else None
    case _ => None
  }

  /** The fragments a synthesis call adds to `complete_call_audio`. */
  function Synthesised(tts: TtsResponse): seq<Bytes>
  {
    if tts.status == 200 then [tts.body] else []
  }

  /** Lines 149-150: what a successful synthesis sends to the caller. */
  function TtsFrames(text: string, tts: TtsResponse): seq<Outbound>
  {
    if tts.status == 200 then [TextOut("Bot: " + text), BytesOut(tts.body)] else []
  }

  /** Line 147: what a successful synthesis appends to the transcript. */
  function BotLines(text: string, tts: TtsResponse, timestamp: string): seq<string>
  {
    if tts.status == 200 then [TranscriptLine(timestamp, "Bot", text)] else []
  }

  /** The state of the dialogue task after a turn. */
  function NextDialogue(turn: Turn): TaskState
  {
    match turn
    case FrameFails(e) => Failed(e)
    case GenerationFails(_, e) => Failed(e)
    case Ends(_, _, _, _) => Finished
    case _ => Listening
  }

  /** The frames a turn sends to the caller: the echo of the transcript and
      the synthesised reply; on the end-of-call path the echo and the goodbye
      only when there is a goodbye, then the closing notice and the close. */
  function TurnFrames(turn: Turn, tts: TtsResponse): seq<Outbound>
  {
    match turn
    case Continues(t, reply) => [TextOut("User: " + t)] + TtsFrames(reply, tts)
    case Ends(t, _, goodbye, _) => GoodbyeFrames(t, goodbye, tts) + [TextOut(CallEndedNotice), CloseOut]
    case _ => []
  }

  /** Lines 218-220: the echo of the transcript and the synthesised goodbye,
      sent only when there is a goodbye. */
  function GoodbyeFrames(t: string, goodbye: string, tts: TtsResponse): seq<Outbound>
  {
    if goodbye != "" then [TextOut("User: " + t)] + TtsFrames(goodbye, tts) else []
  }

  /** Lines 218-220: the goodbye is logged only when there is one and its
      synthesis succeeded. */
  function GoodbyeLines(goodbye: string, tts: TtsResponse, timestamp: string): seq<string>
  {
    if goodbye != "" then BotLines(goodbye, tts, timestamp) else []
  }

  /** The transcript entries a turn appends: the caller's line as soon as
      there is a transcript, then the line of whatever was synthesised. */
  function TurnLines(turn: Turn, userTimestamp: string, tts: TtsResponse, botTimestamp: string): seq<string>
  {
    match turn
    case GenerationFails(t, _) => [TranscriptLine(userTimestamp, "User", t)]
    case Continues(t, reply) =>
      [TranscriptLine(userTimestamp, "User", t)] + BotLines(reply, tts, botTimestamp)
    case Ends(t, _, goodbye, _) =>
      [TranscriptLine(userTimestamp, "User", t)] + GoodbyeLines(goodbye, tts, botTimestamp)
    case _ => []
  }

  /** The names of the first `n` bot messages' audio files. */
  ghost function BotAudioNames(n: nat): set<string>
  {
    set k | 1 <= k <= n :: AudioFileName(k, "bot")
  }

  /** The `audio_messages/` folder after the fragments `frags` were saved one
      by one (line 139): the n-th under `{n:03d}_bot.wav`. */
  ghost function AudioFiles(frags: seq<Bytes>): map<string, Bytes>
  {
    if frags == [] then map[]
    else AudioFiles(frags[..|frags| - 1])[AudioFileName(|frags|, "bot") := frags[|frags| - 1]]
  }

  /** The k-th bot message's file name differs from every later one's. */
  lemma BotNamesDistinct(k: nat, n: nat)
    requires 1 <= k < n
    ensures AudioFileName(k, "bot") != AudioFileName(n, "bot")
  {
    if AudioFileName(k, "bot") == AudioFileName(n, "bot") {
      AudioFileNameInjective(k, "bot", n, "bot");
    }
  }

  /** The folder holds one file per fragment, named by its 1-based
      position. */
  lemma {:induction false} AudioFilesNames(frags: seq<Bytes>)
    ensures AudioFiles(frags).Keys == BotAudioNames(|frags|)
  {
    if frags != [] {
      var n := |frags|;
      AudioFilesNames(frags[..n - 1]);
      assert BotAudioNames(n) == BotAudioNames(n - 1) + {AudioFileName(n, "bot")};
    }
  }

  /** Saving never overwrites: the file of the k-th fragment holds it byte
      for byte, however many fragments were saved after it. */
  lemma {:induction false} AudioFilesHold(frags: seq<Bytes>, k: nat)
    requires 1 <= k <= |frags|
    ensures AudioFileName(k, "bot") in AudioFiles(frags)
    ensures AudioFiles(frags)[AudioFileName(k, "bot")] == frags[k - 1]
  {
    var n := |frags|;
    if k < n {
      AudioFilesHold(frags[..n - 1], k);
      BotNamesDistinct(k, n);
    }
  }

  /** The role entry `i` of the history has after the system prompt. */
  function RoleAt(i: nat): Role
  {
    if i % 2 == 1 then User else Assistant
  }

  /** Lines 92, 180, 189: the system prompt first, then user and assistant
      entries alternating; every user entry is a non-empty transcript. The
      history ends on a user entry only when generation failed for it. */
  ghost predicate WellFormedHistory(h: seq<ChatEntry>, systemPrompt: string, generationFailed: bool)
  {
    |h| >= 1 &&
    h[0] == ChatEntry(System, systemPrompt) &&
    (forall i :: 1 <= i < |h| ==> h[i].role == RoleAt(i)) &&
    (forall i :: 1 <= i < |h| && h[i].role == User ==> h[i].content != "") &&
    (|h| % 2 == 0 ==> generationFailed)
  }

  /** A history starts as the system prompt alone (line 92). */
  lemma InitialHistoryWellFormed(systemPrompt: string)
    ensures WellFormedHistory([ChatEntry(System, systemPrompt)], systemPrompt, false)
  {
  }

  /** Lines 180 and 189: a caller entry and the reply generated for it,
      appended to a complete history, leave a complete history. */
  lemma AppendExchange(h: seq<ChatEntry>, systemPrompt: string, t: string, reply: string)
    requires WellFormedHistory(h, systemPrompt, false) && t != ""
    ensures WellFormedHistory(h + [ChatEntry(User, t), ChatEntry(Assistant, reply)], systemPrompt, false)
    ensures (h + [ChatEntry(User, t), ChatEntry(Assistant, reply)])[..|h|] == h
  {
    var h' := h + [ChatEntry(User, t), ChatEntry(Assistant, reply)];
    assert h'[|h|] == ChatEntry(User, t) && h'[|h| + 1] == ChatEntry(Assistant, reply);
    assert RoleAt(|h|) == User && RoleAt(|h| + 1) == Assistant;
    assert forall i :: 1 <= i < |h| ==> h'[i] == h[i];
  }

  /** Line 180 followed by a failed generation (lines 183-187): the history
      ends on the caller's entry and is complete no longer. */
  lemma AppendUnanswered(h: seq<ChatEntry>, systemPrompt: string, t: string)
    requires WellFormedHistory(h, systemPrompt, false) && t != ""
    ensures WellFormedHistory(h + [ChatEntry(User, t)], systemPrompt, true)
    ensures !WellFormedHistory(h + [ChatEntry(User, t)], systemPrompt, false)
  {
    var h' := h + [ChatEntry(User, t)];
    assert h'[|h|] == ChatEntry(User, t);
    assert RoleAt(|h|) == User;
    assert forall i :: 1 <= i < |h| ==> h'[i] == h[i];
  }

  /** Lines 213-258 and 281-297: the flag is set exactly when the dialogue
      returned after finalising; then the merged summary is the one write of
      `call_summary.json` and the one line of `call_log.json`, and the
      full-call file holds the concatenated fragments. Otherwise nothing is
      logged, and the summary file is written once, incomplete, when the
      relay loop has ended. At most one summary is ever written. */
  ghost predicate WellFormedOutcome(endedNormally: bool, finished: bool, relayEnded: bool,
                                    summaryWrites: seq<SummaryWrite>, callLog: seq<Payload>,
                                    frags: seq<Bytes>, completeCallFile: Option<Bytes>)
  {
    |summaryWrites| <= 1 &&
    (endedNormally <==> finished) &&
    (endedNormally ==>
       |summaryWrites| == 1 && summaryWrites[0].FinalSummary? &&
       callLog == [summaryWrites[0].payload] &&
       SignalsEndOfCall(summaryWrites[0].payload) &&
       completeCallFile == (if frags == [] then None else Some(FullCallAudio(frags)))) &&
    (!endedNormally ==>
       callLog == [] && completeCallFile == None &&
       (relayEnded <==> |summaryWrites| == 1) &&
       (relayEnded ==> summaryWrites[0].IncompleteSummaryWrite? &&
                       "status" in summaryWrites[0].payload &&
                       summaryWrites[0].payload["status"] == JString("incomplete")))
  }

  /** The outcome of a call that ended on an `end_call` record: one final
      summary, logged once, and the full-call file exactly when audio was
      synthesised. */
  lemma NormalOutcome(summary: Payload, relayEnded: bool, frags: seq<Bytes>, file: Option<Bytes>)
    requires SignalsEndOfCall(summary)
    requires file == (if frags == [] then None else Some(FullCallAudio(frags)))
    ensures WellFormedOutcome(true, true, relayEnded, [FinalSummary(summary)], [summary], frags, file)
  {
  }

  /** Regrouping appends to a log. */
  lemma ConcatAssoc<T>(a: seq<T>, b: seq<T>, c: seq<T>)
    ensures (a + b) + c == a + (b + c)
  {
  }

  /** Only a turn whose reply carries a decodable brace-delimited record with
      a truthy `end_call` ends the call, and the goodbye then has no `{`. */
  lemma {:induction false} EndsOnlyOnEndCallRecord(frame: Frame, generation: Generation, parse: Parser)
    requires PlanTurn(frame, generation, parse).Ends?
    ensures generation.Generated?
    ensures var reply := generation.reply;
      HasBracePair(reply) && parse(Candidate(reply)).Some? &&
      PlanTurn(frame, generation, parse).payload == parse(Candidate(reply)).value &&
      SignalsEndOfCall(PlanTurn(frame, generation, parse).payload) &&
      '{' !in PlanTurn(frame, generation, parse).goodbye
  {
    EndCallIff(generation.reply, parse);
    GoodbyeHasNoBrace(generation.reply, parse);
  }

  /** A reply with no brace pair never ends the call and is spoken whole. */
  lemma {:induction false} PlainReplyContinues(frame: Frame, reply: string, parse: Parser)
    requires Classify(frame).Utterance?
    requires !HasBracePair(reply)
    ensures PlanTurn(frame, Generated(reply), parse) == Continues(Classify(frame).transcript, reply)
    ensures SpokenText(PlanTurn(frame, Generated(reply), parse)) == Some(reply)
  {
    NoBracePairSpeaksWholeReply(reply, parse);
  }

  /** A turn that reaches generation appends a user entry for its
      transcript, then, if the reply was generated, one assistant entry for
      the whole reply; any other frame appends nothing. */
  lemma {:induction false} HistoryAddedShape(frame: Frame, generation: Generation, parse: Parser)
    ensures var added := HistoryAdded(PlanTurn(frame, generation, parse));
      (Classify(frame).Utterance? ==>
         |added| == (if generation.Generated? then 2 else 1) &&
         added[0] == ChatEntry(User, Classify(frame).transcript)) &&
      (!Classify(frame).Utterance? ==> added == []) &&
      (Classify(frame).Utterance? && generation.Generated? ==>
         added[1] == ChatEntry(Assistant, generation.reply))
  {
    if Classify(frame).Utterance? && generation.Generated? {
      var turn := PlanTurn(frame, generation, parse);
      assert turn.Continues? || turn.Ends?;
    }
  }

  class CallSession {
    const sessionId: string
    const callStart: DateTime
    const systemPrompt: string

    var messageCounter: nat
    var completeCallAudio: seq<Bytes>
    var conversationHistory: seq<ChatEntry>
    var callEndedNormally: bool

    /** The dialogue task, and whether the relay loop has taken its
        exception path (the caller went away or the socket was closed). */
    var dialogue: TaskState
    var relayEnded: bool

    /** `audio_messages/`: file name to contents. */
    ghost var audioMessages: map<string, Bytes>
    /** The entries appended to `transcription_{session_id}.txt`. */
    ghost var transcription: seq<string>
    /** The frames sent to the caller, in order. */
    ghost var sent: seq<Outbound>
    /** The audio frames forwarded to the recognition stream. */
    ghost var forwarded: seq<Bytes>
    /** The writes of `call_summary.json`, in order. */
    ghost var summaryWrites: seq<SummaryWrite>
    /** The lines appended to `call_log.json`. */
    ghost var callLog: seq<Payload>
    /** `complete_call_{session_id}.wav`, once written. */
    ghost var completeCallFile: Option<Bytes>

    /** Lines 134-142: one saved file and one fragment per successful
        synthesis, the n-th fragment in `{n:03d}_bot.wav`. */
    ghost predicate AudioValid()
      reads this`messageCounter, this`completeCallAudio, this`audioMessages
    {
      messageCounter == |completeCallAudio| && audioMessages == AudioFiles(completeCallAudio)
    }

    ghost predicate HistoryValid()
      reads this`conversationHistory, this`dialogue
    {
      WellFormedHistory(conversationHistory, systemPrompt, dialogue.Failed?)
    }

    ghost predicate OutcomeValid()
      reads this`callEndedNormally, this`dialogue, this`relayEnded, this`summaryWrites,
            this`callLog, this`completeCallAudio, this`completeCallFile
    {
      callStart.aware &&
      WellFormedOutcome(callEndedNormally, dialogue.Finished?, relayEnded, summaryWrites, callLog,
                        completeCallAudio, completeCallFile)
    }

    ghost predicate Valid()
      reads this`messageCounter, this`completeCallAudio, this`audioMessages,
            this`conversationHistory, this`dialogue, this`callEndedNormally, this`relayEnded,
            this`summaryWrites, this`callLog, this`completeCallFile
    {
      AudioValid() && HistoryValid() && OutcomeValid()
    }

    /** Lines 80-95: a new session with the aware start time. */
    constructor (sessionId: string, startMicros: int, startIso: string, systemPrompt: string)
      ensures Valid()
      ensures this.sessionId == sessionId && callStart == NowUtc(startMicros, startIso)
      ensures this.systemPrompt == systemPrompt
      ensures messageCounter == 0 && completeCallAudio == [] && !callEndedNormally
      ensures conversationHistory == [ChatEntry(System, systemPrompt)]
      ensures dialogue == Listening && !relayEnded
      ensures audioMessages == map[] && transcription == [] && sent == [] && forwarded == []
      ensures summaryWrites == [] && callLog == [] && completeCallFile == None
    {
      this.sessionId := sessionId;
      callStart := NowUtc(startMicros, startIso);
      this.systemPrompt := systemPrompt;
      messageCounter := 0;
      completeCallAudio := [];
      conversationHistory := [ChatEntry(System, systemPrompt)];
      callEndedNormally := false;
      dialogue := Listening;
      relayEnded := false;
      audioMessages := map[];
      transcription := [];
      sent := [];
      forwarded := [];
      summaryWrites := [];
      callLog := [];
      completeCallFile := None;
    }

    /** Lines 107-156: on status 200 the counter advances, the fragment is
        saved under the new counter and kept for the full-call file, the
        text is logged and both frames are sent; on any other status
        nothing changes. */
    method SendTtsAndText(text: string, tts: TtsResponse, timestamp: string)
      requires AudioValid()
      modifies this`messageCounter, this`completeCallAudio, this`audioMessages,
               this`transcription, this`sent
      ensures AudioValid()
      ensures completeCallAudio == old(completeCallAudio) + Synthesised(tts)
      ensures messageCounter == old(messageCounter) + |Synthesised(tts)|
      ensures tts.status == 200 ==> audioMessages[AudioFileName(messageCounter, "bot")] == tts.body
      ensures transcription == old(transcription) + BotLines(text, tts, timestamp)
      ensures sent == old(sent) + TtsFrames(text, tts)
    {
      if tts.status == 200 {
        messageCounter := messageCounter + 1;
        audioMessages := audioMessages[AudioFileName(messageCounter, "bot") := tts.body];
        completeCallAudio := completeCallAudio + [tts.body];
        transcription := transcription + [TranscriptLine(timestamp, "Bot", text)];
        sent := sent + [TextOut("Bot: " + text), BytesOut(tts.body)];
        assert completeCallAudio[..|completeCallAudio| - 1] == old(completeCallAudio);
      }
    }

    /** Line 159: the greeting opens the call. */
    method Greet(tts: TtsResponse, timestamp: string)
      requires Valid() && dialogue.Listening?
      modifies this`messageCounter, this`completeCallAudio, this`audioMessages,
               this`transcription, this`sent
      ensures Valid()
      ensures completeCallAudio == old(completeCallAudio) + Synthesised(tts)
      ensures transcription == old(transcription) + BotLines(Greeting, tts, timestamp)
      ensures sent == old(sent) + TtsFrames(Greeting, tts)
    {
      SendTtsAndText(Greeting, tts, timestamp);
    }

    /** Lines 224-229 for a call that ends at the given clock reading. */
    function FinalRecord(payload: Payload, endMicros: int, endIso: string): (r: Payload)
      requires callStart.aware
    {
      var callEnd := NowUtc(endMicros, endIso);
      MergeMetadata(payload, sessionId, callStart, callEnd, ElapsedSeconds(callEnd, callStart).value)
    }

    /** Lines 218-221: when there is a goodbye, the transcript is echoed to
        the caller and the goodbye is synthesised like any other reply. */
    method SpeakGoodbye(userText: string, goodbye: string, tts: TtsResponse, botTimestamp: string)
      requires AudioValid()
      modifies this`messageCounter, this`completeCallAudio, this`audioMessages,
               this`transcription, this`sent
      ensures AudioValid()
      ensures completeCallAudio ==
        old(completeCallAudio) + (if goodbye != "" then Synthesised(tts) else [])
      ensures transcription ==
        old(transcription) + GoodbyeLines(goodbye, tts, botTimestamp)
      ensures sent == old(sent) + GoodbyeFrames(userText, goodbye, tts)
    {
      if goodbye != "" {
        sent := sent + [TextOut("User: " + userText)];
        SendTtsAndText(goodbye, tts, botTimestamp);
      }
    }

    /** Lines 223-258, once the flag is set and the goodbye spoken: the
        metadata is merged into the payload; the summary goes to
        `call_summary.json` and is appended to `call_log.json`; the full-call
        file is written only when at least one fragment was synthesised; the
        closing notice is sent, the socket closed and the dialogue task
        returns. */
    method Finalize(payload: Payload, endMicros: int, endIso: string)
      requires AudioValid() && HistoryValid() && dialogue.Listening?
      requires callStart.aware && callEndedNormally && summaryWrites == [] && callLog == []
      requires SignalsEndOfCall(payload)
      modifies this`summaryWrites, this`callLog, this`completeCallFile, this`sent, this`dialogue
      ensures Valid() && dialogue == Finished
      ensures summaryWrites == [FinalSummary(FinalRecord(payload, endMicros, endIso))]
      ensures callLog == [FinalRecord(payload, endMicros, endIso)]
      ensures completeCallFile ==
        (if completeCallAudio == [] then None else Some(FullCallAudio(completeCallAudio)))
      ensures sent == old(sent) + [TextOut(CallEndedNotice), CloseOut]
    {
      PersistFinalSummary(payload, endMicros, endIso);
      CloseCall();
    }

    /** Lines 223-252: the merged summary is written and appended to the
        call log, and the full-call file written when there is audio. Both
        logs are still empty: the summary of a call is persisted at most
        once. */
    method PersistFinalSummary(payload: Payload, endMicros: int, endIso: string)
      requires callStart.aware && SignalsEndOfCall(payload)
      requires summaryWrites == [] && callLog == []
      modifies this`summaryWrites, this`callLog, this`completeCallFile
      ensures summaryWrites == old(summaryWrites) + [FinalSummary(FinalRecord(payload, endMicros, endIso))]
      ensures callLog == old(callLog) + [FinalRecord(payload, endMicros, endIso)]
      ensures completeCallFile ==
        (if completeCallAudio == [] then None else Some(FullCallAudio(completeCallAudio)))
      ensures WellFormedOutcome(true, true, relayEnded, summaryWrites, callLog,
                                completeCallAudio, completeCallFile)
    {
      var summary := FinalRecord(payload, endMicros, endIso);
      MergeKeepsEndCall(payload, sessionId, callStart, NowUtc(endMicros, endIso),
                        ElapsedSeconds(NowUtc(endMicros, endIso), callStart).value);
      var file: Option<Bytes> := None;
      if completeCallAudio != [] {
        var written := WriteCompleteCall(completeCallAudio);
        file := Some(written[..]);
      }
      NormalOutcome(summary, relayEnded, completeCallAudio, file);
      summaryWrites := summaryWrites + [FinalSummary(summary)];
      callLog := callLog + [summary];
      completeCallFile := file;
    }

    /** Lines 254-258: the closing notice is sent, the socket closed and the
        dialogue task finishes. */
    method CloseCall()
      requires AudioValid() && HistoryValid() && dialogue.Listening?
      requires callStart.aware && callEndedNormally
      requires WellFormedOutcome(true, true, relayEnded, summaryWrites, callLog,
                                 completeCallAudio, completeCallFile)
      modifies this`sent, this`dialogue
      ensures Valid() && dialogue == Finished
      ensures sent == old(sent) + [TextOut(CallEndedNotice), CloseOut]
    {
      sent := sent + [TextOut(CallEndedNotice), CloseOut];
      dialogue := Finished;
    }

    /** Lines 213-258: the flag is set first; the goodbye, if any, is echoed
        and synthesised; the merged summary is written to the session's
        summary file and appended to the call log; the full-call file is
        written when there is at least one fragment; the closing notice is
        sent and the socket closed. */
    method FinishCall(userText: string, goodbye: string, payload: Payload, tts: TtsResponse,
                      botTimestamp: string, endMicros: int, endIso: string)
      requires Valid() && dialogue.Listening? && !relayEnded
      requires SignalsEndOfCall(payload)
      modifies this`messageCounter, this`completeCallAudio, this`audioMessages,
               this`transcription, this`sent, this`callEndedNormally, this`summaryWrites,
               this`callLog, this`completeCallFile, this`dialogue
      ensures Valid()
      ensures callEndedNormally && dialogue == Finished
      ensures completeCallAudio ==
        old(completeCallAudio) + (if goodbye != "" then Synthesised(tts) else [])
      ensures summaryWrites == [FinalSummary(FinalRecord(payload, endMicros, endIso))]
      ensures callLog == [FinalRecord(payload, endMicros, endIso)]
      ensures completeCallFile ==
        (if completeCallAudio == [] then None else Some(FullCallAudio(completeCallAudio)))
      ensures transcription ==
        old(transcription) + GoodbyeLines(goodbye, tts, botTimestamp)
      ensures sent == old(sent) + (GoodbyeFrames(userText, goodbye, tts) +
        [TextOut(CallEndedNotice), CloseOut])
    {
      callEndedNormally := true;
      SpeakGoodbye(userText, goodbye, tts, botTimestamp);
      Finalize(payload, endMicros, endIso);
      ConcatAssoc(old(sent), GoodbyeFrames(userText, goodbye, tts), [TextOut(CallEndedNotice), CloseOut]);
    }

    /** Lines 175-187 when the chat completion raises: the caller's line is
        logged and entered into the history, and the dialogue task ends with
        the exception. */
    method OnGenerationFailure(turn: Turn, userTimestamp: string)
      requires Valid() && dialogue.Listening? && !relayEnded
      requires turn.GenerationFails? && turn.transcript != ""
      modifies this`transcription, this`conversationHistory, this`dialogue
      ensures Valid()
      ensures conversationHistory == old(conversationHistory) + HistoryAdded(turn)
      ensures dialogue == NextDialogue(turn)
      ensures transcription == old(transcription) + TurnLines(turn, userTimestamp, TtsResponse(0, []), "")
    {
      var t := turn.transcript;
      AppendUnanswered(conversationHistory, systemPrompt, t);
      transcription := transcription + [TranscriptLine(userTimestamp, "User", t)];
      conversationHistory := conversationHistory + [ChatEntry(User, t)];
      dialogue := Failed(turn.error);
      assert HistoryValid();
    }

    /** Lines 175-189: the caller's line is logged, and the caller's entry and
        the generated reply are entered into the history. */
    method RecordExchange(t: string, reply: string, userTimestamp: string)
      requires Valid() && dialogue.Listening? && t != ""
      modifies this`transcription, this`conversationHistory
      ensures Valid()
      ensures transcription == old(transcription) + [TranscriptLine(userTimestamp, "User", t)]
      ensures conversationHistory ==
        old(conversationHistory) + [ChatEntry(User, t), ChatEntry(Assistant, reply)]
    {
      AppendExchange(conversationHistory, systemPrompt, t, reply);
      transcription := transcription + [TranscriptLine(userTimestamp, "User", t)];
      conversationHistory := conversationHistory + [ChatEntry(User, t), ChatEntry(Assistant, reply)];
      assert HistoryValid();
    }

    /** Lines 175-189 and 260-262: an exchange that does not end the call; the
        transcript is echoed and the whole reply synthesised. */
    method ContinueCall(turn: Turn, userTimestamp: string, tts: TtsResponse, botTimestamp: string)
      requires Valid() && dialogue.Listening? && !relayEnded
      requires turn.Continues? && turn.transcript != ""
      modifies this`messageCounter, this`completeCallAudio, this`audioMessages,
               this`transcription, this`sent, this`conversationHistory
      ensures Valid() && dialogue == NextDialogue(turn)
      ensures conversationHistory == old(conversationHistory) + HistoryAdded(turn)
      ensures completeCallAudio == old(completeCallAudio) + Synthesised(tts)
      ensures transcription == old(transcription) + TurnLines(turn, userTimestamp, tts, botTimestamp)
      ensures sent == old(sent) + TurnFrames(turn, tts)
    {
      var t, reply := turn.transcript, turn.reply;
      RecordExchange(t, reply, userTimestamp);
      sent := sent + [TextOut("User: " + t)];
      SendTtsAndText(reply, tts, botTimestamp);
      ConcatAssoc(old(transcription), [TranscriptLine(userTimestamp, "User", t)],
                  BotLines(reply, tts, botTimestamp));
      ConcatAssoc(old(sent), [TextOut("User: " + t)], TtsFrames(reply, tts));
    }

    /** Lines 175-189 and 213-258: an exchange whose reply ends the call. */
    method EndCallTurn(turn: Turn, userTimestamp: string, tts: TtsResponse, botTimestamp: string,
                   endMicros: int, endIso: string)
      requires Valid() && dialogue.Listening? && !relayEnded
      requires turn.Ends? && turn.transcript != "" && SignalsEndOfCall(turn.payload)
      modifies this`messageCounter, this`completeCallAudio, this`audioMessages,
               this`transcription, this`sent, this`callEndedNormally, this`summaryWrites,
               this`callLog, this`completeCallFile, this`dialogue, this`conversationHistory
      ensures Valid() && callEndedNormally && dialogue == NextDialogue(turn)
      ensures conversationHistory == old(conversationHistory) + HistoryAdded(turn)
      ensures completeCallAudio ==
        old(completeCallAudio) + (if turn.goodbye != "" then Synthesised(tts) else [])
      ensures transcription == old(transcription) + TurnLines(turn, userTimestamp, tts, botTimestamp)
      ensures sent == old(sent) + TurnFrames(turn, tts)
      ensures summaryWrites == [FinalSummary(FinalRecord(turn.payload, endMicros, endIso))]
    {
      var t, goodbye := turn.transcript, turn.goodbye;
      RecordExchange(t, turn.reply, userTimestamp);
      FinishCall(t, goodbye, turn.payload, tts, botTimestamp, endMicros, endIso);
      ConcatAssoc(old(transcription), [TranscriptLine(userTimestamp, "User", t)],
                  GoodbyeLines(goodbye, tts, botTimestamp));
    }

    /** Lines 165-262: one frame of the recognition stream, with the
        generated reply, the synthesis response for whatever the turn
        speaks, and the clock readings of the turn. */
    method OnRecognitionFrame(frame: Frame, userTimestamp: string, generation: Generation,
                              parse: Parser, tts: TtsResponse, botTimestamp: string,
                              endMicros: int, endIso: string)
      requires Valid() && dialogue.Listening? && !relayEnded
      modifies this`messageCounter, this`completeCallAudio, this`audioMessages,
               this`transcription, this`sent, this`callEndedNormally, this`summaryWrites,
               this`callLog, this`completeCallFile, this`dialogue, this`conversationHistory
      ensures Valid()
      ensures var turn := PlanTurn(frame, generation, parse);
        conversationHistory == old(conversationHistory) + HistoryAdded(turn) &&
        dialogue == NextDialogue(turn) &&
        (callEndedNormally <==> turn.Ends?) &&
        completeCallAudio ==
          old(completeCallAudio) + (if SpokenText(turn).Some? then Synthesised(tts) else []) &&
        transcription == old(transcription) + TurnLines(turn, userTimestamp, tts, botTimestamp) &&
        sent == old(sent) + TurnFrames(turn, tts) &&
        summaryWrites ==
          (if turn.Ends? then [FinalSummary(FinalRecord(turn.payload, endMicros, endIso))] else [])
    {
      var turn := PlanTurn(frame, generation, parse);
      assert summaryWrites == [];
      match turn
      case Silent =>
      case FrameFails(e) =>
        dialogue := Failed(e);
      case GenerationFails(_, _) =>
        OnGenerationFailure(turn, userTimestamp);
      case Continues(_, _) =>
        ContinueCall(turn, userTimestamp, tts, botTimestamp);
      case Ends(_, _, _, _) =>
        EndCallTurn(turn, userTimestamp, tts, botTimestamp, endMicros, endIso);
    }

    /** Lines 269-277: a non-empty audio frame is forwarded to the
        recognition stream; anything else is only printed. */
    method OnCallerFrame(frame: CallerFrame)
      requires !relayEnded && !dialogue.Finished?
      modifies this`forwarded
      ensures forwarded == old(forwarded) +
        (if frame.CallerAudio? && frame.data != [] then [frame.data] else [])
    {
      if frame.CallerAudio? && frame.data != [] {
        forwarded := forwarded + [frame.data];
      }
    }

    /** Lines 279-299, with the end time read from the aware clock: unless the
        call already ended normally, the incomplete summary with the
        exception's text is written; the relay loop is over either way. */
    method OnDisconnect(reason: string, nowMicros: int, nowIso: string)
      requires Valid() && !relayEnded
      modifies this`relayEnded, this`summaryWrites
      ensures Valid() && relayEnded
      ensures summaryWrites == old(summaryWrites) +
        (if callEndedNormally then []
         else [IncompleteSummaryWrite(
                 IncompleteSummaryAtDisconnect(sessionId, callStart, nowMicros, nowIso, reason))])
      ensures |summaryWrites| == 1
    {
      relayEnded := true;
      if !callEndedNormally {
        var summary := IncompleteSummaryAtDisconnect(sessionId, callStart, nowMicros, nowIso, reason);
        summaryWrites := summaryWrites + [IncompleteSummaryWrite(summary)];
      }
    }
  }
}
