# Voice complaint assistant: per-call session bookkeeping

`backend/main.py` serves one WebSocket per phone-style call. The caller's
audio is relayed to a speech-recognition stream. Each non-empty transcript
the stream reports, final or not, is logged and sent to a chat model. The
reply is searched for a brace-delimited JSON record. Without one that ends
the call, the whole reply is synthesised to WAV and played back. A reply
whose JSON record has a truthy `end_call` finishes the call. The text before
the record is spoken as a goodbye, the call metadata is merged into the
record, and the summary is written and logged. The synthesised fragments
are then joined into one WAV file, and the socket is closed. A caller who
goes away first is meant to leave an "incomplete" summary instead; as
written, that path raises before writing it (see Findings).

This project models that bookkeeping as a sequential state machine and
proves what it promises. Every external service answers through a parameter:

- the speech-synthesis response (status and body);
- the generated reply, or the exception raised instead;
- the JSON parser, `parse: string -> Option<Payload>`;
- the clock readings;
- the text of the disconnect exception.

| file | module | what it holds |
|---|---|---|
| `wrappers.dfy` | `Wrappers` | `Option`, `Result` |
| `text.dfy` | `Text` | Python's `str.strip()`, `find` and `rfind` on one character |
| `json.dfy` | `Json` | decoded JSON values, `Payload`, Python truthiness |
| `reply.dfy` | `Reply` | the reply splitter and end-of-call detector (lines 193-213, 262) |
| `clock.dfy` | `Clock` | aware and naive UTC readings, `isoformat()`, subtraction |
| `summary.dfy` | `Summary` | the metadata merge (224-229) and the incomplete summary (284-294) |
| `call_audio.dfy` | `CallAudio` | the full-call WAV file (244-252), as a function and as an array loop |
| `artifacts.dfy` | `Artifacts` | the audio file name (60) and transcript line (70), with their parsers |
| `recognition.dfy` | `Recognition` | the filter on recognition frames (165-171) |
| `session.dfy` | `Session` | the class `CallSession` with the endpoint's state (92-95) and every step of a call |

`CallSession` holds the endpoint's four variables as real fields:
`messageCounter`, `completeCallAudio`, `conversationHistory` and
`callEndedNormally`. It also holds the state of the dialogue task and
whether the relay loop has ended. The outputs are ghost fields, each only
ever appended to:

- the files in `audio_messages/`;
- the transcript entries;
- the frames sent to the caller;
- the frames forwarded to recognition;
- the writes of `call_summary.json`, one record per write;
- the lines of `call_log.json`;
- the full-call file.

Its invariant `Valid` holds after every step. It states these properties:

- the counter equals the number of fragments, and file `{n:03d}_bot.wav` holds fragment n;
- the history is the system prompt followed by alternating, non-empty user entries and assistant entries;
- `callEndedNormally` is set exactly when the dialogue finished;
- at most one summary is ever written, and it is the final summary exactly when the call ended normally. This holds for the model's atomic steps; "## Left out" names the windows of the source it does not cover.

### Behaviour of the code worth knowing

- **Synthesis failure.** When synthesis answers with a status other than 200, the text is neither logged nor sent (lines 154-156). Only the error is printed.
- **Generation failure.** A chat-completion exception ends the dialogue task (lines 183-187). By then the caller's line has been logged and entered into the history. An undecodable recognition frame (line 167) and an empty `alternatives` list (line 170) also end the dialogue task.
- **Spoken text.** On the normal path the whole `bot_reply` is spoken (line 262), whatever `text_part` holds. Only the end-of-call path speaks `text_part` (line 220).
- **Disconnect before the end of the call.** The comment at line 282 shows that this path is meant to save the incomplete call data. As written, it raises before any summary is written (see Findings). The model's disconnect step uses the corrected clock.
- **File names.** `{n:03d}` pads to at least three digits, so message 1000 is named `1000_bot.wav`.

## Model

| member | source | states |
|---|---|---|
| Text.StripTrimmed | backend/main.py:203-204 | `strip()` leaves a string alone when it neither starts nor ends with whitespace |
| Text.Strip | backend/main.py:203-204 | `strip()` returns a string no longer than its input that neither starts nor ends with whitespace; Text.StripIsSlice says which slice it is |
| Text.BracedIsTrimmed | backend/main.py:204 | `strip()` leaves a `{`...`}` candidate unchanged |
| Text.StripIsSlice | backend/main.py:203 | `strip()` yields a slice of its input and cuts only whitespace from either end |
| Text.Find | backend/main.py:199 | `find('{')` is the first index holding `{`, and -1 exactly when there is none |
| Text.RFind | backend/main.py:200 | `rfind('}')` is the last index holding `}`, and -1 exactly when there is none |
| Reply.Candidate | backend/main.py:199-204 | the candidate runs from the first `{` through the last `}` and is at least two characters |
| Reply.HasBracePair | backend/main.py:198-202 | no contract of its own; Reply.BracePairIff states what it means |
| Reply.SplitReply | backend/main.py:194-210 | no contract of its own; Reply.NoBracePairSpeaksWholeReply, Reply.ParsedPayload, Reply.ParsedTextPart and Reply.MalformedPayloadFallsBack state its result on every input |
| Reply.SignalsEndOfCall | backend/main.py:213 | no contract of its own; the condition of line 213 on a decoded payload, used by Reply.EndCallIff |
| Reply.DecideTurn | backend/main.py:213-262 | the call ends only with a payload that signals it; otherwise the whole reply is spoken |
| Reply.BracePairIff | backend/main.py:198-202 | the guards of lines 198 and 202 hold exactly when some `{` precedes some `}` |
| Reply.NoBracePairSpeaksWholeReply | backend/main.py:194-202 | without a brace pair `text_part` stays "", there is no payload, and the whole reply is spoken (line 262) |
| Reply.CandidateIsTrimmed | backend/main.py:199-204 | the `strip()` of the candidate changes nothing |
| Reply.ParsedPayload | backend/main.py:199-207 | when the candidate decodes, the payload is the decoding of the first-`{`-to-last-`}` text |
| Reply.ParsedTextPart | backend/main.py:199-207 | when the candidate decodes, `text_part` is the trimmed text before the first `{` |
| Reply.MalformedPayloadFallsBack | backend/main.py:206-210 | when the candidate does not decode, `text_part` is the whole reply, there is no payload, and the call goes on |
| Reply.EndCallIff | backend/main.py:213 | the call ends if and only if the candidate decodes to a non-empty record with a truthy `end_call`; the goodbye is then the trimmed prefix |
| Reply.GoodbyeHasNoBrace | backend/main.py:203 | the goodbye spoken on the end-of-call path contains no `{` |
| Json.Truthy | backend/main.py:213 | no contract of its own; Python's `bool()` on a decoded JSON value |
| Json.KeyTruthy | backend/main.py:213 | no contract of its own; `payload.get(key)` used as a condition, false for a missing key |
| Clock.NowUtc | backend/main.py:82 | no contract of its own; defines `datetime.now(timezone.utc)` as an aware reading |
| Clock.UtcNow | backend/main.py:284 | no contract of its own; defines `datetime.utcnow()` as a naive reading |
| Clock.IsoFormat | backend/main.py:227-228 | no contract of its own; defines `isoformat()`, which adds `+00:00` only to an aware reading; Summary.MergedTimesAreUtc states its use |
| Clock.ElapsedSeconds | backend/main.py:225 | subtraction is defined if and only if both readings are aware or both naive; it then yields the elapsed seconds |
| Summary.MergeMetadata | backend/main.py:224-229 | the keys become the payload's plus the four metadata keys, with the session id, both `isoformat()` times and the duration; every other key keeps its value |
| Summary.MergedTimesAreUtc | backend/main.py:224-229 | with both readings aware, the subtraction succeeds; the recorded start and end times carry `+00:00`; the duration is the time elapsed between the readings |
| Summary.MergeKeepsEndCall | backend/main.py:226-229 | the merged summary still signals the end of the call |
| Summary.IncompleteSummary | backend/main.py:287-294 | exactly the six keys, with `status` "incomplete" and `reason` the error text |
| Summary.IncompleteSummaryAsWritten | backend/main.py:284-294 | as written: when it succeeds, the record has the six keys |
| Summary.IncompleteSummaryAsWrittenRaises | backend/main.py:284-285 | with the aware start time of line 82, the naive end time makes the subtraction raise `TypeError` on every clock reading |
| Summary.IncompleteSummaryAtDisconnect | backend/main.py:284-294 | with an aware end time: the six keys, status "incomplete", the reason, the session id, the start time's `isoformat()`, an end time with `+00:00`, and a duration equal to the elapsed microseconds |
| CallAudio.DropHeader | backend/main.py:252 | `chunk[44:]` is empty for chunks of at most 44 bytes, otherwise the chunk from byte 44 on |
| CallAudio.Bodies | backend/main.py:251-252 | no contract of its own; CallAudio.BodiesLength, CallAudio.BodiesAppend and CallAudio.ShortBodiesVanish state its length, its split and its empty case |
| CallAudio.FullCallAudio | backend/main.py:248-252 | no contract of its own; CallAudio.FullCallAudioLength, CallAudio.FirstFragmentLeads, CallAudio.FullCallAudioExtends and CallAudio.WriteCompleteCall relate it to the fragments and to the loop |
| CallAudio.BodiesLength | backend/main.py:251-252 | the later fragments contribute the sum of `max(0, len - 44)` bytes |
| CallAudio.FullCallAudioLength | backend/main.py:248-252 | the file is `len(frags[0]) + sum(max(0, len(f) - 44))` bytes long |
| CallAudio.FirstFragmentLeads | backend/main.py:249 | the file starts with the first fragment, header included |
| CallAudio.ShortBodiesVanish | backend/main.py:251-252 | later fragments of at most 44 bytes contribute nothing |
| CallAudio.ShortFragmentsVanish | backend/main.py:248-252 | if every later fragment is at most 44 bytes, the file is the first fragment alone |
| CallAudio.FullCallAudioSnoc | backend/main.py:251-252 | one more fragment appends its body to the file |
| CallAudio.BodiesAppend | backend/main.py:251-252 | the bodies of two runs of fragments are the bodies of each, in order |
| CallAudio.FullCallAudioExtends | backend/main.py:248-252 | the file for the first i fragments, followed by the bodies of the rest, is the whole file |
| CallAudio.Write | backend/main.py:252 | `f.write(data)` at position pos leaves the earlier bytes and appends `data` |
| CallAudio.WriteCompleteCall | backend/main.py:244-252 | the loop fills an array of exactly the expected size with the first fragment, then each later fragment without its header |
| Artifacts.DigitChar | backend/main.py:60 | the digit character for 0-9 |
| Artifacts.Decimal | backend/main.py:60 | `str(n)`: digits only, with at most 1, 2 or 3 of them below 10, 100 and 1000 |
| Artifacts.Pad3 | backend/main.py:60 | `{n:03d}`: digits only, at least three, exactly three below 1000 |
| Artifacts.DecimalValue | backend/main.py:60 | the decimal digits of n read back as n |
| Artifacts.ValueOfZeros | backend/main.py:60 | a run of zeros reads as 0 |
| Artifacts.LeadingZerosIgnored | backend/main.py:60 | padding zeros do not change the value read back |
| Artifacts.Pad3Value | backend/main.py:60 | the padded index reads back as the index |
| Artifacts.AudioFileName | backend/main.py:60 | the name ends in `.wav` |
| Artifacts.AudioFileNameRoundTrip | backend/main.py:60 | splitting a name at its first `_` and dropping `.wav` gives back the index and the speaker |
| Artifacts.AudioFileNameInjective | backend/main.py:60 | two messages share a file name only if they have the same index and speaker |
| Artifacts.TranscriptLine | backend/main.py:70 | the entry opens with `[` and ends with a blank line |
| Artifacts.EntryBodyRoundTrip | backend/main.py:70 | the text between the brackets and the blank line reads back as the timestamp, speaker and text |
| Artifacts.TranscriptLineRoundTrip | backend/main.py:70 | a whole transcript entry reads back as what was written, when the timestamp has no `]` and the speaker no `:` |
| Recognition.Classify | backend/main.py:165-171 | a turn starts only with a non-empty transcript |
| Recognition.UtteranceIff | backend/main.py:166-171 | a turn starts for transcript t if and only if the frame is decodable text with a channel whose first alternative carries the non-empty t |
| Recognition.RaisesIff | backend/main.py:167-170 | the dialogue task raises if and only if the text frame does not decode or its alternatives list is empty |
| Recognition.NoChannelIgnored | backend/main.py:166-169 | non-text frames and messages without a channel or without alternatives are ignored |
| Session.PlanTurn | backend/main.py:165-213 | a turn that reaches generation has a non-empty transcript; a turn that ends the call carries a payload that signals it |
| Session.HistoryAdded | backend/main.py:180-189 | no contract of its own; Session.HistoryAddedShape states what each frame appends |
| Session.TurnFrames | backend/main.py:219-262 | no contract of its own; the frames each kind of turn sends, used by Session.CallSession.OnRecognitionFrame |
| Session.TurnLines | backend/main.py:175-220 | no contract of its own; the transcript entries each kind of turn appends, used by Session.CallSession.OnRecognitionFrame |
| Session.AudioFiles | backend/main.py:138-139 | no contract of its own; Session.AudioFilesNames and Session.AudioFilesHold state which files exist and what each holds |
| Session.BotNamesDistinct | backend/main.py:138-139 | the k-th bot message's file name differs from every later one's |
| Session.AudioFilesNames | backend/main.py:138-139 | after n saved fragments the folder holds exactly the files `001_bot.wav` through the n-th |
| Session.AudioFilesHold | backend/main.py:138-139 | the file of the k-th fragment holds it byte for byte, however many fragments follow |
| Session.InitialHistoryWellFormed | backend/main.py:92 | the history that holds only the system prompt is well formed |
| Session.AppendExchange | backend/main.py:180-189 | a user entry and its reply appended to a well-formed history keep it well formed and leave the old entries in place |
| Session.AppendUnanswered | backend/main.py:180-187 | a user entry left unanswered by a failed generation leaves a history that is well formed only as a failed one |
| Session.NormalOutcome | backend/main.py:223-252 | one final summary, logged once, with the full-call file exactly when there is audio, is a well-formed normal outcome |
| Session.EndsOnlyOnEndCallRecord | backend/main.py:193-213 | a turn ends the call only when its reply was generated and carries a decodable brace-delimited record with a truthy `end_call`; the goodbye then has no `{` |
| Session.PlainReplyContinues | backend/main.py:260-262 | a reply without a brace pair continues the call and is spoken whole |
| Session.HistoryAddedShape | backend/main.py:169-189 | a transcript turn appends the user entry and, if generation succeeded, one assistant entry with the whole reply; other frames append nothing |
| Session.CallSession.constructor | backend/main.py:80-95 | a new session: counter 0, no fragments, the history is the system prompt alone, the flag is false, nothing written or sent |
| Session.CallSession.SendTtsAndText | backend/main.py:133-156 | on status 200 the counter and fragment list grow by one, the newest file holds the body, and the text is logged and sent with the audio; otherwise nothing changes |
| Session.CallSession.Greet | backend/main.py:158-159 | the greeting is synthesised like any reply and the invariant is kept |
| Session.CallSession.SpeakGoodbye | backend/main.py:217-221 | a non-empty goodbye is echoed after the caller's line and synthesised; an empty one sends nothing |
| Session.CallSession.Finalize | backend/main.py:223-258 | the merged summary is the one summary write and the one log line; the full-call file exists exactly when there is audio; the notice and the close are sent |
| Session.CallSession.PersistFinalSummary | backend/main.py:223-252 | appends the merged summary to the summary writes and to the call log (opened for appending at line 239), both still empty beforehand; writes the full-call file exactly when there is audio; the outcome is then well formed |
| Session.CallSession.CloseCall | backend/main.py:255-258 | sends the notice and the close; the dialogue task finishes with the invariant kept |
| Session.CallSession.FinishCall | backend/main.py:213-258 | the flag is set, the goodbye spoken, then the call finalised |
| Session.CallSession.OnGenerationFailure | backend/main.py:175-187 | the caller's line is logged and entered into the history, and the dialogue task fails with the exception |
| Session.CallSession.RecordExchange | backend/main.py:175-189 | the caller's line is logged; the user entry and the reply are appended to the history |
| Session.CallSession.ContinueCall | backend/main.py:260-262 | the exchange is recorded, the transcript echoed and the whole reply synthesised |
| Session.CallSession.EndCallTurn | backend/main.py:213-258 | the exchange is recorded, then the call finished |
| Session.CallSession.OnRecognitionFrame | backend/main.py:165-262 | one frame appends exactly the turn's history entries, transcript entries and frames; the flag is set exactly when the turn ends the call; a summary is written only then |
| Session.CallSession.OnCallerFrame | backend/main.py:269-277 | a non-empty audio frame is forwarded; anything else forwards nothing |
| Session.CallSession.OnDisconnect | backend/main.py:279-299 | an incomplete summary is written only if the call did not end normally, so exactly one summary exists afterwards |

## Left out

- Transport is not modelled: WebSocket accept, receive, send and close, the recognition stream connection, the HTTP sessions and the synthesis POST. Their answers are parameters, and the frames sent are a ghost log. Send failures are not modelled.
- The chat-completion call (lines 183-188) is replaced by its result, a reply or an exception. A reply whose content is `None` is not modelled; line 198 would raise `TypeError` on it.
- `json.loads` is an uninterpreted parser parameter, and `json.dump` is not modelled. Numbers are `real`, so NaN and the infinities are absent.
- A recognition message is reduced to the fields the filter reads. A `channel` or `alternatives` value of the wrong JSON type is not modelled.
- Concurrency is not modelled. The relay loop and the dialogue task run as one sequence of steps: `OnCallerFrame` and `OnDisconnect` for the relay, `OnRecognitionFrame` for the dialogue. Steps of the dialogue task after the relay loop has ended are not modelled.
- Session.CallSession.OnCallerFrame requires a dialogue task that has not finished. After line 257 closes the socket, the relay's next receive takes the exception path instead.
- Failed file writes are not modelled: `open` or `write` raising at lines 61-62, 69-70, 235-252 and 296-297. Such a failure would break the one-summary property. The flag is set at line 215, before the write at line 235. If that write raises, the dialogue task dies, and the disconnect path skips its summary because the flag is set. The session then persists no summary.
- Clocks, the UUID and `strftime` timestamps are parameters.
- The one-second pause of line 221 is not modelled.
- Clock.ElapsedSeconds: keeps the exact quotient as a `real`. `total_seconds()` at lines 225 and 285 returns a float, which in general only approximates the elapsed microseconds divided by 10^6. The durations recorded by Summary.MergeMetadata and Summary.IncompleteSummaryAtDisconnect are exact for the same reason.
- The end-of-call turn is one atomic step in the model. Session.CallSession.FinishCall sets the flag, speaks the goodbye and writes the summary, with no relay step in between. In the source the dialogue task waits on I/O between setting the flag (line 215) and writing the summary (line 235): the echo at line 219, the synthesis request and sends reached through line 220 (lines 133, 150-151), and the pause at line 221. If the caller hangs up in that window, the disconnect path skips its summary because the flag is set (line 283). The endpoint then leaves the blocks of lines 97-101, and the dialogue task's pending request or send can raise before line 235. The property that exactly one summary is written does not cover this window.
- Console `print` output, folder creation (lines 48-56, 89), CORS and static serving (lines 36-43, 304) are not modelled.
- The content of the system prompt and of the synthesis request (lines 111-131) is configuration and is not modelled.
- `frontend/script.js` is not part of this model. It is browser capture and playback; its only computation is floating-point PCM clamping.
- Session.CallSession.FinalRecord carries no contract of its own. The metadata merge it applies is specified by Summary.MergeMetadata.

## Findings

| source | as written | input that shows it | evidently intended | confidence | as-written member | corrected member |
|---|---|---|---|---|---|---|
| backend/main.py:284 | `call_end = datetime.utcnow()` is naive, and line 285 subtracts the aware `call_start` of line 82 from it, which raises `TypeError` inside the `except` block | a caller who closes the connection after the greeting, before any `end_call` reply | read the end time as `datetime.now(timezone.utc)`, as line 224 does, so the incomplete summary is written | not executed | Summary.IncompleteSummaryAsWrittenRaises | Summary.IncompleteSummaryAtDisconnect |
