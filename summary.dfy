/**
 * The two summary records a session can persist as `call_summary.json`:
 * the payload of the final reply with the call metadata merged in
 * (backend/main.py, lines 223-229) and the incomplete summary written on the
 * disconnect path (lines 282-294).
 */
module Summary {
  import opened Wrappers
  import opened Json
  import opened Clock
  import opened Reply

  /** The four keys the end-of-call path sets on the payload. */
  const MetadataKeys: set<string> :=
    {"session_id", "call_start_time", "call_end_time", "call_duration_seconds"}

  /** The six keys of the incomplete summary. */
  const IncompleteKeys: set<string> := MetadataKeys + {"status", "reason"}

  /** Lines 226-229: the four metadata keys are set, replacing any value the
      payload already had for them; every other key keeps its value. */
  function MergeMetadata(payload: Payload, sessionId: string, callStart: DateTime,
                         callEnd: DateTime, duration: real): (r: Payload)
    ensures r.Keys == payload.Keys + MetadataKeys
    ensures r["session_id"] == JString(sessionId)
    ensures r["call_start_time"] == JString(IsoFormat(callStart))
    ensures r["call_end_time"] == JString(IsoFormat(callEnd))
    ensures r["call_duration_seconds"] == JNumber(duration)
    ensures forall k :: k in payload && k !in MetadataKeys ==> r[k] == payload[k]
  {
    payload["session_id" := JString(sessionId)]
           ["call_start_time" := JString(IsoFormat(callStart))]
           ["call_end_time" := JString(IsoFormat(callEnd))]
           ["call_duration_seconds" := JNumber(duration)]
  }

  /** The merged summary still carries the end-of-call signal it was
      detected by. */
  lemma MergeKeepsEndCall(payload: Payload, sessionId: string, callStart: DateTime,
                          callEnd: DateTime, duration: real)
    requires SignalsEndOfCall(payload)
    ensures SignalsEndOfCall(MergeMetadata(payload, sessionId, callStart, callEnd, duration))
  {
    assert "end_call" !in MetadataKeys;
  }

  /** Lines 224-229 with both readings taken as `datetime.now(timezone.utc)`
      (lines 82 and 224): the two recorded times carry the UTC offset, and
      the duration is the elapsed time between the two readings. */
  lemma MergedTimesAreUtc(payload: Payload, sessionId: string, startMicros: int, startIso: string,
                          endMicros: int, endIso: string)
    ensures var callStart, callEnd := NowUtc(startMicros, startIso), NowUtc(endMicros, endIso);
      ElapsedSeconds(callEnd, callStart).Ok? &&
      var r := MergeMetadata(payload, sessionId, callStart, callEnd,
                             ElapsedSeconds(callEnd, callStart).value);
      r["call_start_time"] == JString(startIso + "+00:00") &&
      r["call_end_time"] == JString(endIso + "+00:00") &&
      exists d :: r["call_duration_seconds"] == JNumber(d) &&
                  d * 1000000.0 == (endMicros - startMicros) as real
  {
  }

  /** Lines 287-294: the record written when the caller goes away before the
      call ended normally. */
  function IncompleteSummary(sessionId: string, callStart: DateTime, callEnd: DateTime,
                             duration: real, reason: string): (r: Payload)
    ensures r.Keys == IncompleteKeys
    ensures r["status"] == JString("incomplete") && r["reason"] == JString(reason)
    ensures r["session_id"] == JString(sessionId)
    ensures r["call_start_time"] == JString(IsoFormat(callStart))
    ensures r["call_end_time"] == JString(IsoFormat(callEnd))
    ensures r["call_duration_seconds"] == JNumber(duration)
  {
    map["session_id" := JString(sessionId),
        "call_start_time" := JString(IsoFormat(callStart)),
        "call_end_time" := JString(IsoFormat(callEnd)),
        "call_duration_seconds" := JNumber(duration),
        "status" := JString("incomplete"),
        "reason" := JString(reason)]
  }

  /** Lines 284-294 as written: the end time comes from the naive
      `datetime.utcnow()` and is subtracted from the aware start time. */
  function IncompleteSummaryAsWritten(sessionId: string, callStart: DateTime, nowMicros: int,
                                      nowIso: string, reason: string): (r: Result<Payload>)
    ensures r.Ok? ==> r.value.Keys == IncompleteKeys
  {
    var callEnd := UtcNow(nowMicros, nowIso);
    match ElapsedSeconds(callEnd, callStart)
    case Err(e) => Err(e)
    case Ok(duration) => Ok(IncompleteSummary(sessionId, callStart, callEnd, duration, reason))
  }

  /** The session's start time is aware (line 82), so as written the
      disconnect path raises `TypeError` before any summary is written, on
      every clock reading. */
  lemma IncompleteSummaryAsWrittenRaises(sessionId: string, callStart: DateTime, nowMicros: int,
                                         nowIso: string, reason: string)
    requires callStart.aware
    ensures IncompleteSummaryAsWritten(sessionId, callStart, nowMicros, nowIso, reason)
      == Err(MixedSubtraction)
  {
  }

  /** The disconnect summary with the end time read as
      `datetime.now(timezone.utc)`, like the start time: the subtraction is
      defined and the summary records the elapsed time. */
  function IncompleteSummaryAtDisconnect(sessionId: string, callStart: DateTime, nowMicros: int,
                                         nowIso: string, reason: string): (r: Payload)
    requires callStart.aware
    ensures r.Keys == IncompleteKeys
    ensures r["status"] == JString("incomplete") && r["reason"] == JString(reason)
    ensures r["session_id"] == JString(sessionId)
    ensures r["call_start_time"] == JString(IsoFormat(callStart))
    ensures r["call_end_time"] == JString(nowIso + "+00:00")
    ensures exists d :: r["call_duration_seconds"] == JNumber(d) &&
                        d * 1000000.0 == (nowMicros - callStart.micros) as real
  {
    var callEnd := NowUtc(nowMicros, nowIso);
    var duration := ElapsedSeconds(callEnd, callStart).value;
    IncompleteSummary(sessionId, callStart, callEnd, duration, reason)
  }
}
