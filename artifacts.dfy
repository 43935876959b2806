/**
 * The names and lines of a session's recordings (backend/main.py): the
 * audio file name `f"{message_index:03d}_{speaker}.wav"` (line 60) and the
 * transcript entry `f"[{timestamp}] {speaker}: {text}\n\n"` (line 70).
 */
module Artifacts {
  import opened Wrappers
  import opened Text

  predicate IsDigit(c: char) {
    '0' <= c <= '9'
  }

  predicate AllDigits(s: string) {
    forall k :: 0 <= k < |s| ==> IsDigit(s[k])
  }

  function DigitChar(d: nat): (c: char)
    requires d < 10
    ensures IsDigit(c) && c as int - '0' as int == d
  {
    (d + '0' as int) as char
  }

  /** `str(n)` for a natural number: its decimal digits, without leading
      zeros. */
  function Decimal(n: nat): (s: string)
    ensures 1 <= |s| && AllDigits(s)
    ensures n < 10 ==> |s| == 1
    ensures n < 100 ==> |s| <= 2
    ensures n < 1000 ==> |s| <= 3
  {
    if n < 10 then [DigitChar(n)] else Decimal(n / 10) + [DigitChar(n % 10)]
  }

  /** The number a string of decimal digits denotes; leading zeros count for
      nothing. */
  function Value(s: string): nat
    requires AllDigits(s)
  {
    if s == [] then 0 else Value(s[..|s| - 1]) * 10 + (s[|s| - 1] as int - '0' as int)
  }

  function Zeros(k: nat): (z: string)
    ensures |z| == k && AllDigits(z)
  {
    if k == 0 then [] else Zeros(k - 1) + ['0']
  }

  /** `f"{n:03d}"`: the decimal digits of `n`, padded on the left with zeros
      to at least three characters. */
  function Pad3(n: nat): (s: string)
    ensures AllDigits(s)
    ensures |s| >= 3
    ensures n < 1000 ==> |s| == 3
  {
    var digits := Decimal(n);
    Zeros(if |digits| < 3 then 3 - |digits| else 0) + digits
  }

  lemma {:induction false} DecimalValue(n: nat)
    ensures Value(Decimal(n)) == n
  {
    if n >= 10 {
      DecimalValue(n / 10);
      var s := Decimal(n);
      assert s[..|s| - 1] == Decimal(n / 10);
    }
  }

  lemma {:induction false} ValueOfZeros(k: nat)
    ensures Value(Zeros(k)) == 0
  {
    if k > 0 {
      ValueOfZeros(k - 1);
      assert Zeros(k)[..k - 1] == Zeros(k - 1);
    }
  }

  lemma {:induction false} LeadingZerosIgnored(k: nat, s: string)
    requires AllDigits(s)
    ensures Value(Zeros(k) + s) == Value(s)
    decreases |s|
  {
    if s == [] {
      assert Zeros(k) + s == Zeros(k);
      ValueOfZeros(k);
    } else {
      LeadingZerosIgnored(k, s[..|s| - 1]);
      assert (Zeros(k) + s)[..|Zeros(k) + s| - 1] == Zeros(k) + s[..|s| - 1];
    }
  }

  /** The padded index reads back as the index. */
  lemma Pad3Value(n: nat)
    ensures Value(Pad3(n)) == n
  {
    var digits := Decimal(n);
    LeadingZerosIgnored(if |digits| < 3 then 3 - |digits| else 0, digits);
    DecimalValue(n);
  }

  /** Line 60: the name of one message's audio file. */
  function AudioFileName(index: nat, speaker: string): (name: string)
    ensures |name| >= 8 && name[|name| - 4..] == ".wav"
  {
    Pad3(index) + "_" + speaker + ".wav"
  }

  /** Reads an audio file name back: the index runs to the first `_`, the
      speaker from there to the `.wav` suffix. */
  function ParseAudioFileName(name: string): (r: Option<(nat, string)>)
  {
    var u := Find(name, '_');
    if u < 0 || |name| < u + 5 || name[|name| - 4..] != ".wav" || !AllDigits(name[..u]) then None
    else Some((Value(name[..u]), name[u + 1..|name| - 4]))
  }

  /** An audio file name reads back as the index and speaker it was made
      from. */
  lemma AudioFileNameRoundTrip(index: nat, speaker: string)
    ensures ParseAudioFileName(AudioFileName(index, speaker)) == Some((index, speaker))
  {
    var digits, tail := Pad3(index), speaker + ".wav";
    assert '_' !in digits;
    assert AudioFileName(index, speaker) == digits + ['_'] + tail;
    SplitAtFirst(digits, '_', tail);
    assert tail[..|speaker|] == speaker;
    Pad3Value(index);
  }

  /** Distinct messages never share a file: the name determines both the
      index and the speaker. */
  lemma AudioFileNameInjective(i: nat, si: string, j: nat, sj: string)
    requires AudioFileName(i, si) == AudioFileName(j, sj)
    ensures i == j && si == sj
  {
    AudioFileNameRoundTrip(i, si);
    AudioFileNameRoundTrip(j, sj);
  }

  /** One transcript entry. */
  datatype Entry = Entry(timestamp: string, speaker: string, text: string)

  /** Line 70: the text appended to the transcript for one message. */
  function TranscriptLine(timestamp: string, speaker: string, text: string): (line: string)
    ensures |line| >= 6 && line[0] == '[' && line[|line| - 2..] == "\n\n"
  {
    "[" + timestamp + "] " + speaker + ": " + text + "\n\n"
  }

  /** Reads an entry back: the timestamp runs to the first `]`, the speaker to
      the first `:` after it, and the text to the final blank line. */
  function ParseTranscriptLine(line: string): (e: Option<Entry>)
  {
    if |line| < 3 || line[0] != '[' || line[|line| - 2..] != "\n\n" then None
    else ParseEntryBody(line[1..|line| - 2])
  }

  /** The entry between the opening `[` and the closing blank line. */
  function ParseEntryBody(body: string): (e: Option<Entry>)
  {
    var close := Find(body, ']');
    if close < 0 || close + 1 >= |body| || body[close + 1] != ' ' then None
    else
      var rest := body[close + 2..];
      var colon := Find(rest, ':');
      if colon < 0 || colon + 1 >= |rest| || rest[colon + 1] != ' ' then None
      else Some(Entry(body[..close], rest[..colon], rest[colon + 2..]))
  }

  /** A field followed by `c` and a space, when the field itself holds no `c`:
      the first `c` closes the field and the rest follows the space. */
  lemma FieldSplit(head: string, c: char, tail: string)
    requires c !in head
    ensures Find(head + [c, ' '] + tail, c) == |head|
    ensures (head + [c, ' '] + tail)[|head| + 1] == ' '
    ensures (head + [c, ' '] + tail)[..|head|] == head
    ensures (head + [c, ' '] + tail)[|head| + 2..] == tail
  {
    assert head + [c, ' '] + tail == head + [c] + ([' '] + tail);
    SplitAtFirst(head, c, [' '] + tail);
  }

  lemma EntryBodyRoundTrip(timestamp: string, speaker: string, text: string)
    requires ']' !in timestamp && ':' !in speaker
    ensures ParseEntryBody(timestamp + "] " + speaker + ": " + text)
      == Some(Entry(timestamp, speaker, text))
  {
    var rest := speaker + ": " + text;
    assert timestamp + "] " + speaker + ": " + text == timestamp + "] " + rest;
    FieldSplit(timestamp, ']', rest);
    FieldSplit(speaker, ':', text);
  }

  /** A transcript entry reads back as what was written, provided the
      timestamp holds no `]` and the speaker no `:` (true of the
      `%Y-%m-%d %I:%M:%S %p` stamps and of `Bot` and `User`). */
  lemma TranscriptLineRoundTrip(timestamp: string, speaker: string, text: string)
    requires ']' !in timestamp && ':' !in speaker
    ensures ParseTranscriptLine(TranscriptLine(timestamp, speaker, text))
      == Some(Entry(timestamp, speaker, text))
  {
    var line := TranscriptLine(timestamp, speaker, text);
    assert line[1..|line| - 2] == timestamp + "] " + speaker + ": " + text;
    EntryBodyRoundTrip(timestamp, speaker, text);
  }
}
