/**
 * The full-call recording `complete_call_{session_id}.wav` (backend/main.py,
 * lines 244-252): the first synthesised fragment is written whole, header
 * included, and every later fragment without its first 44 bytes (the
 * canonical WAV header), so that the file reads as one WAV stream.
 */
module CallAudio {

  newtype byte = x: int | 0 <= x < 256

  type Bytes = seq<byte>

  /** The size of the canonical WAV header skipped by `chunk[44:]`. */
  const WavHeaderSize: nat := 44

  /** `chunk[44:]`: empty for a chunk of 44 bytes or fewer. */
  function DropHeader(chunk: Bytes): (r: Bytes)
    ensures |chunk| <= WavHeaderSize ==> r == []
    ensures |chunk| > WavHeaderSize ==>
      |r| == |chunk| - WavHeaderSize && forall k :: 0 <= k < |r| ==> r[k] == chunk[WavHeaderSize + k]
  {
    if |chunk| <= WavHeaderSize then [] else chunk[WavHeaderSize..]
  }

  /** `fs[0][44:] + fs[1][44:] + ...`. */
  function Bodies(fs: seq<Bytes>): Bytes
  {
    if fs == [] then [] else Bodies(fs[..|fs| - 1]) + DropHeader(fs[|fs| - 1])
  }

  /** The bytes of the full-call file for the fragments in `frags`. */
  function FullCallAudio(frags: seq<Bytes>): Bytes
  {
    if frags == [] then [] else frags[0] + Bodies(frags[1..])
  }

  /** The number of bytes `chunk[44:]` keeps. */
  function BodyLength(chunk: Bytes): nat
  {
    if |chunk| <= WavHeaderSize then 0 else |chunk| - WavHeaderSize
  }

  /** `sum(max(0, len(f) - 44) for f in fs)`. */
  function BodyLengths(fs: seq<Bytes>): nat
  {
    if fs == [] then 0 else BodyLengths(fs[..|fs| - 1]) + BodyLength(fs[|fs| - 1])
  }

  /** `len(frags[0]) + sum(max(0, len(f) - 44) for f in frags[1:])`. */
  function ExpectedLength(frags: seq<Bytes>): nat
  {
    if frags == [] then 0 else |frags[0]| + BodyLengths(frags[1..])
  }

  lemma {:induction false} BodiesLength(fs: seq<Bytes>)
    ensures |Bodies(fs)| == BodyLengths(fs)
    decreases |fs|
  {
    if fs != [] {
      BodiesLength(fs[..|fs| - 1]);
    }
  }

  /** The file is as long as the first fragment plus what each later fragment
      keeps after its header. */
  lemma {:induction false} FullCallAudioLength(frags: seq<Bytes>)
    ensures |FullCallAudio(frags)| == ExpectedLength(frags)
  {
    if frags != [] {
      BodiesLength(frags[1..]);
    }
  }

  /** The file begins with the first fragment, byte for byte. */
  lemma FirstFragmentLeads(frags: seq<Bytes>)
    requires frags != []
    ensures frags[0] <= FullCallAudio(frags)
  {
    assert FullCallAudio(frags)[..|frags[0]|] == frags[0];
  }

  /** Later fragments of at most 44 bytes contribute nothing. */
  lemma {:induction false} ShortBodiesVanish(fs: seq<Bytes>)
    requires forall i :: 0 <= i < |fs| ==> |fs[i]| <= WavHeaderSize
    ensures Bodies(fs) == []
    decreases |fs|
  {
    if fs != [] {
      ShortBodiesVanish(fs[..|fs| - 1]);
    }
  }

  /** If every later fragment is at most a header, the file is the first
      fragment alone. */
  lemma ShortFragmentsVanish(frags: seq<Bytes>)
    requires frags != []
    requires forall i :: 1 <= i < |frags| ==> |frags[i]| <= WavHeaderSize
    ensures FullCallAudio(frags) == frags[0]
  {
    var rest := frags[1..];
    assert forall i :: 0 <= i < |rest| ==> rest[i] == frags[i + 1];
    ShortBodiesVanish(rest);
  }

  /** Adding one more fragment appends its body to the file. */
  lemma {:induction false} FullCallAudioSnoc(frags: seq<Bytes>, i: nat)
    requires 1 <= i < |frags|
    ensures FullCallAudio(frags[..i + 1]) == FullCallAudio(frags[..i]) + DropHeader(frags[i])
  {
    var longer := frags[..i + 1][1..];
    assert longer == frags[1..i + 1];
    assert longer[..|longer| - 1] == frags[..i][1..];
    assert longer[|longer| - 1] == frags[i];
  }

  /** The bodies of two runs of fragments, one after the other. */
  lemma {:induction false} BodiesAppend(a: seq<Bytes>, b: seq<Bytes>)
    ensures Bodies(a + b) == Bodies(a) + Bodies(b)
    decreases |b|
  {
    if b == [] {
      assert a + b == a;
    } else {
      var b', last := b[..|b| - 1], DropHeader(b[|b| - 1]);
      assert (a + b)[..|a + b| - 1] == a + b';
      assert (a + b)[|a + b| - 1] == b[|b| - 1];
      BodiesAppend(a, b');
      var x, y := Bodies(a), Bodies(b');
      assert Bodies(a + b) == (x + y) + last;
      assert (x + y) + last == x + (y + last);
    }
  }

  /** The file for the first `i` fragments is a prefix of the file for all of
      them: synthesising more only ever extends the recording, by the bodies
      of the fragments that follow. */
  lemma FullCallAudioExtends(frags: seq<Bytes>, i: nat)
    requires 1 <= i <= |frags|
    ensures FullCallAudio(frags) == FullCallAudio(frags[..i]) + Bodies(frags[i..])
  {
    assert frags[1..] == frags[1..i] + frags[i..];
    assert frags[..i][1..] == frags[1..i];
    BodiesAppend(frags[1..i], frags[i..]);
  }

  /** `f.write(data)` on a file positioned at `pos`. */
  method Write(file: array<byte>, pos: nat, data: Bytes) returns (next: nat)
    requires pos + |data| <= file.Length
    modifies file
    ensures next == pos + |data|
    ensures file[..next] == old(file[..pos]) + data
  {
    var j := 0;
    while j < |data|
      invariant 0 <= j <= |data|
      invariant file[..pos + j] == old(file[..pos]) + data[..j]
    {
      file[pos + j] := data[j];
      assert file[..pos + j + 1] == file[..pos + j] + [data[j]];
      assert data[..j + 1] == data[..j] + [data[j]];
      j := j + 1;
    }
    assert data[..|data|] == data;
    next := pos + |data|;
  }

  /** Lines 248-252: the first fragment as it is, then every later fragment
      without its header, into a file of exactly the right size. */
  method WriteCompleteCall(frags: seq<Bytes>) returns (file: array<byte>)
    requires frags != []
    ensures file[..] == FullCallAudio(frags)
  {
    FullCallAudioLength(frags);
    file := new byte[ExpectedLength(frags)];
    FullCallAudioExtends(frags, 1);
    assert FullCallAudio(frags[..1]) == frags[0] by {
      assert frags[..1][1..] == [];
    }
    var pos := Write(file, 0, frags[0]);
    var i := 1;
    while i < |frags|
      invariant 1 <= i <= |frags|
      invariant file.Length == |FullCallAudio(frags)|
      invariant pos == |FullCallAudio(frags[..i])| <= file.Length
      invariant file[..pos] == FullCallAudio(frags[..i])
    {
      FullCallAudioSnoc(frags, i);
      FullCallAudioExtends(frags, i + 1);
      pos := Write(file, pos, DropHeader(frags[i]));
      i := i + 1;
    }
    assert frags[..i] == frags;
    assert file[..] == file[..pos];
  }
}
