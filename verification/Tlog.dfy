/** The tlog byte encoding (src/data/tlog/encoder.ts). */
module Tlog {
  import opened Text
  import opened Numbers

  const TIMESTAMP_BYTES := 8

  /** A received frame and when it came, in microseconds. */
  datatype RawFrame = RawFrame(rxTimeUs: Float, raw: seq<Byte>)

  /** The whole microseconds of a positive finite clock, and 0 for any other. */
  function Timestamp(rxTimeUs: Float): nat {
    if rxTimeUs.Fin? && rxTimeUs.r > 0.0 then rxTimeUs.r.Floor else 0
  }

  /** The low k bytes of n, most significant first. */
  function BigEndian(n: nat, k: nat): (r: seq<Byte>)
    ensures |r| == k
  {
    if k == 0 then [] else BigEndian(n / 256, k - 1) + [n % 256]
  }

  function Value(bytes: seq<Byte>): nat {
    if bytes == [] then 0 else 256 * Value(bytes[..|bytes| - 1]) + bytes[|bytes| - 1]
  }

  /** k bytes hold the value modulo 256 to the k: exactly, when it is small enough. */
  lemma {:induction false} BigEndianValue(n: nat, k: nat)
    ensures Value(BigEndian(n, k)) == n % Pow256(k)
    ensures Value(BigEndian(n, k)) == n <==> n < Pow256(k)
  {
    if k > 0 {
      BigEndianValue(n / 256, k - 1);
      assert BigEndian(n, k)[..k - 1] == BigEndian(n / 256, k - 1);
      ModSplit(n, Pow256(k - 1));
      assert n % Pow256(k) < Pow256(k);
    }
  }

  lemma ModSplit(n: nat, p: nat)
    requires p > 0
    ensures n % (256 * p) == 256 * ((n / 256) % p) + n % 256
  {
    var q, r := n / 256 / p, (n / 256) % p;
    var low := 256 * r + n % 256;
    assert n / 256 == q * p + r;
    assert r <= p - 1;
    assert low < 256 * p;
    DivModUnique(n, q, low, 256 * p);
  }

  function Entry(f: RawFrame): (r: seq<Byte>)
    ensures |r| == TIMESTAMP_BYTES + |f.raw|
  {
    BigEndian(Timestamp(f.rxTimeUs), TIMESTAMP_BYTES) + f.raw
  }

  /** An entry gives back its raw frame, and the whole microseconds of its time if that
      is below 2 to the 64; a clock that is not finite or not positive is written as 0. */
  lemma EntryReads(f: RawFrame)
    ensures Entry(f)[TIMESTAMP_BYTES..] == f.raw
    ensures Value(Entry(f)[..TIMESTAMP_BYTES]) == Timestamp(f.rxTimeUs)
            <==> Timestamp(f.rxTimeUs) < 0x1_0000_0000_0000_0000
    ensures f.rxTimeUs.Fin? && 0.0 < f.rxTimeUs.r < 18446744073709551616.0 ==>
              var us := Value(Entry(f)[..TIMESTAMP_BYTES]); us as real <= f.rxTimeUs.r < us as real + 1.0
    ensures !(f.rxTimeUs.Fin? && f.rxTimeUs.r > 0.0) ==> Value(Entry(f)[..TIMESTAMP_BYTES]) == 0
  {
    BigEndianValue(Timestamp(f.rxTimeUs), 8);
    assert Pow256(8) == 0x1_0000_0000_0000_0000 by {
      assert Pow256(4) == 0x1_0000_0000;
    }
    assert Entry(f)[..TIMESTAMP_BYTES] == BigEndian(Timestamp(f.rxTimeUs), 8);
  }

  /** DataView.setBigUint64 at the start, big-endian. */
  method SetTimestamp(out: array<Byte>, timestamp: nat)
    requires TIMESTAMP_BYTES <= out.Length
    modifies out
    ensures out[..TIMESTAMP_BYTES] == BigEndian(timestamp, TIMESTAMP_BYTES)
  {
    var rest, k := timestamp, TIMESTAMP_BYTES;
    while k > 0
      invariant 0 <= k <= TIMESTAMP_BYTES
      invariant BigEndian(rest, k) + out[k..TIMESTAMP_BYTES] == BigEndian(timestamp, TIMESTAMP_BYTES)
    {
      k := k - 1;
      ghost var written := out[k + 1..TIMESTAMP_BYTES];
      out[k] := rest % 256;
      assert out[k..TIMESTAMP_BYTES] == [rest % 256] + written;
      assert BigEndian(rest, k + 1) + written == BigEndian(rest / 256, k) + ([rest % 256] + written);
      rest := rest / 256;
    }
  }

  method EncodeTlogEntry(f: RawFrame) returns (out: array<Byte>)
    ensures fresh(out) && out[..] == Entry(f)
  {
    hide BigEndian;
    out := new Byte[TIMESTAMP_BYTES + |f.raw|](_ => 0);
    SetTimestamp(out, Timestamp(f.rxTimeUs));
    SetBytes(out, f.raw, TIMESTAMP_BYTES);
    assert out[..] == out[..TIMESTAMP_BYTES] + out[TIMESTAMP_BYTES..];
  }

  lemma ConcatStep(chunks: seq<seq<Byte>>, i: nat)
    requires i < |chunks|
    ensures Concat(chunks[..i + 1]) == Concat(chunks[..i]) + chunks[i]
    ensures |Concat(chunks[..i + 1])| <= |Concat(chunks)|
  {
    assert chunks[..i + 1] == chunks[..i] + [chunks[i]];
    ConcatAppend(chunks[..i], chunks[i]);
    assert chunks == chunks[..i + 1] + chunks[i + 1..];
    ConcatParts(chunks[..i + 1], chunks[i + 1..]);
  }

  lemma ConcatEnds(chunks: seq<seq<Byte>>)
    ensures Concat(chunks[..0]) == [] && Concat(chunks[..|chunks|]) == Concat(chunks)
  {
    assert chunks[..|chunks|] == chunks;
  }

  method ConcatChunks(chunks: seq<seq<Byte>>) returns (out: array<Byte>)
    ensures fresh(out) && out[..] == Concat(chunks)
  {
    hide Concat;
    ConcatEnds(chunks);
    var total := 0;
    for i := 0 to |chunks|
      invariant total == |Concat(chunks[..i])|
    {
      ConcatStep(chunks, i);
      total := total + |chunks[i]|;
    }
    out := new Byte[total](_ => 0);
    var pos := 0;
    for i := 0 to |chunks|
      invariant pos == |Concat(chunks[..i])| <= total && out[..pos] == Concat(chunks[..i])
    {
      ConcatStep(chunks, i);
      SetBytes(out, chunks[i], pos);
      pos := pos + |chunks[i]|;
    }
  }

  /** Uint8Array.set. */
  method SetBytes(out: array<Byte>, c: seq<Byte>, pos: nat)
    requires pos + |c| <= out.Length
    modifies out
    ensures out[..pos] == old(out[..pos]) && out[pos..pos + |c|] == c && out[pos + |c|..] == old(out[pos + |c|..])
  {
    for k := 0 to |c|
      invariant out[..pos] == old(out[..pos]) && out[pos..pos + k] == c[..k]
      invariant out[pos + |c|..] == old(out[pos + |c|..])
    {
      out[pos + k] := c[k];
    }
  }

  /** The entries of a list of frames, one after the other. */
  function Encoded(frames: seq<RawFrame>): seq<Byte> {
    if frames == [] then [] else Encoded(frames[..|frames| - 1]) + Entry(frames[|frames| - 1])
  }

  lemma EncodedAppend(frames: seq<RawFrame>, f: RawFrame)
    ensures Encoded(frames + [f]) == Encoded(frames) + Entry(f)
  {
    assert (frames + [f])[..|frames|] == frames;
  }
}
