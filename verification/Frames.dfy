/** Framed append-only records: length, payload, checksum; and decoding a log torn anywhere. */
module Frames {
  import opened Prelude

  type byte = x: int | 0 <= x < 256

  /** `WAC1`, the four bytes every delta log starts with. */
  const Magic: seq<byte> := [87, 65, 67, 49]

  const MAX_PAYLOAD: nat := 1024 * 1024
  const TWO32: nat := 0x1_0000_0000
  const TWO64: nat := 0x1_0000_0000_0000_0000

  /** The serialized form of records is abstract: an encoder, a decoder and a checksum. */
  datatype Codec<!D> = Codec(encode: D -> seq<byte>, decode: seq<byte> -> Option<D>, checksum: seq<byte> -> nat)

  ghost predicate Faithful<D(!new)>(c: Codec<D>) {
    && (forall d :: c.decode(c.encode(d)) == Some(d))
    && (forall bytes :: c.checksum(bytes) < TWO64)
  }

  // ----- fixed-width little-endian integers -----

  function Pow256(width: nat): nat {
    if width == 0 then 1 else 256 * Pow256(width - 1)
  }

  function ToLittleEndian(n: nat, width: nat): (bytes: seq<byte>)
    ensures |bytes| == width
  {
    if width == 0 then [] else [n % 256] + ToLittleEndian(n / 256, width - 1)
  }

  function FromLittleEndian(bytes: seq<byte>): nat {
    if bytes == [] then 0 else bytes[0] + 256 * FromLittleEndian(bytes[1..])
  }

  lemma {:induction false} LittleEndianRoundTrip(n: nat, width: nat)
    requires n < Pow256(width)
    ensures FromLittleEndian(ToLittleEndian(n, width)) == n
  {
    if width != 0 {
      LittleEndianRoundTrip(n / 256, width - 1);
      assert ToLittleEndian(n, width)[1..] == ToLittleEndian(n / 256, width - 1);
    }
  }

  lemma Widths()
    ensures Pow256(4) == TWO32 && Pow256(8) == TWO64
  {
    assert Pow256(1) == 256;
    assert Pow256(2) == 0x1_0000;
    assert Pow256(3) == 0x100_0000;
    assert Pow256(4) == TWO32;
    assert Pow256(5) == 0x100_0000_0000;
    assert Pow256(6) == 0x1_0000_0000_0000;
    assert Pow256(7) == 0x100_0000_0000_0000;
  }

  // ----- frames -----

  function Frame<D>(c: Codec<D>, d: D): seq<byte> {
    var payload := c.encode(d);
    ToLittleEndian(|payload|, 4) + payload + ToLittleEndian(c.checksum(payload), 8)
  }

  function FrameAll<D>(c: Codec<D>, ds: seq<D>): seq<byte> {
    if ds == [] then [] else FrameAll(c, ds[..|ds| - 1]) + Frame(c, ds[|ds| - 1])
  }

  /** Payloads the length field can express; longer ones are refused. */
  method EncodeFrame<D>(c: Codec<D>, d: D) returns (frame: Option<seq<byte>>)
    ensures frame == if |c.encode(d)| < TWO32 then Some(Frame(c, d)) else None
  {
    var payload := c.encode(d);
    if |payload| >= TWO32 {
      return None;
    }
    var bytes := ToLittleEndian(|payload|, 4);
    bytes := bytes + payload;
    bytes := bytes + ToLittleEndian(c.checksum(payload), 8);
    frame := Some(bytes);
  }

  datatype Decoded<+D> = Decoded(records: seq<D>, end: nat, complete: bool)

  /** The record whose frame starts at `offset`, if one is there in full and intact. */
  function FrameAt<D>(c: Codec<D>, bytes: seq<byte>, offset: nat): Option<D>
    requires offset <= |bytes|
  {
    if |bytes| - offset < 4 then None
    else
      var length := FromLittleEndian(bytes[offset..offset + 4]);
      if length > MAX_PAYLOAD || |bytes| - offset < 4 + length + 8 then None
      else
        var start := offset + 4;
        var end := start + length;
        if c.checksum(bytes[start..end]) != FromLittleEndian(bytes[end..end + 8]) then None
        else c.decode(bytes[start..end])
  }

  function FrameEnd(bytes: seq<byte>, offset: nat): nat
    requires offset + 4 <= |bytes|
  {
    offset + 4 + FromLittleEndian(bytes[offset..offset + 4]) + 8
  }

  function DecodeFrom<D>(c: Codec<D>, bytes: seq<byte>, offset: nat, records: seq<D>): Decoded<D>
    requires offset <= |bytes|
    decreases |bytes| - offset
  {
    if offset == |bytes| then Decoded(records, offset, true)
    else
      match FrameAt(c, bytes, offset)
      case None => Decoded(records, offset, false)
      case Some(d) => DecodeFrom(c, bytes, FrameEnd(bytes, offset), records + [d])
  }

  function Decode<D>(c: Codec<D>, bytes: seq<byte>): Decoded<D> {
    if Magic <= bytes then DecodeFrom(c, bytes, |Magic|, []) else Decoded([], 0, false)
  }

  method DecodeFrames<D>(c: Codec<D>, bytes: seq<byte>) returns (records: seq<D>, offset: nat, complete: bool)
    ensures Decoded(records, offset, complete) == Decode(c, bytes)
  {
    if !(Magic <= bytes) {
      return [], 0, false;
    }
    records, offset := [], |Magic|;
    while offset < |bytes|
      invariant offset <= |bytes|
      invariant DecodeFrom(c, bytes, offset, records) == Decode(c, bytes)
    {
      if |bytes| - offset < 4 {
        return records, offset, false;
      }
      var length := FromLittleEndian(bytes[offset..offset + 4]);
      if length > MAX_PAYLOAD || |bytes| - offset < 4 + length + 8 {
        return records, offset, false;
      }
      var start := offset + 4;
      var end := start + length;
      var expected := FromLittleEndian(bytes[end..end + 8]);
      if c.checksum(bytes[start..end]) != expected {
        return records, offset, false;
      }
      match c.decode(bytes[start..end]) {
        case None => return records, offset, false;
        case Some(d) =>
          records := records + [d];
          offset := end + 8;
      }
    }
    complete := true;
  }

  // ----- logs cut at any byte -----

  /** Every record is short enough for the decoder. */
  ghost predicate Decodable<D>(c: Codec<D>, ds: seq<D>) {
    forall d | d in ds :: |c.encode(d)| <= MAX_PAYLOAD
  }

  function Log<D>(c: Codec<D>, ds: seq<D>): seq<byte> {
    Magic + FrameAll(c, ds)
  }

  lemma FrameParts<D(!new)>(c: Codec<D>, d: D, before: seq<byte>, after: seq<byte>)
    requires Faithful(c) && |c.encode(d)| < TWO32
    ensures var bytes := before + Frame(c, d) + after;
            var start, end := |before| + 4, |before| + 4 + |c.encode(d)|;
            && FromLittleEndian(bytes[|before|..start]) == |c.encode(d)|
            && bytes[start..end] == c.encode(d)
            && FromLittleEndian(bytes[end..end + 8]) == c.checksum(c.encode(d))
            && FrameEnd(bytes, |before|) == |before| + |Frame(c, d)|
  {
    var payload := c.encode(d);
    var bytes := before + Frame(c, d) + after;
    var start, end := |before| + 4, |before| + 4 + |payload|;
    Widths();
    LittleEndianRoundTrip(|payload|, 4);
    LittleEndianRoundTrip(c.checksum(payload), 8);
    assert bytes[|before|..start] == ToLittleEndian(|payload|, 4);
    assert bytes[start..end] == payload;
    assert bytes[end..end + 8] == ToLittleEndian(c.checksum(payload), 8);
  }

  /** A whole short frame is read back wherever it stands; a frame over the payload bound never is. */
  lemma WholeFrame<D(!new)>(c: Codec<D>, d: D, before: seq<byte>, after: seq<byte>)
    requires Faithful(c) && |c.encode(d)| < TWO32
    ensures FrameAt(c, before + Frame(c, d) + after, |before|)
            == if |c.encode(d)| <= MAX_PAYLOAD then Some(d) else None
  {
    FrameParts(c, d, before, after);
  }

  /** A frame cut short, even by one byte, is not read. */
  lemma TornFrame<D(!new)>(c: Codec<D>, d: D, before: seq<byte>, cut: nat)
    requires Faithful(c) && |c.encode(d)| < TWO32 && cut < |Frame(c, d)|
    ensures FrameAt(c, before + Frame(c, d)[..cut], |before|) == None
  {
    var bytes := before + Frame(c, d)[..cut];
    if cut >= 4 {
      FrameParts(c, d, before, []);
      assert bytes[|before|..|before| + 4] == (before + Frame(c, d) + [])[|before|..|before| + 4];
    }
  }

  /** Decoding steps over one whole short frame. */
  lemma DecodeStep<D(!new)>(c: Codec<D>, before: seq<byte>, d: D, after: seq<byte>, records: seq<D>)
    requires Faithful(c) && |c.encode(d)| <= MAX_PAYLOAD
    ensures DecodeFrom(c, before + Frame(c, d) + after, |before|, records)
            == DecodeFrom(c, before + Frame(c, d) + after, |before + Frame(c, d)|, records + [d])
  {
    WholeFrame(c, d, before, after);
    FrameParts(c, d, before, after);
  }

  lemma {:induction false} DecodeWhole<D(!new)>(c: Codec<D>, ds: seq<D>, k: nat, tail: seq<byte>)
    requires Faithful(c) && Decodable(c, ds) && k <= |ds|
    ensures |Log(c, ds[..k])| <= |Log(c, ds) + tail|
    ensures Decode(c, Log(c, ds) + tail) == DecodeFrom(c, Log(c, ds) + tail, |Log(c, ds[..k])|, ds[..k])
    decreases k
  {
    var bytes := Log(c, ds) + tail;
    LogSplit(c, ds, k);
    if k == 0 {
      assert Magic <= bytes;
    } else {
      hide DecodeFrom, Decode, Frame, Log, FrameAll, FrameRest;
      var d, before, rest := ds[k - 1], Log(c, ds[..k - 1]), FrameRest(c, ds, k);
      DecodeWhole(c, ds, k - 1, tail);
      LogTake(c, ds, k);
      Regroup(before, Frame(c, d), rest, tail);
      assert d in ds;
      DecodeStep(c, before, d, rest + tail, ds[..k - 1]);
      assert ds[..k] == ds[..k - 1] + [d];
    }
  }

  lemma LogSnoc<D>(c: Codec<D>, ds: seq<D>, d: D)
    ensures Log(c, ds + [d]) == Log(c, ds) + Frame(c, d)
  {
    hide Frame;
    assert (ds + [d])[..|ds|] == ds;
    assert FrameAll(c, ds + [d]) == FrameAll(c, ds) + Frame(c, d);
  }

  lemma Regroup(a: seq<byte>, b: seq<byte>, c: seq<byte>, d: seq<byte>)
    ensures ((a + b) + c) + d == (a + b) + (c + d)
  {
  }

  lemma LogTake<D>(c: Codec<D>, ds: seq<D>, k: nat)
    requires 0 < k <= |ds|
    ensures Log(c, ds[..k]) == Log(c, ds[..k - 1]) + Frame(c, ds[k - 1])
  {
    assert ds[..k][..k - 1] == ds[..k - 1];
  }

  function FrameRest<D>(c: Codec<D>, ds: seq<D>, k: nat): seq<byte>
    requires k <= |ds|
    decreases |ds|
  {
    if k == |ds| then [] else FrameRest(c, ds[..|ds| - 1], k) + Frame(c, ds[|ds| - 1])
  }

  lemma {:induction false} LogSplit<D>(c: Codec<D>, ds: seq<D>, k: nat)
    requires k <= |ds|
    ensures Log(c, ds) == Log(c, ds[..k]) + FrameRest(c, ds, k)
    decreases |ds|
  {
    if k == |ds| {
      assert ds[..k] == ds;
    } else {
      var front := ds[..|ds| - 1];
      LogSplit(c, front, k);
      assert front[..k] == ds[..k];
      LogTake(c, ds, |ds|);
      assert ds[..|ds|] == ds;
    }
  }

  /** A log followed by part of one more frame decodes to exactly its own records. */
  lemma DecodeTorn<D(!new)>(c: Codec<D>, ds: seq<D>, d: D, cut: nat)
    requires Faithful(c) && Decodable(c, ds) && |c.encode(d)| < TWO32 && cut < |Frame(c, d)|
    ensures Decode(c, Log(c, ds) + Frame(c, d)[..cut]) == Decoded(ds, |Log(c, ds)|, cut == 0)
  {
    DecodeWhole(c, ds, |ds|, Frame(c, d)[..cut]);
    assert ds[..|ds|] == ds;
    TornFrame(c, d, Log(c, ds), cut);
  }

  lemma DecodeLog<D(!new)>(c: Codec<D>, ds: seq<D>)
    requires Faithful(c) && Decodable(c, ds)
    ensures Decode(c, Log(c, ds)) == Decoded(ds, |Log(c, ds)|, true)
  {
    DecodeWhole(c, ds, |ds|, []);
    assert ds[..|ds|] == ds;
    assert Log(c, ds) + [] == Log(c, ds);
  }

  /** How many frames lie wholly within the first `cut` bytes. */
  function WholeWithin<D>(c: Codec<D>, ds: seq<D>, cut: nat): nat {
    if ds == [] then 0
    else if |Log(c, ds)| <= cut then |ds|
    else WholeWithin(c, ds[..|ds| - 1], cut)
  }

  /** Cut a log anywhere after its header: decoding returns exactly the records whose frames survived whole and where
      they end, and calls the log complete exactly on a frame boundary. */
  lemma {:induction false} DecodeCut<D(!new)>(c: Codec<D>, ds: seq<D>, cut: nat)
    requires Faithful(c) && Decodable(c, ds) && |Magic| <= cut <= |Log(c, ds)|
    ensures var k := WholeWithin(c, ds, cut);
            && k <= |ds|
            && |Log(c, ds[..k])| <= cut
            && (k < |ds| ==> cut < |Log(c, ds[..k + 1])|)
            && Decode(c, Log(c, ds)[..cut]) == Decoded(ds[..k], |Log(c, ds[..k])|, cut == |Log(c, ds[..k])|)
    decreases |ds|
  {
    hide *;
    if |Log(c, ds)| <= cut {
      assert Log(c, ds)[..cut] == Log(c, ds) && ds[..|ds|] == ds;
      WholeWithinAll(c, ds, cut);
      DecodeLog(c, ds);
    } else {
      EmptyLog(c);
      assert ds != [];
      var front := ds[..|ds| - 1];
      WholeWithinFront(c, ds, cut);
      if cut < |Log(c, front)| {
        DecodeCut(c, front, cut);
        var k := WholeWithin(c, front, cut);
        assert front[..k] == ds[..k];
        if k < |front| {
          assert front[..k + 1] == ds[..k + 1];
        }
      } else {
        WholeWithinAll(c, front, cut);
        CutInLast(c, ds, cut);
        assert ds[..|front|] == front && ds[..|ds|] == ds;
      }
    }
  }

  lemma EmptyLog<D>(c: Codec<D>)
    ensures Log(c, []) == Magic
  {
  }

  lemma WholeWithinAll<D>(c: Codec<D>, ds: seq<D>, cut: nat)
    requires |Log(c, ds)| <= cut
    ensures WholeWithin(c, ds, cut) == |ds|
  {
  }

  lemma WholeWithinFront<D>(c: Codec<D>, ds: seq<D>, cut: nat)
    requires ds != [] && cut < |Log(c, ds)|
    ensures var front := ds[..|ds| - 1];
            && WholeWithin(c, ds, cut) == WholeWithin(c, front, cut)
            && (cut < |Log(c, front)| ==> Log(c, ds)[..cut] == Log(c, front)[..cut])
            && (Decodable(c, ds) ==> Decodable(c, front))
  {
    hide Frame;
    assert Log(c, ds) == Log(c, ds[..|ds| - 1]) + Frame(c, ds[|ds| - 1]);
  }

  /** The cut falls in the last frame. */
  lemma CutInLast<D(!new)>(c: Codec<D>, ds: seq<D>, cut: nat)
    requires Faithful(c) && Decodable(c, ds) && ds != []
    requires |Log(c, ds[..|ds| - 1])| <= cut < |Log(c, ds)|
    ensures var front := ds[..|ds| - 1];
            Decode(c, Log(c, ds)[..cut]) == Decoded(front, |Log(c, front)|, cut == |Log(c, front)|)
  {
    hide Decode, Frame;
    var front, d := ds[..|ds| - 1], ds[|ds| - 1];
    var part := cut - |Log(c, front)|;
    assert d in ds;
    assert Log(c, ds) == Log(c, front) + Frame(c, d);
    assert Log(c, ds)[..cut] == Log(c, front) + Frame(c, d)[..part];
    DecodeTorn(c, front, d, part);
  }

  /** A record between the two size bounds is encoded but never read back: the log that holds it
      whole decodes as if torn right before it. */
  lemma OversizedFrameUnreadable<D(!new)>(c: Codec<D>, ds: seq<D>, d: D)
    requires Faithful(c) && Decodable(c, ds) && |c.encode(d)| < TWO32
    ensures Decode(c, Log(c, ds + [d])).complete <==> |c.encode(d)| <= MAX_PAYLOAD
    ensures MAX_PAYLOAD < |c.encode(d)| ==> Decode(c, Log(c, ds + [d])) == Decoded(ds, |Log(c, ds)|, false)
  {
    assert (ds + [d])[..|ds|] == ds;
    if |c.encode(d)| <= MAX_PAYLOAD {
      DecodeLog(c, ds + [d]);
    } else {
      DecodeWhole(c, ds, |ds|, Frame(c, d));
      assert ds[..|ds|] == ds;
      WholeFrame(c, d, Log(c, ds), []);
      assert Log(c, ds + [d]) == Log(c, ds) + Frame(c, d) == Log(c, ds) + Frame(c, d) + [];
    }
  }
}
