/**
 Length-prefixed frames on the pipe between shell and core.
 */
module WireFrames {
  import opened Wrappers
  import opened CanonicalJson
  import opened CanonicalStream
  import opened CanonicalPages

  // What reading one frame yields.
  datatype Read = End | TooLarge(actual: nat) | Cut | Payload(bytes: Text)

  function FromBig(b: Text): nat {
    if b == [] then 0 else 256 * FromBig(b[..|b| - 1]) + b[|b| - 1]
  }

  lemma {:induction false} BigReads(n: nat, k: nat)
    requires n < Pow(k)
    ensures FromBig(Big(n, k)) == n
  {
    if k > 0 {
      BigReads(n / 256, k - 1);
      assert Big(n, k)[..k - 1] == Big(n / 256, k - 1) && Big(n, k)[k - 1] == n % 256;
    }
  }

  function Encode(payload: Text): Text { Big(|payload|, 4) + payload }

  // The first frame of the bytes, and what follows it.  A header that is cut
  // short reads as the end of the stream.
  function Parse(bytes: Text): (Read, Text) {
    if |bytes| < 4 then (End, [])
    else
      var length := FromBig(bytes[..4]);
      if length > MAX_FRAME_BYTES then (TooLarge(length), bytes[4..])
      else if |bytes| - 4 < length then (Cut, [])
      else (Payload(bytes[4..4 + length]), bytes[4 + length..])
  }

  lemma PowFour()
    ensures Pow(4) > MAX_FRAME_BYTES
  {
    assert Pow(2) == 0x1_0000;
  }

  // The header holds the length, most significant byte first.
  lemma HeaderBytes(n: nat)
    requires n < 0x1_0000_0000
    ensures Big(n, 4) == [n / 0x100_0000, n / 0x1_0000 % 256, n / 0x100 % 256, n % 256]
  {
    assert Big(n / 0x100_0000, 1) == [n / 0x100_0000 % 256] by { assert Big(n / 0x100_0000 / 256, 0) == []; }
    assert n / 0x1_0000 / 256 == n / 0x100_0000;
    assert Big(n / 0x1_0000, 2) == [n / 0x100_0000 % 256, n / 0x1_0000 % 256];
    assert n / 0x100 / 256 == n / 0x1_0000;
    assert Big(n / 0x100, 3) == [n / 0x100_0000 % 256, n / 0x1_0000 % 256, n / 0x100 % 256];
  }

  // A header over the limit is refused with the length that it holds.
  lemma OversizeRefused(n: nat, rest: Text)
    requires MAX_FRAME_BYTES < n < 0x1_0000_0000
    ensures Parse(Big(n, 4) + rest) == (TooLarge(n), rest)
  {
    hide Big, Pow, FromBig;
    FourBytes();
    BigReads(n, 4);
    var bytes := Big(n, 4) + rest;
    assert bytes[..4] == Big(n, 4) && bytes[4..] == rest;
  }

  lemma FourBytes()
    ensures Pow(4) == 0x1_0000_0000
  {
    assert Pow(2) == 0x1_0000;
  }

  // A written frame reads back as itself and leaves the rest alone.
  lemma EncodeParses(payload: Text, rest: Text)
    requires |payload| <= MAX_FRAME_BYTES
    ensures Parse(Encode(payload) + rest) == (Payload(payload), rest)
  {
    hide Big, Pow, FromBig;
    PowFour();
    BigReads(|payload|, 4);
    var bytes := Encode(payload) + rest;
    assert bytes[..4] == Big(|payload|, 4);
    assert bytes[4..4 + |payload|] == payload && bytes[4 + |payload|..] == rest;
  }

  function EncodeAll(payloads: seq<Text>): Text {
    if payloads == [] then [] else Encode(payloads[0]) + EncodeAll(payloads[1..])
  }

  // Reading frames until there is no further one.
  function ReadAllFrames(bytes: Text): (seq<Text>, Read)
    decreases |bytes|
  {
    var (read, rest) := Parse(bytes);
    if read.Payload? && |rest| < |bytes| then
      var (more, last) := ReadAllFrames(rest);
      ([read.bytes] + more, last)
    else ([], read)
  }

  // Whatever was written is read in order, and then the end.
  lemma {:induction false} AllRead(payloads: seq<Text>)
    requires forall p <- payloads :: |p| <= MAX_FRAME_BYTES
    ensures ReadAllFrames(EncodeAll(payloads)) == (payloads, End)
  {
    if payloads != [] {
      EncodeParses(payloads[0], EncodeAll(payloads[1..]));
      AllRead(payloads[1..]);
      assert payloads == [payloads[0]] + payloads[1..];
    }
  }

  // A stream cut anywhere yields an initial run of the frames, unchanged, and
  // then the end or a cut; never another frame.
  lemma {:induction false} CutRead(payloads: seq<Text>, n: nat)
    requires (forall p <- payloads :: |p| <= MAX_FRAME_BYTES) && n <= |EncodeAll(payloads)|
    ensures var (frames, last) := ReadAllFrames(EncodeAll(payloads)[..n]);
      frames <= payloads && (last == End || last == Cut)
    decreases |payloads|
  {
    hide Big, FromBig;
    if payloads != [] {
      var head, rest, bytes := Encode(payloads[0]), EncodeAll(payloads[1..]), EncodeAll(payloads)[..n];
      if n >= |head| {
        assert bytes == head + rest[..n - |head|];
        EncodeParses(payloads[0], rest[..n - |head|]);
        CutRead(payloads[1..], n - |head|);
      } else {
        assert bytes == head[..n];
        HeadCut(payloads[0], n);
      }
    }
  }

  lemma HeadCut(payload: Text, n: nat)
    requires |payload| <= MAX_FRAME_BYTES && n < |Encode(payload)|
    ensures Parse(Encode(payload)[..n]).0 == if n < 4 then End else Cut
  {
    hide Big, Pow, FromBig;
    if n >= 4 {
      PowFour();
      BigReads(|payload|, 4);
      assert Encode(payload)[..n][..4] == Big(|payload|, 4);
    }
  }

  /** The pipe as reader and writer move it. */

  method FromBigEndian(header: Text) returns (length: nat)
    ensures length == FromBig(header)
  {
    length := 0;
    for i := 0 to |header|
      invariant length == FromBig(header[..i])
    {
      length := 256 * length + header[i];
      assert header[..i + 1][..i] == header[..i];
    }
    assert header[..|header|] == header;
  }

  class Pipe {
    var bytes: Text

    constructor ()
      ensures bytes == []
    {
      bytes := [];
    }

    method WriteFrame(payload: Text) returns (tooLarge: bool)
      modifies this
      ensures tooLarge <==> |payload| > 1024 * 1024
      ensures bytes == if tooLarge then old(bytes) else old(bytes) + Encode(payload)
    {
      tooLarge := |payload| > MAX_FRAME_BYTES;
      if !tooLarge {
        bytes := bytes + Big(|payload|, 4);
        bytes := bytes + payload;
        assert old(bytes) + Big(|payload|, 4) + payload == old(bytes) + Encode(payload);
      }
    }

    method ReadFrame() returns (read: Read)
      modifies this
      ensures (read, bytes) == Parse(old(bytes))
    {
      hide FromBig;
      if |bytes| < 4 {
        bytes := [];
        return End;
      }
      var header := bytes[..4];
      bytes := bytes[4..];
      var length := FromBigEndian(header);
      if length > MAX_FRAME_BYTES {
        return TooLarge(length);
      }
      if |bytes| < length {
        bytes := [];
        return Cut;
      }
      read := Payload(bytes[..length]);
      bytes := bytes[length..];
      assert old(bytes)[4..][..length] == old(bytes)[4..4 + length];
      assert old(bytes)[4..][length..] == old(bytes)[4 + length..];
    }
  }
}
