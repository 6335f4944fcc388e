/** Demultiplexing container logs: each frame is an 8-byte header, whose last
    four bytes are the payload's length, followed by the payload. */
module DockerLogs {

  type byte = b: int | 0 <= b < 256

  // ---- shifts and ors on non-negative integers

  function Shl(x: nat, n: nat): nat {
    if n == 0 then x else 2 * Shl(x, n - 1)
  }

  function Or(x: nat, y: nat): nat
    decreases x + y
  {
    if x == 0 && y == 0 then 0 else (if x % 2 == 1 || y % 2 == 1 then 1 else 0) + 2 * Or(x / 2, y / 2)
  }

  /** The length field as the code computes it. */
  function Size(b4: byte, b5: byte, b6: byte, b7: byte): nat {
    Or(Or(Or(Shl(b4, 24), Shl(b5, 16)), Shl(b6, 8)), b7)
  }

  function BigEndian(bs: seq<byte>): nat {
    if bs == [] then 0 else 256 * BigEndian(bs[..|bs| - 1]) + bs[|bs| - 1]
  }

  lemma {:induction false} OrZero(x: nat)
    ensures Or(x, 0) == x
  {
    if x > 0 {
      OrZero(x / 2);
    }
  }

  /** Or with something that fits below the shift is addition. */
  lemma {:induction false} OrBelowShift(x: nat, n: nat, y: nat)
    requires y < Shl(1, n)
    ensures Or(Shl(x, n), y) == Shl(x, n) + y
  {
    if n == 0 {
      OrZero(x);
    } else {
      OrBelowShift(x, n - 1, y / 2);
      assert Shl(x, n) == 2 * Shl(x, n - 1);
      if Shl(x, n) == 0 && y == 0 {
      } else {
        assert Shl(x, n) / 2 == Shl(x, n - 1) && Shl(x, n) % 2 == 0;
      }
    }
  }

  lemma {:induction false} ShlTimes(x: nat, n: nat)
    ensures Shl(x, n) == x * Shl(1, n)
  {
    if n > 0 {
      ShlTimes(x, n - 1);
      assert 2 * (x * Shl(1, n - 1)) == x * (2 * Shl(1, n - 1));
    }
  }

  lemma {:induction false} ShlSplit(m: nat, n: nat)
    ensures Shl(1, m + n) == Shl(1, m) * Shl(1, n)
  {
    if n > 0 {
      ShlSplit(m, n - 1);
      assert m + n - 1 == m + (n - 1);
      assert 2 * (Shl(1, m) * Shl(1, n - 1)) == Shl(1, m) * (2 * Shl(1, n - 1));
    }
  }

  lemma Powers()
    ensures Shl(1, 8) == 256 && Shl(1, 16) == 65536 && Shl(1, 24) == 16777216
  {
    assert Shl(1, 4) == 16;
    ShlSplit(4, 4);
    ShlSplit(8, 8);
    ShlSplit(16, 8);
  }

  /** The shift/or size is the big-endian value of the four bytes. */
  lemma SizeIsBigEndian(b4: byte, b5: byte, b6: byte, b7: byte)
    ensures Size(b4, b5, b6, b7) == BigEndian([b4, b5, b6, b7])
    ensures BigEndian([b4, b5, b6, b7]) == 16777216 * b4 + 65536 * b5 + 256 * b6 + b7
  {
    Powers();
    ShlTimes(b4, 24);
    ShlTimes(b5, 16);
    ShlTimes(b6, 8);
    OrBelowShift(b4, 24, Shl(b5, 16));
    ShlTimes(256 * b4 + b5, 16);
    OrBelowShift(256 * b4 + b5, 16, Shl(b6, 8));
    ShlTimes(65536 * b4 + 256 * b5 + b6, 8);
    OrBelowShift(65536 * b4 + 256 * b5 + b6, 8, b7);
    BigEndianFour(b4, b5, b6, b7);
  }

  lemma BigEndianFour(b4: byte, b5: byte, b6: byte, b7: byte)
    ensures BigEndian([b4, b5, b6, b7]) == 16777216 * b4 + 65536 * b5 + 256 * b6 + b7
  {
    BigEndianSnoc([], b4);
    BigEndianSnoc([b4], b5);
    BigEndianSnoc([b4, b5], b6);
    BigEndianSnoc([b4, b5, b6], b7);
    assert [] + [b4] == [b4] && [b4] + [b5] == [b4, b5] && [b4, b5] + [b6] == [b4, b5, b6];
    assert [b4, b5, b6] + [b7] == [b4, b5, b6, b7];
  }

  lemma BigEndianSnoc(bs: seq<byte>, b: byte)
    ensures BigEndian(bs + [b]) == 256 * BigEndian(bs) + b
  {
    assert (bs + [b])[..|bs|] == bs;
  }

  // ---- frames

  /** `head` is the stream type and the three bytes after it; stripping ignores them. */
  datatype Frame = Frame(head: seq<byte>, payload: seq<byte>)

  predicate Valid(f: Frame) { |f.head| == 4 && |f.payload| < 0x1_0000_0000 }

  predicate AllValid(fs: seq<Frame>) { forall f | f in fs :: Valid(f) }

  function LengthField(n: nat): seq<byte>
    requires n < 0x1_0000_0000
  {
    var q := n / 256;
    [q / 256 / 256, q / 256 % 256, q % 256, n % 256]
  }

  function Encode(f: Frame): seq<byte>
    requires Valid(f)
  {
    f.head + LengthField(|f.payload|) + f.payload
  }

  function EncodeAll(fs: seq<Frame>): seq<byte>
    requires AllValid(fs)
  {
    if fs == [] then [] else Encode(fs[0]) + EncodeAll(fs[1..])
  }

  function Payloads(fs: seq<Frame>): seq<byte> {
    if fs == [] then [] else fs[0].payload + Payloads(fs[1..])
  }

  /** The payload length a header announces. */
  function Announced(log: seq<byte>): nat
    requires |log| >= 8
  {
    Size(log[4], log[5], log[6], log[7])
  }

  /** The bytes do not begin with a whole frame. */
  predicate Incomplete(log: seq<byte>) {
    |log| < 8 || |log| < 8 + Announced(log)
  }

  function Strip(log: seq<byte>): seq<byte> {
    if Incomplete(log) then [] else
      var n := Announced(log);
      log[8..8 + n] + Strip(log[8 + n..])
  }

  /** One turn of the loop: a whole frame at position `i`. */
  lemma StripAt(log: seq<byte>, i: nat)
    requires i + 8 <= |log|
    ensures var rest := log[i..];
            Announced(rest) == Size(log[i + 4], log[i + 5], log[i + 6], log[i + 7])
    ensures var size := Announced(log[i..]);
            if i + 8 + size > |log| then Strip(log[i..]) == []
            else Strip(log[i..]) == log[i + 8..i + 8 + size] + Strip(log[i + 8 + size..])
  {
    var rest := log[i..];
    var size := Announced(rest);
    if i + 8 + size <= |log| {
      assert rest[8..8 + size] == log[i + 8..i + 8 + size] && rest[8 + size..] == log[i + 8 + size..];
    }
  }

  lemma Regroup(x: seq<byte>, y: seq<byte>, z: seq<byte>)
    ensures x + (y + z) == (x + y) + z
  {
  }

  method StripDockerLogHeaders(log: seq<byte>) returns (result: seq<byte>)
    ensures result == Strip(log)
  {
    result := [];
    var i := 0;
    assert log[0..] == log;
    while i < |log|
      invariant 0 <= i <= |log| && Strip(log) == result + Strip(log[i..])
    {
      if i + 8 > |log| {
        break;
      }
      StripAt(log, i);
      var size := Size(log[i + 4], log[i + 5], log[i + 6], log[i + 7]);
      i := i + 8;
      if i + size > |log| {
        assert Strip(log) == result;
        return;
      }
      Regroup(result, log[i..i + size], Strip(log[i + size..]));
      result := result + log[i..i + size];
      i := i + size;
    }
    assert Strip(log[i..]) == [];
  }

  // ---- stripping an encoding

  lemma LengthFieldSize(n: nat)
    requires n < 0x1_0000_0000
    ensures var l := LengthField(n); Size(l[0], l[1], l[2], l[3]) == n
  {
    var q := n / 256;
    var r := q / 256;
    SizeIsBigEndian(r / 256, r % 256, q % 256, n % 256);
    assert n == 256 * q + n % 256 && q == 256 * r + q % 256 && r == 256 * (r / 256) + r % 256;
  }

  lemma LastDigit(m: nat, b: byte)
    ensures (256 * m + b) / 256 == m && (256 * m + b) % 256 == b
  {
  }

  lemma LengthDigits(b4: byte, b5: byte, b6: byte, b7: byte)
    ensures var n := 256 * (256 * (256 * b4 + b5) + b6) + b7;
            n < 0x1_0000_0000 && LengthField(n) == [b4, b5, b6, b7]
  {
    LastDigit(b4, b5);
    LastDigit(256 * b4 + b5, b6);
    LastDigit(256 * (256 * b4 + b5) + b6, b7);
  }

  lemma SizeLengthField(b4: byte, b5: byte, b6: byte, b7: byte)
    ensures Size(b4, b5, b6, b7) < 0x1_0000_0000
    ensures LengthField(Size(b4, b5, b6, b7)) == [b4, b5, b6, b7]
  {
    SizeIsBigEndian(b4, b5, b6, b7);
    LengthDigits(b4, b5, b6, b7);
  }

  lemma EncodeHeader(f: Frame, rest: seq<byte>)
    requires Valid(f)
    ensures var log := Encode(f) + rest;
            && |Encode(f)| == 8 + |f.payload| && |log| >= 8 && Announced(log) == |f.payload|
            && log[8..8 + |f.payload|] == f.payload && log[8 + |f.payload|..] == rest
  {
    var n, l := |f.payload|, LengthField(|f.payload|);
    LengthFieldSize(n);
    var log := Encode(f) + rest;
    assert log[4] == l[0] && log[5] == l[1] && log[6] == l[2] && log[7] == l[3];
    assert log[8..8 + n] == f.payload;
  }

  lemma StripOne(f: Frame, rest: seq<byte>)
    requires Valid(f)
    ensures Strip(Encode(f) + rest) == f.payload + Strip(rest)
  {
    EncodeHeader(f, rest);
  }

  lemma StripNext(f: Frame, encoded: seq<byte>, payloads: seq<byte>, rest: seq<byte>)
    requires Valid(f) && Strip(encoded + rest) == payloads + Strip(rest)
    ensures Strip((Encode(f) + encoded) + rest) == (f.payload + payloads) + Strip(rest)
  {
    Regroup(Encode(f), encoded, rest);
    StripOne(f, encoded + rest);
    Regroup(f.payload, payloads, Strip(rest));
  }

  lemma NothingFirst(x: seq<byte>)
    ensures [] + x == x
  {
  }

  /** Whatever follows whole frames is stripped on its own. */
  lemma {:induction false} StripFrames(fs: seq<Frame>, rest: seq<byte>)
    requires AllValid(fs)
    ensures Strip(EncodeAll(fs) + rest) == Payloads(fs) + Strip(rest)
  {
    if fs == [] {
      NothingFirst(rest);
      NothingFirst(Strip(rest));
    } else {
      var tail := fs[1..];
      StripFrames(tail, rest);
      StripNext(fs[0], EncodeAll(tail), Payloads(tail), rest);
    }
  }

  /** Round trip. */
  lemma StripEncoding(fs: seq<Frame>)
    requires AllValid(fs)
    ensures Strip(EncodeAll(fs)) == Payloads(fs)
  {
    StripFrames(fs, []);
    assert EncodeAll(fs) + [] == EncodeAll(fs);
  }

  // ---- truncation

  /** How many frames lie wholly within the first `n` bytes. */
  function Whole(fs: seq<Frame>, n: nat): (k: nat)
    ensures k <= |fs|
  {
    if fs == [] || n < 8 + |fs[0].payload| then 0 else 1 + Whole(fs[1..], n - (8 + |fs[0].payload|))
  }

  lemma CutFrame(f: Frame, n: nat)
    requires Valid(f) && n < 8 + |f.payload|
    ensures |Encode(f)| == 8 + |f.payload| && Incomplete(Encode(f)[..n])
  {
    EncodeHeader(f, []);
    assert Encode(f) + [] == Encode(f);
    if n >= 8 {
      assert Announced(Encode(f)[..n]) == Announced(Encode(f));
    }
  }

  lemma CutFirst(f: Frame, encoded: seq<byte>, n: nat)
    requires Valid(f) && n < 8 + |f.payload|
    ensures |Encode(f)| == 8 + |f.payload| && Strip((Encode(f) + encoded)[..n]) == []
  {
    CutFrame(f, n);
    assert (Encode(f) + encoded)[..n] == Encode(f)[..n];
  }

  /** A cut beyond the first frame. */
  lemma CutLater(f: Frame, tail: seq<Frame>, n: nat)
    requires Valid(f) && AllValid(tail)
    requires 8 + |f.payload| <= n <= |Encode(f) + EncodeAll(tail)|
    ensures |Encode(f)| == 8 + |f.payload|
    ensures (Encode(f) + EncodeAll(tail))[..n] == Encode(f) + EncodeAll(tail)[..n - (8 + |f.payload|)]
  {
    EncodeHeader(f, []);
  }

  lemma PayloadsCons(f: Frame, fs: seq<Frame>)
    ensures Payloads([f] + fs) == f.payload + Payloads(fs)
  {
    assert ([f] + fs)[1..] == fs;
  }

  /** Every truncation yields the payloads of the frames wholly present. */
  lemma {:induction false} StripTruncated(fs: seq<Frame>, n: nat)
    requires AllValid(fs) && n <= |EncodeAll(fs)|
    ensures Strip(EncodeAll(fs)[..n]) == Payloads(fs[..Whole(fs, n)])
  {
    if fs != [] {
      var f, tail := fs[0], fs[1..];
      var m := 8 + |f.payload|;
      if n < m {
        CutFirst(f, EncodeAll(tail), n);
      } else {
        EncodeHeader(f, []);
        StripTruncated(tail, n - m);
        CutStep(f, tail, n, Whole(tail, n - m));
        assert fs == [f] + tail;
      }
    }
  }

  lemma CutStep(f: Frame, tail: seq<Frame>, n: nat, k: nat)
    requires Valid(f) && AllValid(tail) && k <= |tail|
    requires 8 + |f.payload| <= n <= |Encode(f) + EncodeAll(tail)|
    requires n - (8 + |f.payload|) <= |EncodeAll(tail)|
    requires Strip(EncodeAll(tail)[..n - (8 + |f.payload|)]) == Payloads(tail[..k])
    ensures Strip((Encode(f) + EncodeAll(tail))[..n]) == Payloads(([f] + tail)[..1 + k])
  {
    CutLater(f, tail, n);
    StripOne(f, EncodeAll(tail)[..n - (8 + |f.payload|)]);
    PayloadsCons(f, tail[..k]);
    assert ([f] + tail)[..1 + k] == [f] + tail[..k];
  }

  // ---- arbitrary bytes

  /** The frame that complete bytes begin with. */
  lemma FrontFrame(log: seq<byte>) returns (f: Frame, after: seq<byte>)
    requires !Incomplete(log)
    ensures Valid(f) && log == Encode(f) + after && |after| < |log|
  {
    var n := Announced(log);
    SizeLengthField(log[4], log[5], log[6], log[7]);
    f, after := Frame(log[..4], log[8..8 + n]), log[8 + n..];
    assert log[4..8] == LengthField(n);
    InFour(log, 8 + n);
  }

  lemma InFour(log: seq<byte>, e: nat)
    requires 8 <= e <= |log|
    ensures log == log[..4] + log[4..8] + log[8..e] + log[e..]
  {
  }

  lemma EncodeCons(f: Frame, fs: seq<Frame>)
    requires Valid(f) && AllValid(fs)
    ensures AllValid([f] + fs) && EncodeAll([f] + fs) == Encode(f) + EncodeAll(fs)
  {
    assert ([f] + fs)[1..] == fs;
  }

  /** Any bytes are whole frames followed by an incomplete rest. */
  lemma {:induction false} FrameParse(log: seq<byte>) returns (fs: seq<Frame>, rest: seq<byte>)
    ensures AllValid(fs) && log == EncodeAll(fs) + rest && Incomplete(rest)
    decreases |log|
  {
    if Incomplete(log) {
      fs, rest := [], log;
      assert [] + log == log;
    } else {
      var f, after := FrontFrame(log);
      var more;
      more, rest := FrameParse(after);
      fs := [f] + more;
      EncodeCons(f, more);
      Regroup(Encode(f), EncodeAll(more), rest);
    }
  }

  /** Of any bytes, stripping yields the payloads of the longest frame parse: of
      whichever frames are followed by something that is no whole frame. */
  lemma StripAnyBytes(log: seq<byte>)
    ensures exists fs, rest :: AllValid(fs) && log == EncodeAll(fs) + rest && Incomplete(rest)
    ensures forall fs, rest | AllValid(fs) && log == EncodeAll(fs) + rest && Incomplete(rest) ::
              Strip(log) == Payloads(fs)
  {
    var fs, rest := FrameParse(log);
    forall gs, r | AllValid(gs) && log == EncodeAll(gs) + r && Incomplete(r)
      ensures Strip(log) == Payloads(gs)
    {
      StripFrames(gs, r);
      assert Payloads(gs) + [] == Payloads(gs);
    }
  }
}
