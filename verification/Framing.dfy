/** The wire format of the TCP session: each frame travels as its length, a big-endian u64,
    followed by that many payload bytes. */
module Framing {

  newtype Byte = x: int | 0 <= x < 256

  const TWO_TO_64: nat := 0x1_0000_0000_0000_0000

  const HEADER_SIZE: nat := 8

  /** A Rust vector never holds 2^64 bytes or more, so its length always fits the header. */
  type Frame = f: seq<Byte> | |f| < TWO_TO_64 witness []

  // ---------- Big-endian integers ----------

  function Pow256(k: nat): nat {
    if k == 0 then 1 else 256 * Pow256(k - 1)
  }

  /** The low `k` bytes of `n`, most significant first. */
  function EncodeBE(n: nat, k: nat): (r: seq<Byte>)
    ensures |r| == k
  {
    if k == 0 then [] else EncodeBE(n / 256, k - 1) + [(n % 256) as Byte]
  }

  function DecodeBE(s: seq<Byte>): nat {
    if s == [] then 0 else 256 * DecodeBE(s[..|s| - 1]) + s[|s| - 1] as nat
  }

  /** Reading back the `k` bytes written for `n` gives `n`. */
  lemma {:induction false} DecodeEncodeBE(n: nat, k: nat)
    requires n < Pow256(k)
    ensures DecodeBE(EncodeBE(n, k)) == n
  {
    if k > 0 {
      DecodeEncodeBE(n / 256, k - 1);
      assert EncodeBE(n, k)[..k - 1] == EncodeBE(n / 256, k - 1);
    }
  }

  /** Writing the number read from some bytes gives those bytes back. */
  lemma {:induction false} EncodeDecodeBE(s: seq<Byte>)
    ensures DecodeBE(s) < Pow256(|s|)
    ensures EncodeBE(DecodeBE(s), |s|) == s
  {
    if s != [] {
      var front, last := s[..|s| - 1], s[|s| - 1];
      EncodeDecodeBE(front);
      assert DecodeBE(s) / 256 == DecodeBE(front) && DecodeBE(s) % 256 == last as nat;
      assert s == front + [last];
    }
  }

  lemma HeaderRange()
    ensures Pow256(HEADER_SIZE) == TWO_TO_64
  {
    assert Pow256(2) == 0x1_0000;
    assert Pow256(4) == 0x1_0000_0000;
    assert Pow256(6) == 0x1_0000_0000_0000;
  }

  function Header(n: nat): (r: seq<Byte>)
    ensures |r| == HEADER_SIZE
  {
    EncodeBE(n, HEADER_SIZE)
  }

  /** The two directions of the length header, on exactly the range of a u64. */
  lemma HeaderRoundTrip(n: nat, s: seq<Byte>)
    requires n < TWO_TO_64 && |s| == HEADER_SIZE
    ensures DecodeBE(Header(n)) == n
    ensures DecodeBE(s) < TWO_TO_64 && Header(DecodeBE(s)) == s
  {
    HeaderRange();
    DecodeEncodeBE(n, HEADER_SIZE);
    EncodeDecodeBE(s);
  }

  lemma Pow256Positive(k: nat)
    ensures Pow256(k) > 0
  {
  }

  lemma MulSteps(d: nat, q: nat, k: nat)
    ensures d * (q + 1 + k) >= d * q + d
  {
    assert d * (q + 1 + k) == d * q + d + d * k;
    assert d * k >= 0;
  }

  lemma QuotientUnique(n: nat, d: nat, q: nat, r: nat)
    requires r < d && n == d * q + r
    ensures n / d == q
  {
    var p := n / d;
    assert n == d * p + n % d;
    if q < p {
      MulSteps(d, q, p - q - 1);
    } else if p < q {
      MulSteps(d, p, q - p - 1);
    }
  }

  /** Dividing in two steps. */
  lemma DivTwice(n: nat, b: nat)
    requires b > 0
    ensures n / 256 / b == n / (256 * b)
  {
    var (q, r) := (n / 256 / b, n / 256 % b);
    assert n / 256 == b * q + r;
    assert (256 * b) * q == 256 * (b * q);
    QuotientUnique(n, 256 * b, q, 256 * r + n % 256);
  }

  /** The i-th of `k` bytes is the digit of weight 256^(k - 1 - i). */
  lemma {:induction false} EncodeBEByte(n: nat, k: nat, i: nat)
    requires i < k
    ensures Pow256(k - 1 - i) > 0 && EncodeBE(n, k)[i] as nat == n / Pow256(k - 1 - i) % 256
  {
    Pow256Positive(k - 1 - i);
    if i < k - 1 {
      EncodeBEByte(n / 256, k - 1, i);
      DivTwice(n, Pow256(k - 2 - i));
    }
  }

  /** Big-endian: the most significant byte comes first. With `HeaderRoundTrip` this settles the reading
      side too. */
  lemma HeaderBytes(n: nat, i: nat)
    requires i < HEADER_SIZE
    ensures Pow256(HEADER_SIZE - 1 - i) > 0
    ensures Header(n)[i] as nat == n / Pow256(HEADER_SIZE - 1 - i) % 256
  {
    EncodeBEByte(n, HEADER_SIZE, i);
  }

  // ---------- Frames ----------

  function Encode(f: Frame): seq<Byte> {
    Header(|f|) + f
  }

  function EncodeAll(fs: seq<Frame>): seq<Byte> {
    if fs == [] then [] else Encode(fs[0]) + EncodeAll(fs[1..])
  }

  predicate HasFrame(bytes: seq<Byte>) {
    |bytes| >= HEADER_SIZE && |bytes| >= HEADER_SIZE + DecodeBE(bytes[..HEADER_SIZE])
  }

  function FirstFrame(bytes: seq<Byte>): Frame
    requires HasFrame(bytes)
  {
    HeaderRoundTrip(0, bytes[..HEADER_SIZE]);
    bytes[HEADER_SIZE..HEADER_SIZE + DecodeBE(bytes[..HEADER_SIZE])]
  }

  function AfterFirst(bytes: seq<Byte>): seq<Byte>
    requires HasFrame(bytes)
  {
    bytes[HEADER_SIZE + DecodeBE(bytes[..HEADER_SIZE])..]
  }

  /** The frames wholly contained in `bytes`, read from the front. */
  function Complete(bytes: seq<Byte>): seq<Frame>
    decreases |bytes|
  {
    if HasFrame(bytes) then [FirstFrame(bytes)] + Complete(AfterFirst(bytes)) else []
  }

  /** What follows the frames wholly contained in `bytes`. */
  function Rest(bytes: seq<Byte>): seq<Byte>
    decreases |bytes|
  {
    if HasFrame(bytes) then Rest(AfterFirst(bytes)) else bytes
  }

  // ---------- Properties ----------

  lemma FirstOfEncode(f: Frame, tail: seq<Byte>)
    ensures HasFrame(Encode(f) + tail)
    ensures FirstFrame(Encode(f) + tail) == f && AfterFirst(Encode(f) + tail) == tail
  {
    HeaderRoundTrip(|f|, Header(|f|));
    var bytes := Encode(f) + tail;
    assert bytes[..HEADER_SIZE] == Header(|f|);
    assert FirstFrame(bytes) == f;
    assert AfterFirst(bytes) == tail;
  }

  /** On the wire the length comes first, most significant byte first, and the payload follows unaltered. */
  lemma FrameLayout(f: Frame, i: nat)
    requires i < HEADER_SIZE + |f|
    ensures |Encode(f)| == HEADER_SIZE + |f|
    ensures i < HEADER_SIZE ==>
              Pow256(HEADER_SIZE - 1 - i) > 0 && Encode(f)[i] as nat == |f| / Pow256(HEADER_SIZE - 1 - i) % 256
    ensures i >= HEADER_SIZE ==> Encode(f)[i] == f[i - HEADER_SIZE]
  {
    if i < HEADER_SIZE {
      HeaderBytes(|f|, i);
    }
  }

  lemma EncodeOfFirst(bytes: seq<Byte>)
    requires HasFrame(bytes)
    ensures bytes == Encode(FirstFrame(bytes)) + AfterFirst(bytes)
  {
    HeaderRoundTrip(0, bytes[..HEADER_SIZE]);
  }

  lemma ConcatAssociates<T>(a: seq<T>, b: seq<T>, c: seq<T>)
    ensures (a + b) + c == a + (b + c)
  {
  }

  lemma ConcatCancels<T>(a: seq<T>, b: seq<T>, c: seq<T>)
    requires a + c == b + c
    ensures a == b
  {
    assert |a| == |b|;
    assert a == (a + c)[..|a|];
    assert b == (b + c)[..|b|];
  }

  lemma {:induction false} EncodeAllConcat(fs: seq<Frame>, gs: seq<Frame>)
    ensures EncodeAll(fs + gs) == EncodeAll(fs) + EncodeAll(gs)
  {
    if fs == [] {
      assert fs + gs == gs;
    } else {
      EncodeAllConcat(fs[1..], gs);
      assert (fs + gs)[1..] == fs[1..] + gs && (fs + gs)[0] == fs[0];
      ConcatAssociates(Encode(fs[0]), EncodeAll(fs[1..]), EncodeAll(gs));
    }
  }

  lemma EncodeAllAppend(fs: seq<Frame>, f: Frame)
    ensures EncodeAll(fs + [f]) == EncodeAll(fs) + Encode(f)
  {
    EncodeAllConcat(fs, [f]);
    assert EncodeAll([f]) == Encode(f) + EncodeAll([]) == Encode(f);
  }

  /** Decoding encoded frames followed by anything gives those frames back, then decodes what follows. */
  lemma {:induction false} DecodeEncodeAll(fs: seq<Frame>, tail: seq<Byte>)
    ensures Complete(EncodeAll(fs) + tail) == fs + Complete(tail)
    ensures Rest(EncodeAll(fs) + tail) == Rest(tail)
  {
    if fs == [] {
      assert EncodeAll(fs) + tail == tail;
    } else {
      var more := EncodeAll(fs[1..]) + tail;
      ConcatAssociates(Encode(fs[0]), EncodeAll(fs[1..]), tail);
      FirstOfEncode(fs[0], more);
      DecodeEncodeAll(fs[1..], tail);
      ConcatAssociates([fs[0]], fs[1..], Complete(tail));
      assert [fs[0]] + fs[1..] == fs;
    }
  }

  /** Every byte string is the encoding of its complete frames, followed by a part of one frame. */
  lemma {:induction false} EncodeDecodeAll(bytes: seq<Byte>)
    ensures bytes == EncodeAll(Complete(bytes)) + Rest(bytes)
    ensures !HasFrame(Rest(bytes))
    decreases |bytes|
  {
    if HasFrame(bytes) {
      EncodeOfFirst(bytes);
      EncodeDecodeAll(AfterFirst(bytes));
    }
  }

  /** There is only one way to cut a byte string into frames and a part of a frame. */
  lemma UniquelyDecodable(fs: seq<Frame>, p: seq<Byte>, gs: seq<Frame>, q: seq<Byte>)
    requires !HasFrame(p) && !HasFrame(q)
    requires EncodeAll(fs) + p == EncodeAll(gs) + q
    ensures fs == gs && p == q
  {
    DecodeEncodeAll(fs, p);
    DecodeEncodeAll(gs, q);
    assert fs + [] == fs && gs + [] == gs;
  }

  /** No frame's encoding is a proper prefix of another's. */
  lemma PrefixFree(f: Frame, g: Frame)
    requires Encode(f) <= Encode(g)
    ensures f == g
  {
    var tail := Encode(g)[|Encode(f)|..];
    assert Encode(g) == Encode(f) + tail == Encode(g) + [];
    FirstOfEncode(f, tail);
    FirstOfEncode(g, []);
  }

  /** More bytes never change the frames already complete. */
  lemma CompleteGrows(p: seq<Byte>, q: seq<Byte>)
    requires p <= q
    ensures Complete(p) <= Complete(q)
  {
    EncodeDecodeAll(p);
    var tail := Rest(p) + q[|p|..];
    assert q == EncodeAll(Complete(p)) + tail;
    DecodeEncodeAll(Complete(p), tail);
  }

  lemma WholeFramesComplete(fs: seq<Frame>, bytes: seq<Byte>)
    requires EncodeAll(fs) <= bytes
    ensures fs <= Complete(bytes)
  {
    DecodeEncodeAll(fs, []);
    assert EncodeAll(fs) + [] == EncodeAll(fs) && fs + [] == fs;
    CompleteGrows(EncodeAll(fs), bytes);
  }

  lemma EncodeAllPrefix(fs: seq<Frame>, k: nat)
    requires k <= |fs|
    ensures EncodeAll(fs[..k]) <= EncodeAll(fs)
  {
    EncodeAllConcat(fs[..k], fs[k..]);
    assert fs == fs[..k] + fs[k..];
  }

  /** Of an encoded frame list cut anywhere, exactly the frames wholly before the cut are complete. */
  lemma Truncation(fs: seq<Frame>, cut: seq<Byte>)
    requires cut <= EncodeAll(fs)
    ensures var k := |Complete(cut)|;
            && k <= |fs| && Complete(cut) == fs[..k]
            && EncodeAll(fs[..k]) <= cut
            && (k < |fs| ==> |cut| < |EncodeAll(fs[..k + 1])|)
  {
    CompleteGrows(cut, EncodeAll(fs));
    DecodeEncodeAll(fs, []);
    assert EncodeAll(fs) + [] == EncodeAll(fs) && fs + [] == fs;
    EncodeDecodeAll(cut);
    var k := |Complete(cut)|;
    assert Complete(cut) == fs[..k];
    if k < |fs| && |EncodeAll(fs[..k + 1])| <= |cut| {
      EncodeAllPrefix(fs, k + 1);
      WholeFramesComplete(fs[..k + 1], cut);
      assert false;
    }
  }
}
