/** One-time passwords (Totp.hpp), with HMAC left uninterpreted, against section 5.3 of
    RFC 4226 and section 5.2 of RFC 6238. */
module Totp {
  type Byte = x: int | 0 <= x < 256

  const DIGEST_LENGTH: nat := 20

  type Digest = d: seq<Byte> | |d| == DIGEST_LENGTH witness seq(20, _ => 0)

  /** Maps a key and a counter in eight bytes to a digest. */
  type Hmac = (seq<Byte>, seq<Byte>) -> Digest

  // ------------------------------------------------------------------- truncation

  /** The bytes of a 64-bit number, most significant first. */
  function BigEndian(n: int, bytes: nat): seq<Byte>
    decreases bytes, n
  {
    if bytes == 0 then [] else BigEndian(n / 256, bytes - 1) + [n % 256]
  }

  /** Four bytes as a little-endian machine loads them. */
  function LoadWord(d: seq<Byte>, at: nat): int
    requires at + 4 <= |d|
  {
    var b0: int, b1: int, b2: int, b3: int := d[at], d[at + 1], d[at + 2], d[at + 3];
    b0 + 0x100 * b1 + 0x1_0000 * b2 + 0x100_0000 * b3
  }

  function EndianReverse(w: int): int {
    w % 256 * 0x100_0000 + w / 0x100 % 256 * 0x1_0000 + w / 0x1_0000 % 256 * 0x100 + w / 0x100_0000 % 256
  }

  /** The lowest four bits of the last byte. */
  function Offset(d: Digest): (r: nat)
    ensures r + 4 <= |d|
  {
    d[DIGEST_LENGTH - 1] % 16
  }

  /** The code's binary value: reversed, without the top bit. */
  function Truncate(d: Digest): (r: nat)
    ensures r < 0x8000_0000
  {
    EndianReverse(LoadWord(d, Offset(d))) % 0x8000_0000
  }

  /** The dynamic binary code of section 5.3: the four bytes at the offset, high byte
      first, the first masked with 0x7f. */
  function DynamicBinaryCode(d: Digest): int {
    var o := d[19] % 16;
    var b0: int, b1: int, b2: int, b3: int := d[o], d[o + 1], d[o + 2], d[o + 3];
    b0 % 128 * 0x100_0000 + b1 * 0x1_0000 + b2 * 0x100 + b3
  }

  lemma ReverseLoad(d: seq<Byte>, at: nat)
    requires at + 4 <= |d|
    ensures var b0: int, b1: int, b2: int, b3: int := d[at], d[at + 1], d[at + 2], d[at + 3];
            EndianReverse(LoadWord(d, at)) == b0 * 0x100_0000 + b1 * 0x1_0000 + b2 * 0x100 + b3
  {
    var b0: int, b1: int, b2: int, b3: int := d[at], d[at + 1], d[at + 2], d[at + 3];
    var w := LoadWord(d, at);
    assert w / 0x100 == b1 + 0x100 * b2 + 0x1_0000 * b3;
    assert w / 0x1_0000 == b2 + 0x100 * b3;
    assert w / 0x100_0000 == b3;
  }

  lemma MaskTopBit(top: int, rest: int)
    requires 0 <= top < 256 && 0 <= rest < 0x100_0000
    ensures (top * 0x100_0000 + rest) % 0x8000_0000 == top % 128 * 0x100_0000 + rest
  {
    if top < 128 {
      assert top % 128 == top;
    } else {
      assert top % 128 == top - 128;
      assert top * 0x100_0000 + rest - 0x8000_0000 == (top - 128) * 0x100_0000 + rest;
    }
  }

  /** The machine arithmetic computes the standard's dynamic truncation. */
  lemma TruncateIsStandard(d: Digest)
    ensures Truncate(d) == DynamicBinaryCode(d)
  {
    var o := Offset(d);
    var b1: int, b2: int, b3: int := d[o + 1], d[o + 2], d[o + 3];
    ReverseLoad(d, o);
    MaskTopBit(d[o], b1 * 0x1_0000 + b2 * 0x100 + b3);
  }

  /** The digest of the example in section 5.4 of RFC 4226. */
  const EXAMPLE: Digest :=
    [0x1f, 0x86, 0x98, 0x69, 0x0e, 0x02, 0xca, 0x16, 0x61, 0x85,
     0x50, 0xef, 0x7f, 0x19, 0xda, 0x8e, 0x94, 0x5b, 0x55, 0x5a]

  /** And its value and six-digit code there. */
  lemma ExampleOfStandard()
    ensures Truncate(EXAMPLE) == 0x50ef7f19 && Truncate(EXAMPLE) % Pow10(6) == 872921
  {
    assert Offset(EXAMPLE) == 10;
    TruncateIsStandard(EXAMPLE);
    assert Pow10(6) == 1_000_000;
  }

  // ------------------------------------------------------------------------ codes

  function Pow10(n: nat): (r: nat)
    ensures r > 0
  {
    if n == 0 then 1 else 10 * Pow10(n - 1)
  }

  /** The code of one time-step counter. */
  function CodeAt(hmac: Hmac, key: seq<Byte>, digits: nat, counter: int): nat {
    Truncate(hmac(key, BigEndian(counter, 8))) % Pow10(digits)
  }

  function GenerateTotp(hmac: Hmac, key: seq<Byte>, digits: nat, step: nat, window: nat, time: nat): (code: nat)
    requires step > 0
    ensures code < Pow10(digits)
  {
    CodeAt(hmac, key, digits, time / step - window)
  }

  /** `any_of` over the windows 0 to `window`. */
  predicate ValidateTotp(hmac: Hmac, input: int, key: seq<Byte>, digits: nat, step: nat, window: nat, now: nat)
    requires step > 0
  {
    exists w :: 0 <= w <= window && GenerateTotp(hmac, key, digits, step, w, now) == input
  }

  lemma StepsApart(t: nat, t': nat, step: nat, window: nat)
    requires step > 0 && t <= t' <= t + window * step
    ensures 0 <= t' / step - t / step <= window
  {
    DivMonotone(t, t', step);
    DivMonotone(t', t + window * step, step);
    assert (t + window * step) / step == t / step + window by { DivShift(t, window, step); }
  }

  lemma MulMonotone(a: int, b: int, d: nat)
    requires a <= b
    ensures a * d <= b * d
  {
  }

  lemma DivMonotone(a: nat, b: nat, d: nat)
    requires d > 0 && a <= b
    ensures a / d <= b / d
  {
    var q, r := a / d, b / d;
    if q > r {
      MulMonotone(r + 1, q, d);
      assert false;
    }
  }

  lemma DivShift(t: nat, k: nat, d: nat)
    requires d > 0
    ensures (t + k * d) / d == t / d + k
  {
    var q, r := t / d, t % d;
    assert t + k * d == d * (q + k) + r;
    var q' := (t + k * d) / d;
    assert t + k * d == d * q' + (t + k * d) % d;
    if q' < q + k {
      MulMonotone(q' + 1, q + k, d);
      assert false;
    }
    if q' > q + k {
      MulMonotone(q + k + 1, q', d);
      assert false;
    }
  }

  /** A code is accepted for at least `window` whole time steps after it was generated. */
  lemma CodeStaysValid(hmac: Hmac, key: seq<Byte>, digits: nat, step: nat, window: nat, t: nat, t': nat)
    requires step > 0 && t <= t' <= t + window * step
    ensures ValidateTotp(hmac, GenerateTotp(hmac, key, digits, step, 0, t), key, digits, step, window, t')
  {
    StepsApart(t, t', step, window);
    var w := t' / step - t / step;
    assert t' / step - w == t / step - 0;
    assert GenerateTotp(hmac, key, digits, step, w, t') == GenerateTotp(hmac, key, digits, step, 0, t);
  }

  // ------------------------------------------------------- the exact window

  /** What the bytes say, undoing BigEndian. */
  function FromBigEndian(s: seq<Byte>): nat {
    if s == [] then 0 else 256 * FromBigEndian(s[..|s| - 1]) + s[|s| - 1]
  }

  function Pow256(n: nat): nat {
    if n == 0 then 1 else 256 * Pow256(n - 1)
  }

  lemma Shift(n: int, k: int, p: nat, low: nat)
    requires n / 256 == k * p + low && low < p
    ensures n == k * (256 * p) + (256 * low + n % 256) && 256 * low + n % 256 < 256 * p
  {
    assert n == 256 * (k * p + low) + n % 256;
  }

  lemma {:induction false} BigEndianParts(n: int, bytes: nat) returns (wraps: int)
    ensures |BigEndian(n, bytes)| == bytes && FromBigEndian(BigEndian(n, bytes)) < Pow256(bytes)
    ensures n == wraps * Pow256(bytes) + FromBigEndian(BigEndian(n, bytes))
    decreases bytes
  {
    if bytes == 0 {
      wraps := n;
    } else {
      wraps := BigEndianParts(n / 256, bytes - 1);
      assert BigEndian(n, bytes)[..bytes - 1] == BigEndian(n / 256, bytes - 1);
      var low := FromBigEndian(BigEndian(n / 256, bytes - 1));
      Shift(n, wraps, Pow256(bytes - 1), low);
    }
  }

  /** Counters that are written alike are equal up to the counter's width. */
  lemma SameBytesSameCounter(m: int, n: int, bytes: nat)
    requires BigEndian(m, bytes) == BigEndian(n, bytes)
    requires m - n < Pow256(bytes) && n - m < Pow256(bytes)
    ensures m == n
  {
    var i := BigEndianParts(m, bytes);
    var j := BigEndianParts(n, bytes);
    SameRemainder(m, n, i, j, Pow256(bytes), FromBigEndian(BigEndian(m, bytes)));
  }

  lemma SameRemainder(m: int, n: int, i: int, j: int, p: nat, r: nat)
    requires m == i * p + r && n == j * p + r && m - n < p && n - m < p
    ensures m == n
  {
    if i > j {
      MulMonotone(j + 1, i, p);
      assert false;
    }
    if j > i {
      MulMonotone(i + 1, j, p);
      assert false;
    }
  }

  function TestDigest(low: bool): Digest {
    seq(DIGEST_LENGTH, i requires 0 <= i < DIGEST_LENGTH => if i == 3 && low then 1 else 0)
  }

  lemma TestDigestCode(low: bool)
    ensures Truncate(TestDigest(low)) == if low then 1 else 0
  {
    TruncateIsStandard(TestDigest(low));
  }

  /** The acceptance window, exactly: a code of time `t` is accepted at `t'` whatever the
      keyed hash is if and only if the time step has moved on by at most `window`, and not
      back.  Times are 64-bit and the window is an `int`; counters before 0 wrap. */
  lemma AcceptedIffWithinWindow(key: seq<Byte>, digits: nat, step: nat, window: nat, t: nat, t': nat)
    requires step > 0 && t < 0x8000_0000_0000_0000 && t' < 0x8000_0000_0000_0000 && window < 0x8000_0000
    ensures (forall hmac: Hmac ::
               ValidateTotp(hmac, GenerateTotp(hmac, key, digits, step, 0, t), key, digits, step, window, t'))
            <==> digits == 0 || 0 <= t' / step - t / step <= window
  {
    var c, c' := t / step, t' / step;
    if digits == 0 {
      forall hmac: Hmac
        ensures ValidateTotp(hmac, GenerateTotp(hmac, key, digits, step, 0, t), key, digits, step, window, t')
      {
        assert GenerateTotp(hmac, key, digits, step, 0, t') == GenerateTotp(hmac, key, digits, step, 0, t);
      }
    } else if 0 <= c' - c <= window {
      forall hmac: Hmac
        ensures ValidateTotp(hmac, GenerateTotp(hmac, key, digits, step, 0, t), key, digits, step, window, t')
      {
        assert c' - (c' - c) == c - 0;
        assert GenerateTotp(hmac, key, digits, step, c' - c, t') == GenerateTotp(hmac, key, digits, step, 0, t);
      }
    } else {
      RejectedOutsideWindow(key, digits, step, window, t, t');
    }
  }

  /** A keyed hash that singles out one counter. */
  function TestHmac(c: int): Hmac {
    (k: seq<Byte>, m: seq<Byte>) => TestDigest(m == BigEndian(c, 8))
  }

  lemma TestCode(key: seq<Byte>, digits: nat, c: int, other: int)
    requires digits > 0 && c != other && -0x8000_0000 <= other < 0x8000_0000_0000_0000 && 0 <= c < 0x8000_0000_0000_0000
    ensures CodeAt(TestHmac(c), key, digits, c) == 1
    ensures CodeAt(TestHmac(c), key, digits, other) == 0
  {
    TestDigestCode(true);
    TestDigestCode(false);
    assert Pow10(digits) >= 10 by { assert Pow10(digits) == 10 * Pow10(digits - 1); }
    SmallModulo(1, Pow10(digits));
    SmallModulo(0, Pow10(digits));
    if BigEndian(other, 8) == BigEndian(c, 8) {
      Pow256Eight();
      SameBytesSameCounter(other, c, 8);
      assert false;
    }
  }

  lemma GenerateIsCodeAt(hmac: Hmac, key: seq<Byte>, digits: nat, step: nat, w: nat, t: nat)
    requires step > 0
    ensures GenerateTotp(hmac, key, digits, step, w, t) == CodeAt(hmac, key, digits, t / step - w)
  {
  }

  /** A code that this hash keeps apart from the one of time `t`. */
  lemma CodeDiffers(key: seq<Byte>, digits: nat, step: nat, w: nat, t: nat, t': nat)
    requires step > 0 && t < 0x8000_0000_0000_0000 && t' < 0x8000_0000_0000_0000 && w < 0x8000_0000
    requires digits > 0 && t' / step - w != t / step
    ensures var hmac := TestHmac(t / step);
            GenerateTotp(hmac, key, digits, step, w, t') != GenerateTotp(hmac, key, digits, step, 0, t)
  {
    DivBound(t, step);
    DivBound(t', step);
    var hmac := TestHmac(t / step);
    GenerateIsCodeAt(hmac, key, digits, step, w, t');
    GenerateIsCodeAt(hmac, key, digits, step, 0, t);
    TestCode(key, digits, t / step, t' / step - w);
  }

  /** Outside the window some keyed hash tells the codes apart. */
  lemma RejectedOutsideWindow(key: seq<Byte>, digits: nat, step: nat, window: nat, t: nat, t': nat)
    requires step > 0 && t < 0x8000_0000_0000_0000 && t' < 0x8000_0000_0000_0000 && window < 0x8000_0000
    requires digits > 0 && !(0 <= t' / step - t / step <= window)
    ensures exists hmac: Hmac ::
              !ValidateTotp(hmac, GenerateTotp(hmac, key, digits, step, 0, t), key, digits, step, window, t')
  {
    var hmac := TestHmac(t / step);
    forall w | 0 <= w <= window
      ensures GenerateTotp(hmac, key, digits, step, w, t') != GenerateTotp(hmac, key, digits, step, 0, t)
    {
      CodeDiffers(key, digits, step, w, t, t');
    }
    assert !ValidateTotp(hmac, GenerateTotp(hmac, key, digits, step, 0, t), key, digits, step, window, t');
  }

  lemma DivBound(a: nat, d: nat)
    requires d > 0
    ensures 0 <= a / d <= a
  {
    DivMonotone(0, a, d);
    MulMonotone(1, d, a / d);
  }

  lemma SmallModulo(a: nat, m: nat)
    requires a < m
    ensures a % m == a
  {
  }

  lemma Pow256Eight()
    ensures Pow256(8) == 0x1_0000_0000_0000_0000
  {
    assert Pow256(4) == 0x1_0000_0000;
  }
}
