/** Bytes, unsigned machine words and the big-endian reading of a byte string. */
module BigEndian {

  newtype byte = x: int | 0 <= x < 0x100
  /** Go's `uint` on a 64-bit platform: the verifier rejects any sum that would wrap around. */
  newtype uint = x: int | 0 <= x < 0x1_0000_0000_0000_0000
  newtype uint32 = x: int | 0 <= x < 0x1_0000_0000

  function Pow2(n: nat): (p: nat)
    ensures p > 0
  {
    if n == 0 then 1 else 2 * Pow2(n - 1)
  }

  function Pow256(n: nat): (p: nat)
    ensures p > 0
  {
    if n == 0 then 1 else 0x100 * Pow256(n - 1)
  }

  /** The number a byte string denotes, most significant byte first. */
  ghost function Value(b: seq<byte>): nat {
    if |b| == 0 then 0 else Value(b[..|b| - 1]) * 0x100 + b[|b| - 1] as nat
  }

  /** The n-byte string that denotes v modulo 256^n. */
  ghost function Bytes(v: nat, n: nat): (b: seq<byte>)
    ensures |b| == n
  {
    if n == 0 then [] else Bytes(v / 0x100, n - 1) + [(v % 0x100) as byte]
  }

  lemma {:induction false} Pow2Add(a: nat, b: nat)
    ensures Pow2(a + b) == Pow2(a) * Pow2(b)
  {
    if a > 0 {
      Pow2Add(a - 1, b);
      assert Pow2(a + b) == 2 * Pow2(a - 1 + b);
    }
  }

  lemma {:induction false} Pow2Monotone(a: nat, b: nat)
    requires a <= b
    ensures Pow2(a) <= Pow2(b)
  {
    if a < b { Pow2Monotone(a, b - 1); }
  }

  lemma {:induction false} Pow256IsPow2(n: nat)
    ensures Pow256(n) == Pow2(8 * n)
  {
    if n > 0 {
      Pow256IsPow2(n - 1);
      Pow2Add(8, 8 * (n - 1));
    }
  }

  lemma {:induction false} ValueBound(b: seq<byte>)
    ensures Value(b) < Pow256(|b|)
  {
    if |b| > 0 { ValueBound(b[..|b| - 1]); }
  }

  /** x * P + y, read one byte further to the right. */
  lemma ShiftIn(va: nat, vb: nat, p: nat, x: nat)
    ensures (va * p + vb) * 0x100 + x == va * (0x100 * p) + (vb * 0x100 + x)
  {
  }

  lemma {:induction false} ValueConcat(a: seq<byte>, b: seq<byte>)
    ensures Value(a + b) == Value(a) * Pow256(|b|) + Value(b)
  {
    if |b| == 0 {
      assert a + b == a;
    } else {
      var n := |b| - 1;
      var b', x := b[..n], b[n];
      ValueConcat(a, b');
      assert Value(a + b) == Value(a + b') * 0x100 + x as nat by {
        assert (a + b)[..|a + b| - 1] == a + b';
      }
      ShiftIn(Value(a), Value(b'), Pow256(n), x as nat);
    }
  }

  lemma ValueOne(x: byte)
    ensures Value([x]) == x as nat
  {
  }

  /** Equal numbers of equal width are equal byte strings. */
  lemma {:induction false} ValueInjective(a: seq<byte>, b: seq<byte>)
    requires |a| == |b|
    ensures Value(a) == Value(b) <==> a == b
  {
    if |a| > 0 && Value(a) == Value(b) {
      var n := |a| - 1;
      ValueInjective(a[..n], b[..n]);
      assert a[n] == b[n];
      assert a == a[..n] + [a[n]] && b == b[..n] + [b[n]];
    }
  }

  lemma {:induction false} ValueOfBytes(v: nat, n: nat)
    requires v < Pow256(n)
    ensures Value(Bytes(v, n)) == v
  {
    if n > 0 {
      ValueOfBytes(v / 0x100, n - 1);
      assert Bytes(v, n)[..n - 1] == Bytes(v / 0x100, n - 1);
    }
  }

  lemma BytesOfValue(b: seq<byte>)
    ensures Bytes(Value(b), |b|) == b
  {
    ValueBound(b);
    ValueOfBytes(Value(b), |b|);
    ValueInjective(b, Bytes(Value(b), |b|));
  }

  lemma {:induction false} ZeroValue(b: seq<byte>)
    requires forall i :: 0 <= i < |b| ==> b[i] == 0
    ensures Value(b) == 0
  {
    if |b| > 0 { ZeroValue(b[..|b| - 1]); }
  }

  function Clamp(x: int): nat {
    if x < 0 then 0 else if x > 8 then 8 else x
  }

  /** The network part under a prefix of p bits (RFC 4632, section 3.1): byte i keeps its leading Clamp(p - 8i) bits. */
  function Mask(b: seq<byte>, p: nat): (m: seq<byte>)
    ensures |m| == |b|
  {
    seq(|b|, i requires 0 <= i < |b| => KeepBits(b[i], Clamp(p - 8 * i)))
  }

  /** Clears the low 8-k bits of a byte. */
  function KeepBits(x: byte, k: nat): byte
    requires k <= 8
  {
    RemainderBound(x as nat, Pow2(8 - k));
    (x as int - x as int % Pow2(8 - k)) as byte
  }

  lemma RemainderBound(x: nat, m: nat)
    requires m > 0
    ensures 0 <= x % m <= x
  {
  }

  function HostBits(n: nat, p: nat): nat {
    if p <= 8 * n then 8 * n - p else 0
  }

  lemma MaskSplit(b: seq<byte>, p: nat)
    requires |b| > 0
    ensures Value(Mask(b, p)) ==
            Value(Mask(b[..|b| - 1], p)) * 0x100 + KeepBits(b[|b| - 1], Clamp(p - 8 * (|b| - 1))) as nat
  {
    assert Mask(b, p)[..|b| - 1] == Mask(b[..|b| - 1], p);
  }

  /** Byte-wise masking clears the host bits of the number as a whole. */
  lemma {:induction false} MaskValue(b: seq<byte>, p: nat)
    ensures Value(Mask(b, p)) == Value(b) - Value(b) % Pow2(HostBits(|b|, p))
  {
    if |b| > 0 {
      MaskValue(b[..|b| - 1], p);
      if p >= 8 * (|b| - 1) { MaskEndsInLast(b, p); } else { MaskEndsBefore(b, p); }
    }
  }

  lemma MaskEndsInLast(b: seq<byte>, p: nat)
    requires |b| > 0 && p >= 8 * (|b| - 1)
    requires var a := b[..|b| - 1]; Value(Mask(a, p)) == Value(a) - Value(a) % Pow2(HostBits(|a|, p))
    ensures Value(Mask(b, p)) == Value(b) - Value(b) % Pow2(HostBits(|b|, p))
  {
    var n := |b| - 1;
    NothingCleared(Value(b[..n]), n, p);
    assert Value(Mask(b[..n], p)) == Value(b[..n]);
    MaskSplit(b, p);
    assert Clamp(p - 8 * n) <= 8 && HostBits(|b|, p) == 8 - Clamp(p - 8 * n);
    LastByteCut(Value(b[..n]), b[n], Clamp(p - 8 * n), HostBits(|b|, p));
  }

  lemma MaskEndsBefore(b: seq<byte>, p: nat)
    requires |b| > 0 && p < 8 * (|b| - 1)
    requires var a := b[..|b| - 1]; Value(Mask(a, p)) == Value(a) - Value(a) % Pow2(HostBits(|a|, p))
    ensures Value(Mask(b, p)) == Value(b) - Value(b) % Pow2(HostBits(|b|, p))
  {
    var n := |b| - 1;
    MaskShifted(b, p);
    LastByteCleared(Value(b[..n]), b[n], HostBits(n, p), HostBits(|b|, p));
  }

  lemma MaskShifted(b: seq<byte>, p: nat)
    requires |b| > 0 && p < 8 * (|b| - 1)
    ensures Value(Mask(b, p)) == Value(Mask(b[..|b| - 1], p)) * 0x100
  {
    MaskSplit(b, p);
    NothingKept(b[|b| - 1]);
  }

  lemma NothingCleared(v: nat, n: nat, p: nat)
    requires p >= 8 * n
    ensures v % Pow2(HostBits(n, p)) == 0
  {
  }

  lemma NothingKept(x: byte)
    ensures KeepBits(x, 0) == 0
  {
    assert Pow2(8) == 0x100;
  }

  /** The prefix ends inside the last byte. */
  lemma LastByteCut(v: nat, x: byte, k: nat, host: nat)
    requires k <= 8 && host == 8 - k
    ensures v * 0x100 + KeepBits(x, k) as int == v * 0x100 + x as int - (v * 0x100 + x as int) % Pow2(host)
  {
    Pow2Add(8 - k, k);
    assert Pow2(8) == 0x100;
    LowBits(v, x as nat, Pow2(8 - k), Pow2(k));
  }

  /** The prefix ended before the last byte. */
  lemma LastByteCleared(v: nat, x: byte, h: nat, host: nat)
    requires host == h + 8
    ensures (v - v % Pow2(h)) * 0x100 == v * 0x100 + x as int - (v * 0x100 + x as int) % Pow2(host)
  {
    Pow2Add(h, 8);
    assert Pow2(8) == 0x100;
    HighBits(v, x as nat, Pow2(h));
  }

  lemma ModUnique(x: nat, q: nat, r: nat, m: nat)
    requires x == q * m + r && r < m
    ensures x % m == r && x / m == q
  {
    var q', r' := x / m, x % m;
    assert q' * m + r' == q * m + r;
    if q < q' {
      Quotients(q, r, q' - q - 1, r', m);
    } else if q' < q {
      Quotients(q', r', q - q' - 1, r, m);
    }
  }

  lemma Quotients(q: nat, r: nat, d: nat, r': nat, m: nat)
    requires r < m
    ensures q * m + r < (q + d + 1) * m + r'
  {
  }

  lemma LowBits(v: nat, x: nat, m: nat, k: nat)
    requires m > 0 && m * k == 0x100
    ensures (v * 0x100 + x) % m == x % m
  {
    var q := v * k + x / m;
    assert v * 0x100 == v * (m * k) == (v * k) * m;
    assert q * m == (v * k) * m + (x / m) * m;
    ModUnique(v * 0x100 + x, q, x % m, m);
  }

  lemma HighBits(v: nat, x: nat, m: nat)
    requires m > 0 && x < 0x100
    ensures (v * 0x100 + x) % (m * 0x100) == (v % m) * 0x100 + x
  {
    assert v == (v / m) * m + v % m;
    assert v * 0x100 == (v / m) * (m * 0x100) + (v % m) * 0x100;
    assert (v % m) * 0x100 + x < m * 0x100;
    ModUnique(v * 0x100 + x, v / m, (v % m) * 0x100 + x, m * 0x100);
  }
}
