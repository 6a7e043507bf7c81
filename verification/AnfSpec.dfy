/** The algebraic normal form of a truth table, three ways: as the sum over subsets that defines it,
    as the recursive halving [T(lo) | T(lo) xor T(hi)] on bits, and as the same halving on bytes,
    which is what both implementations compute in place. */
module AnfSpec {

  /** std::has_single_bit */
  predicate IsPow2(n: nat): (r: bool)
    ensures r ==> n > 0
  {
    n == 1 || (n > 0 && n % 2 == 0 && IsPow2(n / 2))
  }

  // ----- The definition: a coefficient is the sum of the values at the subsets of its index

  /** Every binary digit of v is one of u. */
  predicate Subset(v: nat, u: nat) {
    v == 0 || (v % 2 <= u % 2 && Subset(v / 2, u / 2))
  }

  /** The sum modulo two of the entries s[v], v < n, whose index is a subset of u. */
  function SubsetSum(s: seq<bool>, n: nat, u: nat): bool
    requires n <= |s|
  {
    n > 0 && SubsetSum(s, n - 1, u) != (Subset(n - 1, u) && s[n - 1])
  }

  // ----- The halving on bits

  function XorBits(a: seq<bool>, b: seq<bool>): (r: seq<bool>)
    requires |a| == |b|
    ensures |r| == |a|
  {
    seq(|a|, i requires 0 <= i < |a| => a[i] != b[i])
  }

  function Moebius(s: seq<bool>): (r: seq<bool>)
    requires IsPow2(|s|)
    ensures |r| == |s|
  {
    if |s| == 1 then s
    else
      var h := |s| / 2;
      var lo := Moebius(s[..h]);
      lo + XorBits(lo, Moebius(s[h..]))
  }

  lemma MoebiusOne(s: seq<bool>)
    requires |s| == 1
    ensures IsPow2(|s|) && Moebius(s) == s
  {
  }

  lemma Halves<T>(s: seq<T>)
    requires IsPow2(|s|) && |s| > 1
    ensures 2 * (|s| / 2) == |s| && IsPow2(|s| / 2)
    ensures s == s[..|s| / 2] + s[|s| / 2..]
  {
  }

  lemma MoebiusConcat(a: seq<bool>, b: seq<bool>)
    requires |a| == |b| && IsPow2(|a|)
    ensures IsPow2(|a + b|) && Moebius(a + b) == Moebius(a) + XorBits(Moebius(a), Moebius(b))
  {
    assert (a + b)[..|a|] == a && (a + b)[|a|..] == b;
  }

  lemma MoebiusAt(a: seq<bool>, b: seq<bool>, u: nat)
    requires |a| == |b| && IsPow2(|a|) && u < 2 * |a|
    ensures IsPow2(|a + b|)
    ensures Moebius(a + b)[u] ==
            if u < |a| then Moebius(a)[u] else Moebius(a)[u - |a|] != Moebius(b)[u - |a|]
  {
    MoebiusConcat(a, b);
    hide Moebius, IsPow2;
  }

  lemma Pow2Double(n: nat)
    requires IsPow2(n)
    ensures IsPow2(2 * n)
  {
  }

  lemma Pow2Sizes()
    ensures IsPow2(8) && IsPow2(32)
  {
    assert IsPow2(4);
    assert IsPow2(16);
  }

  // ----- Subsets of indices, a power of two at a time

  lemma {:induction false} SubsetLow(h: nat, v: nat, u: nat)
    requires IsPow2(h) && u < h && h <= v
    ensures !Subset(v, u)
    decreases v
  {
    if h > 1 {
      SubsetLow(h / 2, v / 2, u / 2);
    } else if v > 1 {
      SubsetLow(1, v / 2, 0);
    }
  }

  lemma {:induction false} SubsetHigh(h: nat, v: nat, u: nat)
    requires IsPow2(h) && u < h && v < h
    ensures Subset(v, u + h) == Subset(v, u)
    ensures Subset(v + h, u + h) == Subset(v, u)
  {
    if h == 1 {
      assert Subset(v / 2, u / 2);
      assert (v + h) / 2 == 0;
    } else {
      SubsetHigh(h / 2, v / 2, u / 2);
      assert (u + h) / 2 == u / 2 + h / 2 && (v + h) / 2 == v / 2 + h / 2;
      assert (u + h) % 2 == u % 2 && (v + h) % 2 == v % 2;
    }
  }

  /** Below the middle a coefficient depends on the lower half alone. */
  lemma {:induction false} SumLow(a: seq<bool>, b: seq<bool>, n: nat, u: nat)
    requires IsPow2(|a|) && u < |a| && n <= |a| + |b|
    ensures SubsetSum(a + b, n, u) == SubsetSum(a, if n <= |a| then n else |a|, u)
  {
    if n > 0 {
      SumLow(a, b, n - 1, u);
      if n - 1 >= |a| {
        SubsetLow(|a|, n - 1, u);
      }
    }
  }

  /** From the middle on it is the sum of the two halves' coefficients. */
  lemma {:induction false} SumHigh(a: seq<bool>, b: seq<bool>, n: nat, u: nat)
    requires |a| == |b| && IsPow2(|a|) && u < |a| && n <= 2 * |a|
    ensures SubsetSum(a + b, n, u + |a|) ==
            (SubsetSum(a, if n < |a| then n else |a|, u) != SubsetSum(b, if n < |a| then 0 else n - |a|, u))
  {
    if n > 0 {
      SumHigh(a, b, n - 1, u);
      SubsetHigh(|a|, if n - 1 < |a| then n - 1 else n - 1 - |a|, u);
    }
  }

  /** The halving computes the sums over subsets. */
  lemma {:induction false} MoebiusIsSubsetSum(s: seq<bool>, u: nat)
    requires IsPow2(|s|) && u < |s|
    ensures Moebius(s)[u] == SubsetSum(s, |s|, u)
    decreases |s|
  {
    hide Moebius, SubsetSum, IsPow2;
    if |s| == 1 {
      SumOne(s);
    } else {
      Halves(s);
      var h := |s| / 2;
      var i := if u < h then u else u - h;
      MoebiusIsSubsetSum(s[..h], i);
      MoebiusIsSubsetSum(s[h..], i);
      SumStep(s[..h], s[h..], u);
    }
  }

  lemma SumOne(s: seq<bool>)
    requires |s| == 1
    ensures IsPow2(|s|) && Moebius(s)[0] == SubsetSum(s, 1, 0)
  {
    assert SubsetSum(s, 0, 0) == false;
  }

  lemma SumStep(a: seq<bool>, b: seq<bool>, u: nat)
    requires |a| == |b| && IsPow2(|a|) && u < 2 * |a|
    requires var i := if u < |a| then u else u - |a|;
             Moebius(a)[i] == SubsetSum(a, |a|, i) && Moebius(b)[i] == SubsetSum(b, |b|, i)
    ensures IsPow2(|a + b|) && Moebius(a + b)[u] == SubsetSum(a + b, |a + b|, u)
  {
    MoebiusAt(a, b, u);
    SumAt(a, b, u);
    hide Moebius, SubsetSum, IsPow2;
  }

  lemma SumAt(a: seq<bool>, b: seq<bool>, u: nat)
    requires |a| == |b| && IsPow2(|a|) && u < 2 * |a|
    ensures SubsetSum(a + b, |a + b|, u) ==
            if u < |a| then SubsetSum(a, |a|, u) else SubsetSum(a, |a|, u - |a|) != SubsetSum(b, |b|, u - |a|)
  {
    hide SubsetSum, IsPow2, Subset;
    if u < |a| {
      SumLow(a, b, |a + b|, u);
    } else {
      SumHigh(a, b, |a + b|, u - |a|);
    }
  }

  // ----- Linearity and involution

  lemma XorBitsConcat(a: seq<bool>, b: seq<bool>, c: seq<bool>, d: seq<bool>)
    requires |a| == |c| && |b| == |d|
    ensures XorBits(a + b, c + d) == XorBits(a, c) + XorBits(b, d)
  {
  }

  lemma XorBitsSwap(a: seq<bool>, b: seq<bool>, c: seq<bool>, d: seq<bool>)
    requires |a| == |b| == |c| == |d|
    ensures XorBits(XorBits(a, b), XorBits(c, d)) == XorBits(XorBits(a, c), XorBits(b, d))
  {
  }

  lemma {:induction false} MoebiusLinear(s: seq<bool>, t: seq<bool>)
    requires |s| == |t| && IsPow2(|s|)
    ensures Moebius(XorBits(s, t)) == XorBits(Moebius(s), Moebius(t))
    decreases |s|
  {
    hide Moebius, XorBits, IsPow2;
    if |s| == 1 {
      MoebiusOne(s);
      MoebiusOne(t);
      MoebiusOne(XorBits(s, t));
    } else {
      Halves(s);
      Halves(t);
      var h := |s| / 2;
      MoebiusLinear(s[..h], t[..h]);
      MoebiusLinear(s[h..], t[h..]);
      LinearStep(s[..h], s[h..], t[..h], t[h..]);
    }
  }

  lemma LinearStep(a: seq<bool>, b: seq<bool>, c: seq<bool>, d: seq<bool>)
    requires |a| == |b| == |c| == |d| && IsPow2(|a|)
    requires Moebius(XorBits(a, c)) == XorBits(Moebius(a), Moebius(c))
    requires Moebius(XorBits(b, d)) == XorBits(Moebius(b), Moebius(d))
    ensures IsPow2(|a + b|) && Moebius(XorBits(a + b, c + d)) == XorBits(Moebius(a + b), Moebius(c + d))
  {
    var A, B, C, D := Moebius(a), Moebius(b), Moebius(c), Moebius(d);
    MoebiusConcat(a, b);
    MoebiusConcat(c, d);
    XorBitsConcat(a, b, c, d);
    MoebiusConcat(XorBits(a, c), XorBits(b, d));
    XorBitsConcat(A, XorBits(A, B), C, XorBits(C, D));
    XorBitsSwap(A, B, C, D);
  }

  lemma {:induction false} MoebiusInvolutive(s: seq<bool>)
    requires IsPow2(|s|)
    ensures Moebius(Moebius(s)) == s
    decreases |s|
  {
    if |s| > 1 {
      var h := |s| / 2;
      var lo, hi := Moebius(s[..h]), Moebius(s[h..]);
      MoebiusInvolutive(s[..h]);
      MoebiusInvolutive(s[h..]);
      MoebiusConcat(lo, XorBits(lo, hi));
      MoebiusLinear(lo, hi);
      assert XorBits(s[..h], XorBits(s[..h], s[h..])) == s[h..];
    }
  }

  // ----- Bytes

  /** The bits of a byte, the least significant first. */
  function BitsOf(b: bv8): (r: seq<bool>)
    ensures |r| == 8
  {
    seq(8, k requires 0 <= k < 8 => Bit(b, k))
  }

  predicate Bit(b: bv8, k: nat)
    requires k < 8
  {
    b & BitMask(k) != 0
  }

  function BitMask(k: nat): bv8
    requires k < 8
  {
    match k
    case 0 => 0x01
    case 1 => 0x02
    case 2 => 0x04
    case 3 => 0x08
    case 4 => 0x10
    case 5 => 0x20
    case 6 => 0x40
    case _ => 0x80
  }

  /** The bits of a buffer: bit u is bit u % 8 of byte u / 8. */
  function Bits(f: seq<bv8>): (r: seq<bool>)
    ensures |r| == 8 * |f|
  {
    if f == [] then [] else BitsOf(f[0]) + Bits(f[1..])
  }

  lemma {:induction false} BitsConcat(f: seq<bv8>, g: seq<bv8>)
    ensures Bits(f + g) == Bits(f) + Bits(g)
  {
    if f == [] {
      assert f + g == g;
    } else {
      BitsConcat(f[1..], g);
      assert (f + g)[1..] == f[1..] + g;
      assert BitsOf(f[0]) + (Bits(f[1..]) + Bits(g)) == BitsOf(f[0]) + Bits(f[1..]) + Bits(g);
    }
  }

  lemma {:induction false} BitAt(f: seq<bv8>, u: nat)
    requires u < 8 * |f|
    ensures Bits(f)[u] == BitsOf(f[u / 8])[u % 8]
  {
    if u >= 8 {
      BitAt(f[1..], u - 8);
      assert (u - 8) / 8 == u / 8 - 1 && (u - 8) % 8 == u % 8;
    }
  }

  lemma SameBits(a: bv8, b: bv8)
    requires BitsOf(a) == BitsOf(b)
    ensures a == b
  {
    assert forall k: nat :: k < 8 ==> BitsOf(a)[k] == Bit(a, k) && BitsOf(b)[k] == Bit(b, k);
    AllBits(a, b);
  }

  lemma AllBits(a: bv8, b: bv8)
    requires forall k: nat :: k < 8 ==> Bit(a, k) == Bit(b, k)
    ensures a == b
  {
    assert Bit(a, 0) == Bit(b, 0) && Bit(a, 1) == Bit(b, 1) && Bit(a, 2) == Bit(b, 2) && Bit(a, 3) == Bit(b, 3);
    assert Bit(a, 4) == Bit(b, 4) && Bit(a, 5) == Bit(b, 5) && Bit(a, 6) == Bit(b, 6) && Bit(a, 7) == Bit(b, 7);
  }

  lemma {:induction false} BitsInjective(f: seq<bv8>, g: seq<bv8>)
    requires Bits(f) == Bits(g)
    ensures f == g
  {
    assert |f| == |g|;
    if f != [] {
      assert BitsOf(f[0]) == Bits(f)[..8] == Bits(g)[..8] == BitsOf(g[0]);
      SameBits(f[0], g[0]);
      assert Bits(f[1..]) == Bits(f)[8..] == Bits(g)[8..] == Bits(g[1..]);
      BitsInjective(f[1..], g[1..]);
    }
  }

  function Xor8(x: bv8, y: bv8): bv8 { x ^ y }

  function Xor(a: seq<bv8>, b: seq<bv8>): (r: seq<bv8>)
    requires |a| == |b|
    ensures |r| == |a|
  {
    seq(|a|, i requires 0 <= i < |a| => Xor8(a[i], b[i]))
  }

  lemma {:induction false} BitsXor(a: seq<bv8>, b: seq<bv8>)
    requires |a| == |b|
    ensures Bits(Xor(a, b)) == XorBits(Bits(a), Bits(b))
  {
    if a != [] {
      BitsXor(a[1..], b[1..]);
      assert Xor(a, b)[1..] == Xor(a[1..], b[1..]);
      ByteXor(a[0], b[0]);
      hide Xor8;
      XorBitsConcat(BitsOf(a[0]), Bits(a[1..]), BitsOf(b[0]), Bits(b[1..]));
    }
  }

  lemma ByteXor(a: bv8, b: bv8)
    ensures BitsOf(Xor8(a, b)) == XorBits(BitsOf(a), BitsOf(b))
  {
    forall k: nat | k < 8
      ensures Bit(Xor8(a, b), k) == (Bit(a, k) != Bit(b, k))
    {
      BitXor(a, b, k);
    }
    hide Xor8, Bit;
  }

  lemma BitXor(a: bv8, b: bv8, k: nat)
    requires k < 8
    ensures Bit(Xor8(a, b), k) == (Bit(a, k) != Bit(b, k))
  {
    assert BitMask(k) & (BitMask(k) - 1) == 0;
    MaskXor(a, b, BitMask(k));
  }

  lemma MaskXor(a: bv8, b: bv8, m: bv8)
    requires m & (m - 1) == 0
    ensures ((a ^ b) & m != 0) == ((a & m != 0) != (b & m != 0))
  {
  }

  /** The transform within one byte. */
  function InByte(b: bv8): bv8 {
    var b1 := b ^ ((b << 1) & 0xaa);
    var b2 := b1 ^ ((b1 << 2) & 0xcc);
    b2 ^ ((b2 << 4) & 0xf0)
  }

  /** The transform of a buffer, halving down to bytes. */
  function Transform(f: seq<bv8>): (r: seq<bv8>)
    requires IsPow2(|f|)
    ensures |r| == |f|
  {
    if |f| == 1 then [InByte(f[0])]
    else
      var h := |f| / 2;
      var lo := Transform(f[..h]);
      lo + Xor(lo, Transform(f[h..]))
  }

  lemma TransformConcat(a: seq<bv8>, b: seq<bv8>)
    requires |a| == |b| && IsPow2(|a|)
    ensures IsPow2(|a + b|) && Transform(a + b) == Transform(a) + Xor(Transform(a), Transform(b))
  {
    assert (a + b)[..|a|] == a && (a + b)[|a|..] == b;
  }

  lemma Moebius2(a: bool, b: bool)
    ensures Moebius([a, b]) == [a, a != b]
  {
    MoebiusConcat([a], [b]);
    assert [a, b] == [a] + [b];
  }

  lemma Moebius4(a: bool, b: bool, c: bool, d: bool)
    ensures IsPow2(4) && Moebius([a, b, c, d]) == [a, a != b, a != c, (a != b) != (c != d)]
  {
    Moebius2(a, b);
    Moebius2(c, d);
    MoebiusConcat([a, b], [c, d]);
    assert [a, b, c, d] == [a, b] + [c, d];
  }

  /** The three shift-and-mask steps, bit by bit. */
  lemma InByteBits(b: bv8)
    ensures var c := InByte(b);
      && Bit(c, 0) == Bit(b, 0)
      && Bit(c, 1) == (Bit(b, 0) != Bit(b, 1))
      && Bit(c, 2) == (Bit(b, 0) != Bit(b, 2))
      && Bit(c, 3) == ((Bit(b, 0) != Bit(b, 1)) != (Bit(b, 2) != Bit(b, 3)))
      && Bit(c, 4) == (Bit(b, 0) != Bit(b, 4))
      && Bit(c, 5) == ((Bit(b, 0) != Bit(b, 1)) != (Bit(b, 4) != Bit(b, 5)))
      && Bit(c, 6) == ((Bit(b, 0) != Bit(b, 2)) != (Bit(b, 4) != Bit(b, 6)))
      && Bit(c, 7) == (((Bit(b, 0) != Bit(b, 1)) != (Bit(b, 2) != Bit(b, 3)))
                       != ((Bit(b, 4) != Bit(b, 5)) != (Bit(b, 6) != Bit(b, 7))))
  {
  }

  lemma XorBits4(a: bool, b: bool, c: bool, d: bool, e: bool, f: bool, g: bool, h: bool)
    ensures XorBits([a, b, c, d], [e, f, g, h]) == [a != e, b != f, c != g, d != h]
  {
  }

  lemma Moebius8(a: bool, b: bool, c: bool, d: bool, e: bool, f: bool, g: bool, h: bool)
    ensures IsPow2(8)
    ensures Moebius([a, b, c, d] + [e, f, g, h]) ==
      [a, a != b, a != c, (a != b) != (c != d)] +
      [a != e, (a != b) != (e != f), (a != c) != (e != g), ((a != b) != (c != d)) != ((e != f) != (g != h))]
  {
    Moebius4(a, b, c, d);
    Moebius4(e, f, g, h);
    MoebiusConcat([a, b, c, d], [e, f, g, h]);
    XorBits4(a, a != b, a != c, (a != b) != (c != d), e, e != f, e != g, (e != f) != (g != h));
  }

  lemma InByteMoebius(b: bv8)
    ensures IsPow2(8) && Moebius(BitsOf(b)) == BitsOf(InByte(b))
  {
    Moebius8(Bit(b, 0), Bit(b, 1), Bit(b, 2), Bit(b, 3), Bit(b, 4), Bit(b, 5), Bit(b, 6), Bit(b, 7));
    InByteBits(b);
    SplitBits(b);
    SplitBits(InByte(b));
  }

  lemma SplitBits(b: bv8)
    ensures BitsOf(b) == [Bit(b, 0), Bit(b, 1), Bit(b, 2), Bit(b, 3)] + [Bit(b, 4), Bit(b, 5), Bit(b, 6), Bit(b, 7)]
  {
  }

  lemma Pow2Bits(n: nat)
    requires IsPow2(n)
    ensures IsPow2(8 * n)
  {
    Pow2Double(n);
    Pow2Double(2 * n);
    Pow2Double(4 * n);
    hide IsPow2;
  }

  lemma OneByte(b: bv8)
    ensures Bits([b]) == BitsOf(b)
  {
    assert [b][1..] == [];
  }

  /** On bits the transform is the halving on bits. */
  lemma {:induction false} TransformMoebius(f: seq<bv8>)
    requires IsPow2(|f|)
    ensures IsPow2(8 * |f|) && Bits(Transform(f)) == Moebius(Bits(f))
    decreases |f|
  {
    hide Transform, Moebius, Bits, Xor, XorBits, IsPow2;
    Pow2Bits(|f|);
    if |f| == 1 {
      TransformOne(f);
    } else {
      Halves(f);
      var h := |f| / 2;
      TransformMoebius(f[..h]);
      TransformMoebius(f[h..]);
      TransformMoebiusStep(f[..h], f[h..]);
    }
  }

  lemma TransformOne(f: seq<bv8>)
    requires |f| == 1 && IsPow2(8)
    ensures IsPow2(|f|) && Bits(Transform(f)) == Moebius(Bits(f))
  {
    InByteMoebius(f[0]);
    OneByte(f[0]);
    OneByte(InByte(f[0]));
    assert f == [f[0]];
    hide Moebius, Bits, BitsOf, InByte;
  }

  lemma TransformMoebiusStep(a: seq<bv8>, b: seq<bv8>)
    requires |a| == |b| && IsPow2(|a|) && IsPow2(8 * |a|)
    requires Bits(Transform(a)) == Moebius(Bits(a)) && Bits(Transform(b)) == Moebius(Bits(b))
    ensures IsPow2(|a + b|) && IsPow2(8 * |a + b|) && Bits(Transform(a + b)) == Moebius(Bits(a + b))
  {
    hide Transform, Moebius, Bits, Xor, XorBits, IsPow2;
    TransformConcat(a, b);
    BitsConcat(a, b);
    MoebiusConcat(Bits(a), Bits(b));
    BitsXor(Transform(a), Transform(b));
    BitsConcat(Transform(a), Xor(Transform(a), Transform(b)));
  }

  // ----- What a user of the transform gets

  /** Coefficient u is the sum of the truth-table entries at the subsets of u. */
  lemma Coefficients(f: seq<bv8>, u: nat)
    requires IsPow2(|f|) && u < 8 * |f|
    ensures Bits(Transform(f))[u] == SubsetSum(Bits(f), 8 * |f|, u)
  {
    TransformMoebius(f);
    MoebiusIsSubsetSum(Bits(f), u);
  }

  lemma Involutive(f: seq<bv8>)
    requires IsPow2(|f|)
    ensures Transform(Transform(f)) == f
  {
    TransformMoebius(f);
    TransformMoebius(Transform(f));
    MoebiusInvolutive(Bits(f));
    BitsInjective(Transform(Transform(f)), f);
  }

  lemma Linear(f: seq<bv8>, g: seq<bv8>)
    requires |f| == |g| && IsPow2(|f|)
    ensures Transform(Xor(f, g)) == Xor(Transform(f), Transform(g))
  {
    TransformMoebius(f);
    TransformMoebius(g);
    TransformMoebius(Xor(f, g));
    BitsXor(f, g);
    BitsXor(Transform(f), Transform(g));
    MoebiusLinear(Bits(f), Bits(g));
    BitsInjective(Transform(Xor(f, g)), Xor(Transform(f), Transform(g)));
  }

  /** The product of the variables named by the binary digits of v, where variable i is digit i of u. */
  predicate Monomial(v: nat, u: nat) {
    v == 0 || ((v % 2 == 1 ==> u % 2 == 1) && Monomial(v / 2, u / 2))
  }

  /** The value at point u of the first n terms of the polynomial with the given coefficients. */
  function Evaluate(coefficients: seq<bool>, n: nat, u: nat): bool
    requires n <= |coefficients|
  {
    n > 0 && Evaluate(coefficients, n - 1, u) != (coefficients[n - 1] && Monomial(n - 1, u))
  }

  lemma {:induction false} MonomialAt(v: nat, u: nat)
    ensures Monomial(v, u) == Subset(v, u)
  {
    if v > 0 {
      MonomialAt(v / 2, u / 2);
    }
  }

  lemma {:induction false} EvaluateAt(coefficients: seq<bool>, n: nat, u: nat)
    requires n <= |coefficients|
    ensures Evaluate(coefficients, n, u) == SubsetSum(coefficients, n, u)
  {
    if n > 0 {
      EvaluateAt(coefficients, n - 1, u);
      MonomialAt(n - 1, u);
    }
  }

  /** The output, read as a polynomial, has the input as its truth table. */
  lemma PolynomialHasTruthTable(f: seq<bv8>, u: nat)
    requires IsPow2(|f|) && u < 8 * |f|
    ensures Evaluate(Bits(Transform(f)), 8 * |f|, u) == Bits(f)[u]
  {
    EvaluateAt(Bits(Transform(f)), 8 * |f|, u);
    Coefficients(Transform(f), u);
    Involutive(f);
  }
}
