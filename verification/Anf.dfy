/** The in-place transform, eight bytes at a time: it leaves the buffer holding its Transform. */
module Anf {
  import opened AnfSpec
  import opened AnfWord

  // ----- A buffer as blocks

  /** n bytes are a whole number of blocks of h. */
  predicate Whole(n: nat, h: nat)
    requires h > 0
  {
    n == 0 || (n >= h && Whole(n - h, h))
  }

  /** Every block of length h transformed on its own. */
  function ByBlocks(s: seq<bv8>, h: nat): (r: seq<bv8>)
    requires IsPow2(h) && Whole(|s|, h)
    ensures |r| == |s|
    decreases |s|
  {
    if s == [] then [] else Transform(s[..h]) + ByBlocks(s[h..], h)
  }

  lemma WholeOne(h: nat)
    requires h > 0
    ensures Whole(0, h) && Whole(h, h)
  {
  }

  lemma {:induction false} WholeSum(a: nat, b: nat, h: nat)
    requires h > 0 && Whole(a, h) && Whole(b, h)
    ensures Whole(a + b, h)
    decreases a
  {
    if a > 0 {
      WholeSum(a - h, b, h);
    }
  }

  /** Powers of two are at least a factor of two apart. */
  lemma {:induction false} Pow2Gap(h: nat, n: nat)
    requires IsPow2(h) && IsPow2(n) && h < n
    ensures 2 * h <= n
  {
    if h > 1 {
      Pow2Gap(h / 2, n / 2);
    }
  }

  lemma {:induction false} Pow2Whole(h: nat, n: nat)
    requires IsPow2(h) && IsPow2(n) && h <= n
    ensures Whole(n, h)
    decreases n
  {
    if h < n {
      Pow2Gap(h, n);
      Pow2Whole(h, n / 2);
      WholeSum(n / 2, n / 2, h);
    } else {
      assert Whole(0, h);
    }
  }

  lemma {:induction false} BlocksConcat(a: seq<bv8>, b: seq<bv8>, h: nat)
    requires IsPow2(h) && Whole(|a|, h) && Whole(|b|, h)
    ensures Whole(|a + b|, h) && ByBlocks(a + b, h) == ByBlocks(a, h) + ByBlocks(b, h)
    decreases |a|
  {
    hide ByBlocks, Transform, IsPow2;
    WholeSum(|a|, |b|, h);
    if a == [] {
      NoBlocks(h);
      assert a + b == b;
    } else {
      BlocksConcat(a[h..], b, h);
      BlocksCons(a, b, h);
      BlocksCons(a, [], h);
      assert a + [] == a && a[h..] + [] == a[h..];
    }
  }

  lemma NoBlocks(h: nat)
    requires IsPow2(h)
    ensures ByBlocks([], h) == []
  {
  }

  lemma BlocksCons(a: seq<bv8>, b: seq<bv8>, h: nat)
    requires IsPow2(h) && a != [] && Whole(|a|, h) && Whole(|a + b|, h)
    ensures ByBlocks(a + b, h) == Transform(a[..h]) + ByBlocks(a[h..] + b, h)
  {
    assert (a + b)[..h] == a[..h] && (a + b)[h..] == a[h..] + b;
  }

  lemma OneBlock(s: seq<bv8>, h: nat)
    requires IsPow2(h) && |s| == h
    ensures Whole(h, h) && ByBlocks(s, h) == Transform(s)
  {
    WholeOne(h);
    assert s[..h] == s && s[h..] == [];
  }

  /** One more block. */
  lemma BlockAfter(a: seq<bv8>, b: seq<bv8>, h: nat)
    requires IsPow2(h) && |b| == h && Whole(|a|, h)
    ensures Whole(|a + b|, h) && ByBlocks(a + b, h) == ByBlocks(a, h) + Transform(b)
  {
    OneBlock(b, h);
    BlocksConcat(a, b, h);
  }

  /** One more block of a buffer that is being worked through. */
  lemma NextBlock(s: seq<bv8>, i: nat, h: nat)
    requires IsPow2(h) && i < |s| && Whole(i, h) && Whole(|s| - i, h)
    ensures i + h <= |s| && Whole(i + h, h) && Whole(|s| - (i + h), h)
    ensures ByBlocks(s[..i + h], h) == ByBlocks(s[..i], h) + Transform(s[i..i + h])
  {
    WholeOne(h);
    WholeSum(i, h, h);
    hide ByBlocks, Transform, IsPow2;
    BlockAfter(s[..i], s[i..i + h], h);
    assert s[..i] + s[i..i + h] == s[..i + h];
  }

  /** One block fewer. */
  lemma BlockBefore(a: seq<bv8>, b: seq<bv8>, h: nat)
    requires IsPow2(h) && |a| == h && Whole(|b|, h)
    ensures Whole(|a + b|, h) && ByBlocks(a + b, h) == Transform(a) + ByBlocks(b, h)
  {
    OneBlock(a, h);
    BlocksConcat(a, b, h);
  }

  // ----- A pass of the outer loop over blocks of 2 * i

  /** The buffer when the blocks of h = 2 * i before j have been finished from blocks of i. */
  function Midway(s0: seq<bv8>, j: nat, i: nat, h: nat): (r: seq<bv8>)
    requires IsPow2(i) && IsPow2(h) && j <= |s0| && Whole(j, h) && Whole(|s0| - j, i)
    ensures |r| == |s0|
  {
    ByBlocks(s0[..j], h) + ByBlocks(s0[j..], i)
  }

  /** Byte p once the first k bytes of the block of i at j have been added to the block after it. */
  function AddedByte(s: seq<bv8>, j: nat, i: nat, k: nat, p: nat): bv8
    requires p < |s|
  {
    if j + i <= p < j + i + k then Xor8(s[p - i], s[p]) else s[p]
  }

  /** The buffer after the lower half of the block of 2 * i at j has been added to the upper half. */
  function Added(s: seq<bv8>, j: nat, i: nat): (r: seq<bv8>)
    requires j + 2 * i <= |s|
    ensures |r| == |s|
  {
    seq(|s|, p requires 0 <= p < |s| => AddedByte(s, j, i, i, p))
  }

  lemma HalvesWhole(n: nat, i: nat, h: nat)
    requires i > 0 && h == 2 * i && Whole(n, h)
    ensures Whole(n, i)
    decreases n
  {
    if n > 0 {
      HalvesWhole(n - h, i, h);
      assert Whole(n - i, i);
    }
  }

  lemma WholeParts(n: nat, j: nat, i: nat, h: nat)
    requires i > 0 && h == 2 * i && j < n && Whole(j, h) && Whole(n - j, h)
    ensures j + h <= n && Whole(j + h, h) && Whole(n - (j + h), h) && Whole(n - (j + h), i)
  {
    WholeOne(h);
    WholeSum(j, h, h);
    HalvesWhole(n - j - h, i, h);
  }

  lemma PassStep(s0: seq<bv8>, j: nat, i: nat, h: nat)
    requires IsPow2(i) && IsPow2(h) && h == 2 * i
    requires j < |s0| && Whole(j, h) && Whole(|s0| - j, h) && Whole(|s0| - j, i)
    ensures && j + h <= |s0| && Whole(j + h, h) && Whole(|s0| - (j + h), h) && Whole(|s0| - (j + h), i)
            && Added(Midway(s0, j, i, h), j, i) == Midway(s0, j + h, i, h)
  {
    hide Whole, IsPow2, ByBlocks, Transform, Xor, Added, Midway;
    var n := j + h;
    WholeParts(|s0|, j, i, h);
    var a, b, c, d := s0[..j], s0[j..j + i], s0[j + i..n], s0[n..];
    Finish(a, b, c, d, i, h);
    MidwayAt(s0, j, i, h, a, b + (c + d));
    MidwayAt(s0, n, i, h, a + (b + c), d);
  }

  lemma MidwayAt(s0: seq<bv8>, j: nat, i: nat, h: nat, done: seq<bv8>, rest: seq<bv8>)
    requires IsPow2(i) && IsPow2(h) && j <= |s0| && Whole(j, h) && Whole(|s0| - j, i)
    requires |done| == j && s0 == done + rest
    ensures Midway(s0, j, i, h) == ByBlocks(done, h) + ByBlocks(rest, i)
  {
    assert s0[..j] == done && s0[j..] == rest;
  }

  /** The block b + c of blocks b and c, in a buffer finished before it. */
  lemma Finish(a: seq<bv8>, b: seq<bv8>, c: seq<bv8>, d: seq<bv8>, i: nat, h: nat)
    requires |b| == |c| == i && h == 2 * i && IsPow2(i) && IsPow2(h) && Whole(|a|, h) && Whole(|d|, i)
    ensures Whole(|b + (c + d)|, i) && Whole(|a + (b + c)|, h)
    ensures Added(ByBlocks(a, h) + ByBlocks(b + (c + d), i), |a|, i) == ByBlocks(a + (b + c), h) + ByBlocks(d, i)
  {
    TransformConcat(b, c);
    hide Whole, IsPow2, ByBlocks, Transform, Xor, Added;
    BlockBefore(c, d, i);
    BlockBefore(b, c + d, i);
    BlockAfter(a, b + c, h);
    AddedParts(ByBlocks(a, h), Transform(b), Transform(c), ByBlocks(d, i), i);
  }

  lemma AddedParts(a: seq<bv8>, b: seq<bv8>, c: seq<bv8>, d: seq<bv8>, i: nat)
    requires |b| == |c| == i
    ensures Added(a + (b + (c + d)), |a|, i) == (a + (b + Xor(b, c))) + d
  {
    hide Xor8;
    var s := a + (b + (c + d));
    var r := Added(s, |a|, i);
    assert r[..|a| + i] == a + b;
    assert r[|a| + i..|a| + 2 * i] == Xor(b, c);
    assert r[|a| + 2 * i..] == d;
  }

  // ----- The scalar implementation

  method StoreWord(f: array<bv8>, i: nat, x: bv64)
    requires i + 8 <= f.Length
    modifies f
    ensures forall p :: 0 <= p < f.Length ==> f[p] == if i <= p < i + 8 then Store(x)[p - i] else old(f[p])
  {
    var s := Store(x);
    hide Store;
    for k := 0 to 8
      invariant forall p :: 0 <= p < f.Length ==> f[p] == if i <= p < i + k then s[p - i] else old(f[p])
    {
      f[i + k] := s[k];
    }
  }

  /** The body of the first loop. */
  method TransformWord(f: array<bv8>, i: nat)
    requires IsPow2(8) && i + 8 <= f.Length
    modifies f
    ensures f[..] == old(f[..i]) + Transform(old(f[i..i + 8])) + old(f[i + 8..])
  {
    ghost var s := f[..];
    hide Load, Store, Transform, Shift1, Shift2, Shift4, Shift8, Shift16, Shift32;
    ghost var w := f[i..i + 8];
    var x := Load(f[i..i + 8]);
    x := Shift1(x);
    x := Shift2(x);
    x := Shift4(x);
    x := Shift8(x);
    x := Shift16(x);
    x := Shift32(x);
    assert x == InWord(Load(w));
    InWordTransforms(Load(w));
    StoreLoad(w);
    StoreWord(f, i, x);
    Patched(s, f[..], i, Transform(w));
  }

  lemma Patched(s: seq<bv8>, r: seq<bv8>, i: nat, w: seq<bv8>)
    requires |r| == |s| && i + |w| <= |s|
    requires forall p :: 0 <= p < |s| ==> r[p] == if i <= p < i + |w| then w[p - i] else s[p]
    ensures r[..i] == s[..i] && r[i..i + |w|] == w && r[i + |w|..] == s[i + |w|..]
    ensures r == s[..i] + w + s[i + |w|..]
  {
  }

  /** A buffer worked through up to i: what its parts hold. */
  lemma InProgress(s0: seq<bv8>, s: seq<bv8>, done: seq<bv8>, i: nat, h: nat)
    requires i + h <= |s0| && |done| == i && s == done + s0[i..]
    ensures s[..i] == done && s[i..i + h] == s0[i..i + h] && s[i + h..] == s0[i + h..]
  {
    assert s[i..] == s0[i..];
  }

  /** The first loop: every word transformed by itself. */
  method Words(f: array<bv8>)
    requires IsPow2(8) && Whole(f.Length, 8)
    modifies f
    ensures f[..] == ByBlocks(old(f[..]), 8)
  {
    ghost var s0 := f[..];
    var i := 0;
    WholeOne(8);
    hide Whole, Transform, IsPow2;
    while i < f.Length
      invariant i <= f.Length && Whole(i, 8) && Whole(f.Length - i, 8)
      invariant f[..] == ByBlocks(s0[..i], 8) + s0[i..]
    {
      hide ByBlocks;
      NextBlock(s0, i, 8);
      InProgress(s0, f[..], ByBlocks(s0[..i], 8), i, 8);
      TransformWord(f, i);
      i := i + 8;
    }
    assert s0[..i] == s0 && s0[i..] == [];
  }

  /** The body of the innermost loop: the word at p added to the word at q. */
  method AddWord(f: array<bv8>, p: nat, q: nat)
    requires p + 8 <= f.Length && q + 8 <= f.Length
    modifies f
    ensures f[..q] == old(f[..q]) && f[q + 8..] == old(f[q + 8..])
    ensures f[q..q + 8] == Xor(old(f[p..p + 8]), old(f[q..q + 8]))
  {
    ghost var s, a, b := f[..], f[p..p + 8], f[q..q + 8];
    hide Load, Store, Xor64, Xor;
    var x := Load(f[p..p + 8]);
    var y := Load(f[q..q + 8]);
    StoreLoad(a);
    StoreLoad(b);
    StoreXor(x, y);
    x := Xor64(x, y);
    StoreWord(f, q, x);
    Patched(s, f[..], q, Xor(a, b));
  }

  /** The innermost loop: the lower half of a block added to the upper half, a word at a time. */
  method AddHalf(f: array<bv8>, j: nat, i: nat)
    requires j + 2 * i <= f.Length && Whole(i, 8)
    modifies f
    ensures f[..] == Added(old(f[..]), j, i)
  {
    hide Xor8;
    ghost var s := f[..];
    var k := 0;
    while k < i
      invariant k <= i && Whole(i - k, 8)
      invariant forall p :: 0 <= p < f.Length ==> f[p] == AddedByte(s, j, i, k, p)
    {
      ghost var r := f[..];
      AddWord(f, j + k, i + j + k);
      PieceAdded(s, r, f[..], j, i, k, 8);
      k := k + 8;
    }
  }

  /** Adding the next w bytes of the lower half. */
  lemma PieceAdded(s: seq<bv8>, r: seq<bv8>, r': seq<bv8>, j: nat, i: nat, k: nat, w: nat)
    requires |s| == |r| == |r'| && j + 2 * i <= |s| && k + w <= i
    requires forall p :: 0 <= p < |s| ==> r[p] == AddedByte(s, j, i, k, p)
    requires var q := i + j + k;
             r'[..q] == r[..q] && r'[q..q + w] == Xor(r[j + k..j + k + w], r[q..q + w]) && r'[q + w..] == r[q + w..]
    ensures forall p :: 0 <= p < |s| ==> r'[p] == AddedByte(s, j, i, k + w, p)
  {
    hide Xor, Xor8;
    var q := i + j + k;
    forall p | 0 <= p < |s|
      ensures r'[p] == AddedByte(s, j, i, k + w, p)
    {
      if p < q {
        assert r'[p] == r'[..q][p] == r[..q][p];
      } else if p < q + w {
        assert r'[p] == r'[q..q + w][p - q];
        XorAt(r[j + k..j + k + w], r[q..q + w], p - q);
        assert r[j + k..j + k + w][p - q] == r[p - i] == AddedByte(s, j, i, k, p - i) == s[p - i];
        assert r[q..q + w][p - q] == r[p] == AddedByte(s, j, i, k, p) == s[p];
      } else {
        assert r'[p] == r'[q + w..][p - (q + w)] == r[q + w..][p - (q + w)];
      }
    }
  }

  lemma XorAt(a: seq<bv8>, b: seq<bv8>, p: nat)
    requires p < |a| == |b|
    ensures Xor(a, b)[p] == Xor8(a[p], b[p])
  {
    hide Xor8;
  }

  method Anf(f: array<bv8>)
    requires f.Length >= 8 && IsPow2(f.Length)
    modifies f
    ensures f[..] == Transform(old(f[..]))
  {
    ghost var s0 := f[..];
    Pow2Sizes();
    hide IsPow2, Whole, ByBlocks, Transform;
    Pow2Whole(8, f.Length);
    Words(f);
    var i := 8;
    WholeOne(8);
    while i < f.Length
      invariant 8 <= i <= f.Length && IsPow2(i) && Whole(f.Length, i) && Whole(i, 8)
      invariant f[..] == ByBlocks(s0, i)
      decreases f.Length - i
    {
      Pow2Gap(i, f.Length);
      Pow2Double(i);
      Pow2Whole(2 * i, f.Length);
      WholeSum(i, i, 8);
      Pass(f, s0, i, 2 * i);
      i := i * 2;
    }
    OneBlock(s0, i);
  }

  /** The middle loop: blocks of h = 2 * i from blocks of i. */
  method Pass(f: array<bv8>, ghost s0: seq<bv8>, i: nat, h: nat)
    requires IsPow2(i) && IsPow2(h) && h == 2 * i && Whole(i, 8)
    requires |s0| == f.Length && Whole(f.Length, i) && Whole(f.Length, h)
    requires f[..] == ByBlocks(s0, i)
    modifies f
    ensures f[..] == ByBlocks(s0, h)
  {
    hide IsPow2, ByBlocks, Added, Midway;
    var j := 0;
    StartAndEnd(s0, i, h);
    hide Whole;
    while j < f.Length
      invariant j <= f.Length && Whole(j, h) && Whole(f.Length - j, h) && Whole(f.Length - j, i)
      invariant f[..] == Midway(s0, j, i, h)
    {
      PassStep(s0, j, i, h);
      AddHalf(f, j, i);
      j := j + h;
    }
  }

  lemma StartAndEnd(s0: seq<bv8>, i: nat, h: nat)
    requires IsPow2(i) && IsPow2(h) && Whole(|s0|, i) && Whole(|s0|, h)
    ensures Whole(0, i) && Whole(0, h)
    ensures Midway(s0, 0, i, h) == ByBlocks(s0, i) && Midway(s0, |s0|, i, h) == ByBlocks(s0, h)
  {
    assert s0[..0] == [] && s0[0..] == s0;
    assert s0[..|s0|] == s0 && s0[|s0|..] == [];
  }
}
