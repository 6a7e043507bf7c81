/** The transform with 256-bit vector registers: a register is four words, the shifts work on lanes
    of 16, 32, 64 and 128 bits, and the loops take thirty-two bytes at a time. */
module AnfAvx2 {
  import opened AnfSpec
  import opened AnfWord
  import opened Anf

  /** A register, its least significant word first. */
  datatype Ymm = Ymm(q0: bv64, q1: bv64, q2: bv64, q3: bv64)

  // ----- The intrinsics

  function XorSi256(x: Ymm, y: Ymm): Ymm {
    Ymm(Xor64(x.q0, y.q0), Xor64(x.q1, y.q1), Xor64(x.q2, y.q2), Xor64(x.q3, y.q3))
  }

  function AndSi256(x: Ymm, y: Ymm): Ymm {
    Ymm(And64(x.q0, y.q0), And64(x.q1, y.q1), And64(x.q2, y.q2), And64(x.q3, y.q3))
  }

  function And64(x: bv64, y: bv64): bv64 { x & y }

  function Set1Epi32(c: bv32): Ymm {
    Ymm(Twice(c), Twice(c), Twice(c), Twice(c))
  }

  function Twice(c: bv32): bv64 { (c as bv64) | ((c as bv64) << 32) }

  /** Four lanes of 16 bits, each shifted by itself. */
  function Slli16(q: bv64, n: bv8): bv64
    requires n < 16
  {
    (((q & 0xffff) as bv16 << n) as bv64) |
    ((((q >> 16) & 0xffff) as bv16 << n) as bv64 << 16) |
    ((((q >> 32) & 0xffff) as bv16 << n) as bv64 << 32) |
    ((((q >> 48) & 0xffff) as bv16 << n) as bv64 << 48)
  }

  /** Two lanes of 32 bits. */
  function Slli32(q: bv64, n: bv8): bv64
    requires n < 32
  {
    LowLane(q, n) | HighLane(q, n)
  }

  function LowLane(q: bv64, n: bv8): bv64
    requires n < 32
  {
    ((q & 0xffffffff) as bv32 << n) as bv64
  }

  function HighLane(q: bv64, n: bv8): bv64
    requires n < 32
  {
    ((q >> 32) as bv32 << n) as bv64 << 32
  }

  function SlliEpi16(x: Ymm, n: bv8): Ymm
    requires n < 16
  {
    Ymm(Slli16(x.q0, n), Slli16(x.q1, n), Slli16(x.q2, n), Slli16(x.q3, n))
  }

  function SlliEpi32(x: Ymm, n: bv8): Ymm
    requires n < 32
  {
    Ymm(Slli32(x.q0, n), Slli32(x.q1, n), Slli32(x.q2, n), Slli32(x.q3, n))
  }

  function SlliEpi64(x: Ymm, n: bv8): Ymm
    requires n < 64
  {
    Ymm(Slli64(x.q0, n), Slli64(x.q1, n), Slli64(x.q2, n), Slli64(x.q3, n))
  }

  function Slli64(q: bv64, n: bv8): bv64
    requires n < 64
  {
    q << n
  }

  /** Both lanes of 128 bits shifted by eight bytes. */
  function SlliSi256By8(x: Ymm): Ymm {
    Ymm(0, x.q0, 0, x.q2)
  }

  /** Each half of the result is a half of a or b, or zero. */
  function Permute2x128(a: Ymm, b: Ymm, control: bv8): Ymm {
    var (l0, l1) := PickHalf(a, b, control & 0x0f);
    var (h0, h1) := PickHalf(a, b, control >> 4);
    Ymm(l0, l1, h0, h1)
  }

  function PickHalf(a: Ymm, b: Ymm, control: bv8): (bv64, bv64) {
    if control & 8 != 0 then (0, 0)
    else if control & 3 == 0 then (a.q0, a.q1)
    else if control & 3 == 1 then (a.q2, a.q3)
    else if control & 3 == 2 then (b.q0, b.q1)
    else (b.q2, b.q3)
  }

  // ----- The eight steps within a register

  function Step1(x: Ymm): Ymm { XorSi256(x, AndSi256(SlliEpi16(x, 1), Set1Epi32(0xaaaaaaaa))) }
  function Step2(x: Ymm): Ymm { XorSi256(x, AndSi256(SlliEpi16(x, 2), Set1Epi32(0xcccccccc))) }
  function Step4(x: Ymm): Ymm { XorSi256(x, AndSi256(SlliEpi16(x, 4), Set1Epi32(0xf0f0f0f0))) }
  function Step8(x: Ymm): Ymm { XorSi256(x, SlliEpi16(x, 8)) }
  function Step16(x: Ymm): Ymm { XorSi256(x, SlliEpi32(x, 16)) }
  function Step32(x: Ymm): Ymm { XorSi256(x, SlliEpi64(x, 32)) }
  function Step64(x: Ymm): Ymm { XorSi256(x, SlliSi256By8(x)) }
  function Step128(x: Ymm): Ymm { XorSi256(x, Permute2x128(x, x, 0x08)) }

  function InRegister(x: Ymm): Ymm {
    Step128(Step64(Step32(Step16(Step8(Step4(Step2(Step1(x))))))))
  }

  // Within a word the lanes do what the scalar steps do: what a shift by lanes would drop, the
  // scalar step masks.

  lemma Lane1(q: bv64)
    ensures Xor64(q, And64(Slli16(q, 1), Twice(0xaaaaaaaa))) == Shift1(q)
  {
  }

  lemma Lane2(q: bv64)
    ensures Xor64(q, And64(Slli16(q, 2), Twice(0xcccccccc))) == Shift2(q)
  {
  }

  lemma Lane4(q: bv64)
    ensures Xor64(q, And64(Slli16(q, 4), Twice(0xf0f0f0f0))) == Shift4(q)
  {
  }

  lemma Lane8(q: bv64)
    ensures Xor64(q, Slli16(q, 8)) == Shift8(q)
  {
  }

  lemma LowLane16(q: bv64)
    ensures LowLane(q, 16) == (q << 16) & 0x00000000ffff0000
  {
  }

  lemma HighLane16(q: bv64)
    ensures HighLane(q, 16) == (q << 16) & 0xffff000000000000
  {
  }

  lemma JoinMasks(q: bv64)
    ensures (q & 0x00000000ffff0000) | (q & 0xffff000000000000) == q & 0xffff0000ffff0000
  {
  }

  lemma Slli32By16(q: bv64)
    ensures Slli32(q, 16) == (q << 16) & 0xffff0000ffff0000
  {
    LowLane16(q);
    HighLane16(q);
    JoinMasks(q << 16);
    hide LowLane, HighLane;
  }

  lemma Lane16(q: bv64)
    ensures Xor64(q, Slli32(q, 16)) == Shift16(q)
  {
    Slli32By16(q);
    hide Slli32;
  }

  lemma Lane32(q: bv64)
    ensures Xor64(q, Slli64(q, 32)) == Shift32(q)
  {
    Slli64By32(q);
    hide Slli64;
  }

  lemma Slli64By32(q: bv64)
    ensures Slli64(q, 32) == q << 32
  {
  }

  // ----- What the steps do to the bytes of a register

  function StoreYmm(x: Ymm): (s: seq<bv8>)
    ensures |s| == 32
  {
    (Store(x.q0) + Store(x.q1)) + (Store(x.q2) + Store(x.q3))
  }

  function LoadYmm(s: seq<bv8>): Ymm
    requires |s| == 32
  {
    Ymm(Load(s[..8]), Load(s[8..16]), Load(s[16..24]), Load(s[24..]))
  }

  lemma StoreLoadYmm(s: seq<bv8>)
    requires |s| == 32
    ensures StoreYmm(LoadYmm(s)) == s
  {
    hide Store, Load;
    StoreLoad(s[..8]);
    StoreLoad(s[8..16]);
    StoreLoad(s[16..24]);
    StoreLoad(s[24..]);
    assert s == (s[..8] + s[8..16]) + (s[16..24] + s[24..]);
  }

  lemma StoreXorYmm(x: Ymm, y: Ymm)
    ensures StoreYmm(XorSi256(x, y)) == Xor(StoreYmm(x), StoreYmm(y))
  {
    StoreXor(x.q0, y.q0);
    StoreXor(x.q1, y.q1);
    StoreXor(x.q2, y.q2);
    StoreXor(x.q3, y.q3);
    hide Store, Xor64, Xor;
    XorConcat(Store(x.q0), Store(x.q1), Store(y.q0), Store(y.q1));
    XorConcat(Store(x.q2), Store(x.q3), Store(y.q2), Store(y.q3));
    XorConcat(Store(x.q0) + Store(x.q1), Store(x.q2) + Store(x.q3),
              Store(y.q0) + Store(y.q1), Store(y.q2) + Store(y.q3));
  }

  /** The first six steps transform each word. */
  lemma SixSteps(x: Ymm)
    ensures Step32(Step16(Step8(Step4(Step2(Step1(x))))))
            == Ymm(InWord(x.q0), InWord(x.q1), InWord(x.q2), InWord(x.q3))
  {
    var x1 := StepPerWord1(x);
    var x2 := StepPerWord2(x1);
    var x4 := StepPerWord4(x2);
    var x8 := StepPerWord8(x4);
    var x16 := StepPerWord16(x8);
    var x32 := StepPerWord32(x16);
    hide Step1, Step2, Step4, Step8, Step16, Step32, Shift1, Shift2, Shift4, Shift8, Shift16, Shift32;
  }

  lemma StepPerWord1(x: Ymm) returns (r: Ymm)
    ensures r == Step1(x) == Ymm(Shift1(x.q0), Shift1(x.q1), Shift1(x.q2), Shift1(x.q3))
  {
    r := Step1(x);
    Lane1(x.q0);
    Lane1(x.q1);
    Lane1(x.q2);
    Lane1(x.q3);
    hide Slli16, Twice, And64, Xor64, Shift1;
  }

  lemma StepPerWord2(x: Ymm) returns (r: Ymm)
    ensures r == Step2(x) == Ymm(Shift2(x.q0), Shift2(x.q1), Shift2(x.q2), Shift2(x.q3))
  {
    r := Step2(x);
    Lane2(x.q0);
    Lane2(x.q1);
    Lane2(x.q2);
    Lane2(x.q3);
    hide Slli16, Twice, And64, Xor64, Shift2;
  }

  lemma StepPerWord4(x: Ymm) returns (r: Ymm)
    ensures r == Step4(x) == Ymm(Shift4(x.q0), Shift4(x.q1), Shift4(x.q2), Shift4(x.q3))
  {
    r := Step4(x);
    Lane4(x.q0);
    Lane4(x.q1);
    Lane4(x.q2);
    Lane4(x.q3);
    hide Slli16, Twice, And64, Xor64, Shift4;
  }

  lemma StepPerWord8(x: Ymm) returns (r: Ymm)
    ensures r == Step8(x) == Ymm(Shift8(x.q0), Shift8(x.q1), Shift8(x.q2), Shift8(x.q3))
  {
    r := Step8(x);
    Lane8(x.q0);
    Lane8(x.q1);
    Lane8(x.q2);
    Lane8(x.q3);
    hide Slli16, Xor64, Shift8;
  }

  lemma StepPerWord16(x: Ymm) returns (r: Ymm)
    ensures r == Step16(x) == Ymm(Shift16(x.q0), Shift16(x.q1), Shift16(x.q2), Shift16(x.q3))
  {
    r := Step16(x);
    Lane16(x.q0);
    Lane16(x.q1);
    Lane16(x.q2);
    Lane16(x.q3);
    hide Slli32, Xor64, Shift16;
  }

  lemma StepPerWord32(x: Ymm) returns (r: Ymm)
    ensures r == Step32(x) == Ymm(Shift32(x.q0), Shift32(x.q1), Shift32(x.q2), Shift32(x.q3))
  {
    r := Step32(x);
    Lane32(x.q0);
    Lane32(x.q1);
    Lane32(x.q2);
    Lane32(x.q3);
    hide Slli64, Xor64, Shift32;
  }

  /** The last two steps add a word to the next, and two words to the next two. */
  lemma TwoSteps(x: Ymm)
    ensures Step128(Step64(x)) ==
      Ymm(x.q0, Xor64(x.q1, x.q0), Xor64(x.q2, x.q0), Xor64(Xor64(x.q3, x.q2), Xor64(x.q1, x.q0)))
  {
    var y := Step64(x);
    XorZero(x.q0);
    XorZero(x.q2);
    LowHalfUp(y);
    XorZero(y.q0);
    XorZero(y.q1);
    hide Xor64, Permute2x128;
  }

  lemma XorZero(q: bv64)
    ensures Xor64(q, 0) == q
  {
  }

  lemma LowHalfUp(x: Ymm)
    ensures Permute2x128(x, x, 0x08) == Ymm(0, 0, x.q0, x.q1)
  {
  }

  lemma XorSwaps(a: seq<bv8>, b: seq<bv8>)
    requires |a| == |b|
    ensures Xor(a, b) == Xor(b, a)
  {
    assert forall x: bv8, y: bv8 :: Xor8(x, y) == Xor8(y, x);
    hide Xor8;
  }

  /** The steps transform the thirty-two bytes of a register. */
  lemma InRegisterTransforms(x: Ymm)
    ensures IsPow2(32) && StoreYmm(InRegister(x)) == Transform(StoreYmm(x))
  {
    var (w0, w1, w2, w3) := (InWord(x.q0), InWord(x.q1), InWord(x.q2), InWord(x.q3));
    SixSteps(x);
    TwoSteps(Ymm(w0, w1, w2, w3));
    hide Step1, Step2, Step4, Step8, Step16, Step32, Step64, Step128, InWord, Store, Xor64, Xor, Transform, IsPow2;
    assert InRegister(x) == Ymm(w0, Xor64(w1, w0), Xor64(w2, w0), Xor64(Xor64(w3, w2), Xor64(w1, w0)));
    StoreXor(w1, w0);
    StoreXor(w2, w0);
    StoreXor(w3, w2);
    StoreXor(Xor64(w3, w2), Xor64(w1, w0));
    InWordTransforms(x.q0);
    InWordTransforms(x.q1);
    InWordTransforms(x.q2);
    InWordTransforms(x.q3);
    FourBlocks(Store(x.q0), Store(x.q1), Store(x.q2), Store(x.q3));
  }

  /** The transform of four blocks from theirs. */
  lemma FourBlocks(a: seq<bv8>, b: seq<bv8>, c: seq<bv8>, d: seq<bv8>)
    requires |a| == |b| == |c| == |d| == 8 && IsPow2(8)
    ensures IsPow2(32)
    ensures var (A, B, C, D) := (Transform(a), Transform(b), Transform(c), Transform(d));
            Transform((a + b) + (c + d)) == (A + Xor(B, A)) + (Xor(C, A) + Xor(Xor(D, C), Xor(B, A)))
  {
    hide Transform, Xor, IsPow2;
    var (A, B, C, D) := (Transform(a), Transform(b), Transform(c), Transform(d));
    TransformConcat(a, b);
    TransformConcat(c, d);
    TransformConcat(a + b, c + d);
    XorSwaps(A, B);
    XorSwaps(C, D);
    XorSwaps(A + Xor(B, A), C + Xor(D, C));
    XorConcat(C, Xor(D, C), A, Xor(B, A));
  }

  // ----- The vector implementation

  method StoreVector(f: array<bv8>, i: nat, x: Ymm)
    requires i + 32 <= f.Length
    modifies f
    ensures forall p :: 0 <= p < f.Length ==> f[p] == if i <= p < i + 32 then StoreYmm(x)[p - i] else old(f[p])
  {
    var s := StoreYmm(x);
    hide StoreYmm;
    for k := 0 to 32
      invariant forall p :: 0 <= p < f.Length ==> f[p] == if i <= p < i + k then s[p - i] else old(f[p])
    {
      f[i + k] := s[k];
    }
  }

  /** The body of the first loop. */
  method TransformVector(f: array<bv8>, i: nat)
    requires IsPow2(32) && i + 32 <= f.Length
    modifies f
    ensures f[..] == old(f[..i]) + Transform(old(f[i..i + 32])) + old(f[i + 32..])
  {
    ghost var s := f[..];
    hide LoadYmm, StoreYmm, Transform, Step1, Step2, Step4, Step8, Step16, Step32, Step64, Step128;
    ghost var w := f[i..i + 32];
    var x := LoadYmm(f[i..i + 32]);
    x := Step1(x);
    x := Step2(x);
    x := Step4(x);
    x := Step8(x);
    x := Step16(x);
    x := Step32(x);
    x := Step64(x);
    x := Step128(x);
    assert x == InRegister(LoadYmm(w));
    InRegisterTransforms(LoadYmm(w));
    StoreLoadYmm(w);
    StoreVector(f, i, x);
    Patched(s, f[..], i, Transform(w));
  }

  method Vectors(f: array<bv8>)
    requires IsPow2(32) && Whole(f.Length, 32)
    modifies f
    ensures f[..] == ByBlocks(old(f[..]), 32)
  {
    ghost var s0 := f[..];
    var i := 0;
    WholeOne(32);
    hide Whole, Transform, IsPow2;
    while i < f.Length
      invariant i <= f.Length && Whole(i, 32) && Whole(f.Length - i, 32)
      invariant f[..] == ByBlocks(s0[..i], 32) + s0[i..]
    {
      hide ByBlocks;
      NextBlock(s0, i, 32);
      InProgress(s0, f[..], ByBlocks(s0[..i], 32), i, 32);
      TransformVector(f, i);
      i := i + 32;
    }
    assert s0[..i] == s0 && s0[i..] == [];
  }

  method AddVector(f: array<bv8>, p: nat, q: nat)
    requires p + 32 <= f.Length && q + 32 <= f.Length
    modifies f
    ensures f[..q] == old(f[..q])
    ensures f[q..q + 32] == Xor(old(f[p..p + 32]), old(f[q..q + 32]))
    ensures f[q + 32..] == old(f[q + 32..])
  {
    ghost var s, a, b := f[..], f[p..p + 32], f[q..q + 32];
    hide LoadYmm, StoreYmm, XorSi256, Xor;
    var x := LoadYmm(f[p..p + 32]);
    var y := LoadYmm(f[q..q + 32]);
    StoreLoadYmm(a);
    StoreLoadYmm(b);
    StoreXorYmm(x, y);
    x := XorSi256(x, y);
    StoreVector(f, q, x);
    Patched(s, f[..], q, Xor(a, b));
  }

  method AddHalfByVectors(f: array<bv8>, j: nat, i: nat)
    requires j + 2 * i <= f.Length && Whole(i, 32)
    modifies f
    ensures f[..] == Added(old(f[..]), j, i)
  {
    hide Xor8;
    ghost var s := f[..];
    var k := 0;
    while k < i
      invariant k <= i && Whole(i - k, 32)
      invariant forall p :: 0 <= p < f.Length ==> f[p] == AddedByte(s, j, i, k, p)
    {
      ghost var r := f[..];
      AddVector(f, j + k, i + j + k);
      PieceAdded(s, r, f[..], j, i, k, 32);
      k := k + 32;
    }
  }

  method PassByVectors(f: array<bv8>, ghost s0: seq<bv8>, i: nat, h: nat)
    requires IsPow2(i) && IsPow2(h) && h == 2 * i && Whole(i, 32)
    requires |s0| == f.Length && Whole(f.Length, i) && Whole(f.Length, h)
    requires f[..] == ByBlocks(s0, i)
    modifies f
    ensures f[..] == ByBlocks(s0, h)
  {
    hide IsPow2, ByBlocks, Added, Midway;
    var j := 0;
    StartAndEnd(s0, i, h);
    hide Whole;
    while j < f.Length
      invariant j <= f.Length && Whole(j, h) && Whole(f.Length - j, h) && Whole(f.Length - j, i)
      invariant f[..] == Midway(s0, j, i, h)
    {
      PassStep(s0, j, i, h);
      AddHalfByVectors(f, j, i);
      j := j + h;
    }
  }

  method AnfAvx2(f: array<bv8>)
    requires f.Length >= 32 && IsPow2(f.Length)
    modifies f
    ensures f[..] == Transform(old(f[..]))
  {
    ghost var s0 := f[..];
    Pow2Sizes();
    hide IsPow2, Whole, ByBlocks, Transform;
    Pow2Whole(32, f.Length);
    Vectors(f);
    var i := 32;
    WholeOne(32);
    while i < f.Length
      invariant 32 <= i <= f.Length && IsPow2(i) && Whole(f.Length, i) && Whole(i, 32)
      invariant f[..] == ByBlocks(s0, i)
      decreases f.Length - i
    {
      Pow2Gap(i, f.Length);
      Pow2Double(i);
      Pow2Whole(2 * i, f.Length);
      WholeSum(i, i, 32);
      PassByVectors(f, s0, i, 2 * i);
      i := i * 2;
    }
    OneBlock(s0, i);
  }

  /** Both implementations leave the same bytes. */
  method SameBytes(f: array<bv8>, g: array<bv8>)
    requires f != g && f[..] == g[..] && f.Length >= 32 && IsPow2(f.Length)
    modifies f, g
    ensures f[..] == g[..]
  {
    Anf.Anf(f);
    AnfAvx2(g);
  }
}
