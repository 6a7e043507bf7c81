/** Machine words as both implementations see them: eight bytes in little-endian order, the
    shift-and-mask steps within a word, and why they transform its bytes: like the whole buffer, a
    word is two halves, down to single bytes. */
module AnfWord {
  import opened AnfSpec

  // ----- Little-endian loads and stores

  function Lo32(x: bv64): bv32 { (x & 0xffffffff) as bv32 }
  function Hi32(x: bv64): bv32 { (x >> 32) as bv32 }
  function Lo16(x: bv32): bv16 { (x & 0xffff) as bv16 }
  function Hi16(x: bv32): bv16 { (x >> 16) as bv16 }
  function Lo8(x: bv16): bv8 { (x & 0xff) as bv8 }
  function Hi8(x: bv16): bv8 { (x >> 8) as bv8 }

  /** std::memcpy of a std::uint64_t to eight bytes. */
  function Store(x: bv64): (s: seq<bv8>)
    ensures |s| == 8
  {
    Store32(Lo32(x)) + Store32(Hi32(x))
  }

  function Store32(x: bv32): (s: seq<bv8>)
    ensures |s| == 4
  {
    Store16(Lo16(x)) + Store16(Hi16(x))
  }

  function Store16(x: bv16): (s: seq<bv8>)
    ensures |s| == 2
  {
    [Lo8(x), Hi8(x)]
  }

  /** ... and back. */
  function Load(s: seq<bv8>): bv64
    requires |s| == 8
  {
    (Load32(s[..4]) as bv64) | ((Load32(s[4..]) as bv64) << 32)
  }

  function Load32(s: seq<bv8>): bv32
    requires |s| == 4
  {
    (Load16(s[..2]) as bv32) | ((Load16(s[2..]) as bv32) << 16)
  }

  function Load16(s: seq<bv8>): bv16
    requires |s| == 2
  {
    (s[0] as bv16) | ((s[1] as bv16) << 8)
  }

  lemma Join64(a: bv32, b: bv32)
    ensures var x := (a as bv64) | ((b as bv64) << 32); Lo32(x) == a && Hi32(x) == b
  {
  }

  lemma Join32(a: bv16, b: bv16)
    ensures var x := (a as bv32) | ((b as bv32) << 16); Lo16(x) == a && Hi16(x) == b
  {
  }

  lemma Join16(a: bv8, b: bv8)
    ensures var x := (a as bv16) | ((b as bv16) << 8); Lo8(x) == a && Hi8(x) == b
  {
  }

  lemma StoreLoad16(s: seq<bv8>)
    requires |s| == 2
    ensures Store16(Load16(s)) == s
  {
    Join16(s[0], s[1]);
  }

  lemma StoreLoad32(s: seq<bv8>)
    requires |s| == 4
    ensures Store32(Load32(s)) == s
  {
    Join32(Load16(s[..2]), Load16(s[2..]));
    StoreLoad16(s[..2]);
    StoreLoad16(s[2..]);
  }

  lemma StoreLoad(s: seq<bv8>)
    requires |s| == 8
    ensures Store(Load(s)) == s
  {
    Join64(Load32(s[..4]), Load32(s[4..]));
    StoreLoad32(s[..4]);
    StoreLoad32(s[4..]);
  }

  // ----- Exclusive or, byte by byte

  function Xor16(x: bv16, y: bv16): bv16 { x ^ y }
  function Xor32(x: bv32, y: bv32): bv32 { x ^ y }
  function Xor64(x: bv64, y: bv64): bv64 { x ^ y }

  lemma XorConcat(a: seq<bv8>, b: seq<bv8>, c: seq<bv8>, d: seq<bv8>)
    requires |a| == |c| && |b| == |d|
    ensures Xor(a + b, c + d) == Xor(a, c) + Xor(b, d)
  {
  }

  lemma XorOne(a: bv8, b: bv8)
    ensures Xor([a], [b]) == [Xor8(a, b)]
  {
  }

  lemma XorHalves64(x: bv64, y: bv64)
    ensures Lo32(Xor64(x, y)) == Xor32(Lo32(x), Lo32(y)) && Hi32(Xor64(x, y)) == Xor32(Hi32(x), Hi32(y))
  {
  }

  lemma XorHalves32(x: bv32, y: bv32)
    ensures Lo16(Xor32(x, y)) == Xor16(Lo16(x), Lo16(y)) && Hi16(Xor32(x, y)) == Xor16(Hi16(x), Hi16(y))
  {
  }

  lemma XorHalves16(x: bv16, y: bv16)
    ensures Lo8(Xor16(x, y)) == Xor8(Lo8(x), Lo8(y)) && Hi8(Xor16(x, y)) == Xor8(Hi8(x), Hi8(y))
  {
  }

  lemma Store16Xor(x: bv16, y: bv16)
    ensures Store16(Xor16(x, y)) == Xor(Store16(x), Store16(y))
  {
    XorHalves16(x, y);
    XorOne(Lo8(x), Lo8(y));
    XorOne(Hi8(x), Hi8(y));
    hide Lo8, Hi8, Xor8, Xor16, Xor;
    XorConcat([Lo8(x)], [Hi8(x)], [Lo8(y)], [Hi8(y)]);
    assert Store16(x) == [Lo8(x)] + [Hi8(x)] && Store16(y) == [Lo8(y)] + [Hi8(y)];
  }

  lemma Store32Xor(x: bv32, y: bv32)
    ensures Store32(Xor32(x, y)) == Xor(Store32(x), Store32(y))
  {
    XorHalves32(x, y);
    hide Lo16, Hi16, Xor16, Xor32, Xor, Store16;
    Store16Xor(Lo16(x), Lo16(y));
    Store16Xor(Hi16(x), Hi16(y));
    XorConcat(Store16(Lo16(x)), Store16(Hi16(x)), Store16(Lo16(y)), Store16(Hi16(y)));
  }

  lemma StoreXor(x: bv64, y: bv64)
    ensures Store(Xor64(x, y)) == Xor(Store(x), Store(y))
  {
    XorHalves64(x, y);
    hide Lo32, Hi32, Xor32, Xor64, Xor, Store32;
    Store32Xor(Lo32(x), Lo32(y));
    Store32Xor(Hi32(x), Hi32(y));
    XorConcat(Store32(Lo32(x)), Store32(Hi32(x)), Store32(Lo32(y)), Store32(Hi32(y)));
  }

  // ----- The six steps within a word, and the same with a step less on half a word

  function Shift1(x: bv64): bv64 { x ^ ((x << 1) & 0xaaaaaaaaaaaaaaaa) }
  function Shift2(x: bv64): bv64 { x ^ ((x << 2) & 0xcccccccccccccccc) }
  function Shift4(x: bv64): bv64 { x ^ ((x << 4) & 0xf0f0f0f0f0f0f0f0) }
  function Shift8(x: bv64): bv64 { x ^ ((x << 8) & 0xff00ff00ff00ff00) }
  function Shift16(x: bv64): bv64 { x ^ ((x << 16) & 0xffff0000ffff0000) }
  function Shift32(x: bv64): bv64 { x ^ (x << 32) }

  function Shift1of32(x: bv32): bv32 { x ^ ((x << 1) & 0xaaaaaaaa) }
  function Shift2of32(x: bv32): bv32 { x ^ ((x << 2) & 0xcccccccc) }
  function Shift4of32(x: bv32): bv32 { x ^ ((x << 4) & 0xf0f0f0f0) }
  function Shift8of32(x: bv32): bv32 { x ^ ((x << 8) & 0xff00ff00) }
  function Shift16of32(x: bv32): bv32 { x ^ (x << 16) }

  function Shift1of16(x: bv16): bv16 { x ^ ((x << 1) & 0xaaaa) }
  function Shift2of16(x: bv16): bv16 { x ^ ((x << 2) & 0xcccc) }
  function Shift4of16(x: bv16): bv16 { x ^ ((x << 4) & 0xf0f0) }
  function Shift8of16(x: bv16): bv16 { x ^ (x << 8) }

  function Shift1of8(x: bv8): bv8 { x ^ ((x << 1) & 0xaa) }
  function Shift2of8(x: bv8): bv8 { x ^ ((x << 2) & 0xcc) }
  function Shift4of8(x: bv8): bv8 { x ^ ((x << 4) & 0xf0) }

  function InWord(x: bv64): bv64 {
    Shift32(Shift16(Shift8(Shift4(Shift2(Shift1(x))))))
  }

  function InWord32(x: bv32): bv32 {
    Shift16of32(Shift8of32(Shift4of32(Shift2of32(Shift1of32(x)))))
  }

  function InWord16(x: bv16): bv16 {
    Shift8of16(Shift4of16(Shift2of16(Shift1of16(x))))
  }

  // A masked shift carries nothing across the middle, so it works on the halves; the last one adds
  // the lower half to the upper.

  lemma Halves1of64(x: bv64)
    ensures Lo32(Shift1(x)) == Shift1of32(Lo32(x)) && Hi32(Shift1(x)) == Shift1of32(Hi32(x))
  {
  }

  lemma Halves2of64(x: bv64)
    ensures Lo32(Shift2(x)) == Shift2of32(Lo32(x)) && Hi32(Shift2(x)) == Shift2of32(Hi32(x))
  {
  }

  lemma Halves4of64(x: bv64)
    ensures Lo32(Shift4(x)) == Shift4of32(Lo32(x)) && Hi32(Shift4(x)) == Shift4of32(Hi32(x))
  {
  }

  lemma Halves8of64(x: bv64)
    ensures Lo32(Shift8(x)) == Shift8of32(Lo32(x)) && Hi32(Shift8(x)) == Shift8of32(Hi32(x))
  {
  }

  lemma Halves16of64(x: bv64)
    ensures Lo32(Shift16(x)) == Shift16of32(Lo32(x)) && Hi32(Shift16(x)) == Shift16of32(Hi32(x))
  {
  }

  lemma Halves32of64(x: bv64)
    ensures Lo32(Shift32(x)) == Lo32(x) && Hi32(Shift32(x)) == Xor32(Lo32(x), Hi32(x))
  {
  }

  lemma Halves1of32(x: bv32)
    ensures Lo16(Shift1of32(x)) == Shift1of16(Lo16(x)) && Hi16(Shift1of32(x)) == Shift1of16(Hi16(x))
  {
  }

  lemma Halves2of32(x: bv32)
    ensures Lo16(Shift2of32(x)) == Shift2of16(Lo16(x)) && Hi16(Shift2of32(x)) == Shift2of16(Hi16(x))
  {
  }

  lemma Halves4of32(x: bv32)
    ensures Lo16(Shift4of32(x)) == Shift4of16(Lo16(x)) && Hi16(Shift4of32(x)) == Shift4of16(Hi16(x))
  {
  }

  lemma Halves8of32(x: bv32)
    ensures Lo16(Shift8of32(x)) == Shift8of16(Lo16(x)) && Hi16(Shift8of32(x)) == Shift8of16(Hi16(x))
  {
  }

  lemma Halves16of32(x: bv32)
    ensures Lo16(Shift16of32(x)) == Lo16(x) && Hi16(Shift16of32(x)) == Xor16(Lo16(x), Hi16(x))
  {
  }

  lemma Halves1of16(x: bv16)
    ensures Lo8(Shift1of16(x)) == Shift1of8(Lo8(x)) && Hi8(Shift1of16(x)) == Shift1of8(Hi8(x))
  {
  }

  lemma Halves2of16(x: bv16)
    ensures Lo8(Shift2of16(x)) == Shift2of8(Lo8(x)) && Hi8(Shift2of16(x)) == Shift2of8(Hi8(x))
  {
  }

  lemma Halves4of16(x: bv16)
    ensures Lo8(Shift4of16(x)) == Shift4of8(Lo8(x)) && Hi8(Shift4of16(x)) == Shift4of8(Hi8(x))
  {
  }

  lemma Halves8of16(x: bv16)
    ensures Lo8(Shift8of16(x)) == Lo8(x) && Hi8(Shift8of16(x)) == Xor8(Lo8(x), Hi8(x))
  {
  }

  lemma InByteSteps(b: bv8)
    ensures InByte(b) == Shift4of8(Shift2of8(Shift1of8(b)))
  {
  }

  lemma Halves64(x: bv64)
    ensures Lo32(InWord(x)) == InWord32(Lo32(x))
    ensures Hi32(InWord(x)) == Xor32(InWord32(Lo32(x)), InWord32(Hi32(x)))
  {
    hide Shift1, Shift2, Shift4, Shift8, Shift16, Shift32, Lo32, Hi32, Xor32;
    hide Shift1of32, Shift2of32, Shift4of32, Shift8of32, Shift16of32;
    var x1 := Shift1(x);
    Halves1of64(x);
    var x2 := Shift2(x1);
    Halves2of64(x1);
    var x3 := Shift4(x2);
    Halves4of64(x2);
    var x4 := Shift8(x3);
    Halves8of64(x3);
    var x5 := Shift16(x4);
    Halves16of64(x4);
    Halves32of64(x5);
  }

  lemma Halves32(x: bv32)
    ensures Lo16(InWord32(x)) == InWord16(Lo16(x))
    ensures Hi16(InWord32(x)) == Xor16(InWord16(Lo16(x)), InWord16(Hi16(x)))
  {
    hide Shift1of32, Shift2of32, Shift4of32, Shift8of32, Shift16of32, Lo16, Hi16, Xor16;
    hide Shift1of16, Shift2of16, Shift4of16, Shift8of16;
    var x1 := Shift1of32(x);
    Halves1of32(x);
    var x2 := Shift2of32(x1);
    Halves2of32(x1);
    var x3 := Shift4of32(x2);
    Halves4of32(x2);
    var x4 := Shift8of32(x3);
    Halves8of32(x3);
    Halves16of32(x4);
  }

  lemma Halves16(x: bv16)
    ensures Lo8(InWord16(x)) == InByte(Lo8(x))
    ensures Hi8(InWord16(x)) == Xor8(InByte(Lo8(x)), InByte(Hi8(x)))
  {
    InByteSteps(Lo8(x));
    InByteSteps(Hi8(x));
    hide InByte;
    hide Shift1of16, Shift2of16, Shift4of16, Shift8of16, Shift1of8, Shift2of8, Shift4of8, Lo8, Hi8, Xor8;
    var x1 := Shift1of16(x);
    Halves1of16(x);
    var x2 := Shift2of16(x1);
    Halves2of16(x1);
    var x3 := Shift4of16(x2);
    Halves4of16(x2);
    Halves8of16(x3);
  }

  /** Two halves make a transformed whole. */
  lemma Combine(a: seq<bv8>, b: seq<bv8>, p: seq<bv8>, q: seq<bv8>)
    requires |a| == |b| && IsPow2(|a|)
    requires p == Transform(a) && q == Xor(Transform(a), Transform(b))
    ensures IsPow2(|a + b|) && Transform(a + b) == p + q
  {
    TransformConcat(a, b);
  }

  lemma TransformByte(b: bv8)
    ensures Transform([b]) == [InByte(b)]
  {
  }

  lemma InWord16Transforms(x: bv16)
    ensures IsPow2(2) && Store16(InWord16(x)) == Transform(Store16(x))
  {
    var l, h := Lo8(x), Hi8(x);
    Halves16(x);
    TransformByte(l);
    TransformByte(h);
    XorOne(InByte(l), InByte(h));
    Combine([l], [h], [InByte(l)], [Xor8(InByte(l), InByte(h))]);
    hide InWord16, InByte, Lo8, Hi8, Transform, Xor8, Xor, IsPow2;
    assert Store16(x) == [l] + [h];
    assert Store16(InWord16(x)) == [InByte(l)] + [Xor8(InByte(l), InByte(h))];
  }

  lemma Upper32(x: bv32)
    ensures IsPow2(2) && Store16(Hi16(InWord32(x))) == Xor(Transform(Store16(Lo16(x))), Transform(Store16(Hi16(x))))
  {
    Halves32(x);
    hide InWord32, InWord16, Lo16, Hi16, Store16, Transform, Xor, IsPow2, Xor16;
    InWord16Transforms(Lo16(x));
    InWord16Transforms(Hi16(x));
    Store16Xor(InWord16(Lo16(x)), InWord16(Hi16(x)));
  }

  lemma Lower32(x: bv32)
    ensures IsPow2(2) && Store16(Lo16(InWord32(x))) == Transform(Store16(Lo16(x)))
  {
    Halves32(x);
    hide InWord32, InWord16, Lo16, Hi16, Store16, Transform, IsPow2;
    InWord16Transforms(Lo16(x));
  }

  lemma InWord32Transforms(x: bv32)
    ensures IsPow2(4) && Store32(InWord32(x)) == Transform(Store32(x))
  {
    Lower32(x);
    Upper32(x);
    hide InWord32, Lo16, Hi16, Store16, Transform, Xor, IsPow2;
    Combine(Store16(Lo16(x)), Store16(Hi16(x)), Store16(Lo16(InWord32(x))), Store16(Hi16(InWord32(x))));
  }

  lemma Upper64(x: bv64)
    ensures IsPow2(4) && Store32(Hi32(InWord(x))) == Xor(Transform(Store32(Lo32(x))), Transform(Store32(Hi32(x))))
  {
    Halves64(x);
    hide InWord, InWord32, Lo32, Hi32, Store32, Transform, Xor, IsPow2, Xor32;
    InWord32Transforms(Lo32(x));
    InWord32Transforms(Hi32(x));
    Store32Xor(InWord32(Lo32(x)), InWord32(Hi32(x)));
  }

  lemma Lower64(x: bv64)
    ensures IsPow2(4) && Store32(Lo32(InWord(x))) == Transform(Store32(Lo32(x)))
  {
    Halves64(x);
    hide InWord, InWord32, Lo32, Hi32, Store32, Transform, IsPow2;
    InWord32Transforms(Lo32(x));
  }

  /** The steps transform the eight bytes of a word. */
  lemma InWordTransforms(x: bv64)
    ensures IsPow2(8) && Store(InWord(x)) == Transform(Store(x))
  {
    Lower64(x);
    Upper64(x);
    hide InWord, Lo32, Hi32, Store32, Transform, Xor, IsPow2;
    Combine(Store32(Lo32(x)), Store32(Hi32(x)), Store32(Lo32(InWord(x))), Store32(Hi32(InWord(x))));
  }
}
