/** Vector expressions evaluated in one go, element by element and possibly into the storage of one
    of their operands, against the plain evaluation of one whole vector after another.  Element type
    and operations are arbitrary. */
module ExpressionTemplates {
  import opened Options

  /** A leaf names a vector, and may be given up by its owner; the same vector may be in several. */
  datatype Expr<!T> =
    | Leaf(v: nat, given: bool)
    | Scalar(x: T)
    | Node(op: (T, T) -> T, left: Expr<T>, right: Expr<T>)

  type Memory<T> = seq<seq<T>>

  /** Every vector in it has length `n`, and every operation has one among its operands. */
  predicate Typed<T>(e: Expr<T>, mem: Memory<T>, n: nat) {
    match e
    case Leaf(v, _) => v < |mem| && |mem[v]| == n
    case Scalar(_) => true
    case Node(_, x, y) => !(x.Scalar? && y.Scalar?) && Typed(x, mem, n) && Typed(y, mem, n)
  }

  // ----- The fused form

  /** size(): that of a scalar is one. */
  function Size<T>(e: Expr<T>, mem: Memory<T>, n: nat): nat
    requires Typed(e, mem, n)
  {
    match e
    case Leaf(v, _) => |mem[v]|
    case Scalar(_) => 1
    case Node(_, x, y) => var s, t := Size(x, mem, n), Size(y, mem, n); if s < t then t else s
  }

  /** operator[] */
  function At<T>(e: Expr<T>, mem: Memory<T>, n: nat, i: nat): T
    requires Typed(e, mem, n) && i < n
  {
    match e
    case Leaf(v, _) => mem[v][i]
    case Scalar(x) => x
    case Node(op, x, y) => op(At(x, mem, n, i), At(y, mem, n, i))
  }

  /** The vector whose storage is taken over: an operand that was given up.  An operand that is an
      expression is held by reference, and not recognised as one, so it is not searched. */
  function Steal<T>(e: Expr<T>): Option<nat> {
    if !e.Node? then None
    else if e.left.Leaf? && e.left.given then Some(e.left.v)
    else if e.right.Leaf? && e.right.given then Some(e.right.v)
    else None
  }

  predicate HasScalar<T>(e: Expr<T>) {
    e.Scalar? || (e.Node? && (HasScalar(e.left) || HasScalar(e.right)))
  }

  /** The size is that of the vectors, except for empty vectors and a scalar: then it is one. */
  lemma {:induction false} SizeIsLengthIff<T>(e: Expr<T>, mem: Memory<T>, n: nat)
    requires Typed(e, mem, n) && !e.Scalar?
    ensures Size(e, mem, n) == n <==> n > 0 || !HasScalar(e)
    ensures Size(e, mem, n) != n ==> Size(e, mem, n) == 1
  {
    if e.Node? {
      if !e.left.Scalar? { SizeIsLengthIff(e.left, mem, n); }
      if !e.right.Scalar? { SizeIsLengthIff(e.right, mem, n); }
    }
  }

  // ----- The plain form

  datatype Value<T> = Vector(elements: seq<T>) | Number(x: T)

  function Zip<T>(op: (T, T) -> T, a: seq<T>, b: seq<T>): (r: seq<T>)
    requires |a| == |b|
    ensures |r| == |a| && forall i :: 0 <= i < |r| ==> r[i] == op(a[i], b[i])
  {
    seq(|a|, i requires 0 <= i < |a| => op(a[i], b[i]))
  }

  function Map<T>(f: T -> T, a: seq<T>): (r: seq<T>) {
    seq(|a|, i requires 0 <= i < |a| => f(a[i]))
  }

  function Naive<T>(e: Expr<T>, mem: Memory<T>, n: nat): (r: Value<T>)
    requires Typed(e, mem, n)
    ensures r.Number? <==> e.Scalar?
    ensures r.Vector? ==> |r.elements| == n
  {
    match e
    case Leaf(v, _) => Vector(mem[v])
    case Scalar(x) => Number(x)
    case Node(op, x, y) =>
      var a, b := Naive(x, mem, n), Naive(y, mem, n);
      if a.Number? then Vector(Map(t => op(a.x, t), b.elements))
      else if b.Number? then Vector(Map(t => op(t, b.x), a.elements))
      else Vector(Zip(op, a.elements, b.elements))
  }

  /** The plain form of one operation: an element is the operation on the elements of its operands, the
      left one first, a scalar standing for any of its own. */
  lemma NaiveIsElementWise<T>(op: (T, T) -> T, x: Expr<T>, y: Expr<T>, mem: Memory<T>, n: nat, i: nat)
    requires Typed(Node(op, x, y), mem, n) && i < n
    ensures var a, b, r := Naive(x, mem, n), Naive(y, mem, n), Naive(Node(op, x, y), mem, n);
            r.elements[i] == op(if x.Scalar? then x.x else a.elements[i], if y.Scalar? then y.x else b.elements[i])
    ensures x.Leaf? ==> Naive(x, mem, n) == Vector(mem[x.v])
  {
  }

  /** An element of the fused form is that element of the plain one. */
  lemma {:induction false} FusedIsNaive<T>(e: Expr<T>, mem: Memory<T>, n: nat, i: nat)
    requires Typed(e, mem, n) && i < n
    ensures At(e, mem, n, i) == match Naive(e, mem, n) { case Number(x) => x case Vector(a) => a[i] }
  {
    if e.Node? {
      FusedIsNaive(e.left, mem, n, i);
      FusedIsNaive(e.right, mem, n, i);
    }
  }

  /** Element i only depends on the elements i, so what is elsewhere may have been overwritten. */
  lemma {:induction false} OnlyRow<T>(e: Expr<T>, mem: Memory<T>, was: Memory<T>, n: nat, i: nat)
    requires Typed(e, was, n) && i < n && |mem| == |was|
    requires forall v :: 0 <= v < |was| ==> |mem[v]| == |was[v]| && (i < |was[v]| ==> mem[v][i] == was[v][i])
    ensures Typed(e, mem, n) && At(e, mem, n, i) == At(e, was, n, i)
  {
    if e.Node? {
      OnlyRow(e.left, mem, was, n, i);
      OnlyRow(e.right, mem, was, n, i);
    }
  }

  class Storage<T(!new)> {
    var mem: Memory<T>

    constructor (vectors: Memory<T>)
      ensures mem == vectors
    {
      mem := vectors;
    }

    /** Overwrite a vector with the expression, element after element. */
    method Generate(e: Expr<T>, v: nat, n: nat)
      requires Typed(e, mem, n) && !e.Scalar? && v < |mem| && |mem[v]| == n
      modifies this
      ensures mem == old(mem)[v := Naive(e, old(mem), n).elements]
    {
      var i := 0;
      while i < n
        invariant 0 <= i <= n && |mem| == |old(mem)| && |mem[v]| == n
        invariant mem == old(mem)[v := mem[v]]
        invariant forall j :: 0 <= j < n ==>
          mem[v][j] == if j < i then Naive(e, old(mem), n).elements[j] else old(mem)[v][j]
      {
        OnlyRow(e, mem, old(mem), n, i);
        FusedIsNaive(e, old(mem), n, i);
        mem := mem[v := mem[v][i := At(e, mem, n, i)]];
        i := i + 1;
      }
      assert mem[v] == Naive(e, old(mem), n).elements;
    }

    /** Conversion to a vector.  Either an operand's storage is taken over and holds the result, whether
        or not other operands share it, or the result is new and no operand changes. */
    method Convert(e: Expr<T>, n: nat, filler: T) returns (r: seq<T>)
      requires Typed(e, mem, n) && e.Node?
      requires (e.left.Leaf? && e.left.given) || (e.right.Leaf? && e.right.given) || n > 0 || !HasScalar(e)
      modifies this
      ensures r == Naive(e, old(mem), n).elements
      ensures if e.left.Leaf? && e.left.given then e.left.v < |old(mem)| && mem == old(mem)[e.left.v := r]
              else if e.right.Leaf? && e.right.given then e.right.v < |old(mem)| && mem == old(mem)[e.right.v := r]
              else mem == old(mem)
    {
      var stolen := Steal(e);
      if stolen.Some? {
        Generate(e, stolen.value, n);
        return mem[stolen.value];
      }
      SizeIsLengthIff(e, mem, n);
      var size := Size(e, mem, n);
      r := seq(size, i => filler);
      var i := 0;
      while i < size
        invariant i <= size && |r| == size && mem == old(mem)
        invariant forall j :: 0 <= j < i ==> r[j] == Naive(e, mem, n).elements[j]
      {
        FusedIsNaive(e, mem, n, i);
        r := r[i := At(e, mem, n, i)];
        i := i + 1;
      }
    }
  }

  // ----- The plain form's operators that reuse an operand

  /** v1 op v2 into v1, which v2 may be as well. */
  method ReuseFirst<T>(op: (T, T) -> T, v1: array<T>, v2: array<T>)
    requires v1.Length == v2.Length
    modifies v1
    ensures v1[..] == Zip(op, old(v1[..]), old(v2[..]))
  {
    var i := 0;
    while i < v1.Length
      invariant i <= v1.Length
      invariant forall j :: 0 <= j < i ==> v1[j] == op(old(v1[j]), old(v2[j]))
      invariant forall j :: i <= j < v1.Length ==> v1[j] == old(v1[j]) && v2[j] == old(v2[j])
    {
      v1[i] := op(v1[i], v2[i]);
      i := i + 1;
    }
  }

  /** v1 op v2 into v2; the operation need not be commutative. */
  method ReuseSecond<T>(op: (T, T) -> T, v1: array<T>, v2: array<T>)
    requires v1.Length == v2.Length
    modifies v2
    ensures v2[..] == Zip(op, old(v1[..]), old(v2[..]))
  {
    var i := 0;
    while i < v2.Length
      invariant i <= v2.Length
      invariant forall j :: 0 <= j < i ==> v2[j] == op(old(v1[j]), old(v2[j]))
      invariant forall j :: i <= j < v2.Length ==> v1[j] == old(v1[j]) && v2[j] == old(v2[j])
    {
      v2[i] := op(v1[i], v2[i]);
      i := i + 1;
    }
  }
}
