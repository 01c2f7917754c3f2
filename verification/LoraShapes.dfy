/** Permuting, stacking and joining factored tensors (convert_lora_to_gguf.py:145-210). */
module LoraShapes {
  import opened Tensors
  import opened Lora

  // ----- permute and transpose -----

  // The dimensions as the source passes them on: counted from the end.
  function FromEnd(dims: seq<int>, n: nat): (r: seq<int>)
    ensures |r| == |dims| && forall d :: 0 <= d < |dims| ==> r[d] == if dims[d] >= 0 then dims[d] - n else dims[d]
  {
    seq(|dims|, d requires 0 <= d < |dims| => if dims[d] >= 0 then dims[d] - n else dims[d])
  }

  function PermuteLora(l: Lora, dims: seq<int>): Option<Lora>
    requires Factored(l)
  {
    var n := |l.a.shape|;
    var r := FromEnd(dims, n);
    if r == [] then None
    else if Last(r) == -1 then
      if !AllOnes(Lead(l.a.shape)) then None
      else
        var b := TorchPermute(l.b, r);
        if b.None? then None else Make(l.a, b.value)
    else if n == 2 && Last(r) == -2 && |r| >= 2 && r[|r| - 2] == -1 then
      var a, b := TorchPermute(l.b, r), TorchPermute(l.a, r);
      if a.None? || b.None? then None else Make(a.value, b.value)
    else None
  }

  lemma FromEndWraps(dims: seq<int>, n: nat)
    requires LegalDims(dims, n)
    ensures Wrapped(FromEnd(dims, n), n) == Wrapped(dims, n)
  {
    var w := Wrapped(dims, n);
    assert forall d :: 0 <= d < n ==> 0 <= Nats(w)[d] < n;
    assert forall d :: 0 <= d < n ==> w[d] == Nats(w)[d];
  }

  // The last dimension of the wrapped permutation, and of the one counted from the end.
  lemma LastOfFromEnd(dims: seq<int>, n: nat)
    requires LegalDims(dims, n) && n > 0
    ensures FromEnd(dims, n)[n - 1] == Nats(Wrapped(dims, n))[n - 1] - n
  {
    assert 0 <= Nats(Wrapped(dims, n))[n - 1] < n;
  }

  lemma GatherInit(dims: seq<nat>, shape: seq<nat>, x: nat)
    requires IsPermutation(dims) && |dims| == |shape| > 0 && Last(dims) == |dims| - 1
    ensures Gather(dims, Init(shape) + [x]) == Init(Gather(dims, shape)) + [x]
  {
    LastIsLast(dims);
  }

  lemma LastIsLast(dims: seq<nat>)
    requires IsPermutation(dims) && dims != [] && Last(dims) == |dims| - 1
    ensures forall d :: 0 <= d < |dims| - 1 ==> dims[d] < |dims| - 1
  {
  }

  // A last dimension that stays: the others are scattered whatever it holds.
  lemma ScatterInit(dims: seq<nat>, i: seq<nat>, x: nat)
    requires IsPermutation(dims) && |dims| == |i| > 0 && Last(dims) == |dims| - 1
    ensures Scatter(dims, Init(i) + [x]) == Init(Scatter(dims, i)) + [x] && Last(Scatter(dims, i)) == Last(i)
  {
    var j, k := Scatter(dims, i), Scatter(dims, Init(i) + [x]);
    forall d | 0 <= d < |i| - 1
      ensures j[d] == k[d]
    {
      var e := Find(dims, d);
      assert j[dims[e]] == i[e] && k[dims[e]] == (Init(i) + [x])[e];
      assert e != |dims| - 1;
    }
    assert j[dims[|i| - 1]] == i[|i| - 1] && k[dims[|i| - 1]] == x;
  }

  lemma UnderOnes(s: seq<nat>, i: seq<nat>, j: seq<nat>)
    requires AllOnes(s) && |i| == |j| == |s|
    ensures Under(s, i) == Under(s, j)
  {
    OnlyIndex(s, i);
    OnlyIndex(s, j);
  }

  lemma PermuteRows(l: Lora, dims: seq<nat>)
    requires Factored(l) && AllOnes(Lead(l.a.shape)) && IsPermutation(dims) && |dims| == |l.a.shape| && Last(dims) == |dims| - 1
    ensures var m := Lora(l.a, Permute(l.b, dims));
            Factored(m) && Same(Product(m), Permute(Product(l), dims))
  {
    var m := Lora(l.a, Permute(l.b, dims));
    assert m.b.shape[|dims| - 1] == l.b.shape[dims[|dims| - 1]];
    GatherInit(dims, l.b.shape, Last(l.a.shape));
    forall i: seq<nat> | InRange(i, Shape(m))
      ensures Product(m).at(i) == Permute(Product(l), dims).at(i)
    {
      var j := Scatter(dims, i);
      ScatterInit(dims, i, Last(i));
      UnderOnes(Lead(l.a.shape), Lead(i), Lead(j));
      forall k: nat | k < Last(m.b.shape)
        ensures InRow(m.b, i, k) == InRow(l.b, j, k) && InColumn(m.a, i, k) == InColumn(l.a, j, k)
      {
        ScatterInit(dims, i, k);
      }
      EntrySame(m, i, l, j);
    }
  }

  lemma TwoDims(dims: seq<nat>, s: seq<nat>)
    requires IsPermutation(dims) && |dims| == 2 == |s| && dims[1] == 0
    ensures dims == [1, 0] && Gather(dims, s) == [s[1], s[0]] && Scatter(dims, s) == [s[1], s[0]]
  {
    var j := Scatter(dims, s);
    assert dims[0] == 1;
    assert j[dims[0]] == s[0] && j[dims[1]] == s[1];
  }

  // Transposing one matrix exchanges the factors.
  lemma PermuteMatrix(l: Lora, dims: seq<nat>)
    requires Factored(l) && |l.a.shape| == 2 && IsPermutation(dims) && |dims| == 2 && dims[1] == 0
    ensures var m := Lora(Permute(l.b, dims), Permute(l.a, dims));
            Factored(m) && Same(Product(m), Permute(Product(l), dims))
  {
    var m := Lora(Permute(l.b, dims), Permute(l.a, dims));
    TwoDims(dims, l.a.shape);
    TwoDims(dims, l.b.shape);
    TwoDims(dims, Shape(l));
    forall i: seq<nat> | InRange(i, Shape(m))
      ensures Product(m).at(i) == Permute(Product(l), dims).at(i)
    {
      TransposedEntry(l, dims, m, i);
    }
  }

  lemma TransposedAt(t: Tensor, dims: seq<nat>, x: nat, y: nat)
    requires |t.shape| == 2 && dims == [1, 0] && IsPermutation(dims)
    ensures Permute(t, dims).at([x, y]) == t.at([y, x])
  {
    TwoDims(dims, [x, y]);
  }

  // The rows and columns of one matrix.
  lemma OneMatrix(t: Tensor, x: nat, y: nat, k: nat)
    requires |t.shape| == 2
    ensures InRow(t, [x, y], k) == t.at([x, k]) && InColumn(t, [x, y], k) == t.at([k, y])
  {
    assert Init([x, y]) + [k] == [x, k] && Under(Lead(t.shape), Lead([x, y])) + [k, y] == [k, y];
  }

  lemma TransposedFactors(l: Lora, dims: seq<nat>, m: Lora, x: nat, y: nat, k: nat)
    requires Factored(l) && |l.a.shape| == 2 && dims == [1, 0] && IsPermutation(dims)
    requires m == Lora(Permute(l.b, dims), Permute(l.a, dims)) && |m.a.shape| == |m.b.shape| == 2
    ensures InRow(m.b, [x, y], k) == InColumn(l.a, [y, x], k) && InColumn(m.a, [x, y], k) == InRow(l.b, [y, x], k)
  {
    OneMatrix(m.b, x, y, k); OneMatrix(m.a, x, y, k);
    OneMatrix(l.a, y, x, k); OneMatrix(l.b, y, x, k);
    TransposedAt(l.a, dims, x, k);
    TransposedAt(l.b, dims, k, y);
  }

  lemma TransposedDot(l: Lora, m: Lora, i: seq<nat>, j: seq<nat>)
    requires Factored(l) && Factored(m) && |i| == |m.a.shape| && |j| == |l.a.shape| && Rank(m) == Rank(l)
    requires forall k: nat :: k < Rank(l) ==> InRow(m.b, i, k) == InColumn(l.a, j, k) && InColumn(m.a, i, k) == InRow(l.b, j, k)
    ensures Entry(m, i) == Entry(l, j)
  {
    DotSame(Rank(l), (k: nat) => InRow(m.b, i, k), (k: nat) => InColumn(m.a, i, k), (k: nat) => InColumn(l.a, j, k), (k: nat) => InRow(l.b, j, k));
    DotSwap(Rank(l), (k: nat) => InColumn(l.a, j, k), (k: nat) => InRow(l.b, j, k));
  }

  lemma TransposedEntry(l: Lora, dims: seq<nat>, m: Lora, i: seq<nat>)
    requires Factored(l) && |l.a.shape| == 2 && dims == [1, 0] && IsPermutation(dims) && |i| == 2
    requires m == Lora(Permute(l.b, dims), Permute(l.a, dims)) && Factored(m) && Rank(m) == Rank(l)
    ensures Entry(m, i) == PermutedAt(Product(l), dims, i)
  {
    var j := [i[1], i[0]];
    TwoDims(dims, i);
    assert i == [i[0], i[1]];
    forall k: nat | k < Rank(l)
      ensures InRow(m.b, i, k) == InColumn(l.a, j, k) && InColumn(m.a, i, k) == InRow(l.b, j, k)
    {
      TransposedFactors(l, dims, m, i[0], i[1], k);
    }
    TransposedDot(l, m, i, j);
  }

  // The permutations that the source carries out.
  predicate Permutable(l: Lora, dims: seq<int>)
    requires Factored(l) && LegalDims(dims, |l.a.shape|)
  {
    var n := |l.a.shape|;
    var last := Nats(Wrapped(dims, n))[n - 1];
    (last == n - 1 && AllOnes(Lead(l.a.shape))) || (n == 2 && last == 0)
  }

  // The two ways of permuting the factors, by where the last dimension goes.
  lemma PermuteIs(l: Lora, dims: seq<int>)
    requires Factored(l) && LegalDims(dims, |l.a.shape|)
    ensures var n := |l.a.shape|; var w := Nats(Wrapped(dims, n));
            PermuteLora(l, dims) ==
              if w[n - 1] == n - 1 then if AllOnes(Lead(l.a.shape)) then Make(l.a, Permute(l.b, w)) else None
              else if n == 2 && w[1] == 0 then Make(Permute(l.b, w), Permute(l.a, w))
              else None
  {
    var n, r := |l.a.shape|, FromEnd(dims, |l.a.shape|);
    FromEndWraps(dims, n);
    LastOfFromEnd(dims, n);
    assert Nats(Wrapped(r, n)) == Nats(Wrapped(dims, n)) && LegalDims(r, n);
  }

  /** Permuting the factors, which is done exactly when rows stay rows and A is one matrix or a
      matrix is transposed, permutes their product. */
  lemma PermuteCommutes(l: Lora, dims: seq<int>)
    requires Factored(l) && LegalDims(dims, |l.a.shape|)
    ensures PermuteLora(l, dims).Some? <==> Permutable(l, dims)
    ensures Permutable(l, dims) ==>
              && Factored(PermuteLora(l, dims).value)
              && Same(Product(PermuteLora(l, dims).value), TorchPermute(Product(l), dims).value)
  {
    var n := |l.a.shape|;
    var w := Nats(Wrapped(dims, n));
    PermuteIs(l, dims);
    if w[n - 1] == n - 1 {
      if AllOnes(Lead(l.a.shape)) { PermuteRows(l, w); }
    } else if n == 2 && w[1] == 0 {
      PermuteMatrix(l, w);
    }
  }

  // transpose: two of the dimensions in order, counted from either end, exchanged.
  function TransposeLora(l: Lora, d0: int, d1: int): Option<Lora>
    requires Factored(l)
  {
    var n := |l.a.shape|;
    if 0 <= Wrap(d0, n) < n && 0 <= Wrap(d1, n) < n then PermuteLora(l, SwapDims(n, Wrap(d0, n), Wrap(d1, n))) else None
  }

  lemma NatDims(dims: seq<nat>)
    requires IsPermutation(dims)
    ensures LegalDims(dims, |dims|) && Nats(Wrapped(dims, |dims|)) == dims
  {
    assert Nats(Wrapped(dims, |dims|)) == dims;
  }

  /** Transposing, of leading dimensions and rows, or of the rows and columns of one matrix. */
  lemma TransposeCommutes(l: Lora, d0: nat, d1: nat)
    requires Factored(l) && d0 < |l.a.shape| && d1 < |l.a.shape|
    ensures var n := |l.a.shape|; var r := TransposeLora(l, d0, d1);
            && (r.Some? <==> (AllOnes(Lead(l.a.shape)) && (d0 == d1 || (d0 < n - 1 && d1 < n - 1))) || n == 2)
            && (r.Some? ==> Factored(r.value) && Same(Product(r.value), Transpose(Product(l), d0, d1)))
  {
    var dims := SwapDims(|l.a.shape|, d0, d1);
    NatDims(dims);
    PermuteCommutes(l, dims);
  }

  // ----- stack -----

  function As(ls: seq<Lora>): (r: seq<Tensor>)
    ensures |r| == |ls| && forall k :: 0 <= k < |ls| ==> r[k] == ls[k].a
  {
    seq(|ls|, k requires 0 <= k < |ls| => ls[k].a)
  }

  function Bs(ls: seq<Lora>): (r: seq<Tensor>)
    ensures |r| == |ls| && forall k :: 0 <= k < |ls| ==> r[k] == ls[k].b
  {
    seq(|ls|, k requires 0 <= k < |ls| => ls[k].b)
  }

  predicate AllFactored(ls: seq<Lora>) { forall k :: 0 <= k < |ls| ==> Factored(ls[k]) }

  function Products(ls: seq<Lora>): (r: seq<Tensor>)
    requires AllFactored(ls)
    ensures |r| == |ls| && forall k :: 0 <= k < |ls| ==> r[k] == Product(ls[k])
  {
    seq(|ls|, k requires 0 <= k < |ls| => Product(ls[k]))
  }

  function StackLora(ls: seq<Lora>): Option<Lora> {
    if SameShapes(As(ls)) && SameShapes(Bs(ls)) then Make(Stack(As(ls)), Stack(Bs(ls))) else None
  }

  lemma {:induction false} UnderFront(x: nat, s: seq<nat>, y: nat, i: seq<nat>)
    requires |s| == |i|
    ensures Under([x] + s, [y] + i) == [if x == 1 then 0 else y] + Under(s, i)
    decreases |s|
  {
    if s == [] {
      assert [x] + s == [x] && [y] + i == [y] && Init([x]) == [] && Init([y]) == [];
      assert Under([], []) == [];
    } else {
      InitOfSum([x], s); InitOfSum([y], i);
      UnderFront(x, Init(s), y, Init(i));
    }
  }

  lemma LeadFront(x: nat, s: seq<nat>)
    requires |s| >= 2
    ensures Lead([x] + s) == [x] + Lead(s) && Last([x] + s) == Last(s) && ([x] + s)[|s| - 1] == s[|s| - 2]
  {
  }

  // An entry of a stack or of joined stacks is one of a part, whose factors are those of the whole.
  lemma PartEntry(m: Lora, p: Lora, i: seq<nat>, j: seq<nat>, u: seq<nat>)
    requires Factored(m) && Factored(p) && |i| == |m.a.shape| && |j| == |p.a.shape| && Rank(m) == Rank(p)
    requires forall k: nat :: k < Rank(p) ==> m.b.at(Init(i) + [k]) == p.b.at(Init(j) + [k])
    requires u == Under(Lead(m.a.shape), Lead(i))
    requires forall k: nat :: k < Rank(p) ==> m.a.at(u + [k, Last(i)]) == p.a.at(Under(Lead(p.a.shape), Lead(j)) + [k, Last(j)])
    ensures Entry(m, i) == Entry(p, j)
  {
    forall k: nat | k < Rank(p)
      ensures InRow(m.b, i, k) == InRow(p.b, j, k) && InColumn(m.a, i, k) == InColumn(p.a, j, k)
    {
    }
    EntrySame(m, i, p, j);
  }

  lemma CoversFront(x: nat, a: seq<nat>, b: seq<nat>)
    requires Covers(a, b)
    ensures Covers([x] + a, [x] + b)
  {
  }

  lemma StackedEntry(ls: seq<Lora>, m: Lora, x: nat, j: seq<nat>)
    requires AllFactored(ls) && SameShapes(As(ls)) && SameShapes(Bs(ls))
    requires m == Lora(Stack(As(ls)), Stack(Bs(ls))) && Factored(m) && x < |ls| && |j| == |ls[0].a.shape|
    ensures Entry(m, [x] + j) == Entry(ls[x], j)
  {
    var i, p := [x] + j, ls[x];
    assert p.a.shape == As(ls)[x].shape == As(ls)[0].shape && p.b.shape == Bs(ls)[x].shape == Bs(ls)[0].shape;
    LeadFront(|ls|, p.a.shape);
    LeadFront(x, j);
    UnderFront(|ls|, Lead(p.a.shape), x, Lead(j));
    var u := Under(Lead(p.a.shape), Lead(j));
    forall k: nat | k < Rank(p)
      ensures m.b.at(Init(i) + [k]) == p.b.at(Init(j) + [k])
      ensures m.a.at([x] + u + [k, Last(i)]) == p.a.at(u + [k, Last(j)])
    {
      assert Init(i) + [k] == [x] + (Init(j) + [k]) && [x] + u + [k, Last(i)] == [x] + (u + [k, Last(j)]);
    }
    PartEntry(m, p, i, j, [x] + u);
  }

  /** Stacking the factors stacks the products. */
  lemma StackCommutes(ls: seq<Lora>)
    requires AllFactored(ls) && SameShapes(As(ls)) && SameShapes(Bs(ls))
    ensures var r := StackLora(ls);
            r.Some? && Factored(r.value) && Same(Product(r.value), Stack(Products(ls)))
  {
    var m := Lora(Stack(As(ls)), Stack(Bs(ls)));
    LeadFront(|ls|, ls[0].a.shape);
    LeadFront(|ls|, ls[0].b.shape);
    CoversFront(|ls|, Lead(ls[0].a.shape), Lead(ls[0].b.shape));
    assert Shape(m) == [|ls|] + Shape(ls[0]);
    forall i: seq<nat> | InRange(i, Shape(m))
      ensures Product(m).at(i) == Stack(Products(ls)).at(i)
    {
      assert i == [i[0]] + i[1..] && ls[i[0]].a.shape == As(ls)[i[0]].shape;
      StackedEntry(ls, m, i[0], i[1..]);
    }
  }
}
