/** Tensors of exact numbers: a shape, and an entry for every index within it. The operations
    are those of torch that the converters use; what torch refuses is None. */
module Tensors {

  datatype Option<T> = None | Some(value: T)

  datatype Tensor = Tensor(shape: seq<nat>, at: seq<nat> -> real)

  predicate InRange(i: seq<nat>, shape: seq<nat>) {
    |i| == |shape| && forall d :: 0 <= d < |i| ==> i[d] < shape[d]
  }

  // The same shape and the same entries.
  ghost predicate Same(t: Tensor, u: Tensor) {
    t.shape == u.shape && forall i :: InRange(i, t.shape) ==> t.at(i) == u.at(i)
  }

  // Everything but the last element.
  function Init<T>(s: seq<T>): seq<T>
    requires s != []
  {
    s[..|s| - 1]
  }

  function Last<T>(s: seq<T>): T
    requires s != []
  {
    s[|s| - 1]
  }

  lemma InitOfAppend<T>(s: seq<T>, x: T)
    ensures Init(s + [x]) == s && Last(s + [x]) == x
  {
  }

  lemma InRangeAppend(i: seq<nat>, shape: seq<nat>, x: nat, n: nat)
    ensures InRange(i + [x], shape + [n]) <==> InRange(i, shape) && x < n
  {
    assert |i| == |shape| ==> (i + [x])[|i|] == x && (shape + [n])[|i|] == n;
    assert |i| == |shape| ==> forall d :: 0 <= d < |i| ==> (i + [x])[d] == i[d] && (shape + [n])[d] == shape[d];
  }

  lemma InRangeInit(i: seq<nat>, shape: seq<nat>)
    requires InRange(i, shape) && shape != []
    ensures InRange(Init(i), Init(shape)) && Last(i) < Last(shape)
  {
  }

  // ----- reshape: the entries in row-major order stay -----

  function Prod(shape: seq<nat>): nat {
    if shape == [] then 1 else Prod(Init(shape)) * Last(shape)
  }

  // The position of an index in row-major order.
  function Ravel(shape: seq<nat>, i: seq<nat>): nat
    requires |i| == |shape|
  {
    if shape == [] then 0 else Ravel(Init(shape), Init(i)) * Last(shape) + Last(i)
  }

  // The index at a position in row-major order.
  function Unravel(shape: seq<nat>, x: nat): (i: seq<nat>)
    ensures |i| == |shape|
  {
    if shape == [] then []
    else if Last(shape) == 0 then Unravel(Init(shape), 0) + [0]
    else Unravel(Init(shape), x / Last(shape)) + [x % Last(shape)]
  }

  function ReshapedAt(t: Tensor, shape: seq<nat>, i: seq<nat>): real {
    if |i| == |shape| then t.at(Unravel(t.shape, Ravel(shape, i))) else 0.0
  }

  function Reshape(t: Tensor, shape: seq<nat>): Tensor {
    Tensor(shape, i => ReshapedAt(t, shape, i))
  }

  function TorchReshape(t: Tensor, shape: seq<nat>): Option<Tensor> {
    if Prod(shape) == Prod(t.shape) then Some(Reshape(t, shape)) else None
  }

  lemma TimesMonotone(a: nat, b: nat, n: nat)
    ensures a < b ==> a * n + n <= b * n
  {
    if a < b { assert b * n == (a + 1) * n + (b - a - 1) * n; }
  }

  lemma Below(q: nat, m: nat, n: nat, r: nat)
    requires q < m && r < n
    ensures q * n + r < m * n
  {
    TimesMonotone(q, m, n);
  }

  lemma DivMod(q: nat, n: nat, r: nat)
    requires r < n
    ensures (q * n + r) / n == q && (q * n + r) % n == r
  {
    var d := (q * n + r) / n;
    assert q * n + r == d * n + (q * n + r) % n;
    TimesMonotone(d, q, n);
    TimesMonotone(q, d, n);
  }

  lemma QuotientBelow(x: nat, m: nat, n: nat)
    requires n > 0 && x < m * n
    ensures x / n < m && x / n * n + x % n == x
  {
    assert x == x / n * n + x % n;
    TimesMonotone(m, x / n, n);
  }

  lemma {:induction false} RavelInRange(shape: seq<nat>, i: seq<nat>)
    requires InRange(i, shape)
    ensures Ravel(shape, i) < Prod(shape) && Unravel(shape, Ravel(shape, i)) == i
    decreases |shape|
  {
    if shape != [] {
      InRangeInit(i, shape);
      RavelInRange(Init(shape), Init(i));
      Below(Ravel(Init(shape), Init(i)), Prod(Init(shape)), Last(shape), Last(i));
      DivMod(Ravel(Init(shape), Init(i)), Last(shape), Last(i));
      assert i == Init(i) + [Last(i)];
    }
  }

  lemma {:induction false} UnravelInRange(shape: seq<nat>, x: nat)
    requires x < Prod(shape)
    ensures InRange(Unravel(shape, x), shape) && Ravel(shape, Unravel(shape, x)) == x
    decreases |shape|
  {
    if shape != [] {
      assert Last(shape) == 0 ==> Prod(Init(shape)) * Last(shape) == 0;
      QuotientBelow(x, Prod(Init(shape)), Last(shape));
      UnravelInRange(Init(shape), x / Last(shape));
      var front, r := Unravel(Init(shape), x / Last(shape)), x % Last(shape);
      InitOfAppend(front, r);
      InRangeAppend(front, Init(shape), r, Last(shape));
      assert shape == Init(shape) + [Last(shape)];
    }
  }

  lemma ReshapeSame(t: Tensor, u: Tensor, shape: seq<nat>)
    requires Same(t, u) && Prod(shape) == Prod(t.shape)
    ensures Same(Reshape(t, shape), Reshape(u, shape))
  {
    forall i | InRange(i, shape)
      ensures Reshape(t, shape).at(i) == Reshape(u, shape).at(i)
    {
      RavelInRange(shape, i);
      UnravelInRange(t.shape, Ravel(shape, i));
    }
  }

  /** Reshaping back restores the tensor. */
  lemma ReshapeBack(t: Tensor, shape: seq<nat>)
    requires Prod(shape) == Prod(t.shape)
    ensures Same(Reshape(Reshape(t, shape), t.shape), t)
  {
    forall i | InRange(i, t.shape)
      ensures Reshape(Reshape(t, shape), t.shape).at(i) == t.at(i)
    {
      RavelInRange(t.shape, i);
      UnravelInRange(shape, Ravel(t.shape, i));
    }
  }

  lemma SameTrans(t: Tensor, u: Tensor, v: Tensor)
    requires Same(t, u) && Same(u, v)
    ensures Same(t, v)
  {
  }

  // Positions agree on a longer shape when they agree on its front.
  lemma {:induction false} RavelSuffix(p: seq<nat>, pi: seq<nat>, q: seq<nat>, qi: seq<nat>, rest: seq<nat>, ri: seq<nat>)
    requires |p| == |pi| && |q| == |qi| && |rest| == |ri| && Ravel(p, pi) == Ravel(q, qi)
    ensures Ravel(p + rest, pi + ri) == Ravel(q + rest, qi + ri)
    decreases |rest|
  {
    if rest == [] {
      assert p + rest == p && pi + ri == pi && q + rest == q && qi + ri == qi;
    } else {
      RavelSuffix(p, pi, q, qi, Init(rest), Init(ri));
      InitOfSum(p, rest); InitOfSum(q, rest); InitOfSum(pi, ri); InitOfSum(qi, ri);
    }
  }

  lemma InitOfSum<T>(s: seq<T>, t: seq<T>)
    requires t != []
    ensures s + t != [] && Init(s + t) == s + Init(t) && Last(s + t) == Last(t)
  {
  }

  lemma {:induction false} ProdSuffix(p: seq<nat>, q: seq<nat>, rest: seq<nat>)
    requires Prod(p) == Prod(q)
    ensures Prod(p + rest) == Prod(q + rest)
    decreases |rest|
  {
    if rest == [] {
      assert p + rest == p && q + rest == q;
    } else {
      ProdSuffix(p, q, Init(rest));
      InitOfSum(p, rest); InitOfSum(q, rest);
    }
  }

  // ----- permute -----

  predicate IsPermutation(dims: seq<nat>) {
    && (forall d :: 0 <= d < |dims| ==> dims[d] < |dims|)
    && (forall d, e :: 0 <= d < e < |dims| ==> dims[d] != dims[e])
    && (forall d: nat :: d < |dims| ==> d in dims)
  }

  function Find(s: seq<nat>, x: nat): (p: nat)
    requires x in s
    ensures p < |s| && s[p] == x
  {
    if s[0] == x then 0 else 1 + Find(s[1..], x)
  }

  // The index in the tensor of the index i in the permuted one: dimension dims[d] there is d here.
  function Scatter(dims: seq<nat>, i: seq<nat>): (j: seq<nat>)
    requires IsPermutation(dims) && |i| == |dims|
    ensures |j| == |i|
    ensures forall d :: 0 <= d < |dims| ==> j[dims[d]] == i[d]
  {
    var j := seq(|dims|, d requires 0 <= d < |dims| => i[Find(dims, d)]);
    assert forall d :: 0 <= d < |dims| ==> Find(dims, dims[d]) == d;
    j
  }

  function Gather(dims: seq<nat>, shape: seq<nat>): (s: seq<nat>)
    requires IsPermutation(dims) && |shape| == |dims|
    ensures |s| == |shape| && forall d :: 0 <= d < |dims| ==> s[d] == shape[dims[d]]
  {
    seq(|dims|, d requires 0 <= d < |dims| => shape[dims[d]])
  }

  function PermutedAt(t: Tensor, dims: seq<nat>, i: seq<nat>): real
    requires IsPermutation(dims)
  {
    if |i| == |dims| then t.at(Scatter(dims, i)) else 0.0
  }

  function Permute(t: Tensor, dims: seq<nat>): Tensor
    requires IsPermutation(dims) && |t.shape| == |dims|
  {
    Tensor(Gather(dims, t.shape), i => PermutedAt(t, dims, i))
  }

  lemma ScatterInRange(dims: seq<nat>, shape: seq<nat>, i: seq<nat>)
    requires IsPermutation(dims) && |shape| == |dims| && InRange(i, Gather(dims, shape))
    ensures InRange(Scatter(dims, i), shape)
  {
    var j := Scatter(dims, i);
    forall d | 0 <= d < |j|
      ensures j[d] < shape[d]
    {
      assert d in dims;
      var e := Find(dims, d);
      assert j[dims[e]] == i[e];
    }
  }

  lemma PermuteSame(t: Tensor, u: Tensor, dims: seq<nat>)
    requires Same(t, u) && IsPermutation(dims) && |t.shape| == |dims|
    ensures Same(Permute(t, dims), Permute(u, dims))
  {
    forall i | InRange(i, Gather(dims, t.shape))
      ensures Permute(t, dims).at(i) == Permute(u, dims).at(i)
    {
      ScatterInRange(dims, t.shape, i);
    }
  }

  // A dimension counted from the end when negative.
  function Wrap(d: int, n: nat): int { if d < 0 then d + n else d }

  function Wrapped(dims: seq<int>, n: nat): (w: seq<int>)
    ensures |w| == |dims| && forall d :: 0 <= d < |dims| ==> w[d] == Wrap(dims[d], n)
  {
    seq(|dims|, d requires 0 <= d < |dims| => Wrap(dims[d], n))
  }

  function Nats(s: seq<int>): (r: seq<nat>)
    requires forall d :: 0 <= d < |s| ==> s[d] >= 0
    ensures |r| == |s| && forall d :: 0 <= d < |s| ==> r[d] == s[d]
  {
    seq(|s|, d requires 0 <= d < |s| => s[d])
  }

  predicate LegalDims(dims: seq<int>, n: nat) {
    var w := Wrapped(dims, n);
    |dims| == n && (forall d :: 0 <= d < n ==> w[d] >= 0) && IsPermutation(Nats(w))
  }

  function TorchPermute(t: Tensor, dims: seq<int>): Option<Tensor> {
    if LegalDims(dims, |t.shape|) then Some(Permute(t, Nats(Wrapped(dims, |t.shape|)))) else None
  }

  // The dimensions in order, with two exchanged.
  function SwapDims(n: nat, d0: nat, d1: nat): (dims: seq<nat>)
    requires d0 < n && d1 < n
    ensures |dims| == n && IsPermutation(dims) && dims[d0] == d1 && dims[d1] == d0
    ensures forall d :: 0 <= d < n ==> dims[d] == if d == d0 then d1 else if d == d1 then d0 else d
  {
    var dims: seq<nat> := seq(n, d requires 0 <= d < n => if d == d0 then d1 else if d == d1 then d0 else d);
    assert forall d: nat :: d < n ==> d in dims by {
      forall d: nat | d < n
        ensures d in dims
      {
        assert dims[if d == d0 then d1 else if d == d1 then d0 else d] == d;
      }
    }
    dims
  }

  function Transpose(t: Tensor, d0: nat, d1: nat): Tensor
    requires d0 < |t.shape| && d1 < |t.shape|
  {
    Permute(t, SwapDims(|t.shape|, d0, d1))
  }

  lemma ScatterSwapped(n: nat, d0: nat, d1: nat, i: seq<nat>)
    requires d0 < n && d1 < n && |i| == n
    ensures Scatter(SwapDims(n, d0, d1), i) == i[d0 := i[d1]][d1 := i[d0]] == Gather(SwapDims(n, d0, d1), i)
  {
    var dims := SwapDims(n, d0, d1);
    var j := Scatter(dims, i);
    forall d | 0 <= d < n
      ensures j[d] == i[dims[d]]
    {
      assert dims[dims[d]] == d;
    }
  }

  /** Transposing twice restores the tensor. */
  lemma TransposeBack(t: Tensor, d0: nat, d1: nat)
    requires d0 < |t.shape| && d1 < |t.shape|
    ensures Same(Transpose(Transpose(t, d0, d1), d0, d1), t)
  {
    var n := |t.shape|;
    var u := Transpose(t, d0, d1);
    ScatterSwapped(n, d0, d1, t.shape);
    ScatterSwapped(n, d0, d1, u.shape);
    assert Transpose(u, d0, d1).shape == t.shape;
    forall i | InRange(i, t.shape)
      ensures Transpose(u, d0, d1).at(i) == t.at(i)
    {
      ScatterSwapped(n, d0, d1, i);
      ScatterSwapped(n, d0, d1, Scatter(SwapDims(n, d0, d1), i));
      assert i[d0 := i[d1]][d1 := i[d0]][d0 := i[d0]][d1 := i[d1]] == i;
    }
  }

  // ----- indexing -----

  datatype Item = At(i: int) | Slice(lo: Option<int>, hi: Option<int>, step: int) | Ellipsis

  const Full := Slice(None, None, 1)

  function Bound(x: int, n: nat): (b: nat)
    ensures b <= n
  {
    var y := if x < 0 then x + n else x;
    if y < 0 then 0 else if y > n then n else y
  }

  // The first index that a slice takes of a dimension of size n, and how many.
  function Start(it: Item, n: nat): (b: nat)
    requires it.Slice?
    ensures b <= n
  {
    if it.lo.None? then 0 else Bound(it.lo.value, n)
  }

  function Count(it: Item, n: nat): nat
    requires it.Slice? && it.step > 0
  {
    var lo := Start(it, n);
    var hi := if it.hi.None? then n else Bound(it.hi.value, n);
    if hi <= lo then 0 else (hi - lo - 1) / it.step + 1
  }

  predicate LegalItem(it: Item, n: nat) {
    match it
    case At(i) => 0 <= i + n && i < n
    case Slice(_, _, step) => step > 0
    case Ellipsis => false
  }

  // The index in a dimension of size n that item it and the index x of its slice denote.
  function Chosen(it: Item, n: nat, x: nat): nat
    requires LegalItem(it, n)
  {
    match it
    case At(i) => Wrap(i, n)
    case Slice(_, _, step) => Start(it, n) + x * step
  }

  lemma ChosenInRange(it: Item, n: nat, x: nat)
    requires LegalItem(it, n) && (it.Slice? ==> x < Count(it, n))
    ensures Chosen(it, n, x) < n
  {
    if it.Slice? {
      var lo := Start(it, n);
      var hi := if it.hi.None? then n else Bound(it.hi.value, n);
      var q := (hi - lo - 1) / it.step;
      assert q * it.step <= hi - lo - 1;
      assert x * it.step <= q * it.step;
    }
  }

  // A slice of a whole dimension takes it as it is.
  lemma WholeSlice(it: Item, n: nat, x: nat)
    requires it.Slice? && it.step > 0 && x < n && Count(it, n) == n
    ensures Chosen(it, n, x) == x
  {
    var lo := Start(it, n);
    var hi := if it.hi.None? then n else Bound(it.hi.value, n);
    QuotientSmall(hi - lo - 1, it.step, n);
  }

  lemma QuotientSmall(x: nat, step: int, n: nat)
    requires step > 0 && n > 0 && x < n && x / step + 1 == n
    ensures x == n - 1 && (step == 1 || n == 1)
  {
    var q := x / step;
    assert x == q * step + x % step;
    Small(q, step, x % step, x, n);
  }

  lemma Small(q: nat, step: nat, r: nat, x: nat, n: nat)
    requires step > 0 && x == q * step + r && x < n == q + 1
    ensures x == n - 1 && (step == 1 || n == 1)
  {
    TimesMonotone(1, step, q);
    TimesMonotone(0, step, q);
    if step == 1 { assert q * step == q; }
  }

  predicate LegalItems(items: seq<Item>, shape: seq<nat>) {
    |items| == |shape| && forall d :: 0 <= d < |items| ==> LegalItem(items[d], shape[d])
  }

  function SelectShape(items: seq<Item>, shape: seq<nat>): seq<nat>
    requires LegalItems(items, shape)
  {
    if items == [] then []
    else
      var front := SelectShape(Init(items), Init(shape));
      if Last(items).At? then front else front + [Count(Last(items), Last(shape))]
  }

  // The index in the tensor of the index i in the selection.
  function Pick(items: seq<Item>, shape: seq<nat>, i: seq<nat>): (j: seq<nat>)
    requires LegalItems(items, shape) && |i| == |SelectShape(items, shape)|
    ensures |j| == |shape|
  {
    if items == [] then []
    else if Last(items).At? then
      Pick(Init(items), Init(shape), i) + [Chosen(Last(items), Last(shape), 0)]
    else
      Pick(Init(items), Init(shape), Init(i)) + [Chosen(Last(items), Last(shape), Last(i))]
  }

  function SelectedAt(t: Tensor, items: seq<Item>, i: seq<nat>): real
    requires LegalItems(items, t.shape)
  {
    if |i| == |SelectShape(items, t.shape)| then t.at(Pick(items, t.shape, i)) else 0.0
  }

  function Select(t: Tensor, items: seq<Item>): Tensor
    requires LegalItems(items, t.shape)
  {
    Tensor(SelectShape(items, t.shape), i => SelectedAt(t, items, i))
  }

  function Fulls(n: nat): (s: seq<Item>)
    ensures |s| == n && forall d :: 0 <= d < n ==> s[d] == Full
  {
    seq(n, _ => Full)
  }

  function Padded(items: seq<Item>, n: nat): seq<Item> {
    if |items| < n then items + Fulls(n - |items|) else items
  }

  function TorchIndex(t: Tensor, items: seq<Item>): Option<Tensor> {
    var p := Padded(items, |t.shape|);
    if LegalItems(p, t.shape) then Some(Select(t, p)) else None
  }

  // ----- stack and cat, along dimension 0 -----

  predicate SameShapes(ts: seq<Tensor>) {
    ts != [] && forall k :: 0 <= k < |ts| ==> ts[k].shape == ts[0].shape
  }

  function StackedAt(ts: seq<Tensor>, i: seq<nat>): real {
    if i != [] && i[0] < |ts| then ts[i[0]].at(i[1..]) else 0.0
  }

  function Stack(ts: seq<Tensor>): Tensor
    requires ts != []
  {
    Tensor([|ts|] + ts[0].shape, i => StackedAt(ts, i))
  }

  // The sizes agree but for dimension 0.
  predicate Catable(ts: seq<Tensor>) {
    && ts != []
    && (forall k :: 0 <= k < |ts| ==> ts[k].shape != [])
    && (forall k :: 0 <= k < |ts| ==> ts[k].shape[1..] == ts[0].shape[1..])
  }

  function Rows(ts: seq<Tensor>): nat
    requires forall k :: 0 <= k < |ts| ==> ts[k].shape != []
  {
    if ts == [] then 0 else ts[0].shape[0] + Rows(ts[1..])
  }

  function CatAt(ts: seq<Tensor>, i: seq<nat>): real
    requires forall k :: 0 <= k < |ts| ==> ts[k].shape != []
  {
    if ts == [] || i == [] then 0.0
    else if i[0] < ts[0].shape[0] then ts[0].at(i)
    else CatAt(ts[1..], [i[0] - ts[0].shape[0]] + i[1..])
  }

  function Cat(ts: seq<Tensor>): Tensor
    requires Catable(ts)
  {
    Tensor([Rows(ts)] + ts[0].shape[1..], i => CatAt(ts, i))
  }
}
