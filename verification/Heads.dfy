/** The head reorderings of convert_hf_to_gguf.py: two neighbouring dimensions of a split
    dimension exchange places. */
module Heads {
  import opened Tensors
  import opened Lora
  import opened LoraShapes

  // ----- exchanging two neighbouring dimensions -----

  function Split(pre: seq<nat>, x: nat, y: nat, post: seq<nat>): seq<nat> { pre + [x, y] + post }

  // Reshape, exchange dimensions p and p + 1, and reshape back.
  function Exchange(t: Tensor, shape: seq<nat>, p: nat): Option<Tensor>
    requires p + 1 < |shape|
  {
    match TorchReshape(t, shape)
    case None => None
    case Some(x) => TorchReshape(Transpose(x, p, p + 1), t.shape)
  }

  lemma SplitSwapped(pre: seq<nat>, x: nat, y: nat, post: seq<nat>)
    ensures var s, p := Split(pre, x, y, post), |pre|;
            && Gather(SwapDims(|s|, p, p + 1), s) == Split(pre, y, x, post)
            && Scatter(SwapDims(|s|, p, p + 1), s) == Split(pre, y, x, post)
  {
    var s, p := Split(pre, x, y, post), |pre|;
    ScatterSwapped(|s|, p, p + 1, s);
    assert s[p := s[p + 1]][p + 1 := s[p]] == Split(pre, y, x, post);
  }

  lemma ProdSwapped(pre: seq<nat>, x: nat, y: nat, post: seq<nat>)
    ensures Prod(Split(pre, x, y, post)) == Prod(Split(pre, y, x, post))
  {
    ProdTwo(pre, x, y);
    ProdTwo(pre, y, x);
    TimesCommute(Prod(pre), x, y);
    ProdSuffix(pre + [x, y], pre + [y, x], post);
  }

  lemma ProdTwo(pre: seq<nat>, x: nat, y: nat)
    ensures Prod(pre + [x, y]) == Prod(pre) * x * y
  {
    assert pre + [x, y] == pre + [x] + [y];
    InitOfAppend(pre + [x], y);
    InitOfAppend(pre, x);
  }

  lemma TimesCommute(n: nat, x: nat, y: nat)
    ensures n * x * y == n * y * x
  {
  }

  // Reshaping back after the exchange is always possible.
  lemma Exchanged(t: Tensor, pre: seq<nat>, x: nat, y: nat, post: seq<nat>)
    requires Prod(Split(pre, x, y, post)) == Prod(t.shape)
    ensures var u := Transpose(Reshape(t, Split(pre, x, y, post)), |pre|, |pre| + 1);
            && u.shape == Split(pre, y, x, post) && Prod(u.shape) == Prod(t.shape)
            && Exchange(t, Split(pre, x, y, post), |pre|) == Some(Reshape(u, t.shape))
  {
    SplitSwapped(pre, x, y, post);
    ProdSwapped(pre, x, y, post);
  }

  /** Exchanging back with the two sizes exchanged restores the tensor. */
  lemma ExchangeUndone(t: Tensor, pre: seq<nat>, x: nat, y: nat, post: seq<nat>)
    requires Prod(Split(pre, x, y, post)) == Prod(t.shape)
    ensures var r := Exchange(t, Split(pre, x, y, post), |pre|);
            && r.Some? && r.value.shape == t.shape
            && var b := Exchange(r.value, Split(pre, y, x, post), |pre|);
               b.Some? && Same(b.value, t)
  {
    var s, s', p := Split(pre, x, y, post), Split(pre, y, x, post), |pre|;
    Exchanged(t, pre, x, y, post);
    var v := Reshape(t, s);
    var u := Transpose(v, p, p + 1);
    var r := Reshape(u, t.shape);
    ProdSwapped(pre, x, y, post);
    Exchanged(r, pre, y, x, post);
    ReshapeBack(u, t.shape);
    PermuteSame(Reshape(r, s'), u, SwapDims(|s'|, p, p + 1));
    TransposeBack(v, p, p + 1);
    ReshapeSame(Transpose(Reshape(r, s'), p, p + 1), v, t.shape);
    ReshapeBack(t, s);
  }

  // ----- where an entry goes -----

  lemma RavelTwo(front: seq<nat>, p: nat, q: nat, f: seq<nat>, a: nat, b: nat)
    requires |f| == |front|
    ensures Ravel(front + [p, q], f + [a, b]) == (Ravel(front, f) * p + a) * q + b
  {
    RavelLast(front, p, f, a);
    RavelLast(front + [p], q, f + [a], b);
    assert front + [p, q] == front + [p] + [q] && f + [a, b] == f + [a] + [b];
  }

  // Sizes and positions that agree whatever comes before.
  ghost predicate Agree(m: nat, r: nat, p: nat, q: nat, a: nat, b: nat) {
    forall x: nat {:trigger Front(x)} :: Front(x) ==> x * m + r == (x * p + a) * q + b
  }

  ghost predicate Front(x: nat) { true }

  lemma Agrees(p: nat, q: nat, m: nat, a: nat, b: nat, r: nat)
    requires m == p * q && r == a * q + b
    ensures Agree(m, r, p, q, a, b)
  {
    forall x: nat | Front(x)
      ensures x * m + r == (x * p + a) * q + b
    {
      Distribute(x, p, q, m, a, b, r);
    }
  }

  lemma RavelSplit(front: seq<nat>, p: nat, q: nat, m: nat, f: seq<nat>, a: nat, b: nat, r: nat)
    requires |f| == |front| && Agree(m, r, p, q, a, b)
    ensures Ravel(front + [m], f + [r]) == Ravel(front + [p, q], f + [a, b])
  {
    var x := RavelBoth(front, p, q, m, f, a, b, r);
    assert Front(x);
  }

  lemma RavelBoth(front: seq<nat>, p: nat, q: nat, m: nat, f: seq<nat>, a: nat, b: nat, r: nat) returns (x: nat)
    requires |f| == |front|
    ensures Ravel(front + [m], f + [r]) == x * m + r && Ravel(front + [p, q], f + [a, b]) == (x * p + a) * q + b
  {
    x := Ravel(front, f);
    RavelLast(front, m, f, r);
    RavelTwo(front, p, q, f, a, b);
  }

  lemma Distribute(x: nat, p: nat, q: nat, m: nat, a: nat, b: nat, r: nat)
    requires m == p * q && r == a * q + b
    ensures x * m + r == (x * p + a) * q + b
  {
    assert (x * p + a) * q == x * p * q + a * q;
    assert x * (p * q) == x * p * q;
  }

  lemma RavelChain(front: seq<nat>, n: nat, x: nat, y: nat, z: nat, f: seq<nat>, s: nat, a: nat, b: nat, c: nat)
    requires |f| == |front| && Ravel(front + [n], f + [s]) == Ravel(front + [x, y], f + [a, b])
    ensures Ravel(front + [n, z], f + [s, c]) == Ravel(front + [x, y, z], f + [a, b, c])
  {
    RavelSuffix(front + [n], f + [s], front + [x, y], f + [a, b], [z], [c]);
    assert front + [n] + [z] == front + [n, z] && front + [x, y] + [z] == front + [x, y, z];
    assert f + [s] + [c] == f + [s, c] && f + [a, b] + [c] == f + [a, b, c];
  }

  lemma RavelTwice(front: seq<nat>, x: nat, y: nat, z: nat, n: nat, m: nat, back: seq<nat>, f: seq<nat>, a: nat, b: nat, c: nat, s: nat, r: nat, g: seq<nat>)
    requires |f| == |front| && |g| == |back|
    requires Ravel(front + [m], f + [r]) == Ravel(front + [n, z], f + [s, c])
    requires Ravel(front + [n], f + [s]) == Ravel(front + [x, y], f + [a, b])
    ensures Ravel(front + [m] + back, f + [r] + g) == Ravel(front + [x, y, z] + back, f + [a, b, c] + g)
  {
    RavelChain(front, n, x, y, z, f, s, a, b, c);
    RavelSuffix(front + [m], f + [r], front + [x, y, z], f + [a, b, c], back, g);
  }

  lemma RavelThreeBy(front: seq<nat>, x: nat, y: nat, z: nat, n: nat, m: nat, back: seq<nat>, f: seq<nat>, a: nat, b: nat, c: nat, s: nat, r: nat, g: seq<nat>)
    requires |f| == |front| && |g| == |back| && Agree(n, s, x, y, a, b) && Agree(m, r, n, z, s, c)
    ensures Ravel(front + [m] + back, f + [r] + g) == Ravel(front + [x, y, z] + back, f + [a, b, c] + g)
  {
    RavelSplit(front, n, z, m, f, s, c, r);
    RavelSplit(front, x, y, n, f, a, b, s);
    RavelTwice(front, x, y, z, n, m, back, f, a, b, c, s, r, g);
  }

  lemma Stages(x: nat, y: nat, z: nat, m: nat, a: nat, b: nat, c: nat, r: nat) returns (n: nat, s: nat)
    requires m == x * y * z && r == (a * y + b) * z + c
    ensures Agree(n, s, x, y, a, b) && Agree(m, r, n, z, s, c)
  {
    n, s := x * y, a * y + b;
    Agrees(x, y, n, a, b, s);
    Agrees(n, z, m, s, c, r);
  }

  // One dimension split in three, with others around it.
  lemma RavelThree(front: seq<nat>, x: nat, y: nat, z: nat, m: nat, back: seq<nat>, f: seq<nat>, a: nat, b: nat, c: nat, r: nat, g: seq<nat>)
    requires |f| == |front| && |g| == |back| && m == x * y * z && r == (a * y + b) * z + c
    ensures Ravel(front + [m] + back, f + [r] + g) == Ravel(front + [x, y, z] + back, f + [a, b, c] + g)
  {
    var n, s := Stages(x, y, z, m, a, b, c, r);
    RavelThreeBy(front, x, y, z, n, m, back, f, a, b, c, s, r, g);
  }

  // An entry of an exchange, by its index before and after in the split shapes.
  lemma ExchangedAt(t: Tensor, pre: seq<nat>, x: nat, y: nat, post: seq<nat>, f: seq<nat>, a: nat, b: nat, g: seq<nat>, i: seq<nat>, j: seq<nat>)
    requires Prod(Split(pre, x, y, post)) == Prod(t.shape)
    requires |f| == |pre| && |g| == |post| && InRange(Split(f, b, a, g), Split(pre, y, x, post))
    requires InRange(j, t.shape) && |i| == |j|
    requires Ravel(t.shape, i) == Ravel(Split(pre, y, x, post), Split(f, b, a, g))
    requires Ravel(t.shape, j) == Ravel(Split(pre, x, y, post), Split(f, a, b, g))
    ensures var r := Exchange(t, Split(pre, x, y, post), |pre|); r.Some? && r.value.at(i) == t.at(j)
  {
    Exchanged(t, pre, x, y, post);
    RavelInRange(Split(pre, y, x, post), Split(f, b, a, g));
    SplitSwapped(f, b, a, g);
    RavelInRange(t.shape, j);
  }

  // ----- LlamaModel.permute -----

  // The number of heads of a tensor: that of the keys and values when it is another.
  function HeadsOf(heads: nat, kv: Option<nat>): nat {
    if kv.Some? && kv.value != heads then kv.value else heads
  }

  function PermuteShape(shape: seq<nat>, n: nat): seq<nat>
    requires shape != [] && n > 0
  {
    [n, 2, shape[0] / n / 2] + shape[1..]
  }

  function LlamaPermute(t: Tensor, heads: nat, kv: Option<nat>): Option<Tensor> {
    var n := HeadsOf(heads, kv);
    if t.shape == [] || n == 0 then None else Exchange(t, PermuteShape(t.shape, n), 1)
  }

  lemma PermuteSplit(n: nat, h: nat, rest: seq<nat>)
    ensures [n, 2, h] + rest == Split([n], 2, h, rest) && [n, h, 2] + rest == Split([n], h, 2, rest)
  {
  }

  lemma ProdThree(front: seq<nat>, x: nat, y: nat, z: nat, back: seq<nat>)
    ensures Prod(front + [x * y * z] + back) == Prod(front + [x, y, z] + back)
  {
    ProdTwo(front, x, y);
    InitOfAppend(front, x * y * z);
    InitOfAppend(front + [x, y], z);
    assert front + [x, y] + [z] == front + [x, y, z];
    Associate(Prod(front), x, y, z);
    ProdSuffix(front + [x * y * z], front + [x, y, z], back);
  }

  lemma Associate(n: nat, x: nat, y: nat, z: nat)
    ensures n * (x * y * z) == n * x * y * z
  {
    assert n * (x * y * z) == n * (x * y) * z;
    assert n * (x * y) == n * x * y;
  }

  // Rows of n heads of 2 * h rows each.
  lemma PermuteSizes(n: nat, h: nat, rest: seq<nat>)
    requires n > 0
    ensures var shape := [n * 2 * h] + rest;
            && PermuteShape(shape, n) == [n, 2, h] + rest
            && Prod([n, 2, h] + rest) == Prod(shape)
  {
    assert n * 2 * h == 2 * h * n + 0;
    DivMod(2 * h, n, 0);
    ProdThree([], n, 2, h, rest);
    assert [] + [n * 2 * h] + rest == [n * 2 * h] + rest && [] + [n, 2, h] + rest == [n, 2, h] + rest;
  }

  /** The two halves of a head are interleaved: row j of half p of head a becomes row p of pair j. */
  lemma PermuteInterleaves(t: Tensor, heads: nat, kv: Option<nat>, n: nat, h: nat, rest: seq<nat>, a: nat, p: nat, j: nat, g: seq<nat>, to: nat, from: nat)
    requires n == (if kv.Some? then kv.value else heads) && n > 0 && t.shape == [n * 2 * h] + rest
    requires a < n && p < 2 && j < h && InRange(g, rest)
    requires to == (a * h + j) * 2 + p && from == (a * 2 + p) * h + j
    ensures var r := LlamaPermute(t, heads, kv);
            r.Some? && r.value.at([to] + g) == t.at([from] + g)
  {
    PermuteSizes(n, h, rest);
    PermuteSplit(n, h, rest);
    HeadRow(n, h, n * 2 * h, rest, a, p, j, g, to, from);
    ExchangedAt(t, [n], 2, h, rest, [a], p, j, g, [to] + g, [from] + g);
  }

  lemma HeadRow(n: nat, h: nat, m: nat, rest: seq<nat>, a: nat, p: nat, j: nat, g: seq<nat>, to: nat, from: nat)
    requires a < n && p < 2 && j < h && InRange(g, rest)
    requires m == n * 2 * h && to == (a * h + j) * 2 + p && from == (a * 2 + p) * h + j
    ensures var shape := [m] + rest;
            && InRange([from] + g, shape) && InRange(Split([a], j, p, g), Split([n], h, 2, rest))
            && Ravel(shape, [to] + g) == Ravel(Split([n], h, 2, rest), Split([a], j, p, g))
            && Ravel(shape, [from] + g) == Ravel(Split([n], 2, h, rest), Split([a], p, j, g))
  {
    RavelThree([], n, 2, h, m, rest, [], a, p, j, from, g);
    TimesCommute(n, 2, h);
    RavelThree([], n, h, 2, m, rest, [], a, j, p, to, g);
    Flat(m, n, 2, h, rest);
    Flat(from, a, p, j, g);
    Flat(m, n, h, 2, rest);
    Flat(to, a, j, p, g);
    Below(a, n, 2, p);
    Below(a * 2 + p, n * 2, h, j);
  }

  lemma Flat(m: nat, x: nat, y: nat, z: nat, rest: seq<nat>)
    ensures [] + [m] + rest == [m] + rest && [] + [x, y, z] + rest == Split([x], y, z, rest)
  {
  }

  /** permute is undone by the same reshaping with 2 and the half head size exchanged. */
  lemma PermuteUndone(t: Tensor, heads: nat, kv: Option<nat>, n: nat, h: nat, rest: seq<nat>)
    requires n == (if kv.Some? then kv.value else heads) && n > 0 && t.shape == [n * 2 * h] + rest
    ensures var r := LlamaPermute(t, heads, kv);
            && r.Some? && r.value.shape == t.shape
            && var b := Exchange(r.value, [n, h, 2] + rest, 1);
               b.Some? && Same(b.value, t)
  {
    PermuteSizes(n, h, rest);
    PermuteSplit(n, h, rest);
    ExchangeUndone(t, [n], 2, h, rest);
  }

  // ----- Qwen4ExpModel._reorder_v_heads -----

  function ReorderVHeads(t: Tensor, dim: int, k: nat, v: nat, size: nat): Option<Tensor> {
    var n := |t.shape|;
    var d := if dim < 0 then dim + n else dim;
    if d < 0 || d >= n then None
    else Exchange(t, t.shape[..d] + [k, v, size] + t.shape[d + 1..], d)
  }

  lemma ReorderSplit(front: seq<nat>, k: nat, v: nat, size: nat, back: seq<nat>)
    ensures front + [k, v, size] + back == Split(front, k, v, [size] + back)
  {
  }

  lemma AroundDim(front: seq<nat>, m: nat, back: seq<nat>)
    ensures var s := front + [m] + back; s[..|front|] == front && s[|front| + 1..] == back && s[|front|] == m
  {
  }

  lemma ReorderIs(t: Tensor, front: seq<nat>, back: seq<nat>, m: nat, dim: int, k: nat, v: nat, size: nat)
    requires t.shape == front + [m] + back && (dim == |front| || dim == |front| - |t.shape|)
    ensures ReorderVHeads(t, dim, k, v, size) == Exchange(t, Split(front, k, v, [size] + back), |front|)
  {
    AroundDim(front, m, back);
    ReorderSplit(front, k, v, size, back);
  }

  /** Reordering by (k, v) is undone by reordering by (v, k), along any dimension. */
  lemma ReorderUndone(t: Tensor, front: seq<nat>, back: seq<nat>, dim: int, k: nat, v: nat, size: nat)
    requires t.shape == front + [k * v * size] + back && (dim == |front| || dim == |front| - |t.shape|)
    ensures var r := ReorderVHeads(t, dim, k, v, size);
            && r.Some? && r.value.shape == t.shape
            && var b := ReorderVHeads(r.value, dim, v, k, size);
               b.Some? && Same(b.value, t)
  {
    ProdThree(front, k, v, size, back);
    ReorderIs(t, front, back, k * v * size, dim, k, v, size);
    ReorderSplit(front, k, v, size, back);
    ExchangeUndone(t, front, k, v, [size] + back);
    var r := ReorderVHeads(t, dim, k, v, size).value;
    ReorderIs(r, front, back, k * v * size, dim, v, k, size);
  }

  /** The v heads of each k head, together before, are spread over the k heads after. */
  lemma ReorderSpreads(t: Tensor, front: seq<nat>, m: nat, back: seq<nat>, dim: int, k: nat, v: nat, size: nat,
                       f: seq<nat>, a: nat, b: nat, c: nat, g: seq<nat>, to: nat, from: nat)
    requires m == k * v * size && t.shape == front + [m] + back && (dim == |front| || dim == |front| - |t.shape|)
    requires InRange(f, front) && a < k && b < v && c < size && InRange(g, back)
    requires to == (b * k + a) * size + c && from == (a * v + b) * size + c
    ensures var r := ReorderVHeads(t, dim, k, v, size);
            r.Some? && r.value.at(f + [to] + g) == t.at(f + [from] + g)
  {
    ProdThree(front, k, v, size, back);
    ReorderIs(t, front, back, m, dim, k, v, size);
    ReorderSplit(front, k, v, size, back);
    SpreadRows(front, k, v, size, m, back, f, a, b, c, g, to, from);
    SpreadInRange(front, k, v, size, m, back, f, a, b, c, g, from);
    ExchangedAt(t, front, k, v, [size] + back, f, a, b, [c] + g, f + [to] + g, f + [from] + g);
  }

  lemma SpreadRows(front: seq<nat>, k: nat, v: nat, size: nat, m: nat, back: seq<nat>,
                   f: seq<nat>, a: nat, b: nat, c: nat, g: seq<nat>, to: nat, from: nat)
    requires m == k * v * size && |f| == |front| && |g| == |back|
    requires to == (b * k + a) * size + c && from == (a * v + b) * size + c
    ensures Ravel(front + [m] + back, f + [to] + g) == Ravel(Split(front, v, k, [size] + back), Split(f, b, a, [c] + g))
    ensures Ravel(front + [m] + back, f + [from] + g) == Ravel(Split(front, k, v, [size] + back), Split(f, a, b, [c] + g))
  {
    RavelThree(front, k, v, size, m, back, f, a, b, c, from, g);
    assert v * k == k * v;
    RavelThree(front, v, k, size, m, back, f, b, a, c, to, g);
    ReorderSplit(front, k, v, size, back); ReorderSplit(f, a, b, c, g);
    ReorderSplit(front, v, k, size, back); ReorderSplit(f, b, a, c, g);
  }

  lemma SpreadInRange(front: seq<nat>, k: nat, v: nat, size: nat, m: nat, back: seq<nat>,
                      f: seq<nat>, a: nat, b: nat, c: nat, g: seq<nat>, from: nat)
    requires InRange(f, front) && a < k && b < v && c < size && InRange(g, back)
    requires m == k * v * size && from == (a * v + b) * size + c
    ensures InRange(f + [from] + g, front + [m] + back)
    ensures InRange(Split(f, b, a, [c] + g), Split(front, v, k, [size] + back))
  {
    Below(a, k, v, b);
    Below(a * v + b, k * v, size, c);
  }

  // ----- factored tensors through LlamaModel.permute -----

  function LlamaPermuteLora(l: Lora, heads: nat, kv: Option<nat>): Option<Lora>
    requires Factored(l)
  {
    var n := HeadsOf(heads, kv);
    if n == 0 then None
    else
      match ReshapeLora(l, PermuteShape(Shape(l), n))
      case None => None
      case Some(x) =>
        if !Factored(x) then None
        else
          match TransposeLora(x, 1, 2)
          case None => None
          case Some(y) => if Factored(y) then ReshapeLora(y, Shape(l)) else None
  }

  // Sizes that are all given are taken as they are.
  lemma GivenShape(l: Lora, shape: seq<nat>)
    requires Factored(l) && |shape| >= 2
    ensures ReshapeLora(l, shape) == ReshapeTo(l, shape)
  {
    assert Nats(shape) == shape;
  }

  // Two equal tensors are exchanged alike.
  lemma ExchangeSame(t: Tensor, u: Tensor, v: Tensor, w: Tensor, s: seq<nat>, p: nat)
    requires p + 1 < |s| && Prod(s) == Prod(t.shape) && Prod(w.shape) == Prod(t.shape)
    requires Same(u, Reshape(t, s)) && Same(v, Transpose(u, p, p + 1))
    requires Same(w, Reshape(v, t.shape)) && Prod(v.shape) == Prod(t.shape)
    ensures var r := Exchange(t, s, p); r.Some? && Same(w, r.value)
  {
    var x := Transpose(Reshape(t, s), p, p + 1);
    PermuteSame(u, Reshape(t, s), SwapDims(|s|, p, p + 1));
    SameTrans(v, Transpose(u, p, p + 1), x);
    ReshapeSame(v, x, t.shape);
    SameTrans(w, Reshape(v, t.shape), Reshape(x, t.shape));
  }

  /** Pushing a factored tensor through permute permutes the product: it is possible exactly when it
      is for the product and A is one matrix. */
  lemma PushedThroughPermute(l: Lora, heads: nat, kv: Option<nat>, n: nat)
    requires Factored(l) && Rank(l) > 0 && Last(Shape(l)) > 0 && n == (if kv.Some? then kv.value else heads)
    ensures var r, t := LlamaPermuteLora(l, heads, kv), LlamaPermute(Product(l), heads, kv);
            && t == (if n == 0 then None else Exchange(Product(l), [n, 2, Shape(l)[0] / n / 2] + Shape(l)[1..], 1))
            && (r.Some? <==> t.Some? && AllOnes(Lead(l.a.shape)))
            && (r.Some? ==> Factored(r.value) && Same(Product(r.value), t.value))
  {
    if n > 0 {
      PushedWith(l, n, PermuteShape(Shape(l), n));
    }
  }

  lemma PushedWith(l: Lora, n: nat, s: seq<nat>)
    requires Factored(l) && Rank(l) > 0 && Last(Shape(l)) > 0 && n > 0 && s == PermuteShape(Shape(l), n)
    ensures var x := ReshapeLora(l, s);
            (x.Some? <==> Prod(s) == Prod(Shape(l)) && AllOnes(Lead(l.a.shape))) && (x.Some? ==> Factored(x.value))
    ensures var x := ReshapeLora(l, s);
            x.Some? ==>
              var y := TransposeLora(x.value, 1, 2);
              y.Some? && Factored(y.value) &&
              var z := ReshapeLora(y.value, Shape(l));
              && z.Some? && Factored(z.value)
              && Exchange(Product(l), s, 1).Some? && Same(Product(z.value), Exchange(Product(l), s, 1).value)
  {
    GivenShape(l, s);
    ReshapeCommutes(l, s);
    LastOfSplit(n, Shape(l));
    if Prod(s) == Prod(Shape(l)) && AllOnes(Lead(l.a.shape)) {
      PushedBack(l, n, s, ReshapeTo(l, s).value);
    }
  }

  lemma LastOfSplit(n: nat, shape: seq<nat>)
    requires |shape| >= 2 && n > 0
    ensures Last(PermuteShape(shape, n)) == Last(shape)
  {
  }

  // The shapes of A's, and of the exchanged product.
  lemma PushedShapes(l: Lora, n: nat, s: seq<nat>, x: Lora)
    requires Factored(l) && n > 0 && s == PermuteShape(Shape(l), n) && ReshapeTo(l, s) == Some(x) && Factored(x) && Shape(x) == s
    ensures AllOnes(Lead(x.a.shape)) && Rank(x) == Rank(l) && |x.a.shape| == |s| >= 4
    ensures Transpose(Product(x), 1, 2).shape == [n, s[2], 2] + Shape(l)[1..]
  {
    LeadOf(Ones(|s| - 2), Rank(l), Last(s));
    InitOfAppend(Init(s), Rank(l));
    PermuteSplit(n, s[2], Shape(l)[1..]);
    SplitSwapped([n], 2, s[2], Shape(l)[1..]);
  }

  lemma PushedBack(l: Lora, n: nat, s: seq<nat>, x: Lora)
    requires Factored(l) && Rank(l) > 0 && Last(Shape(l)) > 0 && n > 0 && s == PermuteShape(Shape(l), n)
    requires ReshapeTo(l, s) == Some(x) && Factored(x) && Same(Product(x), Reshape(Product(l), s)) && Prod(s) == Prod(Shape(l))
    ensures var y := TransposeLora(x, 1, 2);
            y.Some? && Factored(y.value) &&
            var z := ReshapeLora(y.value, Shape(l));
            && z.Some? && Factored(z.value)
            && Exchange(Product(l), s, 1).Some? && Same(Product(z.value), Exchange(Product(l), s, 1).value)
  {
    PushedShapes(l, n, s, x);
    TransposeCommutes(x, 1, 2);
    var y := TransposeLora(x, 1, 2).value;
    PermuteSplit(n, s[2], Shape(l)[1..]);
    ProdSwapped([n], 2, s[2], Shape(l)[1..]);
    TransposedRest(l, n, x, y);
    GivenShape(y, Shape(l));
    ReshapeCommutes(y, Shape(l));
    ExchangeSame(Product(l), Product(x), Product(y), Product(ReshapeTo(y, Shape(l)).value), s, 1);
  }

  // What transposing keeps of A.
  lemma TransposedRest(l: Lora, n: nat, x: Lora, y: Lora)
    requires Factored(l) && Factored(x) && Factored(y) && AllOnes(Lead(x.a.shape)) && |x.a.shape| >= 4
    requires TransposeLora(x, 1, 2) == Some(y)
    ensures y.a == x.a && Rank(y) == Rank(x) && Last(Shape(y)) == Last(Shape(x))
  {
    var dims := SwapDims(|x.a.shape|, 1, 2);
    NatDims(dims);
    FromEndWraps(dims, |x.a.shape|);
    LastOfFromEnd(dims, |x.a.shape|);
  }
}
