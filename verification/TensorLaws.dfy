/** What the tensor operations mean: the order of the entries, what a slice takes, and where stacked
    and joined tensors are found again. */
module TensorLaws {
  import opened Tensors

  // ----- row-major order -----

  // i comes before j when dimensions are compared from the first.
  predicate Before(i: seq<nat>, j: seq<nat>)
    requires |i| == |j|
  {
    i != [] && (Before(Init(i), Init(j)) || (Init(i) == Init(j) && Last(i) < Last(j)))
  }

  /** Entries are numbered in the order of their indices, and reshaping keeps their numbers. */
  lemma {:induction false} RavelOrder(shape: seq<nat>, i: seq<nat>, j: seq<nat>)
    requires InRange(i, shape) && InRange(j, shape)
    ensures Ravel(shape, i) < Ravel(shape, j) <==> Before(i, j)
    ensures Ravel(shape, i) == Ravel(shape, j) <==> i == j
  {
    if shape == [] {
      assert i == j;
    } else {
      InRangeInit(i, shape); InRangeInit(j, shape);
      RavelOrder(Init(shape), Init(i), Init(j));
      var a, b, n := Ravel(Init(shape), Init(i)), Ravel(Init(shape), Init(j)), Last(shape);
      TimesMonotone(a, b, n); TimesMonotone(b, a, n);
      assert Init(i) == Init(j) && Last(i) == Last(j) ==> i == Init(i) + [Last(i)] == Init(j) + [Last(j)] == j;
    }
  }

  // ----- slices -----

  // Whether index i of n lies between the bounds, which count from the end when negative.
  predicate Within(it: Item, n: nat, i: nat)
    requires it.Slice?
  {
    && i < n
    && (it.lo.Some? ==> if it.lo.value >= 0 then i >= it.lo.value else i >= n + it.lo.value)
    && (it.hi.Some? ==> if it.hi.value >= 0 then i < it.hi.value else i < n + it.hi.value)
  }

  lemma BoundsOf(it: Item, n: nat, i: nat)
    requires it.Slice?
    ensures Within(it, n, i) <==> Start(it, n) <= i < End(it, n)
  {
  }

  function End(it: Item, n: nat): (e: nat)
    requires it.Slice?
    ensures e <= n
  {
    if it.hi.None? then n else Bound(it.hi.value, n)
  }

  // Of w indices, every step-th is taken: x is one of them exactly while x * step < w.
  lemma EveryStep(w: nat, step: nat, x: nat)
    requires step > 0
    ensures var c := if w == 0 then 0 else (w - 1) / step + 1; x < c <==> x * step < w
  {
    if w > 0 {
      var q := (w - 1) / step;
      assert q * step <= w - 1 < q * step + step by { assert w - 1 == q * step + (w - 1) % step; }
      TimesMonotone(x, q, step); TimesMonotone(q, x, step);
    } else {
      TimesMonotone(0, x, step);
    }
  }

  /** A slice takes the first index within its bounds, and then every step-th while it is within them. */
  lemma SliceTakes(it: Item, n: nat, x: nat)
    requires it.Slice? && it.step > 0
    ensures Within(it, n, Chosen(it, n, x)) <==> x < Count(it, n)
    ensures Chosen(it, n, x + 1) == Chosen(it, n, x) + it.step
    ensures forall i: nat :: Within(it, n, i) ==> Chosen(it, n, 0) <= i && Count(it, n) > 0
  {
    var lo, hi, w := Start(it, n), End(it, n), if End(it, n) < Start(it, n) then 0 else End(it, n) - Start(it, n);
    forall i: nat | Within(it, n, i)
      ensures lo <= i < hi
    {
      BoundsOf(it, n, i);
    }
    BoundsOf(it, n, Chosen(it, n, x));
    EveryStep(w, it.step, x);
    StepFrom(lo, x, it.step);
  }

  lemma StepFrom(lo: nat, x: nat, step: nat)
    ensures lo + 0 * step == lo && lo + (x + 1) * step == lo + x * step + step
    ensures lo + x * step >= lo
  {
    TimesMonotone(0, x, step);
  }

  // ----- stack and cat -----

  /** Entry k of the stack is tensor k. */
  lemma StackedPart(ts: seq<Tensor>, k: nat)
    requires SameShapes(ts) && k < |ts|
    ensures var r := TorchIndex(Stack(ts), [At(k)]); r.Some? && Same(r.value, ts[k])
  {
    var t, s := Stack(ts), ts[0].shape;
    var p := Padded([At(k)], |t.shape|);
    assert p == [At(k)] + Fulls(|s|);
    WholeRest(At(k), |ts|, s);
    forall i | InRange(i, s)
      ensures Select(t, p).at(i) == ts[k].at(i)
    {
      PickRest(At(k), |ts|, s, [], i);
      assert [] + i == i && ([k] + i)[1..] == i;
    }
  }

  // One item for the first dimension, and whole slices for the others.
  lemma {:induction false} WholeRest(it: Item, n: nat, s: seq<nat>)
    requires LegalItem(it, n)
    ensures LegalItems([it] + Fulls(|s|), [n] + s)
    ensures SelectShape([it] + Fulls(|s|), [n] + s) == (if it.At? then [] else [Count(it, n)]) + s
  {
    if s == [] {
      assert [it] + Fulls(0) == [it] && [n] + s == [n] && Init([it]) == [] && Init([n]) == [];
      assert SelectShape([], []) == [];
    } else {
      WholeRest(it, n, Init(s));
      assert [it] + Fulls(|s|) == ([it] + Fulls(|s| - 1)) + [Full];
      assert [n] + s == ([n] + Init(s)) + [Last(s)];
      InitOfAppend([it] + Fulls(|s| - 1), Full);
      InitOfAppend([n] + Init(s), Last(s));
      assert (if it.At? then [] else [Count(it, n)]) + s == ((if it.At? then [] else [Count(it, n)]) + Init(s)) + [Last(s)];
    }
  }

  lemma {:induction false} PickRest(it: Item, n: nat, s: seq<nat>, x: seq<nat>, i: seq<nat>)
    requires LegalItem(it, n) && |x| == (if it.At? then 0 else 1) && |i| == |s|
    ensures LegalItems([it] + Fulls(|s|), [n] + s) && |x + i| == |SelectShape([it] + Fulls(|s|), [n] + s)|
    ensures Pick([it] + Fulls(|s|), [n] + s, x + i) == [Chosen(it, n, if it.At? then 0 else x[0])] + i
    decreases |s|
  {
    WholeRest(it, n, s);
    if s == [] {
      assert [it] + Fulls(0) == [it] && [n] + s == [n] && Init([it]) == [] && Init([n]) == [] && x + i == x;
      assert Pick([], [], []) == [];
      if it.Slice? { assert Init(x) == []; }
    } else {
      PickRest(it, n, Init(s), x, Init(i));
      assert [it] + Fulls(|s|) == ([it] + Fulls(|s| - 1)) + [Full];
      assert [n] + s == ([n] + Init(s)) + [Last(s)];
      assert x + i == (x + Init(i)) + [Last(i)];
      InitOfAppend([it] + Fulls(|s| - 1), Full);
      InitOfAppend([n] + Init(s), Last(s));
      InitOfAppend(x + Init(i), Last(i));
      assert Chosen(Full, Last(s), Last(i)) == Last(i);
    }
  }

  lemma {:induction false} RowsSplit(ts: seq<Tensor>, k: nat)
    requires k < |ts| && forall j :: 0 <= j < |ts| ==> ts[j].shape != []
    ensures Rows(ts) >= Rows(ts[..k]) + ts[k].shape[0]
  {
    if k > 0 {
      RowsSplit(ts[1..], k - 1);
      assert ts[1..][..k - 1] == ts[..k][1..];
    }
  }

  lemma {:induction false} CatAtRow(ts: seq<Tensor>, k: nat, x: nat, i: seq<nat>)
    requires k < |ts| && forall j :: 0 <= j < |ts| ==> ts[j].shape != []
    requires x < ts[k].shape[0]
    ensures CatAt(ts, [Rows(ts[..k]) + x] + i) == ts[k].at([x] + i)
  {
    var y := [Rows(ts[..k]) + x] + i;
    assert y[1..] == i;
    if k > 0 {
      assert ts[1..][..k - 1] == ts[..k][1..];
      CatAtRow(ts[1..], k - 1, x, i);
    }
  }

  /** The rows of tensor k follow those of the tensors before it. */
  lemma JoinedPart(ts: seq<Tensor>, k: nat)
    requires Catable(ts) && k < |ts|
    ensures var from := Rows(ts[..k]);
            var r := TorchIndex(Cat(ts), [Slice(Some(from), Some(from + ts[k].shape[0]), 1)]);
            r.Some? && Same(r.value, ts[k])
  {
    var t, s, from, m := Cat(ts), ts[0].shape[1..], Rows(ts[..k]), ts[k].shape[0];
    var it := Slice(Some(from), Some(from + m), 1);
    var p := Padded([it], |t.shape|);
    assert p == [it] + Fulls(|s|);
    RowsSplit(ts, k);
    WholeRest(it, Rows(ts), s);
    assert Count(it, Rows(ts)) == m && ts[k].shape == [m] + s;
    forall i | InRange(i, ts[k].shape)
      ensures Select(t, p).at(i) == ts[k].at(i)
    {
      PickRest(it, Rows(ts), s, [i[0]], i[1..]);
      assert [i[0]] + i[1..] == i;
      CatAtRow(ts, k, i[0], i[1..]);
    }
  }
}
