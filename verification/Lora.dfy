/** The factored tensors of convert_lora_to_gguf.py: a product B.A that is sliced, reshaped,
    permuted, stacked and joined without multiplying out. */
module Lora {
  import opened Tensors

  // A is (lead..., rank, columns), B is (lead..., rows, rank).
  datatype Lora = Lora(a: Tensor, b: Tensor)

  // The leading dimensions of a matrix stack.
  function Lead(shape: seq<nat>): seq<nat>
    requires |shape| >= 2
  {
    shape[..|shape| - 2]
  }

  // The constructor, with its two assertions; it does not look at the leading dimensions.
  predicate Matches(a: seq<nat>, b: seq<nat>) {
    |a| == |b| >= 2 && a[|a| - 2] == b[|b| - 1]
  }

  function Make(a: Tensor, b: Tensor): Option<Lora> {
    if Matches(a.shape, b.shape) then Some(Lora(a, b)) else None
  }

  // The matrices of B each have one of A: the same, or one for a whole dimension.
  predicate Covers(a: seq<nat>, b: seq<nat>) {
    |a| == |b| && forall d :: 0 <= d < |a| ==> a[d] == 1 || a[d] == b[d]
  }

  predicate Factored(l: Lora) {
    Matches(l.a.shape, l.b.shape) && Covers(Lead(l.a.shape), Lead(l.b.shape))
  }

  function Rank(l: Lora): nat
    requires Factored(l)
  {
    Last(l.b.shape)
  }

  function Shape(l: Lora): seq<nat>
    requires Matches(l.a.shape, l.b.shape)
  {
    Init(l.b.shape) + [Last(l.a.shape)]
  }

  // ----- multiplying out -----

  function Dot(n: nat, f: nat -> real, g: nat -> real): real {
    if n == 0 then 0.0 else Dot(n - 1, f, g) + f(n - 1) * g(n - 1)
  }

  lemma {:induction false} DotSame(n: nat, f: nat -> real, g: nat -> real, f': nat -> real, g': nat -> real)
    requires forall k: nat :: k < n ==> f(k) == f'(k) && g(k) == g'(k)
    ensures Dot(n, f, g) == Dot(n, f', g')
  {
    if n > 0 { DotSame(n - 1, f, g, f', g'); }
  }

  lemma {:induction false} DotSwap(n: nat, f: nat -> real, g: nat -> real)
    ensures Dot(n, f, g) == Dot(n, g, f)
  {
    if n > 0 { DotSwap(n - 1, f, g); }
  }

  // The sum of n entries that are k.
  function Repeated(n: nat, k: nat): real {
    if n == 0 then 0.0 else Repeated(n - 1, k) + k as real
  }

  lemma {:induction false} RepeatedGrow(n: nat, x: nat, y: nat)
    requires n > 0 && x < y
    ensures Repeated(n, x) < Repeated(n, y)
  {
    if n > 1 { RepeatedGrow(n - 1, x, y); }
  }

  lemma RepeatedDiffer(n: nat, x: nat, y: nat)
    requires n > 0 && x != y
    ensures Repeated(n, x) != Repeated(n, y)
  {
    if x < y { RepeatedGrow(n, x, y); } else { RepeatedGrow(n, y, x); }
  }

  lemma {:induction false} DotOnes(n: nat, f: nat -> real, g: nat -> real, v: nat)
    requires forall k: nat :: k < n ==> f(k) == 1.0 && g(k) == v as real
    ensures Dot(n, f, g) == Repeated(n, v)
  {
    if n > 0 { DotOnes(n - 1, f, g, v); }
  }

  // The matrix of A that goes with a matrix of B.
  function Under(lead: seq<nat>, i: seq<nat>): (j: seq<nat>)
    requires |lead| == |i|
    ensures |j| == |i|
  {
    if lead == [] then [] else Under(Init(lead), Init(i)) + [if Last(lead) == 1 then 0 else Last(i)]
  }

  // The entry of B in the row of the index i, and of A in its column, at rank k.
  function InRow(b: Tensor, i: seq<nat>, k: nat): real
    requires i != []
  {
    b.at(Init(i) + [k])
  }

  function InColumn(a: Tensor, i: seq<nat>, k: nat): real
    requires |i| == |a.shape| >= 2
  {
    a.at(Under(Lead(a.shape), Lead(i)) + [k, Last(i)])
  }

  function Entry(l: Lora, i: seq<nat>): real
    requires Matches(l.a.shape, l.b.shape) && |i| == |l.a.shape|
  {
    Dot(Last(l.b.shape), (k: nat) => InRow(l.b, i, k), (k: nat) => InColumn(l.a, i, k))
  }

  function EntryAt(l: Lora, i: seq<nat>): real
    requires Matches(l.a.shape, l.b.shape)
  {
    if |i| == |l.a.shape| then Entry(l, i) else 0.0
  }

  /** The batched matrix product of B and A. */
  function Product(l: Lora): Tensor
    requires Matches(l.a.shape, l.b.shape)
  {
    Tensor(Shape(l), i => EntryAt(l, i))
  }

  // Entries agree when their rows and columns do.
  lemma EntrySame(l: Lora, i: seq<nat>, m: Lora, j: seq<nat>)
    requires Matches(l.a.shape, l.b.shape) && |i| == |l.a.shape|
    requires Matches(m.a.shape, m.b.shape) && |j| == |m.a.shape|
    requires Last(l.b.shape) == Last(m.b.shape)
    requires forall k: nat :: k < Last(l.b.shape) ==> InRow(l.b, i, k) == InRow(m.b, j, k) && InColumn(l.a, i, k) == InColumn(m.a, j, k)
    ensures Entry(l, i) == Entry(m, j)
  {
    DotSame(Last(l.b.shape), (k: nat) => InRow(l.b, i, k), (k: nat) => InColumn(l.a, i, k), (k: nat) => InRow(m.b, j, k), (k: nat) => InColumn(m.a, j, k));
  }

  lemma {:induction false} UnderInRange(a: seq<nat>, b: seq<nat>, i: seq<nat>)
    requires Covers(a, b) && InRange(i, b)
    ensures InRange(Under(a, i), a)
    decreases |a|
  {
    if a != [] {
      InRangeInit(i, b);
      UnderInRange(Init(a), Init(b), Init(i));
      InRangeAppend(Under(Init(a), Init(i)), Init(a), if Last(a) == 1 then 0 else Last(i), Last(a));
      assert a == Init(a) + [Last(a)];
    }
  }

  lemma ColumnInRange(l: Lora, i: seq<nat>, k: nat)
    requires Factored(l) && InRange(i, Shape(l)) && k < Last(l.b.shape)
    ensures InRange(Under(Lead(l.a.shape), Lead(i)) + [k, Last(i)], l.a.shape)
    ensures InRange(Init(i) + [k], l.b.shape)
  {
    var n, u := |i|, Under(Lead(l.a.shape), Lead(i));
    UnderInRange(Lead(l.a.shape), Lead(l.b.shape), Lead(i));
    InRangeAppend(u, Lead(l.a.shape), k, l.a.shape[n - 2]);
    InRangeAppend(u + [k], Init(l.a.shape), Last(i), Last(l.a.shape));
    assert Init(l.a.shape) == Lead(l.a.shape) + [l.a.shape[n - 2]] && l.a.shape == Init(l.a.shape) + [Last(l.a.shape)];
    assert u + [k, Last(i)] == u + [k] + [Last(i)];
    InRangeAppend(Init(i), Init(l.b.shape), k, Last(l.b.shape));
    assert l.b.shape == Init(l.b.shape) + [Last(l.b.shape)];
  }

  // Equal factors have equal products.
  lemma ProductSame(l: Lora, m: Lora)
    requires Factored(l) && Same(l.a, m.a) && Same(l.b, m.b)
    ensures Same(Product(l), Product(m))
  {
    forall i: seq<nat> | InRange(i, Shape(l))
      ensures Product(l).at(i) == Product(m).at(i)
    {
      forall k: nat | k < Last(l.b.shape)
        ensures InRow(l.b, i, k) == InRow(m.b, i, k) && InColumn(l.a, i, k) == InColumn(m.a, i, k)
      {
        ColumnInRange(l, i, k);
      }
      EntrySame(l, i, m, i);
    }
  }

  // ----- reshape -----

  // The product of the sizes given, for which -1 stands as 1.
  function Given(dims: seq<int>): int {
    if dims == [] then 1
    else Given(dims[..|dims| - 1]) * if dims[|dims| - 1] == -1 then 1 else dims[|dims| - 1]
  }

  function Filled(dims: seq<int>, x: int): (s: seq<int>)
    ensures |s| == |dims| && forall d :: 0 <= d < |dims| ==> s[d] == if dims[d] == -1 then x else dims[d]
  {
    seq(|dims|, d requires 0 <= d < |dims| => if dims[d] == -1 then x else dims[d])
  }

  // The shape with its -1 replaced; sizes that are then still negative are refused by torch.
  function Expand(dims: seq<int>, total: nat): (r: Option<seq<nat>>)
    ensures r.Some? ==> |r.value| == |dims|
  {
    if -1 !in dims then AsShape(dims)
    else if Given(dims) == 0 || total % Given(dims) != 0 then None
    else AsShape(Filled(dims, total / Given(dims)))
  }

  function AsShape(s: seq<int>): (r: Option<seq<nat>>)
    ensures r.Some? <==> forall d :: 0 <= d < |s| ==> s[d] >= 0
    ensures r.Some? ==> |r.value| == |s| && forall d :: 0 <= d < |s| ==> r.value[d] == s[d]
  {
    if forall d :: 0 <= d < |s| ==> s[d] >= 0 then Some(Nats(s)) else None
  }

  function Ones(n: nat): (s: seq<nat>)
    ensures |s| == n && forall d :: 0 <= d < n ==> s[d] == 1
  {
    seq(n, _ => 1)
  }

  function ReshapeLora(l: Lora, dims: seq<int>): Option<Lora>
    requires Factored(l)
  {
    if |dims| < 2 then None
    else
      match Expand(dims, Prod(Shape(l)))
      case None => None
      case Some(shape) => ReshapeTo(l, shape)
  }

  function ShapeOfA(l: Lora, shape: seq<nat>): seq<nat>
    requires Factored(l) && |shape| >= 2
  {
    Ones(|shape| - 2) + [Rank(l)] + [Last(shape)]
  }

  function ReshapeTo(l: Lora, shape: seq<nat>): Option<Lora>
    requires Factored(l) && |shape| >= 2
  {
    if Last(shape) != Last(Shape(l)) then None
    else
      var a := TorchReshape(l.a, ShapeOfA(l, shape));
      var b := TorchReshape(l.b, Init(shape) + [Rank(l)]);
      if a.None? || b.None? then None else Make(a.value, b.value)
  }

  lemma RavelLast(s: seq<nat>, n: nat, i: seq<nat>, x: nat)
    requires |i| == |s|
    ensures Ravel(s + [n], i + [x]) == Ravel(s, i) * n + x
  {
    InitOfAppend(s, n); InitOfAppend(i, x);
  }

  lemma UnravelLast(s: seq<nat>, n: nat, p: nat, x: nat)
    requires x < n
    ensures Unravel(s + [n], p * n + x) == Unravel(s, p) + [x]
  {
    InitOfAppend(s, n);
    DivMod(p, n, x);
  }

  // A last dimension that stays has no part in where the others go.
  lemma SameLast(s: seq<nat>, s': seq<nat>, n: nat, i: seq<nat>, x: nat)
    requires |i| == |s'| && x < n
    ensures Unravel(s + [n], Ravel(s' + [n], i + [x])) == Unravel(s, Ravel(s', i)) + [x]
  {
    RavelLast(s', n, i, x);
    UnravelLast(s, n, Ravel(s', i), x);
  }

  predicate AllOnes(s: seq<nat>) { forall d :: 0 <= d < |s| ==> s[d] == 1 }

  lemma {:induction false} ProdOne(s: seq<nat>)
    ensures Prod(s) == 1 <==> AllOnes(s)
  {
    if s != [] {
      ProdOne(Init(s));
      OneTimes(Prod(Init(s)), Last(s));
      assert s == Init(s) + [Last(s)];
    }
  }

  lemma OneTimes(x: nat, y: nat)
    ensures x * y == 1 <==> x == 1 && y == 1
  {
    if x > 1 && y > 0 { assert x * y == x + x * (y - 1); }
    if y > 1 && x > 0 { assert x * y == y + (x - 1) * y; }
  }

  // In a stack of one matrix, every index is the first.
  lemma {:induction false} OnlyIndex(s: seq<nat>, i: seq<nat>)
    requires AllOnes(s) && |i| == |s|
    ensures Unravel(s, 0) == Under(s, i) && Ravel(s, Under(s, i)) == 0
    decreases |s|
  {
    if s != [] {
      OnlyIndex(Init(s), Init(i));
      InitOfAppend(Under(Init(s), Init(i)), 0);
    }
  }

  lemma LeadOf(s: seq<nat>, x: nat, y: nat)
    ensures Lead(s + [x] + [y]) == s && Init(s + [x] + [y]) == s + [x]
  {
  }

  lemma Matrix(s: seq<nat>)
    requires |s| >= 2
    ensures s == Lead(s) + [s[|s| - 2]] + [Last(s)] && Init(s) == Lead(s) + [s[|s| - 2]] && Init(Init(s)) == Lead(s)
  {
  }

  lemma ProdOfMatrix(s: seq<nat>)
    requires |s| >= 2
    ensures Prod(s) == Prod(Lead(s)) * s[|s| - 2] * Last(s)
  {
    Matrix(s);
    InitOfAppend(Lead(s), s[|s| - 2]);
  }

  lemma CancelPositive(x: nat, y: nat, n: nat)
    requires n > 0
    ensures x * n == y * n <==> x == y
  {
    TimesMonotone(x, y, n);
    TimesMonotone(y, x, n);
  }

  // A is reshaped exactly when it is one matrix.
  lemma AIsOne(l: Lora, shape: seq<nat>)
    requires Factored(l) && |shape| >= 2 && Rank(l) > 0 && Last(shape) == Last(Shape(l)) > 0
    ensures Prod(ShapeOfA(l, shape)) == Prod(l.a.shape) <==> AllOnes(Lead(l.a.shape))
  {
    var a := ShapeOfA(l, shape);
    LeadOf(Ones(|shape| - 2), Rank(l), Last(shape));
    ProdOfMatrix(a);
    ProdOfMatrix(l.a.shape);
    ProdOne(Ones(|shape| - 2));
    ProdOne(Lead(l.a.shape));
    CancelPositive(Prod(Lead(l.a.shape)) * Rank(l), 1 * Rank(l), Last(shape));
    CancelPositive(Prod(Lead(l.a.shape)), 1, Rank(l));
  }

  // B is reshaped exactly when the product could be.
  lemma BAsProduct(l: Lora, shape: seq<nat>)
    requires Factored(l) && |shape| >= 2 && Rank(l) > 0 && Last(shape) == Last(Shape(l)) > 0
    ensures Prod(Init(shape) + [Rank(l)]) == Prod(l.b.shape) <==> Prod(shape) == Prod(Shape(l))
  {
    InitOfAppend(Init(shape), Rank(l));
    InitOfAppend(Init(l.b.shape), Last(l.a.shape));
    CancelPositive(Prod(Init(shape)), Prod(Init(l.b.shape)), Rank(l));
    CancelPositive(Prod(Init(shape)), Prod(Init(l.b.shape)), Last(shape));
  }

  lemma ReshapedColumn(l: Lora, shape: seq<nat>, i: seq<nat>, j: seq<nat>, k: nat)
    requires Factored(l) && |shape| >= 2 && Last(shape) == Last(Shape(l)) && AllOnes(Lead(l.a.shape)) && k < Rank(l)
    requires |i| == |shape| && |j| == |l.a.shape| && Last(i) == Last(j) < Last(shape)
    ensures InColumn(Reshape(l.a, ShapeOfA(l, shape)), i, k) == InColumn(l.a, j, k)
  {
    var ones, lead := Ones(|shape| - 2), Lead(l.a.shape);
    LeadOf(ones, Rank(l), Last(shape));
    Matrix(l.a.shape);
    OnlyMatrix(lead, Lead(j), ones, Lead(i), Rank(l), k, Last(shape), Last(i));
  }

  lemma OnlyMatrix(lead: seq<nat>, j: seq<nat>, ones: seq<nat>, i: seq<nat>, rank: nat, k: nat, n: nat, x: nat)
    requires AllOnes(lead) && AllOnes(ones) && |lead| == |j| && |ones| == |i| && k < rank && x < n
    ensures Unravel(lead + [rank] + [n], Ravel(ones + [rank] + [n], Under(ones, i) + [k, x])) == Under(lead, j) + [k, x]
  {
    OnlyIndex(ones, i);
    OnlyIndex(lead, j);
    SameLast(lead, ones, rank, Under(ones, i), k);
    SameLast(lead + [rank], ones + [rank], n, Under(ones, i) + [k], x);
    assert Under(ones, i) + [k, x] == Under(ones, i) + [k] + [x] && Under(lead, j) + [k, x] == Under(lead, j) + [k] + [x];
  }

  lemma ReshapedRow(l: Lora, shape: seq<nat>, i: seq<nat>, j: seq<nat>, k: nat)
    requires Factored(l) && |shape| >= 2 && k < Rank(l) && |i| == |shape|
    requires j != [] && Init(j) == Unravel(Init(l.b.shape), Ravel(Init(shape), Init(i)))
    ensures InRow(Reshape(l.b, Init(shape) + [Rank(l)]), i, k) == InRow(l.b, j, k)
  {
    SameLast(Init(l.b.shape), Init(shape), Rank(l), Init(i), k);
    assert l.b.shape == Init(l.b.shape) + [Rank(l)];
  }

  // Where an entry of the reshaped product comes from.
  lemma ReshapedIndex(l: Lora, shape: seq<nat>, i: seq<nat>) returns (j: seq<nat>)
    requires Factored(l) && |shape| >= 2 && Last(shape) == Last(Shape(l)) && InRange(i, shape)
    ensures j == Unravel(Shape(l), Ravel(shape, i)) && j != [] && |j| == |l.a.shape|
    ensures Init(j) == Unravel(Init(l.b.shape), Ravel(Init(shape), Init(i))) && Last(j) == Last(i) < Last(shape)
  {
    j := Unravel(Shape(l), Ravel(shape, i));
    InRangeInit(i, shape);
    SameLast(Init(l.b.shape), Init(shape), Last(shape), Init(i), Last(i));
    assert shape == Init(shape) + [Last(shape)] && i == Init(i) + [Last(i)];
    InitOfAppend(Unravel(Init(l.b.shape), Ravel(Init(shape), Init(i))), Last(i));
  }

  lemma ReshapedEntry(l: Lora, shape: seq<nat>, m: Lora, i: seq<nat>)
    requires Factored(l) && |shape| >= 2 && ReshapeTo(l, shape) == Some(m) && InRange(i, shape)
    ensures Entry(m, i) == ReshapedAt(Product(l), shape, i)
  {
    var j := ReshapedIndex(l, shape, i);
    InitOfAppend(Init(shape), Rank(l));
    if Rank(l) > 0 { AIsOne(l, shape); }
    forall k: nat | k < Rank(l)
      ensures InRow(m.b, i, k) == InRow(l.b, j, k) && InColumn(m.a, i, k) == InColumn(l.a, j, k)
    {
      ReshapedRow(l, shape, i, j, k);
      ReshapedColumn(l, shape, i, j, k);
    }
    EntrySame(m, i, l, j);
  }

  /** Whenever the factors are reshaped, their product is the reshaped product; and they are, for
      sizes that are not zero, exactly when the product could be, with rows as long, and A is one matrix. */
  lemma ReshapeCommutes(l: Lora, shape: seq<nat>)
    requires Factored(l) && |shape| >= 2
    ensures var r := ReshapeTo(l, shape);
            r.Some? ==> Factored(r.value) && Same(Product(r.value), Reshape(Product(l), shape))
    ensures Rank(l) > 0 && Last(Shape(l)) > 0 ==>
              (ReshapeTo(l, shape).Some? <==>
               TorchReshape(Product(l), shape).Some? && Last(shape) == Last(Shape(l)) && AllOnes(Lead(l.a.shape)))
  {
    var r := ReshapeTo(l, shape);
    LeadOf(Ones(|shape| - 2), Rank(l), Last(shape));
    InitOfAppend(Init(shape), Rank(l));
    if Last(shape) == Last(Shape(l)) && Rank(l) > 0 && Last(shape) > 0 {
      AIsOne(l, shape);
      BAsProduct(l, shape);
    }
    if r.Some? {
      Matrix(shape);
      assert Shape(r.value) == shape;
      forall i | InRange(i, shape)
        ensures Product(r.value).at(i) == Reshape(Product(l), shape).at(i)
      {
        ReshapedEntry(l, shape, r.value, i);
      }
    }
  }

  // ----- the size that -1 stands for -----

  // A shape with the sizes that are given.
  predicate FitsDims(s: seq<nat>, dims: seq<int>) {
    |s| == |dims| && forall d :: 0 <= d < |dims| ==> dims[d] != -1 ==> s[d] == dims[d]
  }

  function Unknown(dims: seq<int>): nat {
    if dims == [] then 0 else Unknown(dims[..|dims| - 1]) + if dims[|dims| - 1] == -1 then 1 else 0
  }

  lemma {:induction false} NoneUnknown(dims: seq<int>)
    ensures Unknown(dims) == 0 <==> -1 !in dims
  {
    if dims != [] {
      NoneUnknown(dims[..|dims| - 1]);
      assert dims == dims[..|dims| - 1] + [dims[|dims| - 1]];
    }
  }

  // The product of a shape is that of the sizes given, and of the one that is not.
  lemma {:induction false} GivenProd(s: seq<nat>, dims: seq<int>) returns (x: nat)
    requires FitsDims(s, dims) && Unknown(dims) <= 1
    ensures Unknown(dims) == 0 ==> Prod(s) == Given(dims)
    ensures Unknown(dims) == 1 ==> Prod(s) == Given(dims) * x && forall d :: 0 <= d < |dims| ==> dims[d] == -1 ==> s[d] == x
    decreases |s|
  {
    x := 1;
    if s != [] {
      var front, size := dims[..|dims| - 1], dims[|dims| - 1];
      x := GivenProd(Init(s), front);
      if size == -1 {
        NoneUnknown(front);
        x := Last(s);
      } else {
        TimesSwap(Given(front), x, size);
      }
    }
  }

  lemma TimesSwap(g: int, x: int, y: int)
    ensures g * x * y == g * y * x
  {
  }

  lemma Quotient(g: int, x: nat, total: int)
    requires g > 0 && total == g * x
    ensures total % g == 0 && total / g == x
  {
    DivMod(x, g, 0);
    assert total == x * g + 0;
  }

  /** With at most one -1, the expanded shape is the one with the sizes given and all the entries. */
  lemma InferredIff(dims: seq<int>, total: nat, s: seq<nat>)
    requires Unknown(dims) <= 1 && (forall d :: 0 <= d < |dims| ==> dims[d] >= -1) && (-1 in dims ==> Given(dims) > 0)
    ensures FitsDims(s, dims) && Prod(s) == total <==> Expand(dims, total) == Some(s) && Prod(s) == total
    ensures -1 in dims && Expand(dims, total) == Some(s) ==> Prod(s) == total
  {
    NoneUnknown(dims);
    if Expand(dims, total) == Some(s) { ExpandedFits(dims, total, s); }
    if FitsDims(s, dims) && Prod(s) == total { FitsExpanded(dims, total, s); }
  }

  lemma ExpandedFits(dims: seq<int>, total: nat, s: seq<nat>)
    requires Unknown(dims) <= 1 && (-1 in dims ==> Given(dims) > 0) && Expand(dims, total) == Some(s)
    ensures FitsDims(s, dims) && (-1 in dims ==> Prod(s) == total)
  {
    NoneUnknown(dims);
    forall d | 0 <= d < |dims|
      ensures dims[d] != -1 ==> s[d] == dims[d]
    {
      ExpandedAt(dims, total, s, d);
    }
    var x := GivenProd(s, dims);
    if -1 in dims {
      FilledSize(dims, total, s, x);
      Multiple(Given(dims), total);
    }
  }

  lemma ExpandedAt(dims: seq<int>, total: nat, s: seq<nat>, d: nat)
    requires Expand(dims, total) == Some(s) && d < |dims|
    ensures -1 in dims ==> Given(dims) != 0 && total % Given(dims) == 0
    ensures |s| == |dims| && s[d] == if dims[d] == -1 then total / Given(dims) else dims[d]
  {
    if -1 in dims { assert s[d] == Filled(dims, total / Given(dims))[d]; }
  }

  lemma FilledSize(dims: seq<int>, total: nat, s: seq<nat>, x: nat)
    requires -1 in dims && Given(dims) > 0 && Expand(dims, total) == Some(s)
    requires forall d :: 0 <= d < |dims| ==> dims[d] == -1 ==> s[d] == x
    ensures x == total / Given(dims) && total % Given(dims) == 0
  {
    var d :| 0 <= d < |dims| && dims[d] == -1;
    ExpandedAt(dims, total, s, d);
  }

  lemma Multiple(g: int, total: int)
    requires g > 0 && total % g == 0
    ensures g * (total / g) == total
  {
  }

  lemma FitsExpanded(dims: seq<int>, total: nat, s: seq<nat>)
    requires Unknown(dims) <= 1 && (forall d :: 0 <= d < |dims| ==> dims[d] >= -1) && (-1 in dims ==> Given(dims) > 0)
    requires FitsDims(s, dims) && Prod(s) == total
    ensures Expand(dims, total) == Some(s)
  {
    NoneUnknown(dims);
    var x := GivenProd(s, dims);
    if -1 in dims {
      Quotient(Given(dims), x, total);
      assert Nats(Filled(dims, x)) == s;
    } else {
      assert Nats(dims) == s;
    }
  }

  /** Reshaping with at most one -1 is reshaping to the shape with the sizes given and as many entries,
      and there is one whenever it succeeds, for sizes that are not zero. */
  lemma ViewCommutes(l: Lora, dims: seq<int>)
    requires Factored(l) && |dims| >= 2
    requires Unknown(dims) <= 1 && (forall d :: 0 <= d < |dims| ==> dims[d] >= -1) && (-1 in dims ==> Given(dims) > 0)
    ensures forall s: seq<nat> :: FitsDims(s, dims) && Prod(s) == Prod(Shape(l)) ==> ReshapeLora(l, dims) == ReshapeTo(l, s)
    ensures Rank(l) > 0 && Last(Shape(l)) > 0 && ReshapeLora(l, dims).Some? ==>
              exists s: seq<nat> :: FitsDims(s, dims) && Prod(s) == Prod(Shape(l))
  {
    var total := Prod(Shape(l));
    forall s: seq<nat> | FitsDims(s, dims) && Prod(s) == total
      ensures ReshapeLora(l, dims) == ReshapeTo(l, s)
    {
      InferredIff(dims, total, s);
    }
    if Rank(l) > 0 && Last(Shape(l)) > 0 && ReshapeLora(l, dims).Some? {
      var s := Expand(dims, total).value;
      ReshapeCommutes(l, s);
      InferredIff(dims, total, s);
    }
  }
}
