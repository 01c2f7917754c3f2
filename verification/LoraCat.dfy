/** Joining factored tensors along dimension 0 (convert_lora_to_gguf.py:192-206). */
module LoraCat {
  import opened Tensors
  import opened Lora
  import opened LoraShapes

  // Matrices are joined by their rows when A is the same in all; stacks by their first dimension.
  ghost function CatLora(ls: seq<Lora>): Option<Lora>
    requires AllFactored(ls)
  {
    if ls == [] || !Catable(Bs(ls)) then None
    else if |ls[0].a.shape| > 2 then
      if Catable(As(ls)) then Make(Cat(As(ls)), Cat(Bs(ls))) else None
    else if forall k :: 1 <= k < |ls| ==> Same(ls[0].a, ls[k].a) then Make(ls[0].a, Cat(Bs(ls)))
    else None
  }

  // ----- which part an index falls in -----

  predicate HaveRows(ts: seq<Tensor>, sizes: seq<nat>) {
    |ts| == |sizes| && forall k :: 0 <= k < |ts| ==> ts[k].shape != [] && ts[k].shape[0] == sizes[k]
  }

  function Sum(sizes: seq<nat>): nat {
    if sizes == [] then 0 else sizes[0] + Sum(sizes[1..])
  }

  function Part(sizes: seq<nat>, x: nat): (r: (nat, nat))
    requires x < Sum(sizes)
    ensures r.0 < |sizes| && r.1 < sizes[r.0]
  {
    if x < sizes[0] then (0, x)
    else
      var r := Part(sizes[1..], x - sizes[0]);
      (r.0 + 1, r.1)
  }

  lemma HaveRowsTail(ts: seq<Tensor>, sizes: seq<nat>)
    requires HaveRows(ts, sizes) && ts != []
    ensures HaveRows(ts[1..], sizes[1..])
  {
  }

  lemma {:induction false} RowsAreSum(ts: seq<Tensor>, sizes: seq<nat>)
    requires HaveRows(ts, sizes)
    ensures Rows(ts) == Sum(sizes)
  {
    if ts != [] {
      HaveRowsTail(ts, sizes);
      RowsAreSum(ts[1..], sizes[1..]);
    }
  }

  lemma {:induction false} CatAtPart(ts: seq<Tensor>, sizes: seq<nat>, x: nat, rest: seq<nat>)
    requires HaveRows(ts, sizes) && x < Sum(sizes)
    ensures var r := Part(sizes, x); CatAt(ts, [x] + rest) == ts[r.0].at([r.1] + rest)
    decreases |ts|
  {
    assert ([x] + rest)[1..] == rest;
    if x >= sizes[0] {
      HaveRowsTail(ts, sizes);
      CatAtPart(ts[1..], sizes[1..], x - sizes[0], rest);
    }
  }

  function Heads(ts: seq<Tensor>): (r: seq<nat>)
    requires forall k :: 0 <= k < |ts| ==> ts[k].shape != []
    ensures |r| == |ts| && forall k :: 0 <= k < |ts| ==> r[k] == ts[k].shape[0]
  {
    seq(|ts|, k requires 0 <= k < |ts| => ts[k].shape[0])
  }

  // ----- matrices -----

  lemma ProductsOfRows(ls: seq<Lora>)
    requires AllFactored(ls) && ls != [] && Catable(Bs(ls)) && |ls[0].a.shape| == 2
    requires forall k :: 0 <= k < |ls| ==> ls[k].a.shape == ls[0].a.shape
    ensures Catable(Products(ls)) && HaveRows(Products(ls), Heads(Bs(ls))) && HaveRows(Bs(ls), Heads(Bs(ls)))
    ensures Cat(Products(ls)).shape == [Sum(Heads(Bs(ls))), Last(ls[0].a.shape)]
    ensures Cat(Bs(ls)).shape == [Sum(Heads(Bs(ls))), Rank(ls[0])]
  {
    forall k | 0 <= k < |ls|
      ensures Products(ls)[k].shape == [Bs(ls)[k].shape[0], Last(ls[0].a.shape)]
    {
      assert Bs(ls)[k].shape == ls[k].b.shape;
    }
    RowsAreSum(Products(ls), Heads(Bs(ls)));
    RowsAreSum(Bs(ls), Heads(Bs(ls)));
    assert Bs(ls)[0].shape[1..] == [Rank(ls[0])];
  }

  lemma JoinedRow(ls: seq<Lora>, m: Lora, x: nat, y: nat)
    requires AllFactored(ls) && ls != [] && Catable(Bs(ls)) && |ls[0].a.shape| == 2
    requires forall k :: 0 <= k < |ls| ==> Same(ls[0].a, ls[k].a)
    requires m == Lora(ls[0].a, Cat(Bs(ls))) && Factored(m) && Rank(m) == Rank(ls[0])
    requires HaveRows(Bs(ls), Heads(Bs(ls))) && x < Sum(Heads(Bs(ls))) && y < Last(ls[0].a.shape)
    ensures var r := Part(Heads(Bs(ls)), x); Entry(m, [x, y]) == EntryAt(ls[r.0], [r.1, y])
  {
    var r := Part(Heads(Bs(ls)), x);
    var p := ls[r.0];
    forall k: nat | k < Rank(m)
      ensures InRow(m.b, [x, y], k) == InRow(p.b, [r.1, y], k) && InColumn(m.a, [x, y], k) == InColumn(p.a, [r.1, y], k)
    {
      CatAtPart(Bs(ls), Heads(Bs(ls)), x, [k]);
      assert Init([x, y]) + [k] == [x] + [k] && Init([r.1, y]) + [k] == [r.1] + [k];
      OneColumn(m.a, x, y, k);
      OneColumn(p.a, r.1, y, k);
    }
    EntrySame(m, [x, y], p, [r.1, y]);
  }

  lemma OneColumn(t: Tensor, x: nat, y: nat, k: nat)
    requires |t.shape| == 2
    ensures InColumn(t, [x, y], k) == t.at([k, y])
  {
    OneMatrix(t, x, y, k);
  }

  /** Matrices are joined exactly when they have one A, by joining their B's. */
  lemma CatMatrices(ls: seq<Lora>)
    requires AllFactored(ls) && ls != [] && |ls[0].a.shape| == 2
    ensures CatLora(ls).Some? <==> Catable(Bs(ls)) && forall k :: 0 <= k < |ls| ==> Same(ls[0].a, ls[k].a)
    ensures var r := CatLora(ls);
            r.Some? ==> Factored(r.value) && Catable(Products(ls)) && Same(Product(r.value), Cat(Products(ls)))
  {
    if CatLora(ls).Some? {
      assert forall k :: 0 <= k < |ls| ==> Same(ls[0].a, ls[k].a);
    }
    if Catable(Bs(ls)) && forall k :: 0 <= k < |ls| ==> Same(ls[0].a, ls[k].a) {
      CatSharedA(ls);
    }
  }

  lemma CatSharedA(ls: seq<Lora>)
    requires AllFactored(ls) && ls != [] && Catable(Bs(ls)) && |ls[0].a.shape| == 2
    requires forall k :: 0 <= k < |ls| ==> Same(ls[0].a, ls[k].a)
    ensures var r := CatLora(ls);
            r.Some? && Factored(r.value) && Catable(Products(ls)) && Same(Product(r.value), Cat(Products(ls)))
  {
    var m, sizes := Lora(ls[0].a, Cat(Bs(ls))), Heads(Bs(ls));
    ProductsOfRows(ls);
    forall i: seq<nat> | InRange(i, Shape(m))
      ensures Product(m).at(i) == Cat(Products(ls)).at(i)
    {
      var r := Part(sizes, i[0]);
      assert i == [i[0], i[1]];
      JoinedRow(ls, m, i[0], i[1]);
      CatAtPart(Products(ls), sizes, i[0], [i[1]]);
      assert [i[0]] + [i[1]] == i && [r.1] + [i[1]] == [r.1, i[1]];
    }
  }

  // ----- stacks of matrices -----

  // Every part has a matrix of A for each matrix of B.
  predicate PartsFit(ls: seq<Lora>)
    requires AllFactored(ls)
  {
    forall k :: 0 <= k < |ls| ==> ls[k].a.shape[0] == ls[k].b.shape[0]
  }

  lemma SameTail(ls: seq<Lora>, k: nat)
    requires AllFactored(ls) && Catable(As(ls)) && Catable(Bs(ls)) && k < |ls|
    ensures ls[k].a.shape == [ls[k].a.shape[0]] + ls[0].a.shape[1..]
    ensures ls[k].b.shape == [ls[k].b.shape[0]] + ls[0].b.shape[1..]
  {
    assert As(ls)[k].shape[1..] == As(ls)[0].shape[1..] && Bs(ls)[k].shape[1..] == Bs(ls)[0].shape[1..];
  }

  lemma PartShape(ls: seq<Lora>, k: nat)
    requires AllFactored(ls) && Catable(As(ls)) && Catable(Bs(ls)) && |ls[0].a.shape| > 2 && k < |ls|
    ensures Products(ls)[k].shape == [ls[k].b.shape[0]] + Shape(ls[0])[1..]
  {
    SameTail(ls, k);
  }

  lemma JoinedShapes(ls: seq<Lora>)
    requires AllFactored(ls) && Catable(As(ls)) && Catable(Bs(ls)) && |ls[0].a.shape| > 2
    ensures HaveRows(As(ls), Heads(As(ls))) && HaveRows(Bs(ls), Heads(Bs(ls))) && HaveRows(Products(ls), Heads(Bs(ls)))
    ensures Catable(Products(ls))
    ensures Cat(As(ls)).shape == [Sum(Heads(As(ls)))] + ls[0].a.shape[1..]
    ensures Cat(Bs(ls)).shape == [Sum(Heads(Bs(ls)))] + ls[0].b.shape[1..]
    ensures Cat(Products(ls)).shape == [Sum(Heads(Bs(ls)))] + Shape(ls[0])[1..]
    ensures Matches(Cat(As(ls)).shape, Cat(Bs(ls)).shape)
  {
    forall k | 0 <= k < |ls|
      ensures Products(ls)[k].shape == [Bs(ls)[k].shape[0]] + Shape(ls[0])[1..]
    {
      PartShape(ls, k);
    }
    RowsAreSum(As(ls), Heads(As(ls)));
    RowsAreSum(Bs(ls), Heads(Bs(ls)));
    RowsAreSum(Products(ls), Heads(Bs(ls)));
  }

  lemma LeadTail(x: nat, s: seq<nat>)
    requires |s| >= 3
    ensures var t := [x] + s[1..];
            |t| == |s| && Lead(t) == [x] + Lead(s)[1..] && Last(t) == Last(s) && t[|t| - 2] == s[|s| - 2]
  {
  }

  lemma JoinedIsFactored(ls: seq<Lora>)
    requires AllFactored(ls) && Catable(As(ls)) && Catable(Bs(ls)) && |ls[0].a.shape| > 2
    ensures var a, b := Sum(Heads(As(ls))), Sum(Heads(Bs(ls)));
            Matches(Cat(As(ls)).shape, Cat(Bs(ls)).shape) && (Factored(Lora(Cat(As(ls)), Cat(Bs(ls)))) <==> a == 1 || a == b)
  {
    JoinedShapes(ls);
    var a, b := Sum(Heads(As(ls))), Sum(Heads(Bs(ls)));
    LeadTail(a, ls[0].a.shape);
    LeadTail(b, ls[0].b.shape);
    CoversTail(a, b, Lead(ls[0].a.shape), Lead(ls[0].b.shape));
  }

  lemma CoversTail(x: nat, y: nat, a: seq<nat>, b: seq<nat>)
    requires Covers(a, b) && a != []
    ensures Covers([x] + a[1..], [y] + b[1..]) <==> x == 1 || x == y
  {
    assert ([x] + a[1..])[0] == x && ([y] + b[1..])[0] == y;
  }

  // The matrix of A for an index, when A's first dimension is as large as B's.
  lemma UnderWhole(n: nat, s: seq<nat>, x: nat, i: seq<nat>)
    requires |s| == |i| && x < n
    ensures Under([n] + s, [x] + i) == [x] + Under(s, i)
  {
    UnderFront(n, s, x, i);
  }

  // The matrix of a stack that an index falls in.
  lemma UnderPart(a: seq<nat>, i: seq<nat>, x: nat)
    requires |a| > 2 && |i| == |a| && i[0] == x < a[0]
    ensures Under(Lead(a), Lead(i)) == [x] + Under(Lead(a)[1..], Lead(i)[1..])
  {
    assert Lead(a) == [a[0]] + Lead(a)[1..] && Lead(i) == [x] + Lead(i)[1..];
    UnderWhole(a[0], Lead(a)[1..], x, Lead(i)[1..]);
  }

  lemma SwapFirst(i: seq<nat>, x: nat)
    requires |i| > 2
    ensures var j := [x] + i[1..];
            && |j| == |i| && Lead(j)[1..] == Lead(i)[1..] && Last(j) == Last(i)
            && Init(j) == [x] + Init(i)[1..] && Init(i) == [i[0]] + Init(i)[1..]
  {
  }

  lemma JoinedEntry(ls: seq<Lora>, m: Lora, i: seq<nat>)
    requires AllFactored(ls) && Catable(As(ls)) && Catable(Bs(ls)) && |ls[0].a.shape| > 2 && PartsFit(ls)
    requires m == Lora(Cat(As(ls)), Cat(Bs(ls))) && Factored(m) && Rank(m) == Rank(ls[0])
    requires Heads(As(ls)) == Heads(Bs(ls)) && HaveRows(As(ls), Heads(As(ls))) && HaveRows(Bs(ls), Heads(Bs(ls)))
    requires |i| == |m.a.shape| == |ls[0].a.shape| && i[0] < Sum(Heads(Bs(ls))) && m.a.shape == [Sum(Heads(As(ls)))] + ls[0].a.shape[1..]
    ensures var r := Part(Heads(Bs(ls)), i[0]); Entry(m, i) == EntryAt(ls[r.0], [r.1] + i[1..])
  {
    var r := Part(Heads(Bs(ls)), i[0]);
    var p, j, u := ls[r.0], [r.1] + i[1..], Under(Lead(ls[0].a.shape)[1..], Lead(i)[1..]);
    SameTail(ls, r.0);
    SwapFirst(i, r.1);
    LeadTail(Sum(Heads(As(ls))), ls[0].a.shape);
    LeadTail(p.a.shape[0], ls[0].a.shape);
    UnderPart(m.a.shape, i, i[0]);
    UnderPart(p.a.shape, j, r.1);
    forall k: nat | k < Rank(p)
      ensures m.b.at(Init(i) + [k]) == p.b.at(Init(j) + [k])
      ensures m.a.at([i[0]] + u + [k, Last(i)]) == p.a.at([r.1] + u + [k, Last(j)])
    {
      JoinedAt(Bs(ls), i[0], Init(i)[1..], [k]);
      JoinedAt(As(ls), i[0], u, [k, Last(i)]);
    }
    PartEntry(m, p, i, j, [i[0]] + u);
  }

  lemma JoinedAt(ts: seq<Tensor>, x: nat, u: seq<nat>, v: seq<nat>)
    requires Catable(ts) && x < Sum(Heads(ts))
    ensures var r := Part(Heads(ts), x); Cat(ts).at([x] + u + v) == ts[r.0].at([r.1] + u + v)
  {
    var r := Part(Heads(ts), x);
    CatAtPart(ts, Heads(ts), x, u + v);
    assert [x] + u + v == [x] + (u + v) && [r.1] + u + v == [r.1] + (u + v);
  }

  lemma FitsAt(ls: seq<Lora>, m: Lora, i: seq<nat>)
    requires AllFactored(ls) && Catable(As(ls)) && Catable(Bs(ls)) && |ls[0].a.shape| > 2 && PartsFit(ls)
    requires m == Lora(Cat(As(ls)), Cat(Bs(ls))) && Factored(m) && Rank(m) == Rank(ls[0])
    requires |i| == |m.a.shape| && i[0] < Sum(Heads(Bs(ls)))
    ensures Catable(Products(ls)) && Entry(m, i) == Cat(Products(ls)).at(i)
  {
    assert Heads(As(ls)) == Heads(Bs(ls));
    JoinedShapes(ls);
    JoinedEntry(ls, m, i);
    CatAtPart(Products(ls), Heads(Bs(ls)), i[0], i[1..]);
    assert [i[0]] + i[1..] == i;
  }

  lemma CatFits(ls: seq<Lora>)
    requires AllFactored(ls) && Catable(As(ls)) && Catable(Bs(ls)) && |ls[0].a.shape| > 2 && PartsFit(ls)
    ensures var m := Lora(Cat(As(ls)), Cat(Bs(ls)));
            Factored(m) && Catable(Products(ls)) && Same(Product(m), Cat(Products(ls)))
  {
    var m := Lora(Cat(As(ls)), Cat(Bs(ls)));
    assert Heads(As(ls)) == Heads(Bs(ls));
    JoinedShapes(ls);
    JoinedIsFactored(ls);
    LeadTail(Sum(Heads(Bs(ls))), ls[0].b.shape);
    assert Shape(m) == Cat(Products(ls)).shape;
    forall i: seq<nat> | InRange(i, Shape(m))
      ensures Product(m).at(i) == Cat(Products(ls)).at(i)
    {
      FitsAt(ls, m, i);
    }
  }

  // One matrix of A in all: it belongs to the only part that is not empty.
  lemma {:induction false} OnePart(a: seq<nat>, b: seq<nat>, x: nat)
    requires |a| == |b| && (forall k :: 0 <= k < |a| ==> a[k] == 1 || a[k] == b[k]) && Sum(a) == 1 && x < Sum(b)
    ensures Part(a, 0).0 == Part(b, x).0 && Part(a, 0).1 == 0 && a[Part(b, x).0] == 1
    decreases |a|
  {
    if a[0] == 0 {
      OnePart(a[1..], b[1..], x);
    } else {
      NoneLeft(a[1..], b[1..]);
    }
  }

  lemma {:induction false} NoneLeft(a: seq<nat>, b: seq<nat>)
    requires |a| == |b| && (forall k :: 0 <= k < |a| ==> a[k] == 1 || a[k] == b[k]) && Sum(a) == 0
    ensures Sum(b) == 0
  {
    if a != [] { NoneLeft(a[1..], b[1..]); }
  }

  lemma HeadsCover(ls: seq<Lora>)
    requires AllFactored(ls) && Catable(As(ls)) && Catable(Bs(ls)) && |ls[0].a.shape| > 2
    ensures forall k :: 0 <= k < |ls| ==> Heads(As(ls))[k] == 1 || Heads(As(ls))[k] == Heads(Bs(ls))[k]
  {
    forall k | 0 <= k < |ls|
      ensures Heads(As(ls))[k] == 1 || Heads(As(ls))[k] == Heads(Bs(ls))[k]
    {
      SameTail(ls, k);
      assert As(ls)[k].shape == ls[k].a.shape && Bs(ls)[k].shape == ls[k].b.shape;
      assert Lead(ls[k].a.shape)[0] == ls[k].a.shape[0] && Lead(ls[k].b.shape)[0] == ls[k].b.shape[0];
    }
  }

  // The matrix of A for an index, where it is the first in its part.
  lemma UnderShared(a: seq<nat>, i: seq<nat>)
    requires |a| > 2 && |i| == |a| && a[0] == 1
    ensures Under(Lead(a), Lead(i)) == [0] + Under(Lead(a)[1..], Lead(i)[1..])
  {
    assert Lead(a) == [a[0]] + Lead(a)[1..] && Lead(i) == [i[0]] + Lead(i)[1..];
    UnderFront(a[0], Lead(a)[1..], i[0], Lead(i)[1..]);
  }

  lemma SharedEntry(ls: seq<Lora>, m: Lora, i: seq<nat>)
    requires AllFactored(ls) && Catable(As(ls)) && Catable(Bs(ls)) && |ls[0].a.shape| > 2 && Sum(Heads(As(ls))) == 1
    requires m == Lora(Cat(As(ls)), Cat(Bs(ls))) && Factored(m) && Rank(m) == Rank(ls[0])
    requires |i| == |m.a.shape| == |ls[0].a.shape| && i[0] < Sum(Heads(Bs(ls))) && m.a.shape == [1] + ls[0].a.shape[1..]
    ensures var r := Part(Heads(Bs(ls)), i[0]); Entry(m, i) == EntryAt(ls[r.0], [r.1] + i[1..])
  {
    var r := Part(Heads(Bs(ls)), i[0]);
    var p, j, u := ls[r.0], [r.1] + i[1..], Under(Lead(ls[0].a.shape)[1..], Lead(i)[1..]);
    HeadsCover(ls);
    OnePart(Heads(As(ls)), Heads(Bs(ls)), i[0]);
    assert p.a.shape[0] == As(ls)[r.0].shape[0] == 1;
    SameTail(ls, r.0);
    SwapFirst(i, r.1);
    LeadTail(1, ls[0].a.shape);
    UnderShared(m.a.shape, i);
    UnderShared(p.a.shape, j);
    forall k: nat | k < Rank(p)
      ensures m.b.at(Init(i) + [k]) == p.b.at(Init(j) + [k])
      ensures m.a.at([0] + u + [k, Last(i)]) == p.a.at([0] + u + [k, Last(j)])
    {
      JoinedAt(Bs(ls), i[0], Init(i)[1..], [k]);
      JoinedAt(As(ls), 0, u, [k, Last(i)]);
    }
    PartEntry(m, p, i, j, [0] + u);
  }

  lemma CatShared(ls: seq<Lora>)
    requires AllFactored(ls) && Catable(As(ls)) && Catable(Bs(ls)) && |ls[0].a.shape| > 2 && Sum(Heads(As(ls))) == 1
    ensures JoinsRight(ls)
  {
    var m := Lora(Cat(As(ls)), Cat(Bs(ls)));
    JoinedShapes(ls);
    JoinedIsFactored(ls);
    LeadTail(Sum(Heads(Bs(ls))), ls[0].b.shape);
    assert Shape(m) == Cat(Products(ls)).shape;
    forall i: seq<nat> | InRange(i, Shape(m))
      ensures Product(m).at(i) == Cat(Products(ls)).at(i)
    {
      SharedEntry(ls, m, i);
      CatAtPart(Products(ls), Heads(Bs(ls)), i[0], i[1..]);
      assert [i[0]] + i[1..] == i;
    }
  }

  // The joined factors have the joined products as their product.
  ghost predicate JoinsRight(ls: seq<Lora>)
    requires AllFactored(ls)
  {
    var r := CatLora(ls);
    r.Some? && Factored(r.value) && Catable(Products(ls)) && Same(Product(r.value), Cat(Products(ls)))
  }

  // ----- factors whose product tells the parts apart -----

  // The part with the number k: A holds k, and B ones.
  function Tag(a: seq<nat>, b: seq<nat>, k: nat): Lora {
    Lora(Tensor(a, i => k as real), Tensor(b, i => 1.0))
  }

  function Tagged(ls: seq<Lora>): (ms: seq<Lora>)
    ensures |ms| == |ls|
    ensures forall k :: 0 <= k < |ls| ==> ms[k] == Tag(ls[k].a.shape, ls[k].b.shape, k)
  {
    seq(|ls|, k requires 0 <= k < |ls| => Tag(ls[k].a.shape, ls[k].b.shape, k))
  }

  predicate SameSizes(ls: seq<Lora>, ms: seq<Lora>) {
    && |ms| == |ls|
    && forall k :: 0 <= k < |ls| ==> ms[k].a.shape == ls[k].a.shape && ms[k].b.shape == ls[k].b.shape
  }

  // Where the joined A's give another part than the joined B's.
  lemma {:induction false} PartsDiffer(a: seq<nat>, b: seq<nat>) returns (x: nat)
    requires |a| == |b| && (forall k :: 0 <= k < |a| ==> a[k] == 1 || a[k] == b[k]) && Sum(a) == Sum(b) && a != b
    ensures x < Sum(a) && Part(a, x).0 != Part(b, x).0
    decreases |a|
  {
    if a[0] == b[0] {
      assert a == [a[0]] + a[1..] && b == [b[0]] + b[1..];
      var y := PartsDiffer(a[1..], b[1..]);
      x := a[0] + y;
    } else {
      x := if b[0] == 0 then 0 else 1;
    }
  }

  lemma TagEntry(l: Lora, i: seq<nat>, v: nat)
    requires Matches(l.a.shape, l.b.shape) && |i| == |l.a.shape|
    requires forall k: nat :: k < Last(l.b.shape) ==> InRow(l.b, i, k) == 1.0 && InColumn(l.a, i, k) == v as real
    ensures Entry(l, i) == Repeated(Last(l.b.shape), v)
  {
    DotOnes(Last(l.b.shape), (k: nat) => InRow(l.b, i, k), (k: nat) => InColumn(l.a, i, k), v);
  }

  lemma TagProduct(a: seq<nat>, b: seq<nat>, k: nat, j: seq<nat>)
    requires Matches(a, b) && |j| == |a|
    ensures Entry(Tag(a, b, k), j) == Repeated(Last(b), k)
  {
    TagEntry(Tag(a, b, k), j, k);
  }

  // Factors with the sizes of ls, tagged.
  ghost predicate AreTagged(ls: seq<Lora>, ms: seq<Lora>) {
    && |ms| == |ls| > 0 && AllFactored(ms) && Catable(As(ms)) && Catable(Bs(ms)) && |ms[0].a.shape| > 2
    && forall k :: 0 <= k < |ls| ==> ms[k] == Tag(ls[k].a.shape, ls[k].b.shape, k)
  }

  lemma JoinedProduct(ms: seq<Lora>, x: nat, rest: seq<nat>)
    requires AllFactored(ms) && Catable(As(ms)) && Catable(Bs(ms)) && |ms[0].a.shape| > 2
    requires |rest| + 1 == |ms[0].a.shape| && x < Sum(Heads(Bs(ms)))
    ensures Catable(Products(ms))
    ensures var r := Part(Heads(Bs(ms)), x);
            Cat(Products(ms)).at([x] + rest) == EntryAt(ms[r.0], [r.1] + rest)
  {
    JoinedShapes(ms);
    CatAtPart(Products(ms), Heads(Bs(ms)), x, rest);
  }

  lemma SameRank(ms: seq<Lora>, k: nat)
    requires AllFactored(ms) && Catable(As(ms)) && Catable(Bs(ms)) && |ms[0].a.shape| > 2 && k < |ms|
    ensures Rank(ms[k]) == Rank(ms[0]) && |ms[k].a.shape| == |ms[0].a.shape|
  {
    SameTail(ms, k);
  }

  lemma TaggedPart(ls: seq<Lora>, ms: seq<Lora>, rest: seq<nat>, x: nat)
    requires AreTagged(ls, ms) && |rest| + 1 == |ms[0].a.shape| && x < Sum(Heads(Bs(ms)))
    ensures Catable(Products(ms))
    ensures Cat(Products(ms)).at([x] + rest) == Repeated(Rank(ms[0]), Part(Heads(Bs(ms)), x).0)
  {
    var r := Part(Heads(Bs(ms)), x);
    JoinedProduct(ms, x, rest);
    SameRank(ms, r.0);
    TagProduct(ls[r.0].a.shape, ls[r.0].b.shape, r.0, [r.1] + rest);
  }

  lemma TaggedRow(ls: seq<Lora>, ms: seq<Lora>, x: nat, u: seq<nat>, k: nat)
    requires AreTagged(ls, ms) && x < Sum(Heads(Bs(ms)))
    ensures Cat(Bs(ms)).at([x] + u + [k]) == 1.0
  {
    JoinedAt(Bs(ms), x, u, [k]);
  }

  lemma TaggedColumn(ls: seq<Lora>, ms: seq<Lora>, x: nat, u: seq<nat>, v: seq<nat>)
    requires AreTagged(ls, ms) && x < Sum(Heads(As(ms)))
    ensures Cat(As(ms)).at([x] + u + v) == Part(Heads(As(ms)), x).0 as real
  {
    JoinedAt(As(ms), x, u, v);
  }

  lemma JoinedRowIs(t: Tensor, i: seq<nat>, x: nat, k: nat)
    requires |i| > 2 && i[0] == x
    ensures InRow(t, i, k) == t.at([x] + Init(i)[1..] + [k])
  {
    SwapFirst(i, x);
  }

  lemma JoinedColumnIs(t: Tensor, i: seq<nat>, x: nat, k: nat)
    requires |t.shape| > 2 && |i| == |t.shape| && i[0] == x < t.shape[0]
    ensures InColumn(t, i, k) == t.at([x] + Under(Lead(t.shape)[1..], Lead(i)[1..]) + [k, Last(i)])
  {
    UnderPart(t.shape, i, x);
  }

  lemma TaggedJoin(ls: seq<Lora>, ms: seq<Lora>, m: Lora, i: seq<nat>, x: nat)
    requires AreTagged(ls, ms) && m == Lora(Cat(As(ms)), Cat(Bs(ms))) && Factored(m) && Rank(m) == Rank(ms[0])
    requires |i| == |m.a.shape| > 2 && i[0] == x < Sum(Heads(Bs(ms))) && x < Sum(Heads(As(ms))) == m.a.shape[0]
    ensures Entry(m, i) == Repeated(Rank(ms[0]), Part(Heads(As(ms)), x).0)
  {
    forall k: nat | k < Rank(m)
      ensures InRow(m.b, i, k) == 1.0 && InColumn(m.a, i, k) == Part(Heads(As(ms)), x).0 as real
    {
      JoinedRowIs(m.b, i, x, k);
      JoinedColumnIs(m.a, i, x, k);
      TaggedRow(ls, ms, x, Init(i)[1..], k);
      TaggedColumn(ls, ms, x, Under(Lead(m.a.shape)[1..], Lead(i)[1..]), [k, Last(i)]);
    }
    TagEntry(m, i, Part(Heads(As(ms)), x).0);
  }

  lemma TaggedIsFactored(ls: seq<Lora>, ms: seq<Lora>)
    requires AllFactored(ls) && Catable(As(ls)) && Catable(Bs(ls)) && SameSizes(ls, ms)
    ensures AllFactored(ms) && Catable(As(ms)) && Catable(Bs(ms))
    ensures Heads(As(ms)) == Heads(As(ls)) && Heads(Bs(ms)) == Heads(Bs(ls))
  {
    forall k | 0 <= k < |ls|
      ensures As(ms)[k].shape == As(ls)[k].shape && Bs(ms)[k].shape == Bs(ls)[k].shape
    {
    }
  }

  // Sizes past dimension 0 for which there is an index.
  predicate NoZero(s: seq<nat>) { forall d :: 0 < d < |s| ==> s[d] > 0 }

  function Origin(n: nat): (i: seq<nat>)
    ensures |i| == n && forall d :: 0 <= d < n ==> i[d] == 0
  {
    seq(n, _ => 0)
  }

  // Sums that agree over other sizes: some part is joined to matrices of another.
  lemma TagsTellApart(ls: seq<Lora>)
    requires AllFactored(ls) && Catable(As(ls)) && Catable(Bs(ls)) && |ls[0].a.shape| > 2
    requires Sum(Heads(As(ls))) == Sum(Heads(Bs(ls))) && Heads(As(ls)) != Heads(Bs(ls))
    requires Rank(ls[0]) > 0 && NoZero(Shape(ls[0]))
    ensures AllFactored(Tagged(ls)) && !JoinsRight(Tagged(ls))
  {
    var ms := Tagged(ls);
    TaggedIsFactored(ls, ms);
    HeadsCover(ls);
    var x := PartsDiffer(Heads(As(ls)), Heads(Bs(ls)));
    TagsTellAt(ls, ms, x);
  }

  // What joining gives when the sums agree.
  lemma Joined(ms: seq<Lora>) returns (m: Lora)
    requires AllFactored(ms) && Catable(As(ms)) && Catable(Bs(ms)) && |ms[0].a.shape| > 2
    requires Sum(Heads(As(ms))) == Sum(Heads(Bs(ms)))
    ensures m == Lora(Cat(As(ms)), Cat(Bs(ms))) && Factored(m) && Rank(m) == Rank(ms[0])
    ensures Catable(Products(ms)) && Shape(m) == Cat(Products(ms)).shape
    ensures |m.a.shape| == |ms[0].a.shape| && m.a.shape[0] == Shape(m)[0] == Sum(Heads(As(ms)))
  {
    m := Lora(Cat(As(ms)), Cat(Bs(ms)));
    JoinedShapes(ms);
    JoinedIsFactored(ms);
    LeadTail(Sum(Heads(Bs(ms))), ms[0].b.shape);
    LeadTail(Sum(Heads(As(ms))), ms[0].a.shape);
  }

  lemma TagsTellAt(ls: seq<Lora>, ms: seq<Lora>, x: nat)
    requires AreTagged(ls, ms) && Rank(ms[0]) > 0 && NoZero(Shape(ms[0]))
    requires x < Sum(Heads(As(ms))) == Sum(Heads(Bs(ms))) && Part(Heads(As(ms)), x).0 != Part(Heads(Bs(ms)), x).0
    ensures !JoinsRight(ms)
  {
    var m := Joined(ms);
    var rest := Origin(|ms[0].a.shape| - 1);
    TaggedPart(ls, ms, rest, x);
    TaggedJoin(ls, ms, m, [x] + rest, x);
    IndexInRange(ms, [x] + rest, x);
    RepeatedDiffer(Rank(ms[0]), Part(Heads(As(ms)), x).0, Part(Heads(Bs(ms)), x).0);
    JoinDiffers(ms, m, [x] + rest);
  }

  lemma JoinDiffers(ms: seq<Lora>, m: Lora, i: seq<nat>)
    requires AllFactored(ms) && Catable(As(ms)) && Catable(Bs(ms)) && |ms[0].a.shape| > 2 && Catable(Products(ms))
    requires m == Lora(Cat(As(ms)), Cat(Bs(ms))) && Factored(m) && Shape(m) == Cat(Products(ms)).shape
    requires InRange(i, Cat(Products(ms)).shape) && Entry(m, i) != Cat(Products(ms)).at(i)
    ensures !JoinsRight(ms)
  {
  }

  lemma IndexInRange(ms: seq<Lora>, i: seq<nat>, x: nat)
    requires AllFactored(ms) && Catable(Products(ms)) && NoZero(Shape(ms[0])) && |i| == |Shape(ms[0])| > 0
    requires i[0] == x < Cat(Products(ms)).shape[0] && forall d :: 0 < d < |i| ==> i[d] == 0
    ensures InRange(i, Cat(Products(ms)).shape)
  {
    assert Cat(Products(ms)).shape[1..] == Shape(ms[0])[1..];
    forall d | 0 <= d < |i|
      ensures i[d] < Cat(Products(ms)).shape[d]
    {
      if d > 0 { assert Cat(Products(ms)).shape[d] == Shape(ms[0])[d]; }
    }
  }

  /** Joining stacks joins the products, for all factors of the same sizes, exactly when each part has
      as many matrices of A as of B, or there is one matrix of A in all. */
  lemma CatStacksIff(ls: seq<Lora>)
    requires AllFactored(ls) && Catable(As(ls)) && Catable(Bs(ls)) && |ls[0].a.shape| > 2
    ensures PartsFit(ls) || Sum(Heads(As(ls))) == 1 ==> JoinsRight(ls)
    ensures Rank(ls[0]) > 0 && NoZero(Shape(ls[0])) && !(PartsFit(ls) || Sum(Heads(As(ls))) == 1) ==>
              exists ms: seq<Lora> :: SameSizes(ls, ms) && AllFactored(ms) && !JoinsRight(ms)
    ensures !PartsFit(ls) && Sum(Heads(As(ls))) != 1 && Sum(Heads(As(ls))) != Sum(Heads(Bs(ls))) ==> !JoinsRight(ls)
  {
    JoinedShapes(ls);
    JoinedIsFactored(ls);
    if PartsFit(ls) {
      CatFits(ls);
    } else if Sum(Heads(As(ls))) == 1 {
      CatShared(ls);
    } else if Sum(Heads(As(ls))) != Sum(Heads(Bs(ls))) {
      assert SameSizes(ls, ls);
    } else if Rank(ls[0]) > 0 && NoZero(Shape(ls[0])) {
      assert Heads(As(ls)) != Heads(Bs(ls)) by {
        var k :| 0 <= k < |ls| && ls[k].a.shape[0] != ls[k].b.shape[0];
        assert Heads(As(ls))[k] != Heads(Bs(ls))[k];
      }
      TagsTellApart(ls);
      assert SameSizes(ls, Tagged(ls));
    }
  }
}
