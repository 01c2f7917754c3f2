/** Which indices of a factored tensor are right: tuples, and single indices and slices
    (convert_lora_to_gguf.py:57-110). */
module LoraTuples {
  import opened Tensors
  import opened Lora
  import opened LoraIndex

  // A result that is there, and is the selection of the product.
  ghost predicate Right(r: Option<Lora>, t: Tensor) {
    r.Some? && Factored(r.value) && Same(Product(r.value), t)
  }

  // ----- tuples -----

  // Slicing a leading dimension is right where A is one matrix for all of it, or all of it is kept.
  predicate LeadFits(items: seq<Item>, a: seq<nat>, b: seq<nat>)
    requires |items| == |a| == |b| && LegalItems(items, b)
  {
    forall d :: 0 <= d < |items| ==> items[d].Slice? ==> a[d] == 1 || Count(items[d], b[d]) == b[d]
  }

  lemma LeadPairs(items: seq<Item>, a: seq<nat>, b: seq<nat>)
    requires Covers(a, b) && LegalItems(items, b) && LeadFits(items, a, b)
    ensures PairsFit(ItemsOfA(items, a), items, a, b)
  {
    forall d | 0 <= d < |items|
      ensures PairFits(ItemsOfA(items, a)[d], items[d], a[d], b[d])
    {
      LeadPair(items[d], a[d], b[d]);
    }
  }

  lemma LeadPair(it: Item, a: nat, b: nat)
    requires (a == 1 || a == b) && LegalItem(it, b)
    requires it.Slice? ==> a == 1 || Count(it, b) == b
    ensures PairFits(ItemOfA(it, a), it, a, b)
  {
    match it
    case At(i) => PythonModulo(i, b);
    case Slice(_, _, _) =>
      forall x: nat | x < Count(it, b)
        ensures SameChoice(Full, it, a, b, x)
      {
        FullIsWhole(a, if Count(Full, a) == 1 then 0 else x);
        if a != 1 { WholeSlice(it, b, x); }
      }
      FullIsWhole(a, 0);
  }

  lemma PythonModulo(i: int, n: nat)
    requires 0 <= i + n && i < n
    ensures i % n == Wrap(i, n)
  {
    if i < 0 { assert i % n == (i + n) % n; }
  }

  lemma LeadLegal(items: seq<Item>, a: seq<nat>, b: seq<nat>)
    requires Covers(a, b) && LegalItems(items, b)
    ensures LegalItems(ItemsOfA(items, a), a)
  {
  }

  // The leading dimensions of the results match exactly when the slices fit.
  lemma {:induction false} LeadCovers(items: seq<Item>, a: seq<nat>, b: seq<nat>)
    requires Covers(a, b) && LegalItems(items, b) && LegalItems(ItemsOfA(items, a), a)
    ensures |SelectShape(ItemsOfA(items, a), a)| == |SelectShape(items, b)|
    ensures Covers(SelectShape(ItemsOfA(items, a), a), SelectShape(items, b)) <==> LeadFits(items, a, b)
    decreases |items|
  {
    if items != [] {
      var x, y := SelectShape(ItemsOfA(Init(items), Init(a)), Init(a)), SelectShape(Init(items), Init(b));
      assert Init(ItemsOfA(items, a)) == ItemsOfA(Init(items), Init(a));
      LeadCovers(Init(items), Init(a), Init(b));
      LeadFitsInit(items, a, b);
      if Last(items).Slice? {
        FullIsWhole(Last(a), 0);
        CoversAppend(x, y, Last(a), Count(Last(items), Last(b)));
      }
    }
  }

  lemma CoversAppend(a: seq<nat>, b: seq<nat>, x: nat, y: nat)
    requires |a| == |b|
    ensures Covers(a + [x], b + [y]) <==> Covers(a, b) && (x == 1 || x == y)
  {
    assert (a + [x])[|a|] == x && (b + [y])[|a|] == y;
    assert forall d :: 0 <= d < |a| ==> (a + [x])[d] == a[d] && (b + [y])[d] == b[d];
  }

  lemma LeadFitsInit(items: seq<Item>, a: seq<nat>, b: seq<nat>)
    requires |items| == |a| == |b| && LegalItems(items, b) && items != []
    ensures LeadFits(items, a, b) <==>
              LeadFits(Init(items), Init(a), Init(b)) && (Last(items).Slice? ==> Last(a) == 1 || Count(Last(items), Last(b)) == Last(b))
  {
    assert forall d :: 0 <= d < |items| - 1 ==> Init(items)[d] == items[d] && Init(a)[d] == a[d] && Init(b)[d] == b[d];
  }

  // Any two items at the end.
  lemma TwoItems(x: seq<Item>, r: Item, c: Item, s: seq<nat>)
    requires |s| >= 2 && LegalItems(x, Lead(s)) && LegalItem(r, s[|s| - 2]) && LegalItem(c, Last(s))
    ensures LegalItems(x + [r] + [c], s)
    ensures SelectShape(x + [r] + [c], s) ==
              SelectShape(x, Lead(s)) + (if r.At? then [] else [Count(r, s[|s| - 2])]) + (if c.At? then [] else [Count(c, Last(s))])
  {
    Matrix(s);
    SelectShapeAppend(x, r, Lead(s), s[|s| - 2]);
    SelectShapeAppend(x + [r], c, Lead(s) + [s[|s| - 2]], Last(s));
    assert SelectShape(x, Lead(s)) + [] == SelectShape(x, Lead(s));
    assert SelectShape(x + [r], Lead(s) + [s[|s| - 2]]) + [] == SelectShape(x + [r], Lead(s) + [s[|s| - 2]]);
  }

  lemma Ends(p: seq<Item>, s: seq<nat>)
    requires |s| >= 2 && LegalItems(p, s)
    ensures p == p[..|p| - 2] + [p[|p| - 2]] + [Last(p)] && LegalItems(p[..|p| - 2], Lead(s))
    ensures LegalItem(p[|p| - 2], s[|s| - 2]) && LegalItem(Last(p), Last(s))
  {
  }

  // The two results of indexing the factors.
  lemma Factors(l: Lora, lead: seq<Item>, r: Item, c: Item)
    requires Factored(l) && LegalItems(lead, Lead(l.b.shape))
    requires LegalItem(r, l.b.shape[|l.b.shape| - 2]) && LegalItem(c, Last(l.a.shape))
    ensures var m := ItemsOfA(lead, Lead(l.a.shape));
            && LegalItems(m + [Full] + [c], l.a.shape) && LegalItems(lead + [r] + [Full], l.b.shape)
            && IndexExpanded(l, lead + [r] + [c]) == Make(Select(l.a, m + [Full] + [c]), Select(l.b, lead + [r] + [Full]))
  {
    var m := ItemsOfA(lead, Lead(l.a.shape));
    LeadLegal(lead, Lead(l.a.shape), Lead(l.b.shape));
    TwoItems(m, Full, c, l.a.shape);
    TwoItems(lead, r, Full, l.b.shape);
    LeadOf3(lead, r, c);
    assert Fulls(1) == [Full];
  }

  lemma LeadOf3(lead: seq<Item>, r: Item, c: Item)
    ensures var p := lead + [r] + [c]; p[..|p| - 2] == lead && Init(p) == lead + [r] && Last(p) == c
  {
  }

  predicate FitsAll(a: seq<nat>, b: seq<nat>, lead: seq<Item>, r: Item, c: Item)
    requires Matches(a, b) && LegalItems(lead, Lead(b))
  {
    r.Slice? && c.Slice? && LeadFits(lead, Lead(a), Lead(b))
  }

  lemma MatrixSlices(l: Lora, lead: seq<Item>, r: Item, c: Item)
    requires Factored(l) && LegalItems(lead, Lead(l.b.shape)) && r.Slice? && c.Slice?
    requires LegalItem(r, l.b.shape[|l.b.shape| - 2]) && LegalItem(c, Last(l.a.shape)) && LegalItems(lead + [r] + [c], Shape(l))
    ensures Right(IndexExpanded(l, lead + [r] + [c]), Select(Product(l), lead + [r] + [c])) <==> FitsAll(l.a.shape, l.b.shape, lead, r, c)
    ensures var x := IndexExpanded(l, lead + [r] + [c]); x.Some? && Factored(x.value) ==> FitsAll(l.a.shape, l.b.shape, lead, r, c)
  {
    var m, la, lb := ItemsOfA(lead, Lead(l.a.shape)), Lead(l.a.shape), Lead(l.b.shape);
    Factors(l, lead, r, c);
    LeadLegal(lead, la, lb);
    LeadCovers(lead, la, lb);
    if LeadFits(lead, la, lb) {
      LeadPairs(lead, la, lb);
      SelectCommutes(l, m, lead, r, c);
    } else {
      TwoItems(m, Full, c, l.a.shape);
      TwoItems(lead, r, Full, l.b.shape);
      LeadOf(SelectShape(m, la), Count(Full, l.a.shape[|l.a.shape| - 2]), Count(c, Last(l.a.shape)));
      LeadOf(SelectShape(lead, lb), Count(r, l.b.shape[|l.b.shape| - 2]), Count(Full, Last(l.b.shape)));
    }
  }

  // A single row or column is never the product's: the constructor refuses it, or the shape is wrong.
  lemma MatrixIndex(l: Lora, lead: seq<Item>, r: Item, c: Item)
    requires Factored(l) && LegalItems(lead, Lead(l.b.shape)) && (r.At? || c.At?)
    requires LegalItem(r, l.b.shape[|l.b.shape| - 2]) && LegalItem(c, Last(l.a.shape)) && LegalItems(lead + [r] + [c], Shape(l))
    ensures !Right(IndexExpanded(l, lead + [r] + [c]), Select(Product(l), lead + [r] + [c]))
  {
    var m, n := ItemsOfA(lead, Lead(l.a.shape)), |SelectShape(lead, Lead(l.b.shape))|;
    Factors(l, lead, r, c);
    LeadLegal(lead, Lead(l.a.shape), Lead(l.b.shape));
    LeadCovers(lead, Lead(l.a.shape), Lead(l.b.shape));
    RanksAfter(m, Full, c, l.a.shape, n);
    RanksAfter(lead, r, Full, l.b.shape, n);
    LeadOfProduct(l);
    RanksAfter(lead, r, c, Shape(l), n);
  }

  lemma RanksAfter(x: seq<Item>, r: Item, c: Item, s: seq<nat>, n: nat)
    requires |s| >= 2 && LegalItems(x, Lead(s)) && LegalItem(r, s[|s| - 2]) && LegalItem(c, Last(s))
    requires |SelectShape(x, Lead(s))| == n
    ensures LegalItems(x + [r] + [c], s)
    ensures |SelectShape(x + [r] + [c], s)| == n + (if r.At? then 0 else 1) + (if c.At? then 0 else 1)
  {
    TwoItems(x, r, c, s);
  }

  // An index of rows beside a slice of columns is refused by the constructor.
  lemma RowIndexRefused(l: Lora, lead: seq<Item>, r: Item, c: Item)
    requires Factored(l) && LegalItems(lead, Lead(l.b.shape)) && r.At? && c.Slice?
    requires LegalItem(r, l.b.shape[|l.b.shape| - 2]) && LegalItem(c, Last(l.a.shape))
    ensures IndexExpanded(l, lead + [r] + [c]).None?
  {
    var m, n := ItemsOfA(lead, Lead(l.a.shape)), |SelectShape(lead, Lead(l.b.shape))|;
    Factors(l, lead, r, c);
    LeadLegal(lead, Lead(l.a.shape), Lead(l.b.shape));
    LeadCovers(lead, Lead(l.a.shape), Lead(l.b.shape));
    RanksAfter(m, Full, c, l.a.shape, n);
    RanksAfter(lead, r, Full, l.b.shape, n);
  }

  // Items that the product does not have are refused by one of the factors.
  lemma IllegalRefused(l: Lora, p: seq<Item>)
    requires Factored(l) && |p| == |l.a.shape| && IndexExpanded(l, p).Some?
    ensures LegalItems(p, Shape(l))
  {
    var n, s := |p|, Shape(l);
    var pb := Padded(Init(p), n);
    var pa := ItemsOfA(p[..n - 2], Lead(l.a.shape)) + [Full] + [Last(p)];
    assert LegalItems(pb, l.b.shape) && LegalItems(pa, l.a.shape);
    assert pa[n - 1] == p[n - 1];
    forall d | 0 <= d < n
      ensures LegalItem(p[d], s[d])
    {
      if d < n - 1 { assert pb[d] == p[d] && s[d] == l.b.shape[d]; }
    }
  }

  /** A tuple is right exactly when the rows and columns are slices and every slice of a leading
      dimension fits. */
  lemma TupleIndexIff(l: Lora, p: seq<Item>)
    requires Factored(l) && LegalItems(p, Shape(l))
    ensures var n := |p|; n >= 2 && LegalItems(p[..n - 2], Lead(l.b.shape))
    ensures Right(IndexExpanded(l, p), Select(Product(l), p)) <==> FitsAll(l.a.shape, l.b.shape, p[..|p| - 2], p[|p| - 2], Last(p))
  {
    var lead, r, c := p[..|p| - 2], p[|p| - 2], Last(p);
    Ends(p, Shape(l));
    LeadOfProduct(l);
    if r.Slice? && c.Slice? {
      MatrixSlices(l, lead, r, c);
    } else {
      MatrixIndex(l, lead, r, c);
    }
  }

  // ----- one index or slice -----

  lemma {:induction false} SelectAll(items: seq<Item>, shape: seq<nat>, i: seq<nat>)
    requires |items| == |shape| == |i| && forall d :: 0 <= d < |items| ==> items[d] == Full
    ensures LegalItems(items, shape) && SelectShape(items, shape) == shape && Pick(items, shape, i) == i
    decreases |items|
  {
    if items != [] {
      SelectAll(Init(items), Init(shape), Init(i));
      FullIsWhole(Last(shape), Last(i));
      SelectShapeAppend(Init(items), Full, Init(shape), Last(shape));
      PickAppend(Init(items), Full, Init(shape), Last(shape), Init(i), Last(i));
      InitAndLast(items);
      InitAndLast(shape);
      InitAndLast(i);
    }
  }

  lemma InitAndLast<T>(s: seq<T>)
    requires s != []
    ensures s == Init(s) + [Last(s)]
  {
  }

  lemma SelectAllSame(t: Tensor, items: seq<Item>)
    requires |items| == |t.shape| && forall d :: 0 <= d < |items| ==> items[d] == Full
    ensures LegalItems(items, t.shape) && Same(Select(t, items), t)
  {
    SelectAll(items, t.shape, t.shape);
    forall i: seq<nat> | InRange(i, t.shape)
      ensures Select(t, items).at(i) == t.at(i)
    {
      SelectAll(items, t.shape, i);
    }
  }

  // Dimension 0 of both factors fits: an index that both have, or a slice that takes as many of
  // both, or takes the one matrix of A.
  predicate HeadFits(it: Item, a: nat, b: nat)
    requires LegalItem(it, b)
  {
    if it.At? then LegalItem(it, a) else Count(it, a) == 1 || Count(it, a) == Count(it, b)
  }

  lemma HeadPairs(it: Item, a: seq<nat>, b: seq<nat>, items: seq<Item>)
    requires Covers(a, b) && a != [] && LegalItem(it, b[0]) && items == [it] + Fulls(|a| - 1)
    requires HeadFits(it, a[0], b[0])
    ensures PairsFit(items, items, a, b)
  {
    forall d | 0 <= d < |items|
      ensures PairFits(items[d], items[d], a[d], b[d])
    {
      if d == 0 { HeadPair(it, a[0], b[0]); } else { WholePair(a[d], b[d]); }
    }
  }

  lemma HeadPair(it: Item, a: nat, b: nat)
    requires (a == 1 || a == b) && LegalItem(it, b) && HeadFits(it, a, b)
    ensures PairFits(it, it, a, b)
  {
    if it.At? {
      ChosenInRange(it, a, 0);
    } else {
      forall x: nat | x < Count(it, b)
        ensures SameChoice(it, it, a, b, x)
      {
        HeadChosen(it, a, b, x);
      }
    }
  }

  lemma HeadChosen(it: Item, a: nat, b: nat, x: nat)
    requires (a == 1 || a == b) && LegalItem(it, b) && HeadFits(it, a, b) && it.Slice? && x < Count(it, b)
    ensures SameChoice(it, it, a, b, x)
  {
    if a == 1 { ChosenInRange(it, a, if Count(it, a) == 1 then 0 else x); }
  }

  lemma WholePair(a: nat, b: nat)
    requires a == 1 || a == b
    ensures PairFits(Full, Full, a, b)
  {
    FullIsWhole(a, 0);
    FullIsWhole(b, 0);
    forall x: nat | x < Count(Full, b)
      ensures SameChoice(Full, Full, a, b, x)
    {
      FullIsWhole(a, if Count(Full, a) == 1 then 0 else x);
      FullIsWhole(b, x);
    }
  }

  lemma {:induction false} HeadShape(it: Item, s: seq<nat>, items: seq<Item>)
    requires s != [] && LegalItem(it, s[0]) && items == [it] + Fulls(|s| - 1)
    ensures LegalItems(items, s)
    ensures SelectShape(items, s) == (if it.At? then [] else [Count(it, s[0])]) + s[1..]
    decreases |s|
  {
    var front := if it.At? then [] else [Count(it, s[0])];
    if |s| == 1 {
      assert items == [it] && front + s[1..] == front && Init(items) == [];
      assert SelectShape(Init(items), Init(s)) == [];
    } else {
      assert Init(items) == [it] + Fulls(|s| - 2);
      HeadShape(it, Init(s), Init(items));
      FullIsWhole(Last(s), 0);
      assert s[1..] == Init(s)[1..] + [Last(s)];
      assert front + s[1..] == (front + Init(s)[1..]) + [Last(s)];
    }
  }

  lemma StackItems(it: Item, s: seq<nat>)
    requires |s| >= 3 && LegalItem(it, s[0])
    ensures Padded([it], |s|) == [it] + Fulls(|s| - 1) == [it] + Fulls(|s| - 3) + [Full] + [Full]
    ensures LegalItems([it] + Fulls(|s| - 1), s)
  {
  }

  lemma StackIndexFits(l: Lora, it: Item)
    requires Factored(l) && |l.a.shape| > 2 && LegalItem(it, l.b.shape[0]) && HeadFits(it, l.a.shape[0], l.b.shape[0])
    ensures LegalItems(Padded([it], |l.a.shape|), Shape(l))
    ensures Right(IndexOne(l, it), Select(Product(l), Padded([it], |l.a.shape|)))
  {
    var lead := [it] + Fulls(|l.a.shape| - 3);
    HeadPairs(it, Lead(l.a.shape), Lead(l.b.shape), lead);
    SelectCommutes(l, lead, lead, Full, Full);
    StackItems(it, l.a.shape);
    StackItems(it, l.b.shape);
  }

  lemma StackIndexMisfits(l: Lora, it: Item, t: Tensor)
    requires Factored(l) && |l.a.shape| > 2 && LegalItem(it, l.b.shape[0]) && !HeadFits(it, l.a.shape[0], l.b.shape[0])
    ensures !Right(IndexOne(l, it), t)
  {
    var n := |l.a.shape|;
    StackItemsOf(it, n);
    if it.At? {
      assert !LegalItem(([it] + Fulls(n - 1))[0], l.a.shape[0]);
    } else {
      StackItems(it, l.a.shape);
      StackItems(it, l.b.shape);
      var items := [it] + Fulls(n - 1);
      HeadShape(it, l.a.shape, items);
      HeadShape(it, l.b.shape, items);
      LeadHead(Count(it, l.a.shape[0]), l.a.shape[1..]);
      LeadHead(Count(it, l.b.shape[0]), l.b.shape[1..]);
    }
  }

  lemma StackItemsOf(it: Item, n: nat)
    requires n >= 3
    ensures Padded([it], n) == [it] + Fulls(n - 1)
  {
  }

  lemma LeadHead(x: nat, s: seq<nat>)
    requires |s| >= 2
    ensures |Lead([x] + s)| >= 1 && Lead([x] + s)[0] == x
  {
  }

  lemma RowsOfMatrix(l: Lora, it: Item)
    requires Factored(l) && |l.a.shape| == 2 && LegalItem(it, l.b.shape[0]) && it.Slice?
    ensures LegalItems(Padded([it], 2), Shape(l)) && Right(IndexOne(l, it), Select(Product(l), Padded([it], 2)))
  {
    RowItems(it);
    SelectCommutes(l, [], [], it, Full);
    var s := Selected(l, [], [], it, Full);
    SelectAllSame(l.a, [] + [Full] + [Full]);
    RowsKeepA(l, s, Lora(l.a, s.b), Select(Product(l), [] + [it] + [Full]));
  }

  lemma RowItems(it: Item)
    ensures Padded([it], 2) == [] + [it] + [Full]
  {
  }

  lemma RowsKeepA(l: Lora, s: Lora, r: Lora, t: Tensor)
    requires Factored(s) && Same(Product(s), t) && Same(s.a, l.a) && r == Lora(l.a, s.b)
    ensures Right(Some(r), t)
  {
    ProductSame(s, r);
  }

  predicate OneFits(l: Lora, it: Item)
    requires Factored(l) && LegalItem(it, l.b.shape[0])
  {
    if |l.a.shape| > 2 then HeadFits(it, l.a.shape[0], l.b.shape[0]) else it.Slice?
  }

  /** One index or slice is right exactly when it fits dimension 0 of both factors; of a single
      matrix, a slice always is and an index never. */
  lemma OneIndexIff(l: Lora, it: Item)
    requires Factored(l) && LegalItem(it, l.b.shape[0])
    ensures var t := TorchIndex(Product(l), [it]);
            t.Some? && (Right(IndexOne(l, it), t.value) <==> OneFits(l, it))
  {
    var n := |l.a.shape|;
    if n > 2 {
      StackItems(it, Shape(l));
      if OneFits(l, it) {
        StackIndexFits(l, it);
      } else {
        StackIndexMisfits(l, it, TorchIndex(Product(l), [it]).value);
      }
    } else if it.Slice? {
      RowsOfMatrix(l, it);
    } else {
      assert Padded([it], 2) == [it, Full];
    }
  }
}
