/** Indexing a factored tensor (convert_lora_to_gguf.py, LoraTorchTensor.__getitem__). */
module LoraIndex {
  import opened Tensors
  import opened Lora

  // ----- what the source does -----

  // In a leading dimension of size n of A, an index is taken modulo n and a slice is ignored.
  function ItemOfA(it: Item, n: nat): Item {
    match it
    case At(i) => At(if n == 0 then 0 else i % n)
    case _ => Full
  }

  function ItemsOfA(items: seq<Item>, shape: seq<nat>): (m: seq<Item>)
    requires |items| == |shape|
    ensures |m| == |items| && forall d :: 0 <= d < |m| ==> m[d] == ItemOfA(items[d], shape[d])
  {
    seq(|items|, d requires 0 <= d < |items| => ItemOfA(items[d], shape[d]))
  }

  // Every ellipsis becomes m whole slices.
  function Spread(items: seq<Item>, m: nat): seq<Item> {
    if items == [] then []
    else (if items[0].Ellipsis? then Fulls(m) else [items[0]]) + Spread(items[1..], m)
  }

  // The tuple that the factors, of rank n, are indexed with; an empty tuple is refused.
  function Expanded(items: seq<Item>, n: nat): Option<seq<Item>> {
    if items == [] then None
    else if Last(items).Ellipsis? then Expanded(Init(items), n)
    else Some(Padded(Spread(items, |items| - 1), n))
  }

  function IndexTuple(l: Lora, items: seq<Item>): Option<Lora>
    requires Factored(l)
  {
    match Expanded(items, |l.a.shape|)
    case None => None
    case Some(p) => IndexExpanded(l, p)
  }

  // Too many items are refused.
  function IndexExpanded(l: Lora, p: seq<Item>): Option<Lora>
    requires Factored(l)
  {
    var n := |l.a.shape|;
    if |p| != n then None
    else
      var a := TorchIndex(l.a, ItemsOfA(p[..n - 2], Lead(l.a.shape)) + [Full] + [Last(p)]);
      var b := TorchIndex(l.b, Init(p));
      if a.None? || b.None? then None else Make(a.value, b.value)
  }

  // One index or one slice: of dimension 0 of both factors, or of the rows of a single matrix.
  function IndexOne(l: Lora, it: Item): Option<Lora>
    requires Factored(l)
  {
    if |l.a.shape| > 2 then
      var a := TorchIndex(l.a, [it]);
      var b := TorchIndex(l.b, [it]);
      if a.None? || b.None? then None else Make(a.value, b.value)
    else if it.Slice? then
      var b := TorchIndex(l.b, [it]);
      if b.None? then None else Make(l.a, b.value)
    else None
  }

  // ----- selecting from both factors -----

  lemma SelectShapeAppend(x: seq<Item>, it: Item, s: seq<nat>, n: nat)
    requires |x| == |s| && LegalItems(x, s) && LegalItem(it, n)
    ensures LegalItems(x + [it], s + [n])
    ensures SelectShape(x + [it], s + [n]) == if it.At? then SelectShape(x, s) else SelectShape(x, s) + [Count(it, n)]
  {
    InitOfAppend(x, it); InitOfAppend(s, n);
  }

  lemma PickAppend(x: seq<Item>, it: Item, s: seq<nat>, n: nat, i: seq<nat>, y: nat)
    requires LegalItems(x, s) && LegalItem(it, n) && it.Slice? && |i| == |SelectShape(x, s)|
    ensures LegalItems(x + [it], s + [n]) && |i + [y]| == |SelectShape(x + [it], s + [n])|
    ensures Pick(x + [it], s + [n], i + [y]) == Pick(x, s, i) + [Chosen(it, n, y)]
  {
    SelectShapeAppend(x, it, s, n);
    InitOfAppend(x, it); InitOfAppend(s, n); InitOfAppend(i, y);
  }

  // Two slices that end a tuple of items.
  lemma PickMatrix(x: seq<Item>, r: Item, c: Item, s: seq<nat>, n: nat, k: nat, i: seq<nat>, y: nat, z: nat)
    requires LegalItems(x, s) && LegalItem(r, n) && LegalItem(c, k) && r.Slice? && c.Slice? && |i| == |SelectShape(x, s)|
    ensures LegalItems(x + [r] + [c], s + [n] + [k])
    ensures SelectShape(x + [r] + [c], s + [n] + [k]) == SelectShape(x, s) + [Count(r, n)] + [Count(c, k)]
    ensures Pick(x + [r] + [c], s + [n] + [k], i + [y] + [z]) == Pick(x, s, i) + [Chosen(r, n, y)] + [Chosen(c, k, z)]
  {
    SelectShapeAppend(x, r, s, n);
    SelectShapeAppend(x + [r], c, s + [n], k);
    PickAppend(x, r, s, n, i, y);
    PickAppend(x + [r], c, s + [n], k, i + [y], z);
  }

  lemma FullIsWhole(n: nat, x: nat)
    ensures LegalItem(Full, n) && Count(Full, n) == n && Chosen(Full, n, x) == x
  {
  }

  // Index x of the slice m of A, or its only one, is the one that goes with index x of the slice it of B.
  predicate SameChoice(m: Item, it: Item, a: nat, b: nat, x: nat)
    requires LegalItem(m, a) && LegalItem(it, b) && m.Slice?
  {
    Chosen(m, a, if Count(m, a) == 1 then 0 else x) == if a == 1 then 0 else Chosen(it, b, x)
  }

  // The item m of A, in a dimension of size a, does what the item it of B does in one of size b.
  predicate PairFits(m: Item, it: Item, a: nat, b: nat) {
    && LegalItem(m, a) && LegalItem(it, b) && (m.At? <==> it.At?)
    && (it.At? ==> Chosen(m, a, 0) == if a == 1 then 0 else Chosen(it, b, 0))
    && (it.Slice? ==>
          && (Count(m, a) == 1 || Count(m, a) == Count(it, b))
          && forall x: nat :: x < Count(it, b) ==> SameChoice(m, it, a, b, x))
  }

  predicate PairsFit(m: seq<Item>, items: seq<Item>, a: seq<nat>, b: seq<nat>) {
    && |m| == |items| == |a| == |b|
    && forall d :: 0 <= d < |m| ==> PairFits(m[d], items[d], a[d], b[d])
  }

  lemma PairsFitInit(m: seq<Item>, items: seq<Item>, a: seq<nat>, b: seq<nat>)
    requires PairsFit(m, items, a, b) && m != []
    ensures PairsFit(Init(m), Init(items), Init(a), Init(b)) && PairFits(Last(m), Last(items), Last(a), Last(b))
  {
  }

  lemma {:induction false} PairsCover(m: seq<Item>, items: seq<Item>, a: seq<nat>, b: seq<nat>)
    requires PairsFit(m, items, a, b)
    ensures LegalItems(m, a) && LegalItems(items, b) && Covers(SelectShape(m, a), SelectShape(items, b))
    decreases |m|
  {
    if m != [] {
      PairsFitInit(m, items, a, b);
      PairsCover(Init(m), Init(items), Init(a), Init(b));
    }
  }

  lemma {:induction false} PickUnder(m: seq<Item>, items: seq<Item>, a: seq<nat>, b: seq<nat>, i: seq<nat>)
    requires PairsFit(m, items, a, b) && LegalItems(m, a) && LegalItems(items, b)
    requires InRange(i, SelectShape(items, b)) && |i| == |SelectShape(m, a)|
    ensures Pick(m, a, Under(SelectShape(m, a), i)) == Under(a, Pick(items, b, i))
    decreases |m|
  {
    if m != [] {
      PairsFitInit(m, items, a, b);
      PairsCover(Init(m), Init(items), Init(a), Init(b));
      if Last(items).At? {
        PickUnder(Init(m), Init(items), Init(a), Init(b), i);
        UnderAppend(a, Pick(Init(items), Init(b), i), Chosen(Last(items), Last(b), 0));
      } else {
        InRangeInit(i, SelectShape(items, b));
        InitOfAppend(SelectShape(Init(items), Init(b)), Count(Last(items), Last(b)));
        PickUnder(Init(m), Init(items), Init(a), Init(b), Init(i));
        PickUnderSlice(m, items, a, b, Init(i), Last(i));
        assert i == Init(i) + [Last(i)];
      }
    }
  }

  lemma PickUnderSlice(m: seq<Item>, items: seq<Item>, a: seq<nat>, b: seq<nat>, f: seq<nat>, x: nat)
    requires m != [] && items != [] && LegalItems(m, a) && LegalItems(items, b) && |m| == |items|
    requires PairFits(Last(m), Last(items), Last(a), Last(b)) && Last(items).Slice? && x < Count(Last(items), Last(b))
    requires |f| == |SelectShape(Init(items), Init(b))| == |SelectShape(Init(m), Init(a))|
    requires Pick(Init(m), Init(a), Under(SelectShape(Init(m), Init(a)), f)) == Under(Init(a), Pick(Init(items), Init(b), f))
    ensures |f + [x]| == |SelectShape(items, b)| == |SelectShape(m, a)|
    ensures Pick(m, a, Under(SelectShape(m, a), f + [x])) == Under(a, Pick(items, b, f + [x]))
  {
    var s, n := SelectShape(Init(m), Init(a)), Count(Last(m), Last(a));
    var y := Chosen(Last(items), Last(b), x);
    UnderLast(s, n, f, x);
    PickLast(m, a, Under(s, f), if n == 1 then 0 else x);
    PickLast(items, b, f, x);
    UnderAppend(a, Pick(Init(items), Init(b), f), y);
    assert SameChoice(Last(m), Last(items), Last(a), Last(b), x);
  }

  lemma UnderLast(s: seq<nat>, n: nat, f: seq<nat>, x: nat)
    requires |f| == |s|
    ensures Under(s + [n], f + [x]) == Under(s, f) + [if n == 1 then 0 else x]
  {
    InitOfAppend(s, n); InitOfAppend(f, x);
  }

  lemma UnderAppend(a: seq<nat>, j: seq<nat>, x: nat)
    requires a != [] && |j| + 1 == |a|
    ensures Under(a, j + [x]) == Under(Init(a), j) + [if Last(a) == 1 then 0 else x]
  {
    InitOfAppend(j, x);
  }

  lemma PickLast(m: seq<Item>, a: seq<nat>, u: seq<nat>, x: nat)
    requires LegalItems(m, a) && m != [] && Last(m).Slice? && |u| == |SelectShape(Init(m), Init(a))|
    ensures |u + [x]| == |SelectShape(m, a)|
    ensures Pick(m, a, u + [x]) == Pick(Init(m), Init(a), u) + [Chosen(Last(m), Last(a), x)]
  {
    InitOfAppend(u, x);
  }

  // The factors of a selection of matrices, rows and columns.
  function Selected(l: Lora, m: seq<Item>, lead: seq<Item>, r: Item, c: Item): Lora
    requires Factored(l) && LegalItems(m + [Full] + [c], l.a.shape) && LegalItems(lead + [r] + [Full], l.b.shape)
  {
    Lora(Select(l.a, m + [Full] + [c]), Select(l.b, lead + [r] + [Full]))
  }

  ghost predicate Selects(l: Lora, m: seq<Item>, lead: seq<Item>, r: Item, c: Item) {
    && Factored(l) && PairsFit(m, lead, Lead(l.a.shape), Lead(l.b.shape))
    && r.Slice? && c.Slice? && r.step > 0 && c.step > 0
  }

  // The shape of a selection of matrices of shape (s..., n, k).
  lemma SelectedShape(x: seq<Item>, r: Item, c: Item, s: seq<nat>)
    requires |s| >= 2 && LegalItems(x, Lead(s)) && r.Slice? && c.Slice? && r.step > 0 && c.step > 0
    ensures LegalItems(x + [r] + [c], s)
    ensures SelectShape(x + [r] + [c], s) == SelectShape(x, Lead(s)) + [Count(r, s[|s| - 2])] + [Count(c, Last(s))]
  {
    Matrix(s);
    PickMatrix(x, r, c, Lead(s), s[|s| - 2], Last(s), SelectShape(x, Lead(s)), 0, 0);
  }

  lemma LeadOfProduct(l: Lora)
    requires Factored(l)
    ensures Lead(Shape(l)) == Lead(l.b.shape) && Last(Shape(l)) == Last(l.a.shape)
    ensures Shape(l)[|Shape(l)| - 2] == l.b.shape[|l.b.shape| - 2]
  {
  }

  lemma SelectedIsLegal(l: Lora, m: seq<Item>, lead: seq<Item>, r: Item, c: Item)
    requires Selects(l, m, lead, r, c)
    ensures LegalItems(m, Lead(l.a.shape)) && LegalItems(lead, Lead(l.b.shape))
    ensures LegalItems(m + [Full] + [c], l.a.shape) && LegalItems(lead + [r] + [Full], l.b.shape) && LegalItems(lead + [r] + [c], Shape(l))
  {
    PairsCover(m, lead, Lead(l.a.shape), Lead(l.b.shape));
    LeadOfProduct(l);
    SelectedShape(m, Full, c, l.a.shape);
    SelectedShape(lead, r, Full, l.b.shape);
    SelectedShape(lead, r, c, Shape(l));
  }

  lemma SelectedShapes(l: Lora, m: seq<Item>, lead: seq<Item>, r: Item, c: Item)
    requires Selects(l, m, lead, r, c)
    requires LegalItems(m, Lead(l.a.shape)) && LegalItems(lead, Lead(l.b.shape))
    requires LegalItems(m + [Full] + [c], l.a.shape) && LegalItems(lead + [r] + [Full], l.b.shape) && LegalItems(lead + [r] + [c], Shape(l))
    ensures var n := |l.a.shape|; var s := Selected(l, m, lead, r, c);
            && s.a.shape == SelectShape(m, Lead(l.a.shape)) + [Rank(l)] + [Count(c, Last(l.a.shape))]
            && s.b.shape == SelectShape(lead, Lead(l.b.shape)) + [Count(r, l.b.shape[n - 2])] + [Rank(l)]
            && Select(Product(l), lead + [r] + [c]).shape
                 == SelectShape(lead, Lead(l.b.shape)) + [Count(r, l.b.shape[n - 2])] + [Count(c, Last(l.a.shape))]
  {
    LeadOfProduct(l);
    FullIsWhole(Rank(l), 0);
    SelectedShape(m, Full, c, l.a.shape);
    SelectedShape(lead, r, Full, l.b.shape);
    SelectedShape(lead, r, c, Shape(l));
  }

  lemma SelectedIsFactored(l: Lora, m: seq<Item>, lead: seq<Item>, r: Item, c: Item)
    requires Selects(l, m, lead, r, c)
    ensures LegalItems(m + [Full] + [c], l.a.shape) && LegalItems(lead + [r] + [Full], l.b.shape) && LegalItems(lead + [r] + [c], Shape(l))
    ensures var s := Selected(l, m, lead, r, c);
            Factored(s) && Shape(s) == Select(Product(l), lead + [r] + [c]).shape && Rank(s) == Rank(l)
  {
    SelectedIsLegal(l, m, lead, r, c);
    SelectedShapes(l, m, lead, r, c);
    PairsCover(m, lead, Lead(l.a.shape), Lead(l.b.shape));
    LeadOf(SelectShape(m, Lead(l.a.shape)), Rank(l), Count(c, Last(l.a.shape)));
    LeadOf(SelectShape(lead, Lead(l.b.shape)), Count(r, l.b.shape[|l.b.shape| - 2]), Rank(l));
  }

  lemma SelectedRow(l: Lora, m: seq<Item>, lead: seq<Item>, r: Item, c: Item, f: seq<nat>, y: nat, z: nat, j: seq<nat>, k: nat)
    requires Selects(l, m, lead, r, c)
    requires LegalItems(lead, Lead(l.b.shape)) && |f| == |SelectShape(lead, Lead(l.b.shape))|
    requires LegalItems(m + [Full] + [c], l.a.shape) && LegalItems(lead + [r] + [Full], l.b.shape)
    requires j == Pick(lead, Lead(l.b.shape), f) + [Chosen(r, l.b.shape[|l.b.shape| - 2], y)] + [Chosen(c, Last(l.a.shape), z)]
    ensures InRow(Selected(l, m, lead, r, c).b, f + [y] + [z], k) == InRow(l.b, j, k)
  {
    var rows := l.b.shape[|l.b.shape| - 2];
    Matrix(l.b.shape);
    FullIsWhole(Rank(l), k);
    InitOfAppend(f + [y], z);
    InitOfAppend(Pick(lead, Lead(l.b.shape), f) + [Chosen(r, rows, y)], Chosen(c, Last(l.a.shape), z));
    PickMatrix(lead, r, Full, Lead(l.b.shape), rows, Rank(l), f, y, k);
  }

  // Where a column of the selection of A comes from.
  lemma PickColumn(m: seq<Item>, lead: seq<Item>, a: seq<nat>, b: seq<nat>, rank: nat, c: Item, n: nat, f: seq<nat>, k: nat, z: nat)
    requires PairsFit(m, lead, a, b) && LegalItems(m, a) && LegalItems(lead, b) && c.Slice? && c.step > 0
    requires InRange(f, SelectShape(lead, b)) && |f| == |SelectShape(m, a)|
    ensures LegalItems(m + [Full] + [c], a + [rank] + [n])
    ensures |Under(SelectShape(m, a), f) + [k, z]| == |SelectShape(m + [Full] + [c], a + [rank] + [n])|
    ensures Pick(m + [Full] + [c], a + [rank] + [n], Under(SelectShape(m, a), f) + [k, z])
              == Under(a, Pick(lead, b, f)) + [k, Chosen(c, n, z)]
  {
    PickUnder(m, lead, a, b, f);
    PickFullMatrix(m, c, a, rank, n, Under(SelectShape(m, a), f), k, z);
  }

  lemma PickFullMatrix(m: seq<Item>, c: Item, a: seq<nat>, rank: nat, n: nat, u: seq<nat>, k: nat, z: nat)
    requires LegalItems(m, a) && c.Slice? && c.step > 0 && |u| == |SelectShape(m, a)|
    ensures LegalItems(m + [Full] + [c], a + [rank] + [n])
    ensures |u + [k, z]| == |SelectShape(m + [Full] + [c], a + [rank] + [n])|
    ensures Pick(m + [Full] + [c], a + [rank] + [n], u + [k, z]) == Pick(m, a, u) + [k, Chosen(c, n, z)]
  {
    FullIsWhole(rank, k);
    PickMatrix(m, Full, c, a, rank, n, u, k, z);
    assert u + [k, z] == u + [k] + [z];
    assert Pick(m, a, u) + [k, Chosen(c, n, z)] == Pick(m, a, u) + [k] + [Chosen(c, n, z)];
  }

  lemma ColumnAt(a: Tensor, s: seq<nat>, f: seq<nat>, y: nat, z: nat, k: nat)
    requires |a.shape| >= 2 && Lead(a.shape) == s && |f| == |s|
    ensures InColumn(a, f + [y] + [z], k) == a.at(Under(s, f) + [k, z])
  {
    LeadOf(f, y, z);
  }

  lemma SelectedColumn(l: Lora, m: seq<Item>, lead: seq<Item>, r: Item, c: Item, f: seq<nat>, y: nat, z: nat, j: seq<nat>, x: nat, k: nat)
    requires Selects(l, m, lead, r, c)
    requires LegalItems(m, Lead(l.a.shape)) && LegalItems(lead, Lead(l.b.shape))
    requires InRange(f, SelectShape(lead, Lead(l.b.shape))) && |f| == |SelectShape(m, Lead(l.a.shape))|
    requires LegalItems(m + [Full] + [c], l.a.shape) && LegalItems(lead + [r] + [Full], l.b.shape)
    requires Selected(l, m, lead, r, c).a.shape == SelectShape(m, Lead(l.a.shape)) + [Rank(l)] + [Count(c, Last(l.a.shape))]
    requires j == Pick(lead, Lead(l.b.shape), f) + [x] + [Chosen(c, Last(l.a.shape), z)]
    ensures InColumn(Selected(l, m, lead, r, c).a, f + [y] + [z], k) == InColumn(l.a, j, k)
  {
    var la, lb := Lead(l.a.shape), Lead(l.b.shape);
    PairsCover(m, lead, la, lb);
    Matrix(l.a.shape);
    LeadOf(SelectShape(m, la), Rank(l), Count(c, Last(l.a.shape)));
    ColumnAt(Selected(l, m, lead, r, c).a, SelectShape(m, la), f, y, z, k);
    ColumnAt(l.a, la, Pick(lead, lb, f), x, Chosen(c, Last(l.a.shape), z), k);
    PickColumn(m, lead, la, lb, Rank(l), c, Last(l.a.shape), f, k, z);
  }

  lemma SelectedEntry(l: Lora, m: seq<Item>, lead: seq<Item>, r: Item, c: Item, s: Lora, f: seq<nat>, y: nat, z: nat, j: seq<nat>)
    requires Selects(l, m, lead, r, c)
    requires LegalItems(lead, Lead(l.b.shape)) && InRange(f, SelectShape(lead, Lead(l.b.shape)))
    requires LegalItems(m + [Full] + [c], l.a.shape) && LegalItems(lead + [r] + [Full], l.b.shape)
    requires s == Selected(l, m, lead, r, c) && Factored(s) && Rank(s) == Rank(l) && |s.a.shape| == |f| + 2
    requires j == Pick(lead, Lead(l.b.shape), f) + [Chosen(r, l.b.shape[|l.b.shape| - 2], y)] + [Chosen(c, Last(l.a.shape), z)]
    ensures |j| == |l.a.shape| && Entry(s, f + [y] + [z]) == Entry(l, j)
  {
    SelectedIsLegal(l, m, lead, r, c);
    SelectedShapes(l, m, lead, r, c);
    forall k: nat | k < Rank(l)
      ensures InRow(s.b, f + [y] + [z], k) == InRow(l.b, j, k) && InColumn(s.a, f + [y] + [z], k) == InColumn(l.a, j, k)
    {
      SelectedRow(l, m, lead, r, c, f, y, z, j, k);
      SelectedColumn(l, m, lead, r, c, f, y, z, j, Chosen(r, l.b.shape[|l.b.shape| - 2], y), k);
    }
    EntrySame(s, f + [y] + [z], l, j);
  }

  // Where the entry of the product's selection comes from.
  lemma PickEntry(l: Lora, lead: seq<Item>, r: Item, c: Item, f: seq<nat>, y: nat, z: nat)
    requires Factored(l) && r.Slice? && c.Slice? && r.step > 0 && c.step > 0
    requires LegalItems(lead, Lead(l.b.shape)) && |f| == |SelectShape(lead, Lead(l.b.shape))|
    ensures LegalItems(lead + [r] + [c], Shape(l))
    ensures Select(Product(l), lead + [r] + [c]).at(f + [y] + [z])
              == EntryAt(l, Pick(lead, Lead(l.b.shape), f) + [Chosen(r, l.b.shape[|l.b.shape| - 2], y)] + [Chosen(c, Last(l.a.shape), z)])
  {
    LeadOfProduct(l);
    Matrix(Shape(l));
    PickMatrix(lead, r, c, Lead(l.b.shape), l.b.shape[|l.b.shape| - 2], Last(l.a.shape), f, y, z);
  }

  /** Selecting from the factors selects from their product, when the items of A fit those of B. */
  lemma SelectCommutes(l: Lora, m: seq<Item>, lead: seq<Item>, r: Item, c: Item)
    requires Selects(l, m, lead, r, c)
    ensures LegalItems(m + [Full] + [c], l.a.shape) && LegalItems(lead + [r] + [Full], l.b.shape) && LegalItems(lead + [r] + [c], Shape(l))
    ensures var s := Selected(l, m, lead, r, c);
            Factored(s) && Same(Product(s), Select(Product(l), lead + [r] + [c]))
  {
    SelectedIsFactored(l, m, lead, r, c);
    SelectedIsLegal(l, m, lead, r, c);
    SelectedShapes(l, m, lead, r, c);
    var s, rows := Selected(l, m, lead, r, c), l.b.shape[|l.b.shape| - 2];
    forall i: seq<nat> | InRange(i, Shape(s))
      ensures Product(s).at(i) == Select(Product(l), lead + [r] + [c]).at(i)
    {
      var f, y, z := Lead(i), i[|i| - 2], Last(i);
      Matrix(i);
      FrontInRange(i, SelectShape(lead, Lead(l.b.shape)), Count(r, rows), Count(c, Last(l.a.shape)));
      SelectedEntry(l, m, lead, r, c, s, f, y, z, Pick(lead, Lead(l.b.shape), f) + [Chosen(r, rows, y)] + [Chosen(c, Last(l.a.shape), z)]);
      PickEntry(l, lead, r, c, f, y, z);
    }
  }

  lemma FrontInRange(i: seq<nat>, s: seq<nat>, n: nat, k: nat)
    requires InRange(i, s + [n] + [k])
    ensures InRange(Lead(i), s)
  {
    LeadOf(s, n, k);
    assert forall d :: 0 <= d < |s| ==> s[d] == (s + [n] + [k])[d];
  }
}
