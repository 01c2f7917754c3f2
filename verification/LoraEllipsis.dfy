/** The ellipsis in an index of a factored tensor (convert_lora_to_gguf.py:77-94): what it is
    expanded to, what it stands for, and when the result is the same. */
module LoraEllipsis {
  import opened Tensors
  import opened Lora
  import opened LoraIndex
  import opened LoraTuples

  // ----- the expansion -----

  predicate Plain(items: seq<Item>) { forall d :: 0 <= d < |items| ==> !items[d].Ellipsis? }

  predicate AllFull(items: seq<Item>) { forall d :: 0 <= d < |items| ==> items[d] == Full }

  // What one ellipsis stands for: as many whole slices as there are dimensions left.
  function Meant(pre: seq<Item>, post: seq<Item>, n: nat): seq<Item>
    requires |pre| + |post| <= n
  {
    pre + Fulls(n - |pre| - |post|) + post
  }

  lemma {:induction false} SpreadPlain(items: seq<Item>, m: nat)
    requires Plain(items)
    ensures Spread(items, m) == items
  {
    if items != [] { SpreadPlain(items[1..], m); }
  }

  lemma {:induction false} SpreadOne(pre: seq<Item>, post: seq<Item>, m: nat)
    requires Plain(pre) && Plain(post)
    ensures Spread(pre + [Ellipsis] + post, m) == pre + Fulls(m) + post
  {
    var items := pre + [Ellipsis] + post;
    if pre == [] {
      assert items[1..] == post;
      SpreadPlain(post, m);
      assert pre + Fulls(m) == Fulls(m);
    } else {
      assert items[1..] == pre[1..] + [Ellipsis] + post;
      SpreadOne(pre[1..], post, m);
      assert [pre[0]] + (pre[1..] + Fulls(m) + post) == pre + Fulls(m) + post;
    }
  }

  // Whole slices after the items instead of before them: the same only if the items are whole slices.
  lemma {:induction false} ShiftedFulls(post: seq<Item>, k: nat)
    requires k > 0
    ensures post + Fulls(k) == Fulls(k) + post <==> AllFull(post)
  {
    var x, y := post + Fulls(k), Fulls(k) + post;
    if x == y {
      AllFullFrom(post, k, |post|);
    }
  }

  lemma {:induction false} AllFullFrom(post: seq<Item>, k: nat, n: nat)
    requires k > 0 && n <= |post| && post + Fulls(k) == Fulls(k) + post
    ensures AllFull(post[..n])
  {
    if n > 0 {
      AllFullFrom(post, k, n - 1);
      assert (post + Fulls(k))[n - 1] == (Fulls(k) + post)[n - 1];
      assert n - 1 >= k ==> post[n - 1] == post[..n - 1][n - 1 - k];
      assert post[..n] == post[..n - 1] + [post[n - 1]];
    }
  }

  lemma EllipsisShift(pre: seq<Item>, post: seq<Item>, c: nat, k: nat)
    ensures pre + Fulls(c) + post + Fulls(k) == pre + Fulls(c + k) + post <==> post + Fulls(k) == Fulls(k) + post
  {
    var front := pre + Fulls(c);
    assert Fulls(c + k) == Fulls(c) + Fulls(k);
    assert pre + Fulls(c + k) + post == front + (Fulls(k) + post);
    assert front + post + Fulls(k) == front + (post + Fulls(k));
    if front + (post + Fulls(k)) == front + (Fulls(k) + post) {
      assert (front + (post + Fulls(k)))[|front|..] == post + Fulls(k);
      assert (front + (Fulls(k) + post))[|front|..] == Fulls(k) + post;
    }
  }

  lemma PaddedSpread(pre: seq<Item>, post: seq<Item>, n: nat)
    requires Plain(pre) && Plain(post)
    ensures var c := |pre| + |post|; var s := Spread(pre + [Ellipsis] + post, c);
            && (n >= 2 * c ==> Padded(s, n) == pre + Fulls(c) + post + Fulls(n - 2 * c))
            && (n < 2 * c ==> |Padded(s, n)| > n)
  {
    var c := |pre| + |post|;
    SpreadOne(pre, post, c);
    if n == 2 * c { assert pre + Fulls(c) + post + Fulls(0) == pre + Fulls(c) + post; }
  }

  lemma MeantIff(pre: seq<Item>, post: seq<Item>, n: nat)
    requires 2 * (|pre| + |post|) <= n
    ensures var c := |pre| + |post|;
            pre + Fulls(c) + post + Fulls(n - 2 * c) == Meant(pre, post, n) <==> n == 2 * c || AllFull(post)
  {
    var c := |pre| + |post|;
    var k := n - 2 * c;
    if k == 0 {
      assert pre + Fulls(c) + post + Fulls(0) == pre + Fulls(c) + post;
    } else {
      EllipsisShift(pre, post, c, k);
      ShiftedFulls(post, k);
    }
  }

  lemma ExpandedIs(pre: seq<Item>, post: seq<Item>, n: nat)
    requires Plain(post) && post != []
    ensures Expanded(pre + [Ellipsis] + post, n) == Some(Padded(Spread(pre + [Ellipsis] + post, |pre| + |post|), n))
  {
    var items := pre + [Ellipsis] + post;
    assert Last(items) == Last(post) && |items| - 1 == |pre| + |post|;
  }

  // A trailing ellipsis, and missing items, stand for whole slices.
  lemma TrailingEllipsis(pre: seq<Item>, n: nat)
    requires Plain(pre) && pre != [] && |pre| <= n
    ensures Expanded(pre + [Ellipsis], n) == Expanded(pre, n) == Some(Meant(pre, [], n))
  {
    InitOfAppend(pre, Ellipsis);
    SpreadPlain(pre, |pre| - 1);
    MeantIsPadded(pre, n);
  }

  lemma MeantIsPadded(pre: seq<Item>, n: nat)
    requires |pre| <= n
    ensures Padded(pre, n) == Meant(pre, [], n)
  {
  }

  // ----- two tuples that select the same from every tensor -----

  ghost predicate ChoosesSame(p: seq<Item>, q: seq<Item>, s: seq<nat>)
    requires LegalItems(p, s) && LegalItems(q, s)
  {
    && SelectShape(p, s) == SelectShape(q, s)
    && forall i: seq<nat> :: InRange(i, SelectShape(p, s)) ==> Pick(p, s, i) == Pick(q, s, i)
  }

  lemma ChoosesSameSelects(t: Tensor, p: seq<Item>, q: seq<Item>)
    requires LegalItems(p, t.shape) && LegalItems(q, t.shape) && ChoosesSame(p, q, t.shape)
    ensures Same(Select(t, p), Select(t, q))
  {
  }

  // Two items that choose the same of a dimension of size n.
  predicate Alike(p: Item, q: Item, n: nat)
    requires LegalItem(p, n) && LegalItem(q, n)
  {
    && (p.At? <==> q.At?)
    && (p.At? ==> Chosen(p, n, 0) == Chosen(q, n, 0))
    && (p.Slice? ==> Count(p, n) == Count(q, n) && forall x: nat :: x < Count(p, n) ==> Chosen(p, n, x) == Chosen(q, n, x))
  }

  predicate AllAlike(p: seq<Item>, q: seq<Item>, s: seq<nat>)
    requires LegalItems(p, s) && LegalItems(q, s)
  {
    forall d :: 0 <= d < |p| ==> Alike(p[d], q[d], s[d])
  }

  lemma AllAlikeInit(p: seq<Item>, q: seq<Item>, s: seq<nat>)
    requires LegalItems(p, s) && LegalItems(q, s) && p != []
    ensures AllAlike(p, q, s) <==> AllAlike(Init(p), Init(q), Init(s)) && Alike(Last(p), Last(q), Last(s))
  {
    assert forall d :: 0 <= d < |p| - 1 ==> Init(p)[d] == p[d] && Init(q)[d] == q[d] && Init(s)[d] == s[d];
  }

  predicate Positive(s: seq<nat>) { forall d :: 0 <= d < |s| ==> s[d] > 0 }

  function Zeros(n: nat): (s: seq<nat>)
    ensures |s| == n && forall d :: 0 <= d < n ==> s[d] == 0
  {
    seq(n, _ => 0)
  }

  /** Tuples whose indices stand in the same places choose the same of a tensor, unless there is
      nothing to choose, exactly when their items do in every dimension. */
  lemma {:induction false} ChoosesSameIff(p: seq<Item>, q: seq<Item>, s: seq<nat>)
    requires LegalItems(p, s) && LegalItems(q, s) && Positive(SelectShape(p, s))
    requires forall d :: 0 <= d < |p| ==> (p[d].At? <==> q[d].At?)
    ensures ChoosesSame(p, q, s) <==> AllAlike(p, q, s)
    decreases |p|
  {
    if p != [] {
      AllAlikeInit(p, q, s);
      assert p[|p| - 1] == Last(p) && q[|p| - 1] == Last(q);
      SelectShapeLast(p, s);
      SelectShapeLast(q, s);
      PositiveInit(p, s);
      ChoosesSameIff(Init(p), Init(q), Init(s));
      if AllAlike(p, q, s) {
        AlikeSame(p, q, s);
      } else if ChoosesSame(p, q, s) {
        SameAlike(p, q, s);
      }
    }
  }

  lemma SelectShapeLast(p: seq<Item>, s: seq<nat>)
    requires LegalItems(p, s) && p != []
    ensures var f := SelectShape(Init(p), Init(s));
            SelectShape(p, s) == if Last(p).At? then f else f + [Count(Last(p), Last(s))]
  {
  }

  lemma PositiveInit(p: seq<Item>, s: seq<nat>)
    requires LegalItems(p, s) && p != [] && Positive(SelectShape(p, s))
    ensures Positive(SelectShape(Init(p), Init(s))) && (Last(p).Slice? ==> Count(Last(p), Last(s)) > 0)
  {
    var f := SelectShape(Init(p), Init(s));
    if Last(p).Slice? {
      var c := Count(Last(p), Last(s));
      assert forall d :: 0 <= d < |f| ==> (f + [c])[d] == f[d];
      assert (f + [c])[|f|] == c;
    }
  }

  lemma AlikeSame(p: seq<Item>, q: seq<Item>, s: seq<nat>)
    requires LegalItems(p, s) && LegalItems(q, s) && p != []
    requires ChoosesSame(Init(p), Init(q), Init(s)) && Alike(Last(p), Last(q), Last(s))
    ensures ChoosesSame(p, q, s)
  {
    var f := SelectShape(Init(p), Init(s));
    forall i: seq<nat> | InRange(i, SelectShape(p, s))
      ensures Pick(p, s, i) == Pick(q, s, i)
    {
      if Last(p).Slice? {
        InRangeInit(i, f + [Count(Last(p), Last(s))]);
        InitOfAppend(f, Count(Last(p), Last(s)));
      }
    }
  }

  // Where the selections agree, so do those of the leading dimensions, and the last items.
  lemma SameAlike(p: seq<Item>, q: seq<Item>, s: seq<nat>)
    requires LegalItems(p, s) && LegalItems(q, s) && p != [] && (Last(p).At? <==> Last(q).At?)
    requires ChoosesSame(p, q, s) && Positive(SelectShape(Init(p), Init(s))) && (Last(p).Slice? ==> Count(Last(p), Last(s)) > 0)
    ensures ChoosesSame(Init(p), Init(q), Init(s)) && Alike(Last(p), Last(q), Last(s))
  {
    var f, g := SelectShape(Init(p), Init(s)), SelectShape(Init(q), Init(s));
    if Last(p).At? {
      forall i: seq<nat> | InRange(i, f)
        ensures Pick(Init(p), Init(s), i) == Pick(Init(q), Init(s), i)
        ensures Chosen(Last(p), Last(s), 0) == Chosen(Last(q), Last(s), 0)
      {
        InitOfAppend(Pick(Init(p), Init(s), i), Chosen(Last(p), Last(s), 0));
        InitOfAppend(Pick(Init(q), Init(s), i), Chosen(Last(q), Last(s), 0));
      }
      assert InRange(Zeros(|f|), f);
    } else {
      var c, e := Count(Last(p), Last(s)), Count(Last(q), Last(s));
      InitOfAppend(f, c);
      InitOfAppend(g, e);
      assert InRange(Zeros(|f|), f);
      forall i: seq<nat> | InRange(i, f)
        ensures Pick(Init(p), Init(s), i) == Pick(Init(q), Init(s), i)
      {
        SameLastSlice(p, q, s, i, 0);
      }
      forall x: nat | x < c
        ensures Chosen(Last(p), Last(s), x) == Chosen(Last(q), Last(s), x)
      {
        SameLastSlice(p, q, s, Zeros(|f|), x);
      }
    }
  }

  lemma SameLastSlice(p: seq<Item>, q: seq<Item>, s: seq<nat>, i: seq<nat>, x: nat)
    requires LegalItems(p, s) && LegalItems(q, s) && p != [] && Last(p).Slice? && Last(q).Slice? && ChoosesSame(p, q, s)
    requires InRange(i, SelectShape(Init(p), Init(s))) && x < Count(Last(p), Last(s))
    requires |SelectShape(Init(q), Init(s))| == |i|
    ensures Pick(Init(p), Init(s), i) == Pick(Init(q), Init(s), i)
    ensures Chosen(Last(p), Last(s), x) == Chosen(Last(q), Last(s), x)
  {
    InRangeAppend(i, SelectShape(Init(p), Init(s)), x, Count(Last(p), Last(s)));
    InitOfAppend(i, x);
    InitOfAppend(Pick(Init(p), Init(s), i), Chosen(Last(p), Last(s), x));
    InitOfAppend(Pick(Init(q), Init(s), i), Chosen(Last(q), Last(s), x));
  }

  // ----- factors whose product tells two indices apart -----

  function Coordinate(d: nat, i: seq<nat>): real { if d < |i| then i[d] as real else 0.0 }

  // The entry of the product is the rank times the index in dimension d.
  function Ramp(a: seq<nat>, b: seq<nat>, d: nat): Lora {
    if d + 1 < |b| then Lora(Tensor(a, i => 1.0), Tensor(b, i => Coordinate(d, i)))
    else Lora(Tensor(a, i => Coordinate(d, i)), Tensor(b, i => 1.0))
  }

  lemma RampFactors(a: seq<nat>, b: seq<nat>, d: nat, i: seq<nat>, k: nat)
    requires Matches(a, b) && |i| == |a| && d < |a|
    ensures var l := Ramp(a, b, d);
            if d + 1 < |b| then InRow(l.b, i, k) == i[d] as real && InColumn(l.a, i, k) == 1.0
            else InRow(l.b, i, k) == 1.0 && InColumn(l.a, i, k) == i[d] as real
  {
    if d + 1 < |b| {
      assert (Init(i) + [k])[d] == i[d];
    } else {
      assert (Under(Lead(a), Lead(i)) + [k, Last(i)])[d] == i[d];
    }
  }

  lemma RampEntry(a: seq<nat>, b: seq<nat>, d: nat, i: seq<nat>)
    requires Matches(a, b) && |i| == |a| && d < |a|
    ensures Entry(Ramp(a, b, d), i) == Repeated(Last(b), i[d])
  {
    var l := Ramp(a, b, d);
    forall k: nat | k < Last(b)
      ensures if d + 1 < |b| then InRow(l.b, i, k) == i[d] as real && InColumn(l.a, i, k) == 1.0
              else InRow(l.b, i, k) == 1.0 && InColumn(l.a, i, k) == i[d] as real
    {
      RampFactors(a, b, d, i, k);
    }
    if d + 1 < |b| {
      DotSwap(Last(b), (k: nat) => InRow(l.b, i, k), (k: nat) => InColumn(l.a, i, k));
      DotOnes(Last(b), (k: nat) => InColumn(l.a, i, k), (k: nat) => InRow(l.b, i, k), i[d]);
    } else {
      DotOnes(Last(b), (k: nat) => InRow(l.b, i, k), (k: nat) => InColumn(l.a, i, k), i[d]);
    }
  }

  lemma RampTellsApart(a: seq<nat>, b: seq<nat>, i: seq<nat>, j: seq<nat>) returns (d: nat)
    requires Matches(a, b) && Last(b) > 0 && |i| == |j| == |a| && i != j
    ensures d < |a| && Entry(Ramp(a, b, d), i) != Entry(Ramp(a, b, d), j)
  {
    d :| d < |a| && i[d] != j[d];
    RampEntry(a, b, d, i);
    RampEntry(a, b, d, j);
    RepeatedDiffer(Last(b), i[d], j[d]);
  }

  // Selections that agree on every product choose the same.
  // The entry that a tuple selects of a ramp, and one that two tuples select differently.
  lemma RampSelected(a: seq<nat>, b: seq<nat>, p: seq<Item>, s: seq<nat>, d: nat, i: seq<nat>)
    requires Matches(a, b) && s == Init(b) + [Last(a)] && LegalItems(p, s) && InRange(i, SelectShape(p, s))
    ensures Product(Ramp(a, b, d)).shape == s
    ensures Select(Product(Ramp(a, b, d)), p).at(i) == Entry(Ramp(a, b, d), Pick(p, s, i))
  {
  }

  lemma RampsDiffer(a: seq<nat>, b: seq<nat>, p: seq<Item>, q: seq<Item>, s: seq<nat>, i: seq<nat>) returns (d: nat)
    requires Matches(a, b) && Last(b) > 0 && s == Init(b) + [Last(a)]
    requires LegalItems(p, s) && LegalItems(q, s) && SelectShape(p, s) == SelectShape(q, s)
    requires InRange(i, SelectShape(p, s)) && Pick(p, s, i) != Pick(q, s, i)
    ensures d < |a| && Product(Ramp(a, b, d)).shape == s
    ensures Select(Product(Ramp(a, b, d)), p).at(i) != Select(Product(Ramp(a, b, d)), q).at(i)
  {
    d := RampTellsApart(a, b, Pick(p, s, i), Pick(q, s, i));
    RampSelected(a, b, p, s, d, i);
    RampSelected(a, b, q, s, d, i);
  }

  // Selections that agree on every product choose the same.
  lemma SelectsSameChooses(a: seq<nat>, b: seq<nat>, p: seq<Item>, q: seq<Item>, s: seq<nat>)
    requires Matches(a, b) && Covers(Lead(a), Lead(b)) && Last(b) > 0 && s == Init(b) + [Last(a)]
    requires LegalItems(p, s) && LegalItems(q, s)
    requires forall d: nat :: d < |a| ==> Same(Select(Product(Ramp(a, b, d)), p), Select(Product(Ramp(a, b, d)), q))
    ensures ChoosesSame(p, q, s)
  {
    assert Same(Select(Product(Ramp(a, b, 0)), p), Select(Product(Ramp(a, b, 0)), q));
    forall i: seq<nat> | InRange(i, SelectShape(p, s))
      ensures Pick(p, s, i) == Pick(q, s, i)
    {
      if Pick(p, s, i) != Pick(q, s, i) {
        var d := RampsDiffer(a, b, p, q, s, i);
      }
    }
  }

  // ----- when an ellipsis before other items is right -----

  // The tuple that the source indexes the factors with.
  function Written(pre: seq<Item>, post: seq<Item>, n: nat): seq<Item>
    requires 2 * (|pre| + |post|) <= n
  {
    pre + Fulls(|pre| + |post|) + post + Fulls(n - 2 * (|pre| + |post|))
  }

  function ShapeOf(a: seq<nat>, b: seq<nat>): seq<nat>
    requires Matches(a, b)
  {
    Init(b) + [Last(a)]
  }

  // The condition of tuples, on the shapes of the factors.
  predicate ShapesFit(a: seq<nat>, b: seq<nat>, p: seq<Item>)
    requires Matches(a, b) && Covers(Lead(a), Lead(b)) && LegalItems(p, ShapeOf(a, b))
  {
    var n := |p|;
    LegalLead(a, b, p);
    FitsAll(a, b, p[..n - 2], p[n - 2], Last(p))
  }

  lemma LegalLead(a: seq<nat>, b: seq<nat>, p: seq<Item>)
    requires Matches(a, b) && LegalItems(p, ShapeOf(a, b))
    ensures |p| >= 2 && LegalItems(p[..|p| - 2], Lead(b))
    ensures LegalItem(p[|p| - 2], b[|b| - 2]) && LegalItem(Last(p), Last(a))
  {
    var n, s := |p|, ShapeOf(a, b);
    assert s[n - 1] == Last(a);
    assert forall d :: 0 <= d < n - 1 ==> s[d] == b[d];
  }

  // There is room for the expanded tuple, it fits the factors, and it chooses what is meant.
  ghost predicate EllipsisFits(a: seq<nat>, b: seq<nat>, pre: seq<Item>, post: seq<Item>)
    requires Matches(a, b) && Covers(Lead(a), Lead(b)) && |pre| + |post| <= |a|
    requires LegalItems(Meant(pre, post, |a|), ShapeOf(a, b))
  {
    && 2 * (|pre| + |post|) <= |a|
    && LegalItems(Written(pre, post, |a|), ShapeOf(a, b))
    && ShapesFit(a, b, Written(pre, post, |a|))
    && ChoosesSame(Written(pre, post, |a|), Meant(pre, post, |a|), ShapeOf(a, b))
  }

  // Indexing with the expanded tuple, whatever it is compared with.
  lemma WrittenRight(l: Lora, p: seq<Item>, t: Tensor)
    requires Factored(l) && |p| == |l.a.shape| && Last(p).Slice?
    ensures Right(IndexExpanded(l, p), t) <==> WrittenFits(l, p, t)
  {
    if LegalItems(p, Shape(l)) {
      var lead, r, c := p[..|p| - 2], p[|p| - 2], Last(p);
      LegalLead(l.a.shape, l.b.shape, p);
      Ends(p, Shape(l));
      if r.At? {
        RowIndexRefused(l, lead, r, c);
      } else {
        MatrixSlices(l, lead, r, c);
      }
    } else if IndexExpanded(l, p).Some? {
      IllegalRefused(l, p);
    }
  }

  lemma IndexIs(l: Lora, pre: seq<Item>, post: seq<Item>)
    requires Factored(l) && Plain(pre) && Plain(post) && post != []
    ensures var n := |l.a.shape|; var r := IndexTuple(l, pre + [Ellipsis] + post);
            && (2 * (|pre| + |post|) <= n ==> r == IndexExpanded(l, Written(pre, post, n)))
            && (2 * (|pre| + |post|) > n ==> r.None?)
  {
    ExpandedIs(pre, post, |l.a.shape|);
    PaddedSpread(pre, post, |l.a.shape|);
  }

  // The result for one factored tensor.
  lemma EllipsisRight(l: Lora, pre: seq<Item>, post: seq<Item>, t: Tensor)
    requires Factored(l) && Plain(pre) && Plain(post) && post != [] && |pre| + |post| <= |l.a.shape|
    requires LegalItems(Meant(pre, post, |l.a.shape|), Shape(l)) && t == Select(Product(l), Meant(pre, post, |l.a.shape|))
    ensures Right(IndexTuple(l, pre + [Ellipsis] + post), t) <==>
              2 * (|pre| + |post|) <= |l.a.shape| && WrittenFits(l, Written(pre, post, |l.a.shape|), t)
  {
    var n, c := |l.a.shape|, |pre| + |post|;
    IndexIs(l, pre, post);
    if 2 * c == n {
      MeantIff(pre, post, n);
      ExactRight(l, Written(pre, post, n), t);
    } else if 2 * c < n {
      WrittenLast(pre, post, n);
      WrittenRight(l, Written(pre, post, n), t);
    }
  }

  // A tuple of as many items as dimensions that fits the factors, and selects t.
  ghost predicate WrittenFits(l: Lora, p: seq<Item>, t: Tensor)
    requires Factored(l) && |p| == |l.a.shape|
  {
    LegalItems(p, Shape(l)) && ShapesFit(l.a.shape, l.b.shape, p) && Same(Select(Product(l), p), t)
  }

  lemma ExactRight(l: Lora, p: seq<Item>, t: Tensor)
    requires Factored(l) && LegalItems(p, Shape(l)) && t == Select(Product(l), p)
    ensures Right(IndexExpanded(l, p), t) <==> WrittenFits(l, p, t)
  {
    LegalLead(l.a.shape, l.b.shape, p);
    TupleIndexIff(l, p);
  }

  lemma WrittenLast(pre: seq<Item>, post: seq<Item>, n: nat)
    requires 2 * (|pre| + |post|) < n
    ensures |Written(pre, post, n)| == n && Last(Written(pre, post, n)) == Full
  {
  }

  /** Indexing with an ellipsis before other items gives what is meant, for all factors of the given
      shapes, exactly when the rank has room for the expanded tuple, that tuple fits the shapes, and
      it chooses what is meant. */
  lemma EllipsisIff(a: seq<nat>, b: seq<nat>, pre: seq<Item>, post: seq<Item>)
    requires Matches(a, b) && Covers(Lead(a), Lead(b))
    requires Plain(pre) && Plain(post) && post != [] && |pre| + |post| <= |a|
    requires LegalItems(Meant(pre, post, |a|), ShapeOf(a, b))
    ensures EllipsisFits(a, b, pre, post) ==> AllWork(a, b, pre, post)
    ensures Last(b) > 0 ==> (AllWork(a, b, pre, post) <==> EllipsisFits(a, b, pre, post))
  {
    if EllipsisFits(a, b, pre, post) { FitsWorks(a, b, pre, post); }
    if Last(b) > 0 && AllWork(a, b, pre, post) { WorksFits(a, b, pre, post); }
  }

  // It works for all factors of the given shapes.
  ghost predicate AllWork(a: seq<nat>, b: seq<nat>, pre: seq<Item>, post: seq<Item>)
    requires Matches(a, b) && Covers(Lead(a), Lead(b)) && |pre| + |post| <= |a|
    requires LegalItems(Meant(pre, post, |a|), ShapeOf(a, b))
  {
    forall l: Lora :: l.a.shape == a && l.b.shape == b ==> EllipsisWorks(l, pre, post)
  }

  lemma FitsWorks(a: seq<nat>, b: seq<nat>, pre: seq<Item>, post: seq<Item>)
    requires Matches(a, b) && Covers(Lead(a), Lead(b))
    requires Plain(pre) && Plain(post) && post != [] && |pre| + |post| <= |a|
    requires LegalItems(Meant(pre, post, |a|), ShapeOf(a, b)) && EllipsisFits(a, b, pre, post)
    ensures AllWork(a, b, pre, post)
  {
    var p, q := Written(pre, post, |a|), Meant(pre, post, |a|);
    forall l: Lora | l.a.shape == a && l.b.shape == b
      ensures EllipsisWorks(l, pre, post)
    {
      ChoosesSameSelects(Product(l), p, q);
      EllipsisRight(l, pre, post, Select(Product(l), q));
    }
  }

  lemma WorksFits(a: seq<nat>, b: seq<nat>, pre: seq<Item>, post: seq<Item>)
    requires Matches(a, b) && Covers(Lead(a), Lead(b)) && Last(b) > 0
    requires Plain(pre) && Plain(post) && post != [] && |pre| + |post| <= |a|
    requires LegalItems(Meant(pre, post, |a|), ShapeOf(a, b)) && AllWork(a, b, pre, post)
    ensures EllipsisFits(a, b, pre, post)
  {
    HasRoom(Ramp(a, b, 0), pre, post);
    var p, q := Written(pre, post, |a|), Meant(pre, post, |a|);
    RampWorks(a, b, pre, post, p, q, 0);
    forall d: nat | d < |a|
      ensures Same(Select(Product(Ramp(a, b, d)), p), Select(Product(Ramp(a, b, d)), q))
    {
      RampWorks(a, b, pre, post, p, q, d);
    }
    SelectsSameChooses(a, b, p, q, ShapeOf(a, b));
  }

  // The result is what the product gives for what the tuple stands for.
  ghost predicate EllipsisWorks(l: Lora, pre: seq<Item>, post: seq<Item>)
    requires Factored(l) && |pre| + |post| <= |l.a.shape| && LegalItems(Meant(pre, post, |l.a.shape|), Shape(l))
  {
    Right(IndexTuple(l, pre + [Ellipsis] + post), Select(Product(l), Meant(pre, post, |l.a.shape|)))
  }

  lemma RampWorks(a: seq<nat>, b: seq<nat>, pre: seq<Item>, post: seq<Item>, p: seq<Item>, q: seq<Item>, d: nat)
    requires Matches(a, b) && Covers(Lead(a), Lead(b))
    requires Plain(pre) && Plain(post) && post != [] && 2 * (|pre| + |post|) <= |a|
    requires p == Written(pre, post, |a|) && q == Meant(pre, post, |a|)
    requires LegalItems(q, ShapeOf(a, b)) && EllipsisWorks(Ramp(a, b, d), pre, post)
    ensures LegalItems(p, ShapeOf(a, b)) && ShapesFit(a, b, p)
    ensures Same(Select(Product(Ramp(a, b, d)), p), Select(Product(Ramp(a, b, d)), q))
  {
    EllipsisRight(Ramp(a, b, d), pre, post, Select(Product(Ramp(a, b, d)), q));
  }

  lemma HasRoom(l: Lora, pre: seq<Item>, post: seq<Item>)
    requires Factored(l) && Plain(pre) && Plain(post) && post != [] && |pre| + |post| <= |l.a.shape|
    requires LegalItems(Meant(pre, post, |l.a.shape|), Shape(l)) && EllipsisWorks(l, pre, post)
    ensures 2 * (|pre| + |post|) <= |l.a.shape|
  {
    IndexIs(l, pre, post);
  }

  // ----- the same, read off the items -----

  // Every item after the ellipsis is a slice that takes all of the dimension that it is meant for,
  // and of the one that it is written for.
  predicate KeepsWhole(pre: seq<Item>, post: seq<Item>, s: seq<nat>)
    requires 2 * (|pre| + |post|) <= |s|
  {
    var c := |pre| + |post|;
    forall j :: 0 <= j < |post| ==>
      Takes(post[j], s[|pre| + c + j]) && Takes(post[j], s[|s| - |post| + j])
  }

  predicate Takes(it: Item, n: nat) { it.Slice? && it.step > 0 && Count(it, n) == n }

  lemma TupleItems(pre: seq<Item>, post: seq<Item>, n: nat, d: nat)
    requires 2 * (|pre| + |post|) <= n && d < n
    ensures |Written(pre, post, n)| == |Meant(pre, post, n)| == n
    ensures var m := 2 * |pre| + |post|;
            Written(pre, post, n)[d] == if d < |pre| then pre[d] else if m <= d < m + |post| then post[d - m] else Full
    ensures Meant(pre, post, n)[d] == if d < |pre| then pre[d] else if d < n - |post| then Full else post[d - (n - |post|)]
  {
  }

  /** When the places where the items are written and meant do not overlap, and they are slices, the
      tuple chooses what is meant exactly when each of them takes the whole of both dimensions. */
  lemma KeepsWholeIff(pre: seq<Item>, post: seq<Item>, s: seq<nat>)
    requires 2 * (|pre| + |post|) + |post| <= |s| && forall j :: 0 <= j < |post| ==> post[j].Slice?
    requires LegalItems(Written(pre, post, |s|), s) && LegalItems(Meant(pre, post, |s|), s)
    requires Positive(SelectShape(Written(pre, post, |s|), s))
    ensures ChoosesSame(Written(pre, post, |s|), Meant(pre, post, |s|), s) <==> KeepsWhole(pre, post, s)
  {
    var p, q := Written(pre, post, |s|), Meant(pre, post, |s|);
    if KeepsWhole(pre, post, s) {
      KeepsWholeFits(pre, post, s);
    } else if ChoosesSame(p, q, s) {
      SlicesTogether(pre, post, s);
      ChoosesSameIff(p, q, s);
      forall j | 0 <= j < |post|
        ensures Takes(post[j], s[|pre| + (|pre| + |post|) + j]) && Takes(post[j], s[|s| - |post| + j])
      {
        AlikeTakes(pre, post, s, j);
      }
    }
  }

  lemma SlicesTogether(pre: seq<Item>, post: seq<Item>, s: seq<nat>)
    requires 2 * (|pre| + |post|) <= |s| && forall j :: 0 <= j < |post| ==> post[j].Slice?
    ensures |Written(pre, post, |s|)| == |Meant(pre, post, |s|)| == |s|
    ensures forall d :: 0 <= d < |s| ==> (Written(pre, post, |s|)[d].At? <==> Meant(pre, post, |s|)[d].At?)
  {
    forall d | 0 <= d < |s|
      ensures Written(pre, post, |s|)[d].At? <==> Meant(pre, post, |s|)[d].At?
    {
      TupleItems(pre, post, |s|, d);
    }
  }

  lemma TakesAlike(p: Item, q: Item, n: nat)
    requires Takes(p, n) && Takes(q, n)
    ensures LegalItem(p, n) && LegalItem(q, n) && Alike(p, q, n)
  {
    forall x: nat | x < n
      ensures Chosen(p, n, x) == Chosen(q, n, x)
    {
      WholeSlice(p, n, x);
      WholeSlice(q, n, x);
    }
  }

  lemma WrittenTakes(pre: seq<Item>, post: seq<Item>, s: seq<nat>, d: nat)
    requires 2 * (|pre| + |post|) <= |s| && |pre| <= d < |s| && KeepsWhole(pre, post, s)
    ensures Takes(Written(pre, post, |s|)[d], s[d])
  {
    var m := 2 * |pre| + |post|;
    TupleItems(pre, post, |s|, d);
    FullIsWhole(s[d], 0);
    if m <= d < m + |post| { assert Takes(post[d - m], s[|pre| + (|pre| + |post|) + (d - m)]); }
  }

  lemma MeantTakes(pre: seq<Item>, post: seq<Item>, s: seq<nat>, d: nat)
    requires 2 * (|pre| + |post|) <= |s| && |pre| <= d < |s| && KeepsWhole(pre, post, s)
    ensures Takes(Meant(pre, post, |s|)[d], s[d])
  {
    TupleItems(pre, post, |s|, d);
    FullIsWhole(s[d], 0);
    var j := d - (|s| - |post|);
    if j >= 0 { assert Takes(post[j], s[|s| - |post| + j]); }
  }

  lemma WholeAlike(pre: seq<Item>, post: seq<Item>, s: seq<nat>, d: nat)
    requires 2 * (|pre| + |post|) <= |s| && d < |s| && KeepsWhole(pre, post, s)
    requires LegalItems(Written(pre, post, |s|), s) && LegalItems(Meant(pre, post, |s|), s)
    ensures Alike(Written(pre, post, |s|)[d], Meant(pre, post, |s|)[d], s[d])
  {
    if d < |pre| {
      TupleItems(pre, post, |s|, d);
    } else {
      WrittenTakes(pre, post, s, d);
      MeantTakes(pre, post, s, d);
      TakesAlike(Written(pre, post, |s|)[d], Meant(pre, post, |s|)[d], s[d]);
    }
  }

  // Each item, alike to the whole slices that stand in its two places in the other tuple.
  lemma AlikeTakes(pre: seq<Item>, post: seq<Item>, s: seq<nat>, j: nat)
    requires 2 * (|pre| + |post|) + |post| <= |s| && j < |post| && post[j].Slice?
    requires LegalItems(Written(pre, post, |s|), s) && LegalItems(Meant(pre, post, |s|), s)
    requires AllAlike(Written(pre, post, |s|), Meant(pre, post, |s|), s)
    ensures Takes(post[j], s[|pre| + (|pre| + |post|) + j]) && Takes(post[j], s[|s| - |post| + j])
  {
    var x, y := |pre| + (|pre| + |post|) + j, |s| - |post| + j;
    var p, q := Written(pre, post, |s|), Meant(pre, post, |s|);
    TupleItems(pre, post, |s|, x);
    TupleItems(pre, post, |s|, y);
    assert Alike(p[x], q[x], s[x]) && Alike(p[y], q[y], s[y]);
    AlikeFull(post[j], s[x]);
    AlikeFull(post[j], s[y]);
  }

  lemma AlikeFull(it: Item, n: nat)
    requires LegalItem(it, n) && LegalItem(Full, n) && it.Slice?
    ensures Alike(it, Full, n) || Alike(Full, it, n) ==> Takes(it, n)
  {
    FullIsWhole(n, 0);
  }

  // Items that take all of their dimensions are right wherever they overlap, too.
  lemma KeepsWholeFits(pre: seq<Item>, post: seq<Item>, s: seq<nat>)
    requires 2 * (|pre| + |post|) <= |s| && KeepsWhole(pre, post, s)
    requires LegalItems(Written(pre, post, |s|), s) && LegalItems(Meant(pre, post, |s|), s)
    requires Positive(SelectShape(Written(pre, post, |s|), s))
    ensures ChoosesSame(Written(pre, post, |s|), Meant(pre, post, |s|), s)
  {
    var p, q := Written(pre, post, |s|), Meant(pre, post, |s|);
    forall d | 0 <= d < |s|
      ensures Alike(p[d], q[d], s[d])
    {
      WholeAlike(pre, post, s, d);
    }
    ChoosesSameIff(p, q, s);
  }
}
