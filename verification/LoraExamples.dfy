/** Factored tensors for which an index or a join is not right. */
module LoraExamples {
  import opened Tensors
  import opened Lora
  import opened LoraIndex
  import opened LoraTuples
  import opened LoraEllipsis
  import opened LoraShapes
  import opened LoraCat

  function Filled(a: seq<nat>, b: seq<nat>): Lora { Lora(Tensor(a, i => 1.0), Tensor(b, i => 1.0)) }

  // Two matrices, each with its own A: taking the first by a slice keeps both of A.
  lemma LeadingSliceWrong()
    ensures var l := Filled([2, 1, 1], [2, 1, 1]); var p := [Slice(Some(0), Some(1), 1), Full, Full];
            && Factored(l) && LegalItems(p, Shape(l))
            && IndexTuple(l, p) == IndexExpanded(l, p) && !Right(IndexTuple(l, p), Select(Product(l), p))
  {
    var l, p := Filled([2, 1, 1], [2, 1, 1]), [Slice(Some(0), Some(1), 1), Full, Full];
    assert Shape(l) == [2, 1, 1] && LegalItems(p, Shape(l));
    SpreadPlain(p, 2);
    TupleIndexIff(l, p);
    assert Count(p[..1][0], Lead(l.b.shape)[0]) == 1;
  }

  // Two matrices that share their A: the second has no A of its own to take.
  lemma SharedIndexRefused()
    ensures var l := Filled([1, 1, 1], [2, 1, 1]);
            Factored(l) && IndexOne(l, At(1)).None? && TorchIndex(Product(l), [At(1)]).Some?
  {
    var l := Filled([1, 1, 1], [2, 1, 1]);
    OneIndexIff(l, At(1));
    StackItemsOf(At(1), 3);
    assert ([At(1)] + Fulls(2))[0] == At(1);
  }

  // A slice of the columns of a stack, after an ellipsis, becomes one of the rows.
  lemma EllipsisWrong()
    ensures var l := Filled([1, 1, 3], [1, 2, 1]); var post := [Slice(Some(0), Some(1), 1)];
            Factored(l) && LegalItems(Meant([], post, 3), Shape(l)) && !EllipsisWorks(l, [], post)
  {
    var l, one := Filled([1, 1, 3], [1, 2, 1]), Slice(Some(0), Some(1), 1);
    var q := Meant([], [one], 3);
    assert Shape(l) == [1, 2, 3];
    assert Written([], [one], 3) == [Full, one, Full] && q == [Full, Full, one];
    ThreeSlices(Full, one, Full, 1, 2, 3);
    ThreeSlices(Full, Full, one, 1, 2, 3);
    EllipsisRight(l, [], [one], Select(Product(l), q));
    assert [1, 1, 3][1] != [1, 2, 1][1];
  }

  lemma ThreeSlices(p: Item, q: Item, r: Item, x: nat, y: nat, z: nat)
    requires LegalItem(p, x) && LegalItem(q, y) && LegalItem(r, z) && p.Slice? && q.Slice? && r.Slice?
    ensures LegalItems([p, q, r], [x, y, z])
    ensures SelectShape([p, q, r], [x, y, z]) == [Count(p, x), Count(q, y), Count(r, z)]
  {
    SelectShapeAppend([], p, [], x);
    SelectShapeAppend([p], q, [x], y);
    SelectShapeAppend([p, q], r, [x, y], z);
    assert [] + [p] == [p] && [p] + [q] == [p, q] && [p, q] + [r] == [p, q, r];
    assert [] + [x] == [x] && [x] + [y] == [x, y] && [x, y] + [z] == [x, y, z];
  }

  // A slice that takes everything is right there, although it is written in another place.
  lemma EllipsisRightAtRankFour(l: Lora)
    requires Factored(l) && |l.a.shape| == 4 && Positive(Shape(l))
    ensures var post := [Slice(Some(0), None, 1)]; LegalItems(Meant([], post, 4), Shape(l)) && EllipsisWorks(l, [], post)
  {
    RankFour(l.a.shape, l.b.shape, Slice(Some(0), None, 1));
    FitsWorks(l.a.shape, l.b.shape, [], [Slice(Some(0), None, 1)]);
  }

  lemma RankFour(a: seq<nat>, b: seq<nat>, all: Item)
    requires Matches(a, b) && Covers(Lead(a), Lead(b)) && |a| == 4 && all == Slice(Some(0), None, 1)
    requires Positive(ShapeOf(a, b))
    ensures LegalItems(Meant([], [all], 4), ShapeOf(a, b)) && EllipsisFits(a, b, [], [all])
  {
    var s, p, q := ShapeOf(a, b), Written([], [all], 4), Meant([], [all], 4);
    FourItems(all);
    AllTaken(p, s);
    AllTaken(q, s);
    KeepsWholeFits([], [all], s);
    TakesLead(p[..2], Lead(a), Lead(b));
  }

  lemma FourItems(it: Item)
    ensures Written([], [it], 4) == [Full, it, Full, Full] && Meant([], [it], 4) == [Full, Full, Full, it]
  {
  }

  lemma TakesLead(items: seq<Item>, a: seq<nat>, b: seq<nat>)
    requires |items| == |a| == |b| && forall d :: 0 <= d < |items| ==> Takes(items[d], b[d])
    ensures LegalItems(items, b) && LeadFits(items, a, b)
  {
  }

  // Items that take all of their dimensions select everything.
  lemma {:induction false} AllTaken(p: seq<Item>, s: seq<nat>)
    requires |p| == |s| && forall d :: 0 <= d < |p| ==> Takes(p[d], s[d])
    ensures LegalItems(p, s) && SelectShape(p, s) == s
    decreases |p|
  {
    if p != [] {
      assert p[|p| - 1] == Last(p) && s[|s| - 1] == Last(s);
      AllTaken(Init(p), Init(s));
      assert s == Init(s) + [Last(s)];
    }
  }

  // Two stacks of two matrices that share their A: joined, two of A face four of B.
  lemma SharedJoinWrong()
    ensures var l := Filled([1, 1, 1], [2, 1, 1]); AllFactored([l, l]) && !JoinsRight([l, l])
  {
    var l := Filled([1, 1, 1], [2, 1, 1]);
    TwoHeads(l);
    CatStacksIff([l, l]);
    assert [l, l][0].a.shape[0] != [l, l][0].b.shape[0];
  }

  lemma TwoHeads(l: Lora)
    requires |l.a.shape| == |l.b.shape| == 3
    ensures Catable(As([l, l])) && Catable(Bs([l, l]))
    ensures Sum(Heads(As([l, l]))) == 2 * l.a.shape[0] && Sum(Heads(Bs([l, l]))) == 2 * l.b.shape[0]
  {
    assert Heads(As([l, l])) == [l.a.shape[0], l.a.shape[0]] && Heads(Bs([l, l])) == [l.b.shape[0], l.b.shape[0]];
    SumTwo(l.a.shape[0]);
    SumTwo(l.b.shape[0]);
  }

  lemma SumTwo(n: nat)
    ensures Sum([n, n]) == 2 * n
  {
    assert [n, n][1..] == [n] && [n][1..] == [];
    assert Sum([n]) == n + Sum([]);
  }
}
