/** The main results about whole conversions: which sets of tensors convert, to what file,
    and when the order of arrival matters. */
module MtpOrders {
  import opened Mtp
  import opened MtpConfluence

  // An arrival order of the source tensors: each name once.
  ghost predicate IsOrder(src: map<Source, Tensor>, order: seq<Source>) {
    && (forall x :: x in order <==> x in src)
    && (forall i, j :: 0 <= i < j < |order| ==> order[i] != order[j])
  }

  ghost function Prefix(order: seq<Source>): set<Source> { set x | x in order }

  // The tensors that become ready in the end: every weight, except a head that has a scale.
  ghost function Due(src: map<Source, Tensor>): set<Source> { ReadySet(src, src.Keys) }

  lemma DueIs(src: map<Source, Tensor>, x: Source)
    ensures x in Due(src) <==>
              x in src && !x.ScaleOf? && !(x == WeightOf(Head) && ScaleOf(Head) in src)
  {
  }

  /** The sets of source tensors that no order converts: a head with a scale, a scale of the
      wrong shape, clashing or unknown output names, a projection without the other, or
      experts that are not exactly those numbered below the expert count. */
  ghost predicate Fails(cfg: Config, src: map<Source, Tensor>) {
    || (WeightOf(Head) in src && ScaleOf(Head) in src)
    || BadScale(cfg, src)
    || !DistinctNames(cfg, Due(src))
    || !KnownNames(cfg, Due(src))
    || (exists l: nat, s: Side :: Part(l, s) in src && Part(l, OtherSide(s)) !in src)
    || (exists k :: Ids(src.Keys, k) != {} && Ids(src.Keys, k) != Range(cfg.nExperts))
  }

  // The file that a set of source tensors converts to, up to which groups are raw.
  ghost predicate IsFile(cfg: Config, src: map<Source, Tensor>, f: File) {
    && (forall x :: IsNamed(cfg, Due(src), x) ==>
          x in src && Named(cfg.names[x]) in f.tensors && f.tensors[Named(cfg.names[x])] == ItemVal(src, x))
    && (forall l :: BothParts(src.Keys, l) ==>
          Named(cfg.ehName(l)) in f.tensors && f.tensors[Named(cfg.ehName(l))] == EhVal(src, l))
    && (forall k :: Ids(src.Keys, k) != {} ==> StackIn(cfg, src, f.tensors, k))
    && (forall o :: o in f.tensors ==>
          match o
          case Named(n) =>
            (exists x :: IsNamed(cfg, Due(src), x) && cfg.names[x] == n) || (exists l :: BothParts(src.Keys, l) && cfg.ehName(l) == n)
          case Experts(k) => Ids(src.Keys, k) != {})
  }

  lemma FileIsUnique(cfg: Config, src: map<Source, Tensor>, f: File, g: File)
    requires IsFile(cfg, src, f) && IsFile(cfg, src, g)
    ensures f.tensors == g.tensors
  {
    OneWay(cfg, src, f, g);
    OneWay(cfg, src, g, f);
  }

  lemma OneWay(cfg: Config, src: map<Source, Tensor>, f: File, g: File)
    requires IsFile(cfg, src, f) && IsFile(cfg, src, g)
    ensures forall o :: o in f.tensors ==> o in g.tensors && g.tensors[o] == f.tensors[o]
  {
    forall o | o in f.tensors
      ensures o in g.tensors && g.tensors[o] == f.tensors[o]
    {
      match o {
        case Experts(k) =>
        case Named(n) =>
          if x :| IsNamed(cfg, Due(src), x) && cfg.names[x] == n {
          } else {
            var l :| BothParts(src.Keys, l) && cfg.ehName(l) == n;
          }
      }
    }
  }

  // ----- whole runs -----

  lemma PrefixSnoc(order: seq<Source>)
    requires order != []
    ensures Prefix(order) == Prefix(order[..|order| - 1]) + {order[|order| - 1]}
  {
    var init := order[..|order| - 1];
    assert order == init + [order[|order| - 1]];
  }

  lemma ConflictGrows(cfg: Config, src: map<Source, Tensor>, a: set<Source>)
    requires a <= src.Keys && Conflict(cfg, ReadySet(src, a))
    ensures Fails(cfg, src)
  {
    var r := ReadySet(src, a);
    var due := Due(src);
    assert r <= due;
    assert forall l :: BothParts(r, l) ==> BothParts(due, l);
    assert forall x :: IsNamed(cfg, r, x) ==> IsNamed(cfg, due, x);
    if k :| Ids(r, k) != {} && !(Ids(r, k) <= Range(cfg.nExperts)) {
      assert Ids(r, k) <= Ids(src.Keys, k);
    }
  }

  ghost predicate Distinct(order: seq<Source>) {
    forall i, j :: 0 <= i < j < |order| ==> order[i] != order[j]
  }

  lemma {:induction false} RunKeeps(cfg: Config, src: map<Source, Tensor>, order: seq<Source>)
    requires Fits(cfg, src) && Distinct(order) && forall x :: x in order ==> x in src
    ensures match RunAll(cfg, Progress(Start, map[]), src, order)
            case None => Fails(cfg, src)
            case Some(p) => Prefix(order) <= src.Keys && AllInv(cfg, src, Prefix(order), p)
  {
    if order == [] {
      StartInv(cfg, src);
    } else {
      var init, x := order[..|order| - 1], order[|order| - 1];
      RunKeeps(cfg, src, init);
      PrefixSnoc(order);
      var q := RunAll(cfg, Progress(Start, map[]), src, init);
      if q.Some? {
        StepKeeps(cfg, src, Prefix(init), q.value, x);
        if Step(cfg, q.value, x, src[x]) == None {
          if Conflict(cfg, ReadySet(src, Prefix(order))) { ConflictGrows(cfg, src, Prefix(order)); }
        }
      }
    }
  }

  lemma StartInv(cfg: Config, src: map<Source, Tensor>)
    ensures AllInv(cfg, src, {}, Progress(Start, map[]))
  {
    assert ReadySet(src, {}) == {};
    forall k: Key
      ensures HeldInv(cfg, src, {}, Start, k) && StackInv(cfg, src, {}, Progress(Start, map[]), k)
    {
      NothingHeld(cfg, src, k);
    }
    NothingNamed(cfg, src);
  }

  lemma NothingHeld(cfg: Config, src: map<Source, Tensor>, k: Key)
    ensures HeldInv(cfg, src, {}, Start, k) && StackInv(cfg, src, {}, Progress(Start, map[]), k)
  {
    assert Ids({}, k) == {};
    if cfg.nExperts > 0 { assert 0 in Range(cfg.nExperts); }
  }

  lemma NothingNamed(cfg: Config, src: map<Source, Tensor>)
    ensures NamedInv(cfg, src, {}, map[]) && PartsInv(src, {}, Start)
  {
  }

  // Everything that arrived and is not held back is in the file.
  lemma FinishedFile(cfg: Config, src: map<Source, Tensor>, p: Progress)
    requires Fits(cfg, src) && AllInv(cfg, src, src.Keys, p)
    ensures Finish(p).None? ==> Fails(cfg, src)
    ensures Finish(p).Some? ==> !Fails(cfg, src) && IsFile(cfg, src, Finish(p).value)
  {
    NoCollision(cfg, src, p);
    Leftovers(cfg, src, p);
    if Finish(p).Some? {
      Settled(cfg, src, p);
      FileOf(cfg, src, p, Finish(p).value);
    }
  }

  lemma NoCollision(cfg: Config, src: map<Source, Tensor>, p: Progress)
    requires AllInv(cfg, src, src.Keys, p)
    ensures !exists k :: k in p.c.raw && Experts(k) in p.written
  {
    forall k | k in p.c.raw
      ensures Experts(k) !in p.written
    {
      assert StackInv(cfg, src, Due(src), p, k);
    }
  }

  // What is left in a dictionary at the end is a reason to fail.
  lemma Leftovers(cfg: Config, src: map<Source, Tensor>, p: Progress)
    requires AllInv(cfg, src, src.Keys, p)
    ensures p.c.parts != map[] ==> Fails(cfg, src)
    ensures p.c.experts != map[] ==> Fails(cfg, src)
    ensures p.c.pending != map[] ==> Fails(cfg, src)
  {
    if p.c.parts != map[] {
      var ls :| ls in p.c.parts;
      assert Part(ls.0, ls.1) in Due(src) && Part(ls.0, OtherSide(ls.1)) !in Due(src);
      DueIs(src, Part(ls.0, OtherSide(ls.1)));
    }
    if p.c.experts != map[] {
      var k :| k in p.c.experts;
      assert HeldInv(cfg, src, Due(src), p.c, k);
      ExpertsDue(src, k);
      if Ids(src.Keys, k) == Range(cfg.nExperts) { assert Held(cfg.nExperts, Ids(Due(src), k)) == {}; }
    }
    if p.c.pending != map[] {
      var w :| w in p.c.pending;
    }
  }

  lemma ExpertsDue(src: map<Source, Tensor>, k: Key)
    ensures Ids(Due(src), k) == Ids(src.Keys, k)
  {
    forall id: nat
      ensures ExpertItem(k, id) in Due(src) <==> ExpertItem(k, id) in src.Keys
    {
      DueIs(src, ExpertItem(k, id));
    }
  }

  // With nothing left over there is no reason to fail.
  lemma Settled(cfg: Config, src: map<Source, Tensor>, p: Progress)
    requires Fits(cfg, src) && AllInv(cfg, src, src.Keys, p)
    requires p.c.parts == map[] && p.c.experts == map[] && p.c.pending == map[]
    ensures !Fails(cfg, src)
  {
    assert Head !in p.c.pending;
    forall l: nat, s: Side
      ensures Part(l, s) in src ==> Part(l, OtherSide(s)) in src
    {
      DueIs(src, Part(l, s));
      assert (l, s) !in p.c.parts;
    }
    forall k
      ensures Ids(src.Keys, k) == {} || Ids(src.Keys, k) == Range(cfg.nExperts)
    {
      ExpertsDue(src, k);
      assert HeldInv(cfg, src, Due(src), p.c, k);
    }
  }

  lemma BothDue(src: map<Source, Tensor>)
    ensures forall l :: BothParts(Due(src), l) <==> BothParts(src.Keys, l)
  {
    forall l
      ensures BothParts(Due(src), l) <==> BothParts(src.Keys, l)
    {
      DueIs(src, Part(l, EProj));
      DueIs(src, Part(l, HProj));
    }
  }

  // A group that has members is complete.
  lemma GroupDone(cfg: Config, src: map<Source, Tensor>, k: Key)
    requires !Fails(cfg, src)
    ensures Ids(src.Keys, k) != {} <==> Done(cfg.nExperts, Ids(Due(src), k))
    ensures Ids(src.Keys, k) != {} ==> cfg.nExperts > 0 && Ids(src.Keys, k) == Range(cfg.nExperts)
  {
    ExpertsDue(src, k);
    if cfg.nExperts > 0 { assert 0 in Range(cfg.nExperts); }
    if Ids(src.Keys, k) != {} {
      var id :| id in Ids(src.Keys, k);
      assert id in Range(cfg.nExperts);
    }
  }

  ghost predicate StackIn(cfg: Config, src: map<Source, Tensor>, t: map<Out, Val>, k: Key) {
    && (forall id: nat :: id < cfg.nExperts ==> ExpertItem(k, id) in src) && cfg.nExperts > 0
    && Experts(k) in t && t[Experts(k)] == StackVal(src, k, cfg.nExperts)
  }

  lemma FileStacks(cfg: Config, src: map<Source, Tensor>, p: Progress, f: File, k: Key)
    requires AllInv(cfg, src, src.Keys, p) && !Fails(cfg, src) && Finish(p) == Some(f)
    ensures Ids(src.Keys, k) != {} ==> StackIn(cfg, src, f.tensors, k)
    ensures Experts(k) in f.tensors ==> Ids(src.Keys, k) != {}
  {
    GroupDone(cfg, src, k);
    assert StackInv(cfg, src, Due(src), p, k);
  }

  lemma FileNames(p: Progress, f: File)
    requires Finish(p) == Some(f)
    ensures forall n :: Named(n) in f.tensors <==> Named(n) in p.written
    ensures forall n :: Named(n) in p.written ==> f.tensors[Named(n)] == p.written[Named(n)]
    ensures f.raw == p.c.raw.Keys
  {
  }

  lemma FileOf(cfg: Config, src: map<Source, Tensor>, p: Progress, f: File)
    requires AllInv(cfg, src, src.Keys, p) && !Fails(cfg, src) && Finish(p) == Some(f)
    ensures IsFile(cfg, src, f)
  {
    forall k
      ensures Ids(src.Keys, k) != {} ==> StackIn(cfg, src, f.tensors, k)
      ensures Experts(k) in f.tensors ==> Ids(src.Keys, k) != {}
    {
      FileStacks(cfg, src, p, f, k);
    }
    FileNames(p, f);
    FileFrom(cfg, src, p.written, f);
  }

  lemma FileFrom(cfg: Config, src: map<Source, Tensor>, written: map<Out, Val>, f: File)
    requires NamedInv(cfg, src, Due(src), written)
    requires forall n :: Named(n) in f.tensors <==> Named(n) in written
    requires forall n :: Named(n) in written ==> f.tensors[Named(n)] == written[Named(n)]
    requires forall k :: Ids(src.Keys, k) != {} ==> StackIn(cfg, src, f.tensors, k)
    requires forall k :: Experts(k) in f.tensors ==> Ids(src.Keys, k) != {}
    ensures IsFile(cfg, src, f)
  {
    BothDue(src);
  }

  /** The main result: whether a set of tensors converts, and to what, does not depend on
      the order in which its members arrive. */
  lemma ConvertsInEveryOrder(cfg: Config, src: map<Source, Tensor>, order: seq<Source>)
    requires Fits(cfg, src) && IsOrder(src, order)
    ensures Convert(cfg, src, order).None? <==> Fails(cfg, src)
    ensures Convert(cfg, src, order).Some? ==> IsFile(cfg, src, Convert(cfg, src, order).value)
  {
    RunKeeps(cfg, src, order);
    assert Prefix(order) == src.Keys;
    var p := RunAll(cfg, Progress(Start, map[]), src, order);
    if p.Some? { FinishedFile(cfg, src, p.value); }
  }

  lemma Confluence(cfg: Config, src: map<Source, Tensor>, o1: seq<Source>, o2: seq<Source>)
    requires Fits(cfg, src) && IsOrder(src, o1) && IsOrder(src, o2)
    ensures Convert(cfg, src, o1).None? <==> Convert(cfg, src, o2).None?
    ensures Convert(cfg, src, o1).Some? ==>
              Convert(cfg, src, o1).value.tensors == Convert(cfg, src, o2).value.tensors
  {
    ConvertsInEveryOrder(cfg, src, o1);
    ConvertsInEveryOrder(cfg, src, o2);
    if !Fails(cfg, src) {
      FileIsUnique(cfg, src, Convert(cfg, src, o1).value, Convert(cfg, src, o2).value);
    }
  }

  // ----- which groups are written raw -----

  // The experts of a group all have scales, or none has.
  ghost predicate Uniform(src: map<Source, Tensor>, k: Key) {
    forall i: nat, j: nat :: i in Ids(src.Keys, k) && j in Ids(src.Keys, k) ==>
      (IsPacked(src, ExpertItem(k, i)) <==> IsPacked(src, ExpertItem(k, j)))
  }

  lemma ConvertIs(cfg: Config, src: map<Source, Tensor>, order: seq<Source>, p: Progress)
    requires (forall x :: x in order ==> x in src) && RunAll(cfg, Progress(Start, map[]), src, order) == Some(p)
    ensures Convert(cfg, src, order) == Finish(p)
    ensures Finish(p).Some? ==> Finish(p).value.raw == p.c.raw.Keys
  {
  }

  // The state at the end of a run that succeeds.
  lemma RunEnds(cfg: Config, src: map<Source, Tensor>, order: seq<Source>) returns (p: Progress)
    requires Fits(cfg, src) && IsOrder(src, order) && !Fails(cfg, src)
    ensures RunAll(cfg, Progress(Start, map[]), src, order) == Some(p) && AllInv(cfg, src, src.Keys, p)
    ensures Convert(cfg, src, order).Some? && Convert(cfg, src, order).value.raw == p.c.raw.Keys
  {
    RunKeeps(cfg, src, order);
    assert Prefix(order) == src.Keys;
    p := RunAll(cfg, Progress(Start, map[]), src, order).value;
    FinishedFile(cfg, src, p);
    ConvertIs(cfg, src, order, p);
  }

  // A raw group holds a packed expert, and a group that is not raw an unpacked one.
  lemma RawHolds(cfg: Config, src: map<Source, Tensor>, p: Progress, k: Key)
    requires AllInv(cfg, src, src.Keys, p) && !Fails(cfg, src) && Ids(src.Keys, k) != {}
    ensures k in p.c.raw ==> exists id: nat :: id in Ids(src.Keys, k) && IsPacked(src, ExpertItem(k, id))
    ensures k !in p.c.raw ==> exists id: nat :: id in Ids(src.Keys, k) && !IsPacked(src, ExpertItem(k, id))
  {
    GroupDone(cfg, src, k);
    assert StackInv(cfg, src, Due(src), p, k);
    ExpertsDue(src, k);
    if k in p.c.raw {
      var id: nat :| ExpertItem(k, id) in Due(src) && IsPacked(src, ExpertItem(k, id));
      assert id in Ids(Due(src), k);
    } else {
      var id: nat :| ExpertItem(k, id) in Due(src) && !IsPacked(src, ExpertItem(k, id));
      assert id in Ids(Due(src), k);
    }
  }

  // The source that makes an expert ready when it comes last.
  ghost predicate Finishes(src: map<Source, Tensor>, x: Source, k: Key, id: nat) {
    ExpertItem(k, id) in src && (x == ExpertItem(k, id) || (x == ScaleOf(ExpertItem(k, id).w) && x in src))
  }

  // The group of the last expert to become ready was not stacked before.
  lemma NotYetStacked(cfg: Config, src: map<Source, Tensor>, a: set<Source>, p: Progress, x: Source, k: Key, id: nat)
    requires a <= src.Keys && AllInv(cfg, src, a, p) && !Fails(cfg, src) && x !in a && Finishes(src, x, k, id)
    ensures k !in p.c.raw && Experts(k) !in p.written
  {
    assert id in Ids(src.Keys, k);
    GroupDone(cfg, src, k);
    assert ExpertItem(k, id) !in ReadySet(src, a);
    assert id in Range(cfg.nExperts) && id !in Ids(ReadySet(src, a), k);
    assert StackInv(cfg, src, ReadySet(src, a), p, k);
  }

  lemma StackedAtEnd(cfg: Config, src: map<Source, Tensor>, p: Progress, k: Key)
    requires AllInv(cfg, src, src.Keys, p) && !Fails(cfg, src) && Ids(src.Keys, k) != {}
    ensures k in p.c.raw <==> Experts(k) !in p.written
  {
    GroupDone(cfg, src, k);
    assert StackInv(cfg, src, Due(src), p, k);
  }

  // The state before the last arrival.
  lemma BeforeLast(cfg: Config, src: map<Source, Tensor>, order: seq<Source>, q: Progress) returns (p: Progress, a: set<Source>)
    requires Fits(cfg, src) && IsOrder(src, order) && !Fails(cfg, src) && order != []
    requires RunAll(cfg, Progress(Start, map[]), src, order) == Some(q)
    ensures a <= src.Keys && order[|order| - 1] !in a && AllInv(cfg, src, a, p)
    ensures Step(cfg, p, order[|order| - 1], src[order[|order| - 1]]) == Some(q)
  {
    var init := order[..|order| - 1];
    RunKeeps(cfg, src, init);
    p, a := RunAll(cfg, Progress(Start, map[]), src, init).value, Prefix(init);
  }

  // The last arrival decides whether its group is raw.
  lemma LastDecides(cfg: Config, src: map<Source, Tensor>, order: seq<Source>, k: Key, id: nat)
    requires Fits(cfg, src) && IsOrder(src, order) && !Fails(cfg, src)
    requires order != [] && Finishes(src, order[|order| - 1], k, id)
    ensures Convert(cfg, src, order).Some?
    ensures k in Convert(cfg, src, order).value.raw <==> IsPacked(src, ExpertItem(k, id))
  {
    var x := order[|order| - 1];
    var q := RunEnds(cfg, src, order);
    var p, a := BeforeLast(cfg, src, order, q);
    StepKeeps(cfg, src, a, p, x);
    NotYetStacked(cfg, src, a, p, x, k, id);
    assert id in Ids(src.Keys, k);
    StackedAtEnd(cfg, src, q, k);
    SameWeight(x, k, id);
  }

  lemma SameWeight(x: Source, k: Key, id: nat)
    requires x == ExpertItem(k, id) || x == ScaleOf(ExpertItem(k, id).w)
    ensures !x.Bare? && WeightOf(x.w) == ExpertItem(k, id)
  {
  }

  // Without a mixed group the orders agree.
  lemma UniformAgrees(cfg: Config, src: map<Source, Tensor>, o1: seq<Source>, o2: seq<Source>, k: Key)
    requires Fits(cfg, src) && IsOrder(src, o1) && IsOrder(src, o2) && !Fails(cfg, src)
    requires Ids(src.Keys, k) != {} && Uniform(src, k)
    ensures Convert(cfg, src, o1).Some? && Convert(cfg, src, o2).Some?
    ensures k in Convert(cfg, src, o1).value.raw <==> k in Convert(cfg, src, o2).value.raw
  {
    var p1 := RunEnds(cfg, src, o1);
    var p2 := RunEnds(cfg, src, o2);
    RawHolds(cfg, src, p1, k);
    RawHolds(cfg, src, p2, k);
  }

  // The members of a set in some order.
  lemma {:induction false} Arrange(s: set<Source>) returns (order: seq<Source>)
    ensures Distinct(order) && forall x :: x in order <==> x in s
    decreases |s|
  {
    order := [];
    if s != {} {
      var x :| x in s;
      var rest := Arrange(s - {x});
      order := rest + [x];
    }
  }

  lemma OrderEndingIn(src: map<Source, Tensor>, x: Source) returns (order: seq<Source>)
    requires x in src
    ensures IsOrder(src, order) && order != [] && order[|order| - 1] == x
  {
    var rest := Arrange(src.Keys - {x});
    order := rest + [x];
  }

  /** A group with a scaled and an unscaled expert is raw in one order and not in another. */
  lemma MixedGroupsDisagree(cfg: Config, src: map<Source, Tensor>, k: Key) returns (o1: seq<Source>, o2: seq<Source>)
    requires Fits(cfg, src) && !Fails(cfg, src) && !Uniform(src, k)
    ensures IsOrder(src, o1) && IsRaw(cfg, src, o1, k)
    ensures IsOrder(src, o2) && Convert(cfg, src, o2).Some? && !IsRaw(cfg, src, o2, k)
  {
    var i: nat, j: nat :| i in Ids(src.Keys, k) && j in Ids(src.Keys, k) &&
                          IsPacked(src, ExpertItem(k, i)) && !IsPacked(src, ExpertItem(k, j));
    o1 := OrderEndingIn(src, ExpertItem(k, i));
    o2 := OrderEndingIn(src, ExpertItem(k, j));
    LastDecides(cfg, src, o1, k, i);
    LastDecides(cfg, src, o2, k, j);
  }

  // The group is among the raw tensors of the file.
  ghost predicate IsRaw(cfg: Config, src: map<Source, Tensor>, order: seq<Source>, k: Key)
    requires IsOrder(src, order)
  {
    Convert(cfg, src, order).Some? && k in Convert(cfg, src, order).value.raw
  }

  /** Which groups are raw is the same in all orders as well, exactly for the groups that do not
      mix experts with and without scales. */
  lemma RawConfluence(cfg: Config, src: map<Source, Tensor>, k: Key)
    requires Fits(cfg, src) && !Fails(cfg, src) && Ids(src.Keys, k) != {}
    ensures (forall o1, o2 :: IsOrder(src, o1) && IsOrder(src, o2) ==> (IsRaw(cfg, src, o1, k) <==> IsRaw(cfg, src, o2, k)))
              <==> Uniform(src, k)
  {
    if Uniform(src, k) {
      forall o1, o2 | IsOrder(src, o1) && IsOrder(src, o2)
        ensures IsRaw(cfg, src, o1, k) <==> IsRaw(cfg, src, o2, k)
      {
        UniformAgrees(cfg, src, o1, o2, k);
      }
    } else {
      var o1, o2 := MixedGroupsDisagree(cfg, src, k);
    }
  }

  // A set with a mixed group that converts: two experts, of which only the first has a scale.
  lemma MixedSet(t: Tensor) returns (cfg: Config, src: map<Source, Tensor>, k: Key)
    ensures Fits(cfg, src) && !Fails(cfg, src) && Ids(src.Keys, k) != {} && !Uniform(src, k)
  {
    k := Key(0, 1);
    var first, second := ExpertItem(k, 0), ExpertItem(k, 1);
    src := map[first := t, ScaleOf(first.w) := t, second := t];
    cfg := Config(2, {first.w}, {}, map[], l => "");
    TwoExperts(src, k);
    assert IsPacked(src, first) && !IsPacked(src, second);
  }

  lemma TwoExperts(src: map<Source, Tensor>, k: Key)
    requires src.Keys == {ExpertItem(k, 0), ScaleOf(ExpertItem(k, 0).w), ExpertItem(k, 1)}
    ensures forall m :: Ids(src.Keys, m) == if m == k then {0, 1} else {}
    ensures Range(2) == {0, 1}
  {
    forall m
      ensures Ids(src.Keys, m) == if m == k then {0, 1} else {}
    {
      forall id: nat
        ensures id in Ids(src.Keys, m) <==> m == k && (id == 0 || id == 1)
      {
      }
    }
  }
}
