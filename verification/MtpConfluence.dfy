/** Every arrival order of the MTP tensors gives the same output file, or every order fails. */
module MtpConfluence {
  import opened Mtp

  // ----- what is due once a set r of tensors is ready -----

  function Part(l: nat, s: Side): Source { WeightOf(Projection(l, s)) }

  ghost predicate BothParts(r: set<Source>, l: nat) { Part(l, EProj) in r && Part(l, HProj) in r }

  function ExpertItem(k: Key, id: nat): Source { WeightOf(Expert(k.layer, id, k.proj)) }

  predicate IsExpertOf(x: Source, k: Key) {
    x.WeightOf? && x.w.Expert? && x.w.layer == k.layer && x.w.proj == k.proj
  }

  predicate IsPlain(x: Source) {
    !x.ScaleOf? && !(x.WeightOf? && (x.w.Projection? || x.w.Expert?))
  }

  ghost function Ids(r: set<Source>, k: Key): (ids: set<nat>)
    ensures forall id: nat :: id in ids <==> ExpertItem(k, id) in r
  {
    var ids := set x | x in r && IsExpertOf(x, k) :: x.w.id;
    assert forall id: nat :: ExpertItem(k, id) in r ==> IsExpertOf(ExpertItem(k, id), k) && id in ids;
    assert forall id :: id in ids ==> exists x :: x in r && IsExpertOf(x, k) && x.w.id == id && x == ExpertItem(k, id);
    ids
  }

  // The experts of one projection are complete when every id below n is there.
  ghost predicate Done(n: int, ids: set<nat>) { n > 0 && Range(n) <= ids }

  // The ids still held in the dictionary: a complete set has been taken out.
  ghost function Held(n: int, ids: set<nat>): set<nat> { if Done(n, ids) then ids - Range(n) else ids }

  ghost function StackVal(src: map<Source, Tensor>, k: Key, n: nat): Val
    requires forall id: nat :: id < n ==> ExpertItem(k, id) in src
  {
    Stacked(seq(n, i requires 0 <= i < n => ItemVal(src, ExpertItem(k, i))))
  }

  ghost function EhVal(src: map<Source, Tensor>, l: nat): Val
    requires Part(l, EProj) in src && Part(l, HProj) in src
  {
    SideBySide(ItemVal(src, Part(l, EProj)), ItemVal(src, Part(l, HProj)))
  }

  predicate IsNamed(cfg: Config, r: set<Source>, x: Source) { x in r && IsPlain(x) && x in cfg.names }

  // No two outputs that are due share a name.
  ghost predicate DistinctNames(cfg: Config, r: set<Source>) {
    && (forall x, y :: IsNamed(cfg, r, x) && IsNamed(cfg, r, y) && cfg.names[x] == cfg.names[y] ==> x == y)
    && (forall x, l :: IsNamed(cfg, r, x) && BothParts(r, l) ==> cfg.names[x] != cfg.ehName(l))
    && (forall l, l' :: BothParts(r, l) && BothParts(r, l') && cfg.ehName(l) == cfg.ehName(l') ==> l == l')
  }

  ghost predicate KnownNames(cfg: Config, r: set<Source>) {
    forall x :: x in r && IsPlain(x) ==> x in cfg.names
  }

  // ----- the delivery stage keeps exactly the incomplete groups -----

  ghost predicate PartsInv(src: map<Source, Tensor>, r: set<Source>, c: Conv)
    requires r <= src.Keys
  {
    && (forall l: nat, s: Side :: (l, s) in c.parts <==> Part(l, s) in r && Part(l, OtherSide(s)) !in r)
    && (forall l: nat, s: Side :: (l, s) in c.parts ==> c.parts[(l, s)] == ItemVal(src, Part(l, s)))
  }

  ghost predicate HeldInv(cfg: Config, src: map<Source, Tensor>, r: set<Source>, c: Conv, k: Key)
    requires r <= src.Keys
  {
    var held := Held(cfg.nExperts, Ids(r, k));
    && (k in c.experts <==> held != {})
    && (k in c.experts ==>
          && c.experts[k].Keys == held
          && (cfg.nExperts > 0 ==> |held| < cfg.nExperts)
          && (forall id :: id in held ==> c.experts[k][id] == ItemVal(src, ExpertItem(k, id))))
  }

  ghost predicate StackInv(cfg: Config, src: map<Source, Tensor>, r: set<Source>, p: Progress, k: Key)
    requires r <= src.Keys
  {
    && (Done(cfg.nExperts, Ids(r, k)) <==> (k in p.c.raw || Experts(k) in p.written))
    && !(k in p.c.raw && Experts(k) in p.written)
    && (Done(cfg.nExperts, Ids(r, k)) ==>
          && (forall id: nat :: id < cfg.nExperts ==> id in Ids(r, k) && ExpertItem(k, id) in src)
          && (k in p.c.raw ==> p.c.raw[k] == StackVal(src, k, cfg.nExperts))
          && (Experts(k) in p.written ==> p.written[Experts(k)] == StackVal(src, k, cfg.nExperts)))
  }

  ghost predicate ExpertsInv(cfg: Config, src: map<Source, Tensor>, r: set<Source>, p: Progress)
    requires r <= src.Keys
  {
    && (forall k :: HeldInv(cfg, src, r, p.c, k))
    && (forall k :: StackInv(cfg, src, r, p, k))
  }

  ghost predicate NamedInv(cfg: Config, src: map<Source, Tensor>, r: set<Source>, written: map<Out, Val>)
    requires r <= src.Keys
  {
    && DistinctNames(cfg, r) && KnownNames(cfg, r)
    && (forall x :: IsNamed(cfg, r, x) ==>
          Named(cfg.names[x]) in written && written[Named(cfg.names[x])] == ItemVal(src, x))
    && (forall l :: BothParts(r, l) ==>
          Named(cfg.ehName(l)) in written && written[Named(cfg.ehName(l))] == EhVal(src, l))
    && (forall n :: Named(n) in written ==>
          (exists x :: IsNamed(cfg, r, x) && cfg.names[x] == n) || (exists l :: BothParts(r, l) && cfg.ehName(l) == n))
  }

  ghost predicate Inv(cfg: Config, src: map<Source, Tensor>, r: set<Source>, p: Progress)
    requires r <= src.Keys
  {
    PartsInv(src, r, p.c) && ExpertsInv(cfg, src, r, p) && NamedInv(cfg, src, r, p.written)
  }

  // What makes the delivery of a set of ready tensors fail in some order.
  ghost predicate Conflict(cfg: Config, r: set<Source>) {
    || !DistinctNames(cfg, r)
    || !KnownNames(cfg, r)
    || (exists k :: Ids(r, k) != {} && !(Ids(r, k) <= Range(cfg.nExperts)))
  }

  // ----- one delivery -----

  function DeliverAndWrite(cfg: Config, p: Progress, x: Source, v: Val, packed: bool): Option<Progress>
    requires !x.ScaleOf?
  {
    match Deliver(cfg, p.c, x, v, packed)
    case None => None
    case Some(e) =>
      match Write(p.written, e.returned)
      case None => None
      case Some(written) => Some(Progress(e.c, written))
  }

  lemma WriteOne(written: map<Out, Val>, o: Out, v: Val)
    ensures Write(written, [(o, v)]) == if o in written then None else Some(written[o := v])
  {
    var one := [(o, v)];
    assert one[1..] == [];
    if o !in written {
      assert Write(written, one) == Write(written[o := v], one[1..]);
    }
  }

  // What one delivery may do.
  ghost predicate Delivered(cfg: Config, src: map<Source, Tensor>, r: set<Source>, x: Source, q: Option<Progress>)
    requires r <= src.Keys && x in src
  {
    match q
    case None => Conflict(cfg, r + {x})
    case Some(p) => Inv(cfg, src, r + {x}, p)
  }

  lemma DeliverPlain(cfg: Config, src: map<Source, Tensor>, r: set<Source>, p: Progress, x: Source, v: Val, packed: bool)
    requires r <= src.Keys && Inv(cfg, src, r, p) && x in src && x !in r && IsPlain(x) && v == ItemVal(src, x)
    ensures Delivered(cfg, src, r, x, DeliverAndWrite(cfg, p, x, v, packed))
  {
    var r' := r + {x};
    if x !in cfg.names {
      assert !KnownNames(cfg, r');
      return;
    }
    var o := Named(cfg.names[x]);
    WriteOne(p.written, o, v);
    assert forall l :: BothParts(r', l) <==> BothParts(r, l);
    if o in p.written {
      NameTaken(cfg, src, r, p.written, x, o.name);
      return;
    }
    var p' := p.(written := p.written[o := v]);
    assert PartsInv(src, r', p'.c);
    ExpertsUnchanged(cfg, src, r, p, x, p');
    NamedPlain(cfg, src, r, p.written, x);
  }

  lemma NameTaken(cfg: Config, src: map<Source, Tensor>, r: set<Source>, written: map<Out, Val>, x: Source, n: string)
    requires r <= src.Keys && NamedInv(cfg, src, r, written) && Named(n) in written
    requires x !in r && IsPlain(x) && x in cfg.names && cfg.names[x] == n
    ensures !DistinctNames(cfg, r + {x})
  {
    if y :| IsNamed(cfg, r, y) && cfg.names[y] == n {
      assert IsNamed(cfg, r + {x}, x) && IsNamed(cfg, r + {x}, y);
    } else {
      var l :| BothParts(r, l) && cfg.ehName(l) == n;
      assert BothParts(r + {x}, l) && IsNamed(cfg, r + {x}, x);
    }
  }

  lemma NamedPlain(cfg: Config, src: map<Source, Tensor>, r: set<Source>, written: map<Out, Val>, x: Source)
    requires r <= src.Keys && NamedInv(cfg, src, r, written) && x in src
    requires x !in r && IsPlain(x) && x in cfg.names && Named(cfg.names[x]) !in written
    ensures NamedInv(cfg, src, r + {x}, written[Named(cfg.names[x]) := ItemVal(src, x)])
  {
    assert forall l :: BothParts(r + {x}, l) <==> BothParts(r, l);
    assert forall y :: IsNamed(cfg, r + {x}, y) <==> IsNamed(cfg, r, y) || y == x;
  }

  lemma SameIds(r: set<Source>, x: Source, k: Key)
    requires !IsExpertOf(x, k)
    ensures Ids(r + {x}, k) == Ids(r, k)
  {
    assert forall id: nat :: ExpertItem(k, id) != x;
  }

  lemma ExpertsUnchanged(cfg: Config, src: map<Source, Tensor>, r: set<Source>, p: Progress, x: Source, p': Progress)
    requires r <= src.Keys && ExpertsInv(cfg, src, r, p) && x in src
    requires forall k :: !IsExpertOf(x, k)
    requires p'.c.experts == p.c.experts && p'.c.raw == p.c.raw
    requires forall k :: (Experts(k) in p'.written <==> Experts(k) in p.written)
    requires forall k :: Experts(k) in p.written ==> p'.written[Experts(k)] == p.written[Experts(k)]
    ensures ExpertsInv(cfg, src, r + {x}, p')
  {
    forall k
      ensures HeldInv(cfg, src, r + {x}, p'.c, k) && StackInv(cfg, src, r + {x}, p', k)
    {
      SameIds(r, x, k);
      assert HeldInv(cfg, src, r, p.c, k) && StackInv(cfg, src, r, p, k);
    }
  }

  // ----- a projection -----

  lemma PartEffect(cfg: Config, p: Progress, l: nat, s: Side, v: Val, packed: bool)
    ensures var parts := p.c.parts[(l, s) := v]; var o := Named(cfg.ehName(l));
            DeliverAndWrite(cfg, p, Part(l, s), v, packed) ==
              if (l, OtherSide(s)) !in parts then Some(p.(c := p.c.(parts := parts)))
              else if o in p.written then None
              else Some(Progress(p.c.(parts := parts - {(l, EProj), (l, HProj)}),
                                 p.written[o := SideBySide(parts[(l, EProj)], parts[(l, HProj)])]))
  {
    var parts := p.c.parts[(l, s) := v];
    if (l, OtherSide(s)) in parts {
      WriteOne(p.written, Named(cfg.ehName(l)), SideBySide(parts[(l, EProj)], parts[(l, HProj)]));
    }
  }

  lemma DeliverPart(cfg: Config, src: map<Source, Tensor>, r: set<Source>, p: Progress, l: nat, s: Side, v: Val, packed: bool)
    requires r <= src.Keys && Inv(cfg, src, r, p) && Part(l, s) in src && Part(l, s) !in r && v == ItemVal(src, Part(l, s))
    ensures Delivered(cfg, src, r, Part(l, s), DeliverAndWrite(cfg, p, Part(l, s), v, packed))
  {
    PartEffect(cfg, p, l, s, v, packed);
    if Part(l, OtherSide(s)) !in r {
      PartWaits(cfg, src, r, p, l, s);
    } else if Named(cfg.ehName(l)) in p.written {
      EhNameTaken(cfg, src, r, p.written, l, s);
    } else {
      PartCompletes(cfg, src, r, p, l, s);
    }
  }

  lemma PartWaits(cfg: Config, src: map<Source, Tensor>, r: set<Source>, p: Progress, l: nat, s: Side)
    requires r <= src.Keys && Inv(cfg, src, r, p) && Part(l, s) in src && Part(l, s) !in r && Part(l, OtherSide(s)) !in r
    ensures Inv(cfg, src, r + {Part(l, s)}, p.(c := p.c.(parts := p.c.parts[(l, s) := ItemVal(src, Part(l, s))])))
  {
    var p' := p.(c := p.c.(parts := p.c.parts[(l, s) := ItemVal(src, Part(l, s))]));
    ExpertsUnchanged(cfg, src, r, p, Part(l, s), p');
    NamedUnchanged(cfg, src, r, p.written, Part(l, s));
  }

  lemma PartCompletes(cfg: Config, src: map<Source, Tensor>, r: set<Source>, p: Progress, l: nat, s: Side)
    requires r <= src.Keys && Inv(cfg, src, r, p) && Named(cfg.ehName(l)) !in p.written
    requires Part(l, s) in src && Part(l, s) !in r && Part(l, OtherSide(s)) in r
    ensures var parts := p.c.parts[(l, s) := ItemVal(src, Part(l, s))];
            && (l, OtherSide(s)) in parts && SideBySide(parts[(l, EProj)], parts[(l, HProj)]) == EhVal(src, l)
            && Inv(cfg, src, r + {Part(l, s)},
                   Progress(p.c.(parts := parts - {(l, EProj), (l, HProj)}), p.written[Named(cfg.ehName(l)) := EhVal(src, l)]))
  {
    var parts := p.c.parts[(l, s) := ItemVal(src, Part(l, s))];
    assert OtherSide(OtherSide(s)) == s && (l, OtherSide(s)) in p.c.parts;
    var p' := Progress(p.c.(parts := parts - {(l, EProj), (l, HProj)}), p.written[Named(cfg.ehName(l)) := EhVal(src, l)]);
    ExpertsUnchanged(cfg, src, r, p, Part(l, s), p');
    NamedPair(cfg, src, r, p.written, l, s);
    assert PartsInv(src, r + {Part(l, s)}, p'.c);
  }

  lemma NamedUnchanged(cfg: Config, src: map<Source, Tensor>, r: set<Source>, written: map<Out, Val>, x: Source)
    requires r <= src.Keys && NamedInv(cfg, src, r, written) && x in src && !IsPlain(x)
    requires forall l :: BothParts(r + {x}, l) <==> BothParts(r, l)
    ensures NamedInv(cfg, src, r + {x}, written)
  {
    assert forall y :: IsNamed(cfg, r + {x}, y) <==> IsNamed(cfg, r, y);
  }

  lemma BothPartsAfter(r: set<Source>, l: nat, s: Side)
    requires Part(l, s) !in r && Part(l, OtherSide(s)) in r
    ensures forall m :: BothParts(r + {Part(l, s)}, m) <==> BothParts(r, m) || m == l
    ensures !BothParts(r, l)
  {
  }

  lemma EhNameTaken(cfg: Config, src: map<Source, Tensor>, r: set<Source>, written: map<Out, Val>, l: nat, s: Side)
    requires r <= src.Keys && NamedInv(cfg, src, r, written) && Named(cfg.ehName(l)) in written
    requires Part(l, s) !in r && Part(l, OtherSide(s)) in r
    ensures !DistinctNames(cfg, r + {Part(l, s)})
  {
    var r' := r + {Part(l, s)};
    BothPartsAfter(r, l, s);
    if y :| IsNamed(cfg, r, y) && cfg.names[y] == cfg.ehName(l) {
      assert IsNamed(cfg, r', y) && BothParts(r', l);
    } else {
      var m :| BothParts(r, m) && cfg.ehName(m) == cfg.ehName(l);
      assert BothParts(r', m) && BothParts(r', l);
    }
  }

  lemma NamedPair(cfg: Config, src: map<Source, Tensor>, r: set<Source>, written: map<Out, Val>, l: nat, s: Side)
    requires r <= src.Keys && NamedInv(cfg, src, r, written) && Named(cfg.ehName(l)) !in written
    requires Part(l, s) in src && Part(l, s) !in r && Part(l, OtherSide(s)) in r
    ensures NamedInv(cfg, src, r + {Part(l, s)}, written[Named(cfg.ehName(l)) := EhVal(src, l)])
  {
    BothPartsAfter(r, l, s);
    assert forall y :: IsNamed(cfg, r + {Part(l, s)}, y) <==> IsNamed(cfg, r, y);
  }

  // ----- an expert -----

  lemma OneMoreId(r: set<Source>, k: Key, id: nat)
    ensures Ids(r + {ExpertItem(k, id)}, k) == Ids(r, k) + {id}
  {
  }

  // A dictionary that reaches n entries is either the complete set or a conflict.
  lemma HeldGrows(n: int, ids: set<nat>, id: nat)
    requires id !in ids && (n > 0 ==> |Held(n, ids)| < n)
    ensures var full := Held(n, ids) + {id};
            && (n <= 0 || |full| < n ==> !Done(n, ids + {id}) == !Done(n, ids) && Held(n, ids + {id}) == full)
            && (n > 0 && |full| >= n && full == Range(n) ==> Done(n, ids + {id}) && !Done(n, ids) && Held(n, ids + {id}) == {})
            && (n > 0 && |full| >= n && full != Range(n) ==> !(ids + {id} <= Range(n)))
  {
    var full := Held(n, ids) + {id};
    if n > 0 {
      if Done(n, ids) {
        assert id !in Range(n);
        assert Held(n, ids + {id}) == full;
        assert 0 in Range(n) && 0 in ids && 0 !in full;
      } else {
        assert full == ids + {id};
        if full <= Range(n) && |full| >= n { SubsetOfSameSize(full, Range(n)); }
        if |full| < n && Range(n) <= full { SubsetSize(Range(n), full); }
        assert full == Range(n) ==> full - Range(n) == {};
      }
    }
  }

  lemma SubsetSize<T>(a: set<T>, b: set<T>)
    requires a <= b
    ensures |a| <= |b|
  {
    assert b == a + (b - a);
  }

  lemma SubsetOfSameSize<T>(a: set<T>, b: set<T>)
    requires a <= b && |a| >= |b|
    ensures a == b
  {
    assert b == a + (b - a);
  }

  lemma FilledIs(cfg: Config, src: map<Source, Tensor>, r: set<Source>, c: Conv, k: Key, id: nat)
    requires r <= src.Keys && HeldInv(cfg, src, r, c, k) && ExpertItem(k, id) in src && ExpertItem(k, id) !in r
    ensures var dict := Filled(c, k, id, ItemVal(src, ExpertItem(k, id)));
            && dict.Keys == Held(cfg.nExperts, Ids(r, k)) + {id} && |dict| == |dict.Keys|
            && (forall i :: i in dict ==> ExpertItem(k, i) in src && dict[i] == ItemVal(src, ExpertItem(k, i)))
    ensures id !in Ids(r, k) && (cfg.nExperts > 0 ==> |Held(cfg.nExperts, Ids(r, k))| < cfg.nExperts)
  {
  }

  // Only the group k and its output change.
  ghost predicate SameElsewhere(p: Progress, k: Key, p': Progress) {
    && (forall m :: m != k ==> (m in p'.c.experts <==> m in p.c.experts))
    && (forall m :: m != k && m in p.c.experts ==> p'.c.experts[m] == p.c.experts[m])
    && (forall m :: m != k ==> (m in p'.c.raw <==> m in p.c.raw))
    && (forall m :: m != k && m in p.c.raw ==> p'.c.raw[m] == p.c.raw[m])
    && (forall o :: o != Experts(k) ==> (o in p'.written <==> o in p.written))
    && (forall o :: o != Experts(k) && o in p.written ==> p'.written[o] == p.written[o])
  }

  lemma OthersHeld(cfg: Config, src: map<Source, Tensor>, r: set<Source>, p: Progress, k: Key, id: nat, p': Progress)
    requires r <= src.Keys && ExpertsInv(cfg, src, r, p) && ExpertItem(k, id) in src
    requires SameElsewhere(p, k, p')
    ensures forall m :: m != k ==> HeldInv(cfg, src, r + {ExpertItem(k, id)}, p'.c, m)
    ensures forall m :: m != k ==> StackInv(cfg, src, r + {ExpertItem(k, id)}, p', m)
  {
    forall m | m != k
      ensures HeldInv(cfg, src, r + {ExpertItem(k, id)}, p'.c, m) && StackInv(cfg, src, r + {ExpertItem(k, id)}, p', m)
    {
      SameIds(r, ExpertItem(k, id), m);
      assert HeldInv(cfg, src, r, p.c, m) && StackInv(cfg, src, r, p, m);
    }
  }

  lemma ExpertFrame(cfg: Config, src: map<Source, Tensor>, r: set<Source>, p: Progress, k: Key, id: nat)
    requires r <= src.Keys && Inv(cfg, src, r, p) && ExpertItem(k, id) in src
    ensures PartsInv(src, r + {ExpertItem(k, id)}, p.c)
    ensures NamedInv(cfg, src, r + {ExpertItem(k, id)}, p.written)
  {
    assert forall l: nat, s: Side :: Part(l, s) != ExpertItem(k, id);
    NamedUnchanged(cfg, src, r, p.written, ExpertItem(k, id));
  }

  // What follows for all groups and names from what happens to one group.
  lemma OneGroup(cfg: Config, src: map<Source, Tensor>, r: set<Source>, p: Progress, k: Key, id: nat, p': Progress)
    requires r <= src.Keys && Inv(cfg, src, r, p) && ExpertItem(k, id) in src
    requires p'.c.parts == p.c.parts
    requires SameElsewhere(p, k, p')
    requires HeldInv(cfg, src, r + {ExpertItem(k, id)}, p'.c, k)
    requires StackInv(cfg, src, r + {ExpertItem(k, id)}, p', k)
    ensures Inv(cfg, src, r + {ExpertItem(k, id)}, p')
  {
    OthersHeld(cfg, src, r, p, k, id, p');
    ExpertFrame(cfg, src, r, p, k, id);
    NamedOnly(cfg, src, r + {ExpertItem(k, id)}, p.written, p'.written);
  }

  // The group of the expert itself, when it stays incomplete.
  lemma GroupWaits(cfg: Config, src: map<Source, Tensor>, r: set<Source>, p: Progress, k: Key, id: nat, p': Progress)
    requires r <= src.Keys && HeldInv(cfg, src, r, p.c, k) && StackInv(cfg, src, r, p, k)
    requires ExpertItem(k, id) in src && ExpertItem(k, id) !in r
    requires p'.written == p.written && p'.c.raw == p.c.raw && k in p'.c.experts
    requires p'.c.experts[k] == Filled(p.c, k, id, ItemVal(src, ExpertItem(k, id)))
    requires cfg.nExperts <= 0 || |p'.c.experts[k]| < cfg.nExperts
    ensures HeldInv(cfg, src, r + {ExpertItem(k, id)}, p'.c, k)
    ensures StackInv(cfg, src, r + {ExpertItem(k, id)}, p', k)
  {
    FilledIs(cfg, src, r, p.c, k, id);
    OneMoreId(r, k, id);
    HeldGrows(cfg.nExperts, Ids(r, k), id);
  }

  lemma ExpertWaits(cfg: Config, src: map<Source, Tensor>, r: set<Source>, p: Progress, k: Key, id: nat, dict: map<nat, Val>)
    requires r <= src.Keys && Inv(cfg, src, r, p) && ExpertItem(k, id) in src && ExpertItem(k, id) !in r
    requires dict == Filled(p.c, k, id, ItemVal(src, ExpertItem(k, id)))
    requires cfg.nExperts <= 0 || |dict| < cfg.nExperts
    ensures Inv(cfg, src, r + {ExpertItem(k, id)}, p.(c := p.c.(experts := p.c.experts[k := dict])))
  {
    var p' := p.(c := p.c.(experts := p.c.experts[k := dict]));
    assert HeldInv(cfg, src, r, p.c, k) && StackInv(cfg, src, r, p, k);
    GroupWaits(cfg, src, r, p, k, id, p');
    OneGroup(cfg, src, r, p, k, id, p');
  }

  function Completed(p: Progress, k: Key, stacked: Val, packed: bool): Progress {
    var rest := p.c.(experts := p.c.experts - {k});
    if packed then p.(c := rest.(raw := rest.raw[k := stacked]))
    else Progress(rest, p.written[Experts(k) := stacked])
  }

  lemma StackIs(src: map<Source, Tensor>, k: Key, n: nat, dict: map<nat, Val>)
    requires dict.Keys == Range(n)
    requires forall i :: i in dict ==> ExpertItem(k, i) in src && dict[i] == ItemVal(src, ExpertItem(k, i))
    ensures forall i: nat :: i < n ==> ExpertItem(k, i) in src
    ensures Stack(n, dict) == StackVal(src, k, n)
  {
    assert forall i: nat :: i < n ==> i in Range(n);
  }

  // When an expert completes its group, nothing is left in the dictionary.
  lemma CompletesIds(cfg: Config, src: map<Source, Tensor>, r: set<Source>, c: Conv, k: Key, id: nat, dict: map<nat, Val>)
    requires r <= src.Keys && HeldInv(cfg, src, r, c, k)
    requires ExpertItem(k, id) in src && ExpertItem(k, id) !in r
    requires dict == Filled(c, k, id, ItemVal(src, ExpertItem(k, id)))
    requires cfg.nExperts > 0 && dict.Keys == Range(cfg.nExperts)
    ensures forall i: nat :: i < cfg.nExperts ==> ExpertItem(k, i) in src
    ensures Stack(cfg.nExperts, dict) == StackVal(src, k, cfg.nExperts)
    ensures !Done(cfg.nExperts, Ids(r, k)) && Done(cfg.nExperts, Ids(r + {ExpertItem(k, id)}, k))
    ensures Held(cfg.nExperts, Ids(r + {ExpertItem(k, id)}, k)) == {}
  {
    FilledIs(cfg, src, r, c, k, id);
    OneMoreId(r, k, id);
    HeldGrows(cfg.nExperts, Ids(r, k), id);
    StackIs(src, k, cfg.nExperts, dict);
  }

  // The group of the expert itself, when the expert completes it.
  lemma GroupCompletes(cfg: Config, src: map<Source, Tensor>, r: set<Source>, p: Progress, k: Key, id: nat, dict: map<nat, Val>, packed: bool)
    requires r <= src.Keys && HeldInv(cfg, src, r, p.c, k) && StackInv(cfg, src, r, p, k)
    requires ExpertItem(k, id) in src && ExpertItem(k, id) !in r
    requires dict == Filled(p.c, k, id, ItemVal(src, ExpertItem(k, id)))
    requires cfg.nExperts > 0 && dict.Keys == Range(cfg.nExperts)
    ensures k !in p.c.raw && Experts(k) !in p.written
    ensures var p' := Completed(p, k, Stack(cfg.nExperts, dict), packed);
            HeldInv(cfg, src, r + {ExpertItem(k, id)}, p'.c, k) && StackInv(cfg, src, r + {ExpertItem(k, id)}, p', k)
  {
    CompletesIds(cfg, src, r, p.c, k, id, dict);
    assert k !in p.c.raw && Experts(k) !in p.written;
    var p' := Completed(p, k, Stack(cfg.nExperts, dict), packed);
    assert HeldInv(cfg, src, r + {ExpertItem(k, id)}, p'.c, k);
    assert forall i: nat :: i < cfg.nExperts ==> i in Range(cfg.nExperts);
  }

  lemma CompletedElsewhere(p: Progress, k: Key, stacked: Val, packed: bool)
    ensures SameElsewhere(p, k, Completed(p, k, stacked, packed))
    ensures Completed(p, k, stacked, packed).c.parts == p.c.parts
  {
  }

  lemma ExpertCompletes(cfg: Config, src: map<Source, Tensor>, r: set<Source>, p: Progress, k: Key, id: nat, dict: map<nat, Val>, packed: bool)
    requires r <= src.Keys && Inv(cfg, src, r, p) && ExpertItem(k, id) in src && ExpertItem(k, id) !in r
    requires dict == Filled(p.c, k, id, ItemVal(src, ExpertItem(k, id)))
    requires cfg.nExperts > 0 && dict.Keys == Range(cfg.nExperts)
    ensures Experts(k) !in p.written
    ensures Inv(cfg, src, r + {ExpertItem(k, id)}, Completed(p, k, Stack(cfg.nExperts, dict), packed))
  {
    assert HeldInv(cfg, src, r, p.c, k) && StackInv(cfg, src, r, p, k);
    GroupCompletes(cfg, src, r, p, k, id, dict, packed);
    CompletedElsewhere(p, k, Stack(cfg.nExperts, dict), packed);
    OneGroup(cfg, src, r, p, k, id, Completed(p, k, Stack(cfg.nExperts, dict), packed));
  }

  // What a delivered expert does, read off the code.
  lemma ExpertEffect(cfg: Config, p: Progress, k: Key, id: nat, v: Val, packed: bool)
    ensures var dict := Filled(p.c, k, id, v); var n := cfg.nExperts;
            DeliverAndWrite(cfg, p, ExpertItem(k, id), v, packed) ==
              if n <= 0 || |dict| < n then Some(p.(c := p.c.(experts := p.c.experts[k := dict])))
              else if dict.Keys != Range(n) then None
              else if !packed && Experts(k) in p.written then None
              else Some(Completed(p, k, Stack(n, dict), packed))
  {
    var dict, n := Filled(p.c, k, id, v), cfg.nExperts;
    if n > 0 && |dict| >= n && dict.Keys == Range(n) { WriteOne(p.written, Experts(k), Stack(n, dict)); }
  }

  lemma DeliverExpert(cfg: Config, src: map<Source, Tensor>, r: set<Source>, p: Progress, k: Key, id: nat, v: Val, packed: bool)
    requires r <= src.Keys && Inv(cfg, src, r, p)
    requires ExpertItem(k, id) in src && ExpertItem(k, id) !in r && v == ItemVal(src, ExpertItem(k, id))
    ensures Delivered(cfg, src, r, ExpertItem(k, id), DeliverAndWrite(cfg, p, ExpertItem(k, id), v, packed))
  {
    var x, n := ExpertItem(k, id), cfg.nExperts;
    var dict := Filled(p.c, k, id, v);
    ExpertEffect(cfg, p, k, id, v, packed);
    if n <= 0 || |dict| < n {
      ExpertWaits(cfg, src, r, p, k, id, dict);
    } else if dict.Keys != Range(n) {
      TooMany(cfg, src, r, p, k, id, dict);
    } else {
      ExpertCompletes(cfg, src, r, p, k, id, dict, packed);
    }
  }

  lemma TooMany(cfg: Config, src: map<Source, Tensor>, r: set<Source>, p: Progress, k: Key, id: nat, dict: map<nat, Val>)
    requires r <= src.Keys && HeldInv(cfg, src, r, p.c, k) && ExpertItem(k, id) in src && ExpertItem(k, id) !in r
    requires dict == Filled(p.c, k, id, ItemVal(src, ExpertItem(k, id)))
    requires 0 < cfg.nExperts <= |dict| && dict.Keys != Range(cfg.nExperts)
    ensures Conflict(cfg, r + {ExpertItem(k, id)})
  {
    FilledIs(cfg, src, r, p.c, k, id);
    OneMoreId(r, k, id);
    HeldGrows(cfg.nExperts, Ids(r, k), id);
    assert Ids(r + {ExpertItem(k, id)}, k) != {};
  }

  // The named outputs do not depend on the stacked ones.
  lemma NamedOnly(cfg: Config, src: map<Source, Tensor>, r: set<Source>, written: map<Out, Val>, written': map<Out, Val>)
    requires r <= src.Keys && NamedInv(cfg, src, r, written)
    requires forall n :: Named(n) in written' <==> Named(n) in written
    requires forall n :: Named(n) in written ==> written'[Named(n)] == written[Named(n)]
    ensures NamedInv(cfg, src, r, written')
  {
  }

  // ----- one arrival -----

  // The stacked groups: raw ones hold a packed expert, returned ones an unpacked one.
  ghost predicate RawInv(src: map<Source, Tensor>, r: set<Source>, p: Progress) {
    && (forall k :: k in p.c.raw ==> exists id: nat :: ExpertItem(k, id) in r && IsPacked(src, ExpertItem(k, id)))
    && (forall k :: Experts(k) in p.written ==> exists id: nat :: ExpertItem(k, id) in r && !IsPacked(src, ExpertItem(k, id)))
  }

  // Which group a delivery stacks, and how.
  ghost predicate NewStack(p: Progress, x: Source, packed: bool, q: Progress) {
    && (forall k :: k in q.c.raw && k !in p.c.raw ==> IsExpertOf(x, k) && packed)
    && (forall k :: Experts(k) in q.written && Experts(k) !in p.written ==> IsExpertOf(x, k) && !packed)
    && q.c.scales == p.c.scales && q.c.pending == p.c.pending
  }

  lemma PartStacks(cfg: Config, p: Progress, l: nat, side: Side, v: Val, packed: bool)
    ensures var q := DeliverAndWrite(cfg, p, Part(l, side), v, packed); q.Some? ==> NewStack(p, Part(l, side), packed, q.value)
  {
    PartEffect(cfg, p, l, side, v, packed);
  }

  lemma ExpertStacks(cfg: Config, p: Progress, k: Key, id: nat, v: Val, packed: bool)
    ensures var q := DeliverAndWrite(cfg, p, ExpertItem(k, id), v, packed); q.Some? ==> NewStack(p, ExpertItem(k, id), packed, q.value)
  {
    ExpertEffect(cfg, p, k, id, v, packed);
    assert IsExpertOf(ExpertItem(k, id), k);
  }

  lemma PlainStacks(cfg: Config, p: Progress, x: Source, v: Val, packed: bool)
    requires IsPlain(x)
    ensures var q := DeliverAndWrite(cfg, p, x, v, packed); q.Some? ==> NewStack(p, x, packed, q.value)
  {
    if x in cfg.names { WriteOne(p.written, Named(cfg.names[x]), v); }
  }

  lemma DeliverStacks(cfg: Config, p: Progress, x: Source, v: Val, packed: bool)
    requires !x.ScaleOf?
    ensures var q := DeliverAndWrite(cfg, p, x, v, packed); q.Some? ==> NewStack(p, x, packed, q.value)
  {
    if x.WeightOf? && x.w.Projection? {
      PartStacks(cfg, p, x.w.layer, x.w.side, v, packed);
    } else if x.WeightOf? && x.w.Expert? {
      ExpertStacks(cfg, p, Key(x.w.layer, x.w.proj), x.w.id, v, packed);
    } else {
      PlainStacks(cfg, p, x, v, packed);
    }
  }

  lemma DeliverAny(cfg: Config, src: map<Source, Tensor>, r: set<Source>, p: Progress, x: Source, packed: bool)
    requires r <= src.Keys && Inv(cfg, src, r, p) && x in src && x !in r && !x.ScaleOf?
    ensures Delivered(cfg, src, r, x, DeliverAndWrite(cfg, p, x, ItemVal(src, x), packed))
  {
    if x.WeightOf? && x.w.Projection? {
      DeliverPart(cfg, src, r, p, x.w.layer, x.w.side, ItemVal(src, x), packed);
    } else if x.WeightOf? && x.w.Expert? {
      DeliverExpert(cfg, src, r, p, Key(x.w.layer, x.w.proj), x.w.id, ItemVal(src, x), packed);
    } else {
      DeliverPlain(cfg, src, r, p, x, ItemVal(src, x), packed);
    }
  }

  ghost predicate AllInv(cfg: Config, src: map<Source, Tensor>, a: set<Source>, p: Progress)
    requires a <= src.Keys
  {
    && PairInv(cfg, src, a, p.c)
    && Inv(cfg, src, ReadySet(src, a), p)
    && RawInv(src, ReadySet(src, a), p)
  }

  lemma StepIs(cfg: Config, p: Progress, x: Source, t: Tensor)
    ensures Step(cfg, p, x, t) ==
              match Pair(cfg, p.c, x, t)
              case Waits(c') => Some(Progress(c', p.written))
              case Ready(c', item, v, packed) => DeliverAndWrite(cfg, Progress(c', p.written), item, v, packed)
              case Refused => None
  {
    assert Write(p.written, []) == Some(p.written);
  }

  // One arrival keeps the invariant, or shows a conflict that no order avoids.
  lemma StepKeeps(cfg: Config, src: map<Source, Tensor>, a: set<Source>, p: Progress, x: Source)
    requires a <= src.Keys && Fits(cfg, src) && AllInv(cfg, src, a, p) && x in src && x !in a
    ensures match Step(cfg, p, x, src[x])
            case None => BadScale(cfg, src) || Conflict(cfg, ReadySet(src, a + {x}))
            case Some(q) => AllInv(cfg, src, a + {x}, q)
    ensures match Step(cfg, p, x, src[x])
            case None => true
            case Some(q) => Stacks(src, x, p, q)
  {
    StepIs(cfg, p, x, src[x]);
    PairStep(cfg, src, a, p.c, x);
    match Pair(cfg, p.c, x, src[x]) {
      case Refused =>
      case Waits(c') =>
        SameInv(cfg, src, ReadySet(src, a), p, c');
      case Ready(c', item, v, packed) =>
        SameInv(cfg, src, ReadySet(src, a), p, c');
        var p1 := Progress(c', p.written);
        DeliverAny(cfg, src, ReadySet(src, a), p1, item, packed);
        DeliverStacks(cfg, p1, item, v, packed);
        var q := DeliverAndWrite(cfg, p1, item, v, packed);
        if q.Some? {
          RawGrows(src, ReadySet(src, a), p1, item, q.value);
          SamePairs(cfg, src, a + {x}, c', q.value.c);
          assert item == x || (x.ScaleOf? && item == WeightOf(x.w)) by { ReadyItem(cfg, p.c, x, src[x]); }
        }
    }
  }

  // The group that one arrival stacks is the group of the arriving weight or scale.
  ghost predicate Stacks(src: map<Source, Tensor>, x: Source, p: Progress, q: Progress) {
    && (forall k :: k in q.c.raw && k !in p.c.raw ==> !x.Bare? && IsExpertOf(WeightOf(x.w), k) && IsPacked(src, WeightOf(x.w)))
    && (forall k :: Experts(k) in q.written && Experts(k) !in p.written ==>
          !x.Bare? && IsExpertOf(WeightOf(x.w), k) && !IsPacked(src, WeightOf(x.w)))
  }

  lemma ReadyItem(cfg: Config, c: Conv, x: Source, t: Tensor)
    ensures var r := Pair(cfg, c, x, t); r.Ready? ==> r.item == x || (x.ScaleOf? && r.item == WeightOf(x.w))
  {
  }

  lemma SameInv(cfg: Config, src: map<Source, Tensor>, r: set<Source>, p: Progress, c': Conv)
    requires r <= src.Keys && Inv(cfg, src, r, p) && RawInv(src, r, p) && SameRest(p.c, c')
    ensures Inv(cfg, src, r, Progress(c', p.written)) && RawInv(src, r, Progress(c', p.written))
  {
    forall k
      ensures HeldInv(cfg, src, r, c', k) && StackInv(cfg, src, r, Progress(c', p.written), k)
    {
      assert HeldInv(cfg, src, r, p.c, k) && StackInv(cfg, src, r, p, k);
    }
  }

  lemma SamePairs(cfg: Config, src: map<Source, Tensor>, a: set<Source>, c: Conv, c': Conv)
    requires a <= src.Keys && PairInv(cfg, src, a, c) && c'.scales == c.scales && c'.pending == c.pending
    ensures PairInv(cfg, src, a, c')
  {
  }

  lemma RawGrows(src: map<Source, Tensor>, r: set<Source>, p: Progress, x: Source, q: Progress)
    requires RawInv(src, r, p) && NewStack(p, x, IsPacked(src, x), q)
    ensures RawInv(src, r + {x}, q)
  {
    forall k | k in q.c.raw
      ensures exists id: nat :: ExpertItem(k, id) in r + {x} && IsPacked(src, ExpertItem(k, id))
    {
      if k in p.c.raw {
        var id: nat :| ExpertItem(k, id) in r && IsPacked(src, ExpertItem(k, id));
      } else {
        assert x == ExpertItem(k, x.w.id);
      }
    }
    forall k | Experts(k) in q.written
      ensures exists id: nat :: ExpertItem(k, id) in r + {x} && !IsPacked(src, ExpertItem(k, id))
    {
      if Experts(k) in p.written {
        var id: nat :| ExpertItem(k, id) in r && !IsPacked(src, ExpertItem(k, id));
      } else {
        assert x == ExpertItem(k, x.w.id);
      }
    }
  }
}
