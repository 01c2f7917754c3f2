/** The conversion of DeepSeek-V4 MTP tensors (convert_hf_to_gguf.py): tensors arrive one by
    one, weights are paired with their scales, the two projections with each other, and the
    experts of a layer are collected and stacked. */
module Mtp {

  // ----- names and values -----

  datatype Side = EProj | HProj

  // A weight's name, parsed; Other is every name that gets no special treatment.
  datatype Weight =
    | Head
    | Projection(layer: nat, side: Side)
    | Expert(layer: nat, id: nat, proj: nat)
    | Other(name: string)

  // A source tensor's name: a weight, the scale of a weight, or a name with neither suffix.
  datatype Source = WeightOf(w: Weight) | ScaleOf(w: Weight) | Bare(name: string)

  type Tensor(==, !new)

  // What the converter computes, as a term over the loaded tensors.
  datatype Val =
    | Loaded(t: Tensor)
    | AsFloat(v: Val)
    | Dequantized(weight: Val, scale: Val)
    | Packed(weight: Val, scale: Val)
    | SideBySide(e: Val, h: Val)
    | Stacked(parts: seq<Val>)

  datatype Key = Key(layer: nat, proj: nat)

  datatype Out = Named(name: string) | Experts(key: Key)

  datatype Option<T> = None | Some(value: T)

  /** What does not change during a conversion: the number of experts, the weights whose
      scale is in the index, the experts whose scale has the wrong shape for packing, and
      the output names. */
  datatype Config = Config(
    nExperts: int,
    expected: set<Weight>,
    badScale: set<Weight>,
    names: map<Source, string>,
    ehName: nat -> string)

  // The dictionaries of the converter.
  datatype Conv = Conv(
    scales: map<Weight, Tensor>,
    pending: map<Weight, Tensor>,
    parts: map<(nat, Side), Val>,
    experts: map<Key, map<nat, Val>>,
    raw: map<Key, Val>)

  const Start := Conv(map[], map[], map[], map[], map[])

  // ----- modify_tensors: pairing a weight with its scale -----

  datatype Paired = Waits(c: Conv) | Ready(c: Conv, item: Source, v: Val, packed: bool) | Refused

  function Join(cfg: Config, c: Conv, w: Weight, weight: Tensor, scale: Tensor): Paired {
    if !w.Expert? then Ready(c, WeightOf(w), AsFloat(Dequantized(Loaded(weight), Loaded(scale))), false)
    else if w in cfg.badScale then Refused
    else Ready(c, WeightOf(w), Packed(Loaded(weight), Loaded(scale)), true)
  }

  function Pair(cfg: Config, c: Conv, x: Source, t: Tensor): (r: Paired)
    ensures r.Ready? ==> r.item.WeightOf? || r.item.Bare?
  {
    match x
    case ScaleOf(w) =>
      if w.Head? then Waits(c)
      else if w in c.pending then Join(cfg, c.(pending := c.pending - {w}, scales := c.scales - {w}), w, c.pending[w], t)
      else Waits(c.(scales := c.scales[w := t]))
    case WeightOf(w) =>
      if w !in cfg.expected then Ready(c, x, AsFloat(Loaded(t)), false)
      else if w in c.scales then Join(cfg, c.(scales := c.scales - {w}), w, t, c.scales[w])
      else Waits(c.(pending := c.pending[w := t]))
    case Bare(_) => Ready(c, x, AsFloat(Loaded(t)), false)
  }

  // ----- modify_tensors: projections, experts and plain tensors -----

  datatype Effect = Effect(c: Conv, returned: seq<(Out, Val)>)

  function OtherSide(s: Side): Side { if s.EProj? then HProj else EProj }

  function Range(n: int): (r: set<nat>)
    ensures forall i: nat :: i in r <==> i < n
    ensures |r| == if n <= 0 then 0 else n
  {
    if n <= 0 then {} else Range(n - 1) + {n - 1}
  }

  function Stack(n: nat, dict: map<nat, Val>): Val
    requires dict.Keys == Range(n)
  {
    Stacked(seq(n, i requires 0 <= i < n => assert i in Range(n); dict[i]))
  }

  // The dictionary of a group after an expert is put into it.
  function Filled(c: Conv, k: Key, id: nat, v: Val): map<nat, Val> {
    (if k in c.experts then c.experts[k] else map[])[id := v]
  }

  function Deliver(cfg: Config, c: Conv, item: Source, v: Val, packed: bool): Option<Effect>
    requires !item.ScaleOf?
  {
    if item.WeightOf? && item.w.Projection? then
      var l, s := item.w.layer, item.w.side;
      var parts := c.parts[(l, s) := v];
      if (l, OtherSide(s)) !in parts then Some(Effect(c.(parts := parts), []))
      else Some(Effect(c.(parts := parts - {(l, EProj), (l, HProj)}),
                       [(Named(cfg.ehName(l)), SideBySide(parts[(l, EProj)], parts[(l, HProj)]))]))
    else if item.WeightOf? && item.w.Expert? then
      var key := Key(item.w.layer, item.w.proj);
      var dict := Filled(c, key, item.w.id, v);
      if cfg.nExperts <= 0 || |dict| < cfg.nExperts then
        Some(Effect(c.(experts := c.experts[key := dict]), []))
      else if dict.Keys != Range(cfg.nExperts) then None
      else
        var stacked := Stack(cfg.nExperts, dict);
        var rest := c.(experts := c.experts - {key});
        if packed then Some(Effect(rest.(raw := rest.raw[key := stacked]), []))
        else Some(Effect(rest, [(Experts(key), stacked)]))
    else if item in cfg.names then Some(Effect(c, [(Named(cfg.names[item]), v)]))
    else None
  }

  function Modify(cfg: Config, c: Conv, x: Source, t: Tensor): Option<Effect> {
    match Pair(cfg, c, x, t)
    case Waits(c') => Some(Effect(c', []))
    case Ready(c', item, v, packed) => Deliver(cfg, c', item, v, packed)
    case Refused => None
  }

  // ----- prepare_tensors: writing what is returned, and the final checks -----

  // The writer refuses a name that it already has.
  function Write(written: map<Out, Val>, returned: seq<(Out, Val)>): Option<map<Out, Val>>
    decreases |returned|
  {
    if returned == [] then Some(written)
    else if returned[0].0 in written then None
    else Write(written[returned[0].0 := returned[0].1], returned[1..])
  }

  datatype Progress = Progress(c: Conv, written: map<Out, Val>)

  function Step(cfg: Config, p: Progress, x: Source, t: Tensor): Option<Progress> {
    match Modify(cfg, p.c, x, t)
    case None => None
    case Some(e) =>
      match Write(p.written, e.returned)
      case None => None
      case Some(written) => Some(Progress(e.c, written))
  }

  function RunAll(cfg: Config, p: Progress, src: map<Source, Tensor>, order: seq<Source>): Option<Progress>
    requires forall x :: x in order ==> x in src
  {
    if order == [] then Some(p)
    else
      match RunAll(cfg, p, src, order[..|order| - 1])
      case None => None
      case Some(q) => Step(cfg, q, order[|order| - 1], src[order[|order| - 1]])
  }

  // The tensors of the output file, and which of them were written raw.
  datatype File = File(tensors: map<Out, Val>, raw: set<Key>)

  function RawOutputs(raw: map<Key, Val>): map<Out, Val> { map k | k in raw :: Experts(k) := raw[k] }

  predicate Collides(raw: map<Key, Val>, written: map<Out, Val>) { exists k :: k in raw && Experts(k) in written }

  function Finish(p: Progress): Option<File> {
    if Collides(p.c.raw, p.written) then None
    else if p.c.parts != map[] || p.c.experts != map[] || p.c.pending != map[] then None
    else Some(File(p.written + RawOutputs(p.c.raw), p.c.raw.Keys))
  }

  function Convert(cfg: Config, src: map<Source, Tensor>, order: seq<Source>): Option<File>
    requires forall x :: x in order ==> x in src
  {
    match RunAll(cfg, Progress(Start, map[]), src, order)
    case None => None
    case Some(p) => Finish(p)
  }

  // ----- what the result should be, as a function of the set of source tensors -----

  ghost predicate Fits(cfg: Config, src: map<Source, Tensor>) {
    forall w :: w in cfg.expected <==> ScaleOf(w) in src
  }

  // A weight that has its scale (the scale of the head is dropped) or needs none.
  predicate IsReady(src: map<Source, Tensor>, a: set<Source>, x: Source) {
    x in a && !x.ScaleOf? &&
    (x.WeightOf? && ScaleOf(x.w) in src ==> !x.w.Head? && ScaleOf(x.w) in a)
  }

  ghost function ReadySet(src: map<Source, Tensor>, a: set<Source>): set<Source> {
    set x | x in a && IsReady(src, a, x)
  }

  predicate IsPacked(src: map<Source, Tensor>, x: Source) {
    x.WeightOf? && x.w.Expert? && ScaleOf(x.w) in src
  }

  function ItemVal(src: map<Source, Tensor>, x: Source): Val
    requires x in src
  {
    if x.WeightOf? && ScaleOf(x.w) in src then
      if x.w.Expert? then Packed(Loaded(src[x]), Loaded(src[ScaleOf(x.w)]))
      else AsFloat(Dequantized(Loaded(src[x]), Loaded(src[ScaleOf(x.w)])))
    else AsFloat(Loaded(src[x]))
  }

  // ----- the pairing stage keeps exactly the unmatched halves -----

  ghost predicate PairInv(cfg: Config, src: map<Source, Tensor>, a: set<Source>, c: Conv)
    requires a <= src.Keys
  {
    && (forall w :: w in c.scales <==> !w.Head? && ScaleOf(w) in a && WeightOf(w) !in a)
    && (forall w :: w in c.scales ==> c.scales[w] == src[ScaleOf(w)])
    && (forall w :: w in c.pending <==> WeightOf(w) in a && ScaleOf(w) in src && (w.Head? || ScaleOf(w) !in a))
    && (forall w :: w in c.pending ==> c.pending[w] == src[WeightOf(w)])
    && (forall w: Weight :: w.Expert? && WeightOf(w) in a && ScaleOf(w) in a ==> w !in cfg.badScale)
  }

  // What one arrival may do.
  ghost predicate Arrived(cfg: Config, src: map<Source, Tensor>, a: set<Source>, c: Conv, x: Source, r: Paired)
    requires a <= src.Keys && x in src
  {
    match r
    case Waits(c') =>
      PairInv(cfg, src, a + {x}, c') && SameRest(c, c') && ReadySet(src, a + {x}) == ReadySet(src, a)
    case Ready(c', item, v, packed) =>
      && PairInv(cfg, src, a + {x}, c') && SameRest(c, c')
      && item !in ReadySet(src, a) && item in src && ReadySet(src, a + {x}) == ReadySet(src, a) + {item}
      && v == ItemVal(src, item) && packed == IsPacked(src, item)
    case Refused => BadScale(cfg, src)
  }

  ghost predicate BadScale(cfg: Config, src: map<Source, Tensor>) {
    exists w: Weight :: w.Expert? && WeightOf(w) in src && ScaleOf(w) in src && w in cfg.badScale
  }

  // One arrival: at most one tensor becomes ready, and it carries the value it should.
  lemma PairStep(cfg: Config, src: map<Source, Tensor>, a: set<Source>, c: Conv, x: Source)
    requires a <= src.Keys && Fits(cfg, src) && PairInv(cfg, src, a, c) && x in src && x !in a
    ensures Arrived(cfg, src, a, c, x, Pair(cfg, c, x, src[x]))
  {
    match x {
      case Bare(_) =>
        assert ReadySet(src, a + {x}) == ReadySet(src, a) + {x};
      case ScaleOf(w) => ScaleStep(cfg, src, a, c, w);
      case WeightOf(w) => WeightStep(cfg, src, a, c, w);
    }
  }

  predicate SameRest(c: Conv, c': Conv) {
    c'.parts == c.parts && c'.experts == c.experts && c'.raw == c.raw
  }

  lemma ScaleStep(cfg: Config, src: map<Source, Tensor>, a: set<Source>, c: Conv, w: Weight)
    requires a <= src.Keys && Fits(cfg, src) && PairInv(cfg, src, a, c) && ScaleOf(w) in src && ScaleOf(w) !in a
    ensures Arrived(cfg, src, a, c, ScaleOf(w), Pair(cfg, c, ScaleOf(w), src[ScaleOf(w)]))
  {
    var x := ScaleOf(w);
    if !w.Head? && w in c.pending {
      assert ReadySet(src, a + {x}) == ReadySet(src, a) + {WeightOf(w)};
    } else {
      assert ReadySet(src, a + {x}) == ReadySet(src, a);
    }
  }

  lemma WeightStep(cfg: Config, src: map<Source, Tensor>, a: set<Source>, c: Conv, w: Weight)
    requires a <= src.Keys && Fits(cfg, src) && PairInv(cfg, src, a, c) && WeightOf(w) in src && WeightOf(w) !in a
    ensures Arrived(cfg, src, a, c, WeightOf(w), Pair(cfg, c, WeightOf(w), src[WeightOf(w)]))
  {
    var x := WeightOf(w);
    if w in cfg.expected && w !in c.scales {
      assert ReadySet(src, a + {x}) == ReadySet(src, a);
    } else {
      assert ReadySet(src, a + {x}) == ReadySet(src, a) + {x};
    }
  }
}
