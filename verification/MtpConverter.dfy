/** The converter object itself: the dictionaries that modify_tensors updates in place, and
    the loop of prepare_tensors over the arriving tensors. */
module MtpConverter {
  import opened Mtp

  class Converter {
    const cfg: Config
    var scales: map<Weight, Tensor>
    var pending: map<Weight, Tensor>
    var parts: map<(nat, Side), Val>
    var experts: map<Key, map<nat, Val>>
    var raw: map<Key, Val>

    ghost function State(): Conv
      reads this
    {
      Conv(scales, pending, parts, experts, raw)
    }

    constructor (cfg: Config)
      ensures this.cfg == cfg && State() == Start
    {
      this.cfg := cfg;
      scales, pending, parts, experts, raw := map[], map[], map[], map[], map[];
    }

    method ModifyTensors(data: Tensor, name: Source) returns (r: Option<seq<(Out, Val)>>)
      modifies this
      ensures match Modify(cfg, old(State()), name, data)
              case None => r.None?
              case Some(e) => r == Some(e.returned) && State() == e.c
    {
      if name == ScaleOf(Head) { return Some([]); }
      if name.ScaleOf? {
        var weight := name.w;
        scales := scales[weight := data];
        if weight !in pending { return Some([]); }
        var w := pending[weight];
        UpdateRemove(old(scales), weight, data);
        pending, scales := pending - {weight}, scales - {weight};
        r := Scaled(weight, w, data);
      } else if name.WeightOf? && name.w in cfg.expected {
        var weight := name.w;
        if weight !in scales {
          pending := pending[weight := data];
          return Some([]);
        }
        var s := scales[weight];
        scales := scales - {weight};
        r := Scaled(weight, data, s);
      } else {
        r := Place(name, AsFloat(Loaded(data)));
      }
    }

    // A weight together with its scale.
    method Scaled(w: Weight, weight: Tensor, scale: Tensor) returns (r: Option<seq<(Out, Val)>>)
      modifies this`parts, this`experts, this`raw
      ensures match Join(cfg, old(State()), w, weight, scale)
              case Refused => r.None?
              case Waits(_) => false
              case Ready(c, item, v, packed) =>
                match Deliver(cfg, c, item, v, packed)
                case None => r.None?
                case Some(e) => r == Some(e.returned) && State() == e.c
    {
      if w.Expert? {
        if w in cfg.badScale { return None; }
        r := RecordMtpExpert(w, Packed(Loaded(weight), Loaded(scale)));
      } else {
        r := Place(WeightOf(w), AsFloat(Dequantized(Loaded(weight), Loaded(scale))));
      }
    }

    /** Puts an expert into its group; a group that reaches the expert count is taken out. */
    method Collect(key: Key, id: nat, value: Val) returns (full: Option<map<nat, Val>>)
      modifies this`experts
      ensures var dict := Filled(old(State()), key, id, value);
              if cfg.nExperts <= 0 || |dict| < cfg.nExperts
              then full.None? && experts == old(experts)[key := dict]
              else full == Some(dict) && experts == old(experts) - {key}
    {
      var dict: map<nat, Val> := (if key in experts then experts[key] else map[])[id := value];
      experts := experts[key := dict];
      if cfg.nExperts <= 0 || |dict| < cfg.nExperts { return None; }
      UpdateRemove(old(experts), key, dict);
      experts := experts - {key};
      full := Some(dict);
    }

    method PlacePart(l: nat, side: Side, value: Val) returns (r: seq<(Out, Val)>)
      modifies this`parts
      ensures Deliver(cfg, old(State()), WeightOf(Projection(l, side)), value, false) == Some(Effect(State(), r))
    {
      parts := parts[(l, side) := value];
      if (l, EProj) !in parts || (l, HProj) !in parts { return []; }
      var e, h := parts[(l, EProj)], parts[(l, HProj)];
      parts := parts - {(l, EProj), (l, HProj)};
      r := [(Named(cfg.ehName(l)), SideBySide(e, h))];
    }

    // The part of modify_tensors after the scales have been dealt with.
    method Place(item: Source, value: Val) returns (r: Option<seq<(Out, Val)>>)
      requires !item.ScaleOf?
      modifies this`parts, this`experts
      ensures match Deliver(cfg, old(State()), item, value, false)
              case None => r.None?
              case Some(e) => r == Some(e.returned) && State() == e.c
    {
      if item.WeightOf? && item.w.Projection? {
        var returned := PlacePart(item.w.layer, item.w.side, value);
        return Some(returned);
      }
      if item.WeightOf? && item.w.Expert? {
        var key := Key(item.w.layer, item.w.proj);
        var full := Collect(key, item.w.id, value);
        if full.None? { return Some([]); }
        if full.value.Keys != Range(cfg.nExperts) { return None; }
        return Some([(Experts(key), Stack(cfg.nExperts, full.value))]);
      }
      if item !in cfg.names { return None; }
      r := Some([(Named(cfg.names[item]), value)]);
    }

    // _record_mtp_expert: a packed expert, collected for the raw tensors.
    method RecordMtpExpert(w: Weight, packed: Val) returns (r: Option<seq<(Out, Val)>>)
      requires w.Expert?
      modifies this`experts, this`raw
      ensures match Deliver(cfg, old(State()), WeightOf(w), packed, true)
              case None => r.None?
              case Some(e) => r == Some(e.returned) && State() == e.c
    {
      var key := Key(w.layer, w.proj);
      var full := Collect(key, w.id, packed);
      if full.None? { return Some([]); }
      if full.value.Keys != Range(cfg.nExperts) { return None; }
      raw := raw[key := Stack(cfg.nExperts, full.value)];
      r := Some([]);
    }

    /** prepare_tensors: converts the tensors in the given order, then checks that nothing
        is left over. */
    method PrepareTensors(src: map<Source, Tensor>, order: seq<Source>) returns (f: Option<File>)
      requires State() == Start && forall x :: x in order ==> x in src
      modifies this
      ensures f == Convert(cfg, src, order)
    {
      var written: map<Out, Val> := map[];
      var i := 0;
      ghost var start := Progress(Start, map[]);
      while i < |order|
        invariant 0 <= i <= |order|
        invariant RunAll(cfg, start, src, order[..i]) == Some(Progress(State(), written))
      {
        ghost var before := Progress(State(), written);
        assert order[..i + 1][..i] == order[..i];
        var r := ModifyTensors(src[order[i]], order[i]);
        var written' := if r.Some? then Write(written, r.value) else None;
        if written'.None? {
          assert RunAll(cfg, start, src, order[..i + 1]) == None;
          RunStops(cfg, start, src, order, i + 1);
          return None;
        }
        written := written'.value;
        i := i + 1;
      }
      assert order[..i] == order;
      if Collides(raw, written) { return None; }
      if parts != map[] || experts != map[] || pending != map[] { return None; }
      f := Some(File(written + RawOutputs(raw), raw.Keys));
    }
  }

  lemma UpdateRemove<K, V>(m: map<K, V>, k: K, v: V)
    ensures m[k := v] - {k} == m - {k}
  {
  }

  // A run that has failed stays failed.
  lemma {:induction false} RunStops(cfg: Config, p: Progress, src: map<Source, Tensor>, order: seq<Source>, i: nat)
    requires i <= |order| && (forall x :: x in order ==> x in src)
    requires RunAll(cfg, p, src, order[..i]) == None
    ensures RunAll(cfg, p, src, order) == None
    decreases |order|
  {
    if i == |order| {
      assert order[..i] == order;
    } else {
      assert order[..|order| - 1][..i] == order[..i];
      RunStops(cfg, p, src, order[..|order| - 1], i);
    }
  }
}
