/** The byte-pair merging of QwenModel.bpe (convert_hf_to_gguf.py:2237-2251) and what
    _set_vocab_qwen makes of it (797-803). */
module Bpe {

  type byte = i: int | 0 <= i < 256

  type Bytes = seq<byte>

  datatype Option<T> = None | Some(value: T)

  // ----- one merge -----

  predicate Ranked(ranks: map<Bytes, int>, parts: seq<Bytes>, i: nat) {
    i + 1 < |parts| && parts[i] + parts[i + 1] in ranks
  }

  function PairRank(ranks: map<Bytes, int>, parts: seq<Bytes>, i: nat): int
    requires Ranked(ranks, parts, i)
  {
    ranks[parts[i] + parts[i + 1]]
  }

  // i is the leftmost of the pairs of least rank among the first n.
  predicate IsLeast(ranks: map<Bytes, int>, parts: seq<Bytes>, n: nat, i: nat) {
    && i < n && Ranked(ranks, parts, i)
    && (forall j: nat :: j < n && Ranked(ranks, parts, j) ==> PairRank(ranks, parts, i) <= PairRank(ranks, parts, j))
    && (forall j: nat :: j < i && Ranked(ranks, parts, j) ==> PairRank(ranks, parts, i) < PairRank(ranks, parts, j))
  }

  // The leftmost pair of least rank, if any is ranked, among the first n.
  function Least(ranks: map<Bytes, int>, parts: seq<Bytes>, n: nat): (r: Option<nat>)
    ensures match r
            case None => forall j: nat :: j < n ==> !Ranked(ranks, parts, j)
            case Some(i) => IsLeast(ranks, parts, n, i)
  {
    if n == 0 then None
    else
      var r := Least(ranks, parts, n - 1);
      if Ranked(ranks, parts, n - 1) && (r.None? || PairRank(ranks, parts, n - 1) < PairRank(ranks, parts, r.value)) then Some(n - 1)
      else r
  }

  lemma LeastIsUnique(ranks: map<Bytes, int>, parts: seq<Bytes>, n: nat, i: nat)
    requires IsLeast(ranks, parts, n, i)
    ensures Least(ranks, parts, n) == Some(i)
  {
    var r := Least(ranks, parts, n);
    assert r.Some? ==> Ranked(ranks, parts, r.value);
  }

  function Join(parts: seq<Bytes>, i: nat): (r: seq<Bytes>)
    requires i + 1 < |parts|
    ensures |r| == |parts| - 1
  {
    parts[..i] + [parts[i] + parts[i + 1]] + parts[i + 2..]
  }

  // ----- merging until no pair ranks below the limit -----

  // The pair to merge next.
  function Next(ranks: map<Bytes, int>, parts: seq<Bytes>, limit: Option<int>): (r: Option<nat>)
    ensures r.Some? ==> Ranked(ranks, parts, r.value)
  {
    var r := Least(ranks, parts, |parts|);
    if r.None? || (limit.Some? && PairRank(ranks, parts, r.value) >= limit.value) then None else r
  }

  function Merged(ranks: map<Bytes, int>, parts: seq<Bytes>, limit: Option<int>): seq<Bytes>
    decreases |parts|
  {
    var r := Next(ranks, parts, limit);
    if r.None? then parts else Merged(ranks, Join(parts, r.value), limit)
  }

  function Singles(token: Bytes): (r: seq<Bytes>)
    ensures |r| == |token| && forall i :: 0 <= i < |r| ==> r[i] == [token[i]]
  {
    seq(|token|, i requires 0 <= i < |token| => [token[i]])
  }

  /** bpe: repeatedly merge the leftmost pair of least rank. */
  method BytePairs(ranks: map<Bytes, int>, token: Bytes, limit: Option<int>) returns (parts: seq<Bytes>)
    ensures parts == Merged(ranks, Singles(token), limit)
  {
    parts := Singles(token);
    while true
      invariant Merged(ranks, parts, limit) == Merged(ranks, Singles(token), limit)
      decreases |parts|
    {
      var minIdx: Option<nat> := None;
      var minRank: Option<int> := None;
      for i := 0 to |parts|
        invariant minIdx == Least(ranks, parts, i)
        invariant minRank == if minIdx.None? then None else Some(PairRank(ranks, parts, minIdx.value))
      {
        if i + 1 < |parts| && parts[i] + parts[i + 1] in ranks {
          var rank := ranks[parts[i] + parts[i + 1]];
          if minRank.None? || rank < minRank.value {
            minIdx := Some(i);
            minRank := Some(rank);
          }
        }
      }
      if minRank.None? || (limit.Some? && minRank.value >= limit.value) {
        break;
      }
      parts := parts[..minIdx.value] + [parts[minIdx.value] + parts[minIdx.value + 1]] + parts[minIdx.value + 2..];
    }
  }

  // ----- what the parts are -----

  function Concat(parts: seq<Bytes>): Bytes {
    if parts == [] then [] else parts[0] + Concat(parts[1..])
  }

  lemma {:induction false} ConcatSum(s: seq<Bytes>, t: seq<Bytes>)
    ensures Concat(s + t) == Concat(s) + Concat(t)
  {
    if s == [] {
      assert s + t == t;
    } else {
      assert (s + t)[1..] == s[1..] + t;
      ConcatSum(s[1..], t);
    }
  }

  lemma {:induction false} ConcatSingles(token: Bytes)
    ensures Concat(Singles(token)) == token
  {
    if token != [] {
      assert Singles(token)[1..] == Singles(token[1..]);
      ConcatSingles(token[1..]);
    }
  }

  lemma ConcatPair(x: Bytes, y: Bytes, rest: seq<Bytes>)
    ensures Concat([x, y] + rest) == Concat([x + y] + rest)
  {
    ConcatSum([x, y], rest);
    ConcatSum([x + y], rest);
    assert Concat([x, y]) == x + Concat([y]) && Concat([y]) == y + Concat([]) == y;
    assert Concat([x + y]) == x + y + Concat([]) == x + y;
  }

  lemma ConcatAround(front: seq<Bytes>, s: seq<Bytes>, t: seq<Bytes>)
    requires Concat(s) == Concat(t)
    ensures Concat(front + s) == Concat(front + t)
  {
    ConcatSum(front, s);
    ConcatSum(front, t);
  }

  lemma PairAround(parts: seq<Bytes>, i: nat)
    requires i + 1 < |parts|
    ensures parts == parts[..i] + ([parts[i], parts[i + 1]] + parts[i + 2..])
    ensures Join(parts, i) == parts[..i] + ([parts[i] + parts[i + 1]] + parts[i + 2..])
  {
  }

  lemma JoinKeeps(parts: seq<Bytes>, i: nat)
    requires i + 1 < |parts|
    ensures Concat(Join(parts, i)) == Concat(parts)
  {
    var x, y, rest := parts[i], parts[i + 1], parts[i + 2..];
    PairAround(parts, i);
    ConcatPair(x, y, rest);
    ConcatAround(parts[..i], [x, y] + rest, [x + y] + rest);
  }

  predicate BelowLimit(rank: int, limit: Option<int>) { limit.None? || rank < limit.value }

  // A part is a byte, or a token that ranks below the limit.
  predicate Allowed(ranks: map<Bytes, int>, part: Bytes, limit: Option<int>) {
    |part| == 1 || (|part| > 1 && part in ranks && BelowLimit(ranks[part], limit))
  }

  predicate AllAllowed(ranks: map<Bytes, int>, parts: seq<Bytes>, limit: Option<int>) {
    forall i :: 0 <= i < |parts| ==> Allowed(ranks, parts[i], limit)
  }

  // No two neighbours could still be merged.
  ghost predicate Settled(ranks: map<Bytes, int>, parts: seq<Bytes>, limit: Option<int>) {
    forall i: nat :: Ranked(ranks, parts, i) ==> !BelowLimit(PairRank(ranks, parts, i), limit)
  }

  lemma {:induction false} MergedParts(ranks: map<Bytes, int>, parts: seq<Bytes>, limit: Option<int>)
    requires AllAllowed(ranks, parts, limit)
    ensures var r := Merged(ranks, parts, limit);
            Concat(r) == Concat(parts) && AllAllowed(ranks, r, limit) && Settled(ranks, r, limit)
    decreases |parts|
  {
    var r := Next(ranks, parts, limit);
    if r.Some? {
      JoinKeeps(parts, r.value);
      MergedParts(ranks, Join(parts, r.value), limit);
    }
  }

  /** The parts make up the token; each is one byte or a token ranked below the limit; and no
      neighbours make up such a token. */
  lemma BytePairsParts(ranks: map<Bytes, int>, token: Bytes, limit: Option<int>)
    ensures var r := Merged(ranks, Singles(token), limit);
            Concat(r) == token && AllAllowed(ranks, r, limit) && Settled(ranks, r, limit)
  {
    ConcatSingles(token);
    MergedParts(ranks, Singles(token), limit);
  }

  lemma AtMostOne(parts: seq<Bytes>)
    ensures |parts| <= 1 ==> Concat(parts) == if parts == [] then [] else parts[0]
  {
    if |parts| == 1 { assert parts[0] + Concat(parts[1..]) == parts[0]; }
  }

  /** With the token's own rank as the limit, it is never merged into one part. */
  lemma AtLeastTwo(ranks: map<Bytes, int>, token: Bytes)
    requires |token| >= 2 && token in ranks
    ensures |Merged(ranks, Singles(token), Some(ranks[token]))| >= 2
  {
    var r := Merged(ranks, Singles(token), Some(ranks[token]));
    BytePairsParts(ranks, token, Some(ranks[token]));
    AtMostOne(r);
  }

  // ----- every merge is the leftmost of least rank -----

  // One merge: of the leftmost pair of least rank, which is below the limit.
  predicate MergesAt(ranks: map<Bytes, int>, p: seq<Bytes>, q: seq<Bytes>, limit: Option<int>, i: nat) {
    && i + 1 < |p| && IsLeast(ranks, p, |p|, i) && BelowLimit(PairRank(ranks, p, i), limit)
    && q == p[..i] + [p[i] + p[i + 1]] + p[i + 2..]
  }

  ghost predicate Merges(ranks: map<Bytes, int>, p: seq<Bytes>, q: seq<Bytes>, limit: Option<int>) {
    exists i: nat :: MergesAt(ranks, p, q, limit, i)
  }

  // The parts after each merge, from p on.
  ghost predicate IsTrace(ranks: map<Bytes, int>, trace: seq<seq<Bytes>>, limit: Option<int>) {
    && trace != []
    && (forall j :: 0 <= j < |trace| - 1 ==> Merges(ranks, trace[j], trace[j + 1], limit))
    && Settled(ranks, trace[|trace| - 1], limit)
  }

  lemma {:induction false} MergedTrace(ranks: map<Bytes, int>, parts: seq<Bytes>, limit: Option<int>) returns (trace: seq<seq<Bytes>>)
    ensures IsTrace(ranks, trace, limit) && trace[0] == parts && trace[|trace| - 1] == Merged(ranks, parts, limit)
    decreases |parts|
  {
    var r := Least(ranks, parts, |parts|);
    if r.None? || !BelowLimit(PairRank(ranks, parts, r.value), limit) {
      trace := [parts];
    } else {
      var rest := MergedTrace(ranks, Join(parts, r.value), limit);
      trace := [parts] + rest;
      assert MergesAt(ranks, parts, rest[0], limit, r.value);
      forall j | 0 <= j < |trace| - 1
        ensures Merges(ranks, trace[j], trace[j + 1], limit)
      {
        if j > 0 { assert Merges(ranks, rest[j - 1], rest[j], limit); }
      }
      assert trace[|trace| - 1] == rest[|rest| - 1];
    }
  }

  lemma OneMerge(ranks: map<Bytes, int>, p: seq<Bytes>, q: seq<Bytes>, limit: Option<int>)
    requires Merges(ranks, p, q, limit)
    ensures Merged(ranks, p, limit) == Merged(ranks, q, limit)
  {
    var i: nat :| MergesAt(ranks, p, q, limit, i);
    LeastIsUnique(ranks, p, |p|, i);
    assert q == Join(p, i);
  }

  /** The result is where a sequence of such merges from the single bytes ends, and any such sequence
      that cannot go on ends there. */
  lemma {:induction false} TracesEndThere(ranks: map<Bytes, int>, trace: seq<seq<Bytes>>, limit: Option<int>)
    requires IsTrace(ranks, trace, limit)
    ensures trace[|trace| - 1] == Merged(ranks, trace[0], limit)
    decreases |trace|
  {
    if |trace| == 1 {
      var r := Least(ranks, trace[0], |trace[0]|);
      assert r.Some? ==> Ranked(ranks, trace[0], r.value);
    } else {
      assert Merges(ranks, trace[0], trace[1], limit);
      OneMerge(ranks, trace[0], trace[1], limit);
      var rest := trace[1..];
      forall j | 0 <= j < |rest| - 1
        ensures Merges(ranks, rest[j], rest[j + 1], limit)
      {
        assert Merges(ranks, trace[j + 1], trace[j + 2], limit);
      }
      TracesEndThere(ranks, rest, limit);
    }
  }

  lemma BytePairsTrace(ranks: map<Bytes, int>, token: Bytes, limit: Option<int>) returns (trace: seq<seq<Bytes>>)
    ensures IsTrace(ranks, trace, limit) && trace[0] == Singles(token)
    ensures trace[|trace| - 1] == Merged(ranks, Singles(token), limit)
  {
    trace := MergedTrace(ranks, Singles(token), limit);
  }

  // ----- when there are exactly two, as the vocabulary loader asserts -----

  // The ranks of the merges, in order, of the run without a limit.
  function Ranks(ranks: map<Bytes, int>, parts: seq<Bytes>): seq<int>
    decreases |parts|
  {
    var r := Next(ranks, parts, None);
    if r.None? then [] else [PairRank(ranks, parts, r.value)] + Ranks(ranks, Join(parts, r.value))
  }

  predicate AllBelow(s: seq<int>, n: int) { forall i :: 0 <= i < |s| ==> s[i] < n }

  // The run without a limit ends in one part, and only its last merge ranks as high as the limit.
  predicate BuiltBelow(ranks: map<Bytes, int>, parts: seq<Bytes>, limit: int) {
    && |Merged(ranks, parts, None)| == 1
    && Ranks(ranks, parts) != []
    && AllBelow(Ranks(ranks, parts)[..|Ranks(ranks, parts)| - 1], limit)
  }

  lemma {:induction false} MergesCounted(ranks: map<Bytes, int>, parts: seq<Bytes>)
    ensures |Ranks(ranks, parts)| == |parts| - |Merged(ranks, parts, None)|
    decreases |parts|
  {
    var r := Next(ranks, parts, None);
    if r.Some? { MergesCounted(ranks, Join(parts, r.value)); }
  }

  lemma BuiltStep(ranks: map<Bytes, int>, parts: seq<Bytes>, limit: int, i: nat)
    requires Next(ranks, parts, None) == Some(i) && |parts| > 2
    ensures BuiltBelow(ranks, parts, limit) <==> PairRank(ranks, parts, i) < limit && BuiltBelow(ranks, Join(parts, i), limit)
  {
    var k, t := PairRank(ranks, parts, i), Ranks(ranks, Join(parts, i));
    assert Ranks(ranks, parts) == [k] + t;
    MergesCounted(ranks, Join(parts, i));
    if t != [] {
      assert ([k] + t)[..|t|] == [k] + t[..|t| - 1];
      AllBelowCons(k, t[..|t| - 1], limit);
    }
  }

  lemma AllBelowCons(k: int, s: seq<int>, n: int)
    ensures AllBelow([k] + s, n) <==> k < n && AllBelow(s, n)
  {
    if AllBelow([k] + s, n) {
      assert ([k] + s)[0] == k;
      assert forall i :: 0 <= i < |s| ==> s[i] == ([k] + s)[i + 1];
    }
  }

  // Two parts are the token, whose rank is the limit.
  lemma TwoParts(ranks: map<Bytes, int>, parts: seq<Bytes>, token: Bytes)
    requires |parts| == 2 && token in ranks && Concat(parts) == token
    ensures Next(ranks, parts, None) == Some(0) && Next(ranks, parts, Some(ranks[token])).None?
    ensures BuiltBelow(ranks, parts, ranks[token])
  {
    assert Concat(parts) == parts[0] + Concat(parts[1..]) && Concat(parts[1..]) == parts[1] + Concat(parts[2..]) == parts[1];
    assert Ranked(ranks, parts, 0);
    assert Least(ranks, parts, 2) == Some(0);
    var one := Join(parts, 0);
    assert Next(ranks, one, None).None?;
  }

  lemma {:induction false} TwoIffBuilt(ranks: map<Bytes, int>, parts: seq<Bytes>, token: Bytes)
    requires token in ranks && Concat(parts) == token && |parts| >= 2
    ensures |Merged(ranks, parts, Some(ranks[token]))| == 2 <==> BuiltBelow(ranks, parts, ranks[token])
    decreases |parts|
  {
    var r := Next(ranks, parts, None);
    if |parts| == 2 {
      TwoParts(ranks, parts, token);
    } else if r.Some? {
      BuiltStep(ranks, parts, ranks[token], r.value);
      JoinKeeps(parts, r.value);
      if PairRank(ranks, parts, r.value) < ranks[token] {
        TwoIffBuilt(ranks, Join(parts, r.value), token);
      }
    }
  }

  /** The loader's assertion holds exactly when the token is built from its bytes by merges that
      rank below it, up to the last one. */
  lemma ExactlyTwoIff(ranks: map<Bytes, int>, token: Bytes)
    requires |token| >= 2 && token in ranks
    ensures |Merged(ranks, Singles(token), Some(ranks[token]))| == 2 <==> BuiltBelow(ranks, Singles(token), ranks[token])
  {
    ConcatSingles(token);
    TwoIffBuilt(ranks, Singles(token), token);
  }

  // A table for which it does not hold: all single bytes are ranked, and a token of three bytes,
  // but neither of the pairs in it.
  lemma ThreeParts(ranks: map<Bytes, int>, token: Bytes)
    requires |token| == 3 && token in ranks
    requires forall t :: t in ranks <==> |t| == 1 || t == token
    ensures |Merged(ranks, Singles(token), Some(ranks[token]))| == 3
    ensures !BuiltBelow(ranks, Singles(token), ranks[token])
  {
    assert forall j: nat :: j < 3 ==> !Ranked(ranks, Singles(token), j);
    ExactlyTwoIff(ranks, token);
  }

  // There is one: the 256 bytes ranked by value, and the token after them.
  lemma ByteTable(token: Bytes) returns (ranks: map<Bytes, int>)
    requires |token| == 3
    ensures token in ranks && ranks[token] == 256
    ensures forall t :: t in ranks <==> |t| == 1 || t == token
    ensures forall t :: t in ranks && |t| == 1 ==> ranks[t] == t[0]
  {
    ranks := map i: int | 0 <= i < 256 :: [i] := i;
    forall t: Bytes
      ensures t in ranks <==> |t| == 1
    {
      if |t| == 1 { assert t == [t[0]]; }
    }
    ranks := ranks[token := 256];
  }
}
