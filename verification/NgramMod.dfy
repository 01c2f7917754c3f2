/** The lossy n-gram table of common/ngram-mod.cpp. */
module NgramMod {

  newtype int32 = x: int | -0x8000_0000 <= x < 0x8000_0000

  const Empty: int32 := -1

  // ----- the hash -----

  const Multiplier: nat := 6364136223846793005

  const Modulus: nat := 0x1_0000_0000_0000_0000

  // One round in 64-bit unsigned arithmetic; the token is sign-extended.
  function Round(h: nat, token: int32): (r: nat)
    ensures r < Modulus
  {
    (h * Multiplier + token as int) % Modulus
  }

  function Hash(tokens: seq<int32>): nat {
    if tokens == [] then 0 else Round(Hash(tokens[..|tokens| - 1]), tokens[|tokens| - 1])
  }

  // The same without wrapping: the tokens as the digits of a number.
  function Digits(tokens: seq<int32>): int {
    if tokens == [] then 0 else Digits(tokens[..|tokens| - 1]) * Multiplier + tokens[|tokens| - 1] as int
  }

  /** Wrapping at every round gives the number modulo 2^64. */
  lemma {:induction false} HashWraps(tokens: seq<int32>)
    ensures Hash(tokens) == Digits(tokens) % Modulus
  {
    if tokens != [] {
      var front := tokens[..|tokens| - 1];
      HashWraps(front);
      WrapOnce(Digits(front), tokens[|tokens| - 1] as int);
    }
  }

  lemma WrapOnce(x: int, t: int)
    ensures (x % Modulus * Multiplier + t) % Modulus == (x * Multiplier + t) % Modulus
  {
    var q := x / Modulus;
    assert x == q * Modulus + x % Modulus;
    Multiples(x % Modulus * Multiplier + t, q * Multiplier);
  }

  lemma Multiples(y: int, k: int)
    ensures (y + k * Modulus) % Modulus == y % Modulus
  {
  }

  // Two tokens: the first times the multiplier, and the second; a token of -1 wraps around.
  lemma HashOfTwo()
    ensures Hash([1, 2]) == 6364136223846793007 && Hash([-1]) == 0xffff_ffff_ffff_ffff
  {
    assert [1 as int32, 2][..1] == [1] && [1 as int32][..0] == [] && [-1 as int32][..0] == [];
    assert Hash([1]) == Round(Hash([]), 1) && Hash([1, 2]) == Round(Hash([1]), 2) && Hash([-1]) == Round(Hash([]), -1);
  }

  function Slot(tokens: seq<int32>, size: nat): (i: nat)
    requires size > 0
    ensures i < size
  {
    Hash(tokens) % size
  }

  // ----- the simple model: the writes since the last reset -----

  datatype Write = Write(slot: nat, token: int32)

  // What the last write to a slot stored.
  function LastWrite(writes: seq<Write>, i: nat): int32 {
    if writes == [] then Empty
    else if writes[|writes| - 1].slot == i then writes[|writes| - 1].token
    else LastWrite(writes[..|writes| - 1], i)
  }

  function Table(writes: seq<Write>, size: nat): (t: seq<int32>)
    ensures |t| == size && forall i :: 0 <= i < size ==> t[i] == LastWrite(writes, i)
  {
    seq(size, i requires 0 <= i < size => LastWrite(writes, i))
  }

  function NonEmpty(t: seq<int32>): nat {
    if t == [] then 0 else NonEmpty(t[..|t| - 1]) + if t[|t| - 1] == Empty then 0 else 1
  }

  // The writes that stored the mark of an empty slot.
  function EmptyWrites(writes: seq<Write>): nat {
    if writes == [] then 0 else EmptyWrites(writes[..|writes| - 1]) + if writes[|writes| - 1].token == Empty then 1 else 0
  }

  // The counter: it grows with every write to a slot that then holds the mark.
  function Used(writes: seq<Write>): nat {
    if writes == [] then 0
    else
      var w := writes[|writes| - 1];
      Used(writes[..|writes| - 1]) + if LastWrite(writes[..|writes| - 1], w.slot) == Empty then 1 else 0
  }

  /** A slot that no write went to holds the mark, -1. */
  lemma {:induction false} NeverWritten(writes: seq<Write>, i: nat)
    requires forall k :: 0 <= k < |writes| ==> writes[k].slot != i
    ensures LastWrite(writes, i) == -1
  {
    if writes != [] { NeverWritten(writes[..|writes| - 1], i); }
  }

  lemma WriteLast(writes: seq<Write>, w: Write, i: nat)
    ensures LastWrite(writes + [w], i) == if w.slot == i then w.token else LastWrite(writes, i)
  {
    assert (writes + [w])[..|writes|] == writes;
  }

  lemma WriteTable(writes: seq<Write>, w: Write, size: nat)
    requires w.slot < size
    ensures Table(writes + [w], size) == Table(writes, size)[w.slot := w.token]
  {
    forall i | 0 <= i < size
      ensures Table(writes + [w], size)[i] == Table(writes, size)[w.slot := w.token][i]
    {
      WriteLast(writes, w, i);
    }
  }

  function One(x: int32): nat { if x == Empty then 0 else 1 }

  lemma {:induction false} NonEmptyUpdate(t: seq<int32>, i: nat, x: int32)
    requires i < |t|
    ensures NonEmpty(t[i := x]) + One(t[i]) == NonEmpty(t) + One(x)
    decreases |t|
  {
    if i == |t| - 1 {
      assert t[i := x][..i] == t[..i];
    } else {
      assert t[i := x][..|t| - 1] == t[..|t| - 1][i := x];
      NonEmptyUpdate(t[..|t| - 1], i, x);
    }
  }

  lemma {:induction false} NoneWritten(size: nat)
    ensures NonEmpty(Table([], size)) == 0
  {
    if size > 0 {
      assert Table([], size)[..size - 1] == Table([], size - 1);
      NoneWritten(size - 1);
    }
  }

  /** The counter is the number of slots in use and of writes that stored the mark of an empty slot. */
  lemma {:induction false} UsedExactly(writes: seq<Write>, size: nat)
    requires forall k :: 0 <= k < |writes| ==> writes[k].slot < size
    ensures Used(writes) == NonEmpty(Table(writes, size)) + EmptyWrites(writes)
  {
    if writes == [] {
      NoneWritten(size);
    } else {
      var before, w := writes[..|writes| - 1], writes[|writes| - 1];
      UsedExactly(before, size);
      assert writes == before + [w];
      WriteTable(before, w, size);
      NonEmptyUpdate(Table(before, size), w.slot, w.token);
    }
  }

  // So it is the number of slots in use exactly when no write stored the mark.
  lemma {:induction false} UsedIff(writes: seq<Write>, size: nat)
    requires forall k :: 0 <= k < |writes| ==> writes[k].slot < size
    ensures Used(writes) == NonEmpty(Table(writes, size)) <==> forall k :: 0 <= k < |writes| ==> writes[k].token != Empty
  {
    UsedExactly(writes, size);
    NoEmptyWrites(writes);
  }

  // One -1 stored in a table of one slot: the counter says one, and no slot is in use.
  lemma StoredEmptyCounts()
    ensures Used([Write(0, Empty)]) == 1 && NonEmpty(Table([Write(0, Empty)], 1)) == 0
  {
    var w := Write(0, Empty);
    assert [w][..0] == [] && Table([w], 1) == [Empty] && [Empty][..0] == [];
    assert NonEmpty([Empty]) == NonEmpty([]) + 0;
  }

  lemma {:induction false} NoEmptyWrites(writes: seq<Write>)
    ensures EmptyWrites(writes) == 0 <==> forall k :: 0 <= k < |writes| ==> writes[k].token != Empty
  {
    if writes != [] {
      var before, w := writes[..|writes| - 1], writes[|writes| - 1];
      NoEmptyWrites(before);
      assert forall k :: 0 <= k < |before| ==> before[k] == writes[k];
      assert writes[|writes| - 1] == w;
    }
  }

  // ----- the table -----

  class NgramTable {
    const n: nat
    var used: nat
    const entries: array<int32>
    // The writes since the last reset.
    ghost var writes: seq<Write>

    ghost predicate Valid()
      reads this, entries
    {
      && entries[..] == Table(writes, entries.Length)
      && used == Used(writes)
      && forall k :: 0 <= k < |writes| ==> writes[k].slot < entries.Length
    }

    constructor (n: nat, size: nat)
      ensures Valid() && writes == [] && this.n == n && entries.Length == size && fresh(entries)
    {
      this.n := n;
      entries := new int32[size](_ => Empty);
      used := 0;
      writes := [];
    }

    method Idx(tokens: seq<int32>) returns (i: nat)
      requires |tokens| >= n && entries.Length > 0
      ensures i == Slot(tokens[..n], entries.Length)
    {
      var res := 0;
      var k := 0;
      while k < n
        invariant 0 <= k <= n && res == Hash(tokens[..k])
      {
        assert tokens[..k + 1][..k] == tokens[..k];
        res := (res * Multiplier + tokens[k] as int) % Modulus;
        k := k + 1;
      }
      i := res % entries.Length;
    }

    method Add(tokens: seq<int32>)
      requires Valid() && |tokens| > n && entries.Length > 0
      modifies this, entries
      ensures Valid() && writes == old(writes) + [Write(Slot(tokens[..n], entries.Length), tokens[n])]
    {
      var i := Idx(tokens);
      ghost var w := Write(i, tokens[n]);
      WriteTable(writes, w, entries.Length);
      assert entries[i] == entries[..][i] == LastWrite(writes, i);
      assert (writes + [w])[..|writes|] == writes;
      if entries[i] == Empty {
        used := used + 1;
      }
      entries[i] := tokens[n];
      writes := writes + [w];
    }

    /** What the last write since reset to the same slot stored. */
    method Get(tokens: seq<int32>) returns (token: int32)
      requires Valid() && |tokens| >= n && entries.Length > 0
      ensures token == LastWrite(writes, Slot(tokens[..n], entries.Length))
      ensures (forall k :: 0 <= k < |writes| ==> writes[k].slot != Slot(tokens[..n], entries.Length)) ==> token == -1
    {
      var i := Idx(tokens);
      token := entries[i];
      assert token == entries[..][i];
      if forall k :: 0 <= k < |writes| ==> writes[k].slot != i { NeverWritten(writes, i); }
    }

    method Reset()
      requires Valid()
      modifies this, entries
      ensures Valid() && writes == []
    {
      var i := 0;
      while i < entries.Length
        invariant 0 <= i <= entries.Length && forall j :: 0 <= j < i ==> entries[j] == Empty
      {
        entries[i] := Empty;
        i := i + 1;
      }
      used := 0;
      writes := [];
    }

    method GetUsed() returns (r: nat)
      requires Valid()
      ensures r == NonEmpty(entries[..]) + EmptyWrites(writes)
    {
      UsedExactly(writes, entries.Length);
      r := used;
    }
  }
}
