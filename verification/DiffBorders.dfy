/** Where the differential split cuts: what both texts share is moved out of the difference, by
    segments and then by characters, and when a marker is cut in two. */
module DiffBorders {
  import opened DiffSplit

  // ----- what the segments are -----

  predicate Plain(t: string) { forall i :: 0 <= i < |t| ==> !IsOpener(t[i]) }

  // From an opening bracket to the first that closes it.
  predicate IsMarker(t: string) {
    && |t| >= 2 && IsOpener(t[0]) && Closes(t[0], t[|t| - 1])
    && forall i :: 0 < i < |t| - 1 ==> !Closes(t[0], t[i])
  }

  // An opening bracket that is never closed.
  predicate IsOpenTail(t: string) { t != "" && IsOpener(t[0]) && forall i :: 0 < i < |t| ==> !Closes(t[0], t[i]) }

  // A marker; plain text that is not followed by more text; or an open tail, at the end.
  predicate SegmentIs(segs: seq<Segment>, k: nat)
    requires k < |segs|
  {
    var v := segs[k].value;
    if segs[k].kind.MARKER? then IsMarker(v)
    else v != "" && if IsOpener(v[0]) then IsOpenTail(v) && k == |segs| - 1
                    else Plain(v) && (k + 1 < |segs| ==> segs[k + 1].value != "" && IsOpener(segs[k + 1].value[0]))
  }

  predicate AllAre(s: seq<Segment>) { forall k :: 0 <= k < |s| ==> SegmentIs(s, k) }

  /** The segments are the markers, the text between them, and a tail that is left open. */
  lemma {:induction false} SegmentsAre(t: string, i: nat)
    requires i <= |t|
    ensures forall k :: 0 <= k < |SegmentsFrom(t, i)| ==> SegmentIs(SegmentsFrom(t, i), k)
    decreases |t| - i
  {
    if i < |t| {
      var (end, kind) := SegmentEnd(t, i);
      var first, rest := Segment(kind, t[i..end]), SegmentsFrom(t, end);
      SegmentsAre(t, end);
      FirstSegment(t, i);
      forall k | 0 <= k < 1 + |rest|
        ensures SegmentIs([first] + rest, k)
      {
        if k > 0 {
          assert SegmentIs(rest, k - 1);
          assert ([first] + rest)[k] == rest[k - 1];
        }
      }
    }
  }

  lemma FirstSegment(t: string, i: nat)
    requires i < |t|
    ensures SegmentIs(SegmentsFrom(t, i), 0)
  {
    var (end, kind) := SegmentEnd(t, i);
    var v := t[i..end];
    assert forall j :: 0 <= j < |v| ==> v[j] == t[i + j];
    if end < |t| {
      var (end2, kind2) := SegmentEnd(t, end);
      assert t[end..end2][0] == t[end];
    }
  }

  // ----- reading a text bracket by bracket -----

  datatype Scan = Closed | Opened(op: char)

  function Next(s: Scan, c: char): Scan {
    match s
    case Closed => if IsOpener(c) then Opened(c) else Closed
    case Opened(op) => if Closes(op, c) then Closed else s
  }

  function Read(s: Scan, t: string): Scan
    decreases |t|
  {
    if t == "" then s else Read(Next(s, t[0]), t[1..])
  }

  // The text does not end inside a marker.
  predicate Whole(t: string) { Read(Closed, t) == Closed }

  lemma {:induction false} ScanConcat(s: Scan, a: string, b: string)
    ensures Read(s, a + b) == Read(Read(s, a), b)
    decreases |a|
  {
    if a == "" {
      assert a + b == b;
    } else {
      assert (a + b)[1..] == a[1..] + b;
      ScanConcat(Next(s, a[0]), a[1..], b);
    }
  }

  lemma {:induction false} ScanPlain(t: string)
    requires Plain(t)
    ensures Whole(t)
  {
    if t != "" { ScanPlain(t[1..]); }
  }

  // Inside a marker nothing closes.
  lemma {:induction false} ScanOpen(op: char, t: string)
    requires forall i :: 0 <= i < |t| ==> !Closes(op, t[i])
    ensures Read(Opened(op), t) == Opened(op)
  {
    if t != "" { ScanOpen(op, t[1..]); }
  }

  // A marker is open until its last character.
  lemma ScanMarker(v: string)
    requires IsMarker(v)
    ensures Whole(v) && Read(Closed, v[..|v| - 1]).Opened?
  {
    var body := v[1..|v| - 1];
    ScanOpen(v[0], body);
    assert v[..|v| - 1][1..] == body;
    assert v == v[..|v| - 1] + [v[|v| - 1]];
    ScanConcat(Closed, v[..|v| - 1], [v[|v| - 1]]);
    assert [v[|v| - 1]][1..] == "";
  }

  // A sequence of markers and plain text.
  predicate Good(segs: seq<Segment>) {
    forall k :: 0 <= k < |segs| ==> if segs[k].kind.MARKER? then IsMarker(segs[k].value) else Plain(segs[k].value)
  }

  lemma {:induction false} GoodIsWhole(segs: seq<Segment>)
    requires Good(segs)
    ensures Whole(Concat(segs))
  {
    if segs != [] {
      var v := segs[0].value;
      if segs[0].kind.MARKER? { ScanMarker(v); } else { ScanPlain(v); }
      GoodIsWhole(segs[1..]);
      ScanConcat(Closed, v, Concat(segs[1..]));
    }
  }

  // A text that does not end inside a marker has no open tail.
  lemma WholeIsGood(t: string)
    requires Whole(t)
    ensures Good(Segments(t)) && Concat(Segments(t)) == t
    ensures forall k :: 0 <= k < |Segments(t)| ==> SegmentIs(Segments(t), k)
  {
    var segs := Segments(t);
    SegmentsAre(t, 0);
    SegmentsConcat(t, 0);
    assert t[0..] == t;
    forall k | 0 <= k < |segs|
      ensures if segs[k].kind.MARKER? then IsMarker(segs[k].value) else Plain(segs[k].value)
    {
      assert SegmentIs(segs, k);
      if segs[k].kind.TEXT? && IsOpener(segs[k].value[0]) { OpenTailLast(segs, k); }
    }
  }

  lemma OpenTailLast(segs: seq<Segment>, k: nat)
    requires k < |segs| && (forall j :: 0 <= j < |segs| ==> SegmentIs(segs, j)) && segs[k].kind.TEXT?
    requires segs[k].value != "" && IsOpener(segs[k].value[0])
    ensures !Whole(Concat(segs))
  {
    var front := segs[..k];
    assert SegmentIs(segs, k);
    FrontIsGood(segs, k);
    GoodIsWhole(front);
    LastConcat(segs, k);
    OpenTailOpens(segs[k].value);
    ScanConcat(Closed, Concat(front), segs[k].value);
  }

  lemma FrontIsGood(segs: seq<Segment>, k: nat)
    requires k == |segs| - 1 && forall j :: 0 <= j < |segs| ==> SegmentIs(segs, j)
    ensures Good(segs[..k])
  {
    forall j | 0 <= j < k
      ensures if segs[j].kind.MARKER? then IsMarker(segs[j].value) else Plain(segs[j].value)
    {
      assert SegmentIs(segs, j);
    }
  }

  lemma LastConcat(segs: seq<Segment>, k: nat)
    requires k == |segs| - 1
    ensures Concat(segs) == Concat(segs[..k]) + segs[k].value
  {
    assert segs == segs[..k] + [segs[k]];
    ConcatAppend(segs[..k], [segs[k]]);
    ConcatOne(segs[k]);
  }

  lemma OpenTailOpens(v: string)
    requires IsOpenTail(v)
    ensures Read(Closed, v).Opened?
  {
    assert forall i :: 0 <= i < |v[1..]| ==> v[1..][i] == v[i + 1];
    ScanOpen(v[0], v[1..]);
  }

  // ----- what the matching leaves -----

  // Neither side is used up: the segments before and after are the same on both sides.
  predicate Shared(l: seq<Segment>, r: seq<Segment>, m: Match)
    requires InRange(l, r, m)
  {
    && m.ls == m.rs && l[..m.ls] == r[..m.rs] && m.prefix == Concat(l[..m.ls])
    && |l| - m.le == |r| - m.re && l[m.le + 1..] == r[m.re + 1..] && m.suffix == Concat(l[m.le + 1..])
  }

  lemma {:induction false} MatchedShares(l: seq<Segment>, r: seq<Segment>, m: Match)
    requires InRange(l, r, m) && MatchInv(l, r, m) && !m.leftUsed && !m.rightUsed && Shared(l, r, m)
    ensures var e := Matched(l, r, m);
            !e.leftUsed && !e.rightUsed ==>
              && Shared(l, r, e)
              && (e.ls == e.le || e.rs == e.re || (l[e.ls] != r[e.rs] && l[e.le] != r[e.re]))
    decreases m.le - m.ls + m.re - m.rs
  {
    if m.ls == m.le || m.rs == m.re || (l[m.ls] != r[m.rs] && l[m.le] != r[m.re]) {
    } else {
      var f := TakeFront(l, r, m);
      FrontShares(l, r, m);
      FrontKeeps(l, r, m);
      var n := TakeBack(l, r, f);
      BackKeeps(l, r, f);
      if n.leftUsed || n.rightUsed {
        UsedStays(l, r, n);
      } else {
        BackShares(l, r, f);
        MatchedShares(l, r, n);
      }
    }
  }

  lemma OneMore(l: seq<Segment>, r: seq<Segment>, i: nat)
    requires i < |l| && i < |r| && l[..i] == r[..i] && l[i] == r[i]
    ensures l[..i + 1] == r[..i + 1] && Concat(l[..i + 1]) == Concat(l[..i]) + l[i].value
  {
    ConcatSnoc(l, i);
    assert l[..i + 1] == l[..i] + [l[i]] && r[..i + 1] == r[..i] + [r[i]];
  }

  lemma FrontShares(l: seq<Segment>, r: seq<Segment>, m: Match)
    requires InRange(l, r, m) && Shared(l, r, m) && m.ls < m.le && m.rs < m.re
    ensures var f := TakeFront(l, r, m); InRange(l, r, f) && Shared(l, r, f) && f.leftUsed == m.leftUsed && f.rightUsed == m.rightUsed
  {
    if l[m.ls] == r[m.rs] { OneMore(l, r, m.ls); }
  }

  lemma OneMoreBack(l: seq<Segment>, r: seq<Segment>, i: nat, j: nat)
    requires i < |l| && j < |r| && l[i + 1..] == r[j + 1..] && l[i] == r[j]
    ensures l[i..] == r[j..] && Concat(l[i..]) == l[i].value + Concat(l[i + 1..])
  {
    ConcatSnoc(l, i);
    assert l[i..] == [l[i]] + l[i + 1..] && r[j..] == [r[j]] + r[j + 1..];
  }

  lemma BackShares(l: seq<Segment>, r: seq<Segment>, m: Match)
    requires InRange(l, r, m) && Shared(l, r, m) && !m.leftUsed && !m.rightUsed
    requires !TakeBack(l, r, m).leftUsed && !TakeBack(l, r, m).rightUsed
    ensures var n := TakeBack(l, r, m); InRange(l, r, n) && Shared(l, r, n)
  {
    if l[m.le] == r[m.re] { OneMoreBack(l, r, m.le, m.re); }
  }

  // A side that is used up stays so.
  lemma {:induction false} UsedStays(l: seq<Segment>, r: seq<Segment>, m: Match)
    requires InRange(l, r, m) && MatchInv(l, r, m) && (m.leftUsed || m.rightUsed)
    ensures Matched(l, r, m) == m
  {
  }

  function EndOf(left: string, right: string): (e: Match)
    requires Segments(left) != [] && Segments(right) != []
    ensures InRange(Segments(left), Segments(right), e)
  {
    var l, r := Segments(left), Segments(right);
    Finish(l, r, Matched(l, r, Begin(l, r)))
  }

  // The end of the matching, when neither side is used up.
  lemma EndShares(left: string, right: string)
    requires Segments(left) != [] && Segments(right) != []
    ensures var l, r, e := Segments(left), Segments(right), EndOf(left, right);
            !e.leftUsed && !e.rightUsed ==> Shared(l, r, e) && Stopped(l, r, e)
  {
    var l, r := Segments(left), Segments(right);
    StartInv(l, r);
    StartShares(l, r);
    MatchedShares(l, r, Begin(l, r));
    FinishUnused(l, r, Matched(l, r, Begin(l, r)));
  }

  // Nothing more could be taken: one segment each, or other segments at both ends.
  predicate Stopped(l: seq<Segment>, r: seq<Segment>, e: Match)
    requires InRange(l, r, e)
  {
    || (e.ls == e.le && e.rs == e.re && (l[e.ls] == r[e.rs] ==> l[e.ls].kind.TEXT?))
    || (l[e.ls] != r[e.rs] && l[e.le] != r[e.re])
  }

  lemma StartShares(l: seq<Segment>, r: seq<Segment>)
    requires l != [] && r != []
    ensures Shared(l, r, Begin(l, r))
  {
    assert l[..0] == [] && r[..0] == [] && l[|l|..] == [] && r[|r|..] == [];
  }

  lemma FinishUnused(l: seq<Segment>, r: seq<Segment>, m: Match)
    requires InRange(l, r, m)
    ensures var e := Finish(l, r, m);
            !e.leftUsed && !e.rightUsed ==>
              e == m && !LastLeft(l, r, m) && !LastRight(l, r, m) && !LastBoth(l, r, m)
  {
  }

  // ----- the difference is as small as the segments and characters allow -----

  // What is cut from the leftovers of both sides.
  predicate IsCut(d: Diff, prefix: string, suffix: string, a: string, b: string, k: nat, n: nat) {
    && k + n <= |a| && k + n <= |b| && a[..k] == b[..k] && a[|a| - n..] == b[|b| - n..]
    && d == Diff(prefix + a[..k], a[|a| - n..] + suffix, a[k..|a| - n], b[k..|b| - n])
  }

  // Used up or not, the leftovers and what is cut from them.
  lemma SplitCut(prefix: string, suffix: string, a: string, b: string, suffixes: bool, prefixes: bool) returns (k: nat, n: nat)
    ensures IsCut(SplitTexts(prefix, suffix, a, b, suffixes, prefixes), prefix, suffix, a, b, k, n)
    ensures Longest(a, b, k, n, prefixes, suffixes)
  {
    n := if suffixes then CommonSuffixLen(a, b) else 0;
    k := if prefixes then CommonPrefixLen(a[..|a| - n], b[..|b| - n]) else 0;
    SharedEnds(a, b, n, k);
    CutsLongest(a, b, k, n, prefixes, suffixes);
  }

  // The longest common end, and the longest common beginning of what is before it.
  predicate Longest(a: string, b: string, k: nat, n: nat, prefixes: bool, suffixes: bool) {
    && k + n <= |a| && k + n <= |b|
    && (if suffixes then n < |a| && n < |b| ==> a[|a| - 1 - n] != b[|b| - 1 - n] else n == 0)
    && (if prefixes then k < |a| - n && k < |b| - n ==> a[k] != b[k] else k == 0)
  }

  lemma CutsLongest(a: string, b: string, k: nat, n: nat, prefixes: bool, suffixes: bool)
    requires n == if suffixes then CommonSuffixLen(a, b) else 0
    requires k == if prefixes then CommonPrefixLen(a[..|a| - n], b[..|b| - n]) else 0
    ensures Longest(a, b, k, n, prefixes, suffixes)
  {
    if suffixes && n < |a| && n < |b| { assert FromEnd(a, n) != FromEnd(b, n); }
  }

  function LeftOver(s: seq<Segment>, from: nat, end: nat, used: bool): string
    requires from <= end < |s|
  {
    Concat(Rest(s, from, end, used))
  }

  lemma TextsCut(l: seq<Segment>, r: seq<Segment>, e: Match) returns (k: nat, n: nat)
    requires InRange(l, r, e)
    ensures var a, b := LeftOver(l, e.ls, e.le, e.leftUsed), LeftOver(r, e.rs, e.re, e.rightUsed);
            && IsCut(Texts(l, r, e), e.prefix, e.suffix, a, b, k, n)
            && Longest(a, b, k, n, l[e.ls].kind.TEXT? && r[e.rs].kind.TEXT?, l[e.le].kind.TEXT? && r[e.re].kind.TEXT?)
  {
    k, n := SplitCut(e.prefix, e.suffix, LeftOver(l, e.ls, e.le, e.leftUsed), LeftOver(r, e.rs, e.re, e.rightUsed),
                     l[e.le].kind.TEXT? && r[e.re].kind.TEXT?, l[e.ls].kind.TEXT? && r[e.rs].kind.TEXT?);
  }

  lemma FirstOfRest(s: seq<Segment>, from: nat, end: nat)
    requires from <= end < |s| && s[from].value != "" && s[end].value != ""
    ensures var a := LeftOver(s, from, end, false);
            a != "" && a[0] == s[from].value[0] && a[|a| - 1] == s[end].value[|s[end].value| - 1]
  {
    RestFront(s, from, end);
    RestBack(s, from, end);
  }

  predicate IsCloser(c: char) { c == '>' || c == ']' }

  /** Where both sides differ they begin differently, or one begins with a marker, and they end
      differently, or one ends with a marker. */
  lemma DiffIsMinimal(left: string, right: string)
    ensures var d := SplitOf(left, right);
            d.left != "" && d.right != "" ==>
              && (d.left[0] == d.right[0] ==> IsOpener(d.left[0]))
              && (d.left[|d.left| - 1] == d.right[|d.right| - 1] ==> IsCloser(d.left[|d.left| - 1]))
  {
    var l, r, d := Segments(left), Segments(right), SplitOf(left, right);
    if l != [] && r != [] && d.left != "" && d.right != "" {
      var e := EndOf(left, right);
      assert d == Texts(l, r, e);
      NoneUsed(left, right);
      SegmentsAre(left, 0);
      SegmentsAre(right, 0);
      MinimalAt(l, r, e, d);
    }
  }

  // A side that is used up has no difference.
  lemma NoneUsed(left: string, right: string)
    requires Segments(left) != [] && Segments(right) != []
    requires var d := Texts(Segments(left), Segments(right), EndOf(left, right)); d.left != "" && d.right != ""
    ensures var e := EndOf(left, right); !e.leftUsed && !e.rightUsed
  {
    var l, r := Segments(left), Segments(right);
    StartInv(l, r);
    MatchedKeeps(l, r, Begin(l, r));
    UsedAtEnd(l, r, Matched(l, r, Begin(l, r)));
    UsedIsEmpty(l, r, EndOf(left, right));
  }

  lemma UsedAtEnd(l: seq<Segment>, r: seq<Segment>, m: Match)
    requires InRange(l, r, m) && MatchInv(l, r, m)
    ensures var e := Finish(l, r, m); (e.leftUsed ==> e.ls == e.le) && (e.rightUsed ==> e.rs == e.re)
  {
  }

  lemma UsedIsEmpty(l: seq<Segment>, r: seq<Segment>, e: Match)
    requires InRange(l, r, e) && (e.leftUsed ==> e.ls == e.le) && (e.rightUsed ==> e.rs == e.re)
    ensures e.leftUsed ==> Texts(l, r, e).left == ""
    ensures e.rightUsed ==> Texts(l, r, e).right == ""
  {
    if e.leftUsed || e.rightUsed {
      TextsOneSided(l, r, e);
      if e.leftUsed { assert Rest(l, e.ls, e.le, true) == []; }
      if e.rightUsed { assert Rest(r, e.rs, e.re, true) == []; }
    }
  }

  lemma MinimalAt(l: seq<Segment>, r: seq<Segment>, e: Match, d: Diff)
    requires InRange(l, r, e) && AllAre(l) && AllAre(r) && !e.leftUsed && !e.rightUsed
    requires d == Texts(l, r, e) && d.left != "" && d.right != ""
    ensures d.left[0] == d.right[0] ==> IsOpener(d.left[0])
    ensures d.left[|d.left| - 1] == d.right[|d.right| - 1] ==> IsCloser(d.left[|d.left| - 1])
  {
    var k, n := TextsCut(l, r, e);
    EndsOf(l, e.ls, e.le);
    EndsOf(r, e.rs, e.re);
    CutEnds(d, e.prefix, e.suffix, LeftOver(l, e.ls, e.le, false), LeftOver(r, e.rs, e.re, false), k, n,
            l[e.ls].kind.TEXT? && r[e.rs].kind.TEXT?, l[e.le].kind.TEXT? && r[e.re].kind.TEXT?);
  }

  // A marker at an end shows its bracket.
  lemma EndsOf(s: seq<Segment>, from: nat, end: nat)
    requires AllAre(s) && from <= end < |s|
    ensures var a := LeftOver(s, from, end, false);
            && a != "" && (s[from].kind.MARKER? ==> IsOpener(a[0])) && (s[end].kind.MARKER? ==> IsCloser(a[|a| - 1]))
  {
    assert SegmentIs(s, from) && SegmentIs(s, end);
    FirstOfRest(s, from, end);
  }

  // The ends of two differences: other characters, or the ends of what was left over.
  lemma CutEnds(d: Diff, prefix: string, suffix: string, a: string, b: string, k: nat, n: nat, prefixes: bool, suffixes: bool)
    requires IsCut(d, prefix, suffix, a, b, k, n) && Longest(a, b, k, n, prefixes, suffixes) && d.left != "" && d.right != ""
    ensures if prefixes then d.left[0] != d.right[0] else d.left[0] == a[0] && d.right[0] == b[0]
    ensures var x, y := d.left[|d.left| - 1], d.right[|d.right| - 1];
            if suffixes then x != y else x == a[|a| - 1] && y == b[|b| - 1]
  {
  }

  // The two texts share their first i segments and no more, and their last j.
  predicate SharesEnds(l: seq<Segment>, r: seq<Segment>, i: nat, j: nat) {
    && i < |l| && i < |r| && l[..i] == r[..i] && l[i] != r[i]
    && j < |l| && j < |r| && l[|l| - j..] == r[|r| - j..] && l[|l| - 1 - j] != r[|r| - 1 - j]
  }

  /** Where both sides differ, all segments that they share at the front are in the prefix, and all that
      they share at the back in the suffix, and characters beyond them only where both go on with text. */
  lemma SharedIsTaken(left: string, right: string) returns (i: nat, j: nat)
    requires var d := SplitOf(left, right); d.left != "" && d.right != "" && left != "" && right != ""
    ensures TakesShared(Segments(left), Segments(right), i, j, SplitOf(left, right))
  {
    assert Segments(left) != [] && Segments(right) != [];
    NoneUsed(left, right);
    EndShares(left, right);
    i, j := DiffersAt(Segments(left), Segments(right), EndOf(left, right));
  }

  // The segments shared at the ends are taken, and beyond them only characters of texts.
  predicate TakesShared(l: seq<Segment>, r: seq<Segment>, i: nat, j: nat, d: Diff) {
    && SharesEnds(l, r, i, j)
    && Concat(l[..i]) <= d.prefix && EndsWith(d.suffix, Concat(l[|l| - j..]))
    && (!(l[i].kind.TEXT? && r[i].kind.TEXT?) ==> d.prefix == Concat(l[..i]))
    && (!(l[|l| - 1 - j].kind.TEXT? && r[|r| - 1 - j].kind.TEXT?) ==> d.suffix == Concat(l[|l| - j..]))
  }

  lemma DiffersAt(l: seq<Segment>, r: seq<Segment>, e: Match) returns (i: nat, j: nat)
    requires InRange(l, r, e) && Shared(l, r, e) && Stopped(l, r, e) && !e.leftUsed && !e.rightUsed
    requires Texts(l, r, e).left != "" && Texts(l, r, e).right != ""
    ensures TakesShared(l, r, i, j, Texts(l, r, e))
  {
    var k, n := TextsCut(l, r, e);
    var d := Texts(l, r, e);
    OnlyDifferent(l, r, e, d, k, n);
    i, j := SharedAt(l, r, e, LeftOver(l, e.ls, e.le, false), LeftOver(r, e.rs, e.re, false), k, n, d);
  }

  lemma SharedAt(l: seq<Segment>, r: seq<Segment>, e: Match, a: string, b: string, k: nat, n: nat, d: Diff) returns (i: nat, j: nat)
    requires InRange(l, r, e) && Shared(l, r, e) && l[e.ls] != r[e.rs] && l[e.le] != r[e.re]
    requires IsCut(d, e.prefix, e.suffix, a, b, k, n)
    requires Longest(a, b, k, n, l[e.ls].kind.TEXT? && r[e.rs].kind.TEXT?, l[e.le].kind.TEXT? && r[e.re].kind.TEXT?)
    ensures TakesShared(l, r, i, j, d)
  {
    i, j := e.ls, |l| - 1 - e.le;
    assert |l| - j == e.le + 1 && |r| - j == e.re + 1;
    SuffixEnds(a, n, e.suffix);
    if k == 0 { assert e.prefix + a[..0] == e.prefix; }
  }

  predicate EndsWith(t: string, s: string) { |s| <= |t| && t[|t| - |s|..] == s }

  lemma SuffixEnds(a: string, n: nat, suffix: string)
    requires n <= |a|
    ensures EndsWith(a[|a| - n..] + suffix, suffix) && (n == 0 ==> a[|a| - n..] + suffix == suffix)
  {
  }

  // One segment each that is the same text would leave no difference.
  lemma OnlyDifferent(l: seq<Segment>, r: seq<Segment>, e: Match, d: Diff, k: nat, n: nat)
    requires InRange(l, r, e) && Stopped(l, r, e) && !e.leftUsed && !e.rightUsed
    requires IsCut(d, e.prefix, e.suffix, LeftOver(l, e.ls, e.le, false), LeftOver(r, e.rs, e.re, false), k, n)
    requires Longest(LeftOver(l, e.ls, e.le, false), LeftOver(r, e.rs, e.re, false), k, n,
                     l[e.ls].kind.TEXT? && r[e.rs].kind.TEXT?, l[e.le].kind.TEXT? && r[e.re].kind.TEXT?)
    requires d.left != "" && d.right != ""
    ensures l[e.ls] != r[e.rs] && l[e.le] != r[e.re]
  {
    OneSegment(l, e.ls);
    OneSegment(r, e.rs);
    SameLeavesNothing(LeftOver(l, e.ls, e.le, false), LeftOver(r, e.rs, e.re, false), k, n,
                      l[e.ls].kind.TEXT? && r[e.rs].kind.TEXT?, l[e.le].kind.TEXT? && r[e.re].kind.TEXT?);
  }

  lemma OneSegment(s: seq<Segment>, i: nat)
    requires i < |s|
    ensures LeftOver(s, i, i, false) == s[i].value
  {
    assert Rest(s, i, i, false) == [s[i]];
    ConcatOne(s[i]);
  }

  lemma SameLeavesNothing(a: string, b: string, k: nat, n: nat, prefixes: bool, suffixes: bool)
    requires Longest(a, b, k, n, prefixes, suffixes)
    ensures a == b && suffixes ==> n == |a|
  {
  }

  // ----- texts without markers -----

  lemma {:induction false} NoOpener(t: string, i: nat)
    requires Plain(t) && i <= |t|
    ensures FindOpener(t, i) == |t|
    decreases |t| - i
  {
    if i < |t| { NoOpener(t, i + 1); }
  }

  lemma PlainSegments(t: string)
    requires Plain(t) && t != ""
    ensures Segments(t) == [Segment(TEXT, t)]
  {
    NoOpener(t, 0);
    assert SegmentsFrom(t, |t|) == [] && t[0..|t|] == t;
  }

  // The leftovers of two texts without brackets are the texts.
  lemma PlainTexts(left: string, right: string)
    requires Plain(left) && Plain(right) && left != "" && right != ""
    ensures Segments(left) != [] && Segments(right) != []
    ensures Texts(Segments(left), Segments(right), EndOf(left, right)) == SplitTexts("", "", left, right, true, true)
  {
    PlainSegments(left);
    PlainSegments(right);
    var l, r := Segments(left), Segments(right);
    OneSegment(l, 0);
    OneSegment(r, 0);
    assert EndOf(left, right) == Begin(l, r);
  }

  /** Of texts without brackets, the suffix is the longest common end, the prefix the longest common
      beginning before it, and the difference what is between them; unless the left text begins the right. */
  lemma PlainDiff(left: string, right: string, k: nat, n: nat)
    requires Plain(left) && Plain(right) && left != "" && right != "" && !(left <= right)
    requires Longest(left, right, k, n, true, true) && left[..k] == right[..k] && left[|left| - n..] == right[|right| - n..]
    ensures SplitOf(left, right) == Diff(left[..k], left[|left| - n..], left[k..|left| - n], right[k..|right| - n])
  {
    PlainTexts(left, right);
    SplitIs(left, right, k, n);
    if left[k..|left| - n] == "" && right[k..|right| - n] == "" { SameText(left, right, k, n); }
  }

  lemma SplitIs(a: string, b: string, k: nat, n: nat)
    requires Longest(a, b, k, n, true, true) && a[..k] == b[..k] && a[|a| - n..] == b[|b| - n..]
    ensures SplitTexts("", "", a, b, true, true) == Diff(a[..k], a[|a| - n..], a[k..|a| - n], b[k..|b| - n])
  {
    SameCut(a, b, k, n);
    SplitWith("", "", a, b, k, n);
    NothingAdded(a[..k]);
    NothingAdded(a[|a| - n..]);
  }

  lemma SplitWith(prefix: string, suffix: string, a: string, b: string, k: nat, n: nat)
    requires n == CommonSuffixLen(a, b) && k == CommonPrefixLen(a[..|a| - n], b[..|b| - n])
    ensures SplitTexts(prefix, suffix, a, b, true, true) ==
              Diff(prefix + a[..k], a[|a| - n..] + suffix, a[k..|a| - n], b[k..|b| - n])
  {
  }

  lemma SameText(a: string, b: string, k: nat, n: nat)
    requires k + n == |a| == |b| && a[..k] == b[..k] && a[|a| - n..] == b[|b| - n..]
    ensures a == b
  {
    assert a == a[..k] + a[|a| - n..] && b == b[..k] + b[|b| - n..];
  }

  lemma FrontAt(a: string, b: string, n: nat, i: nat)
    requires n <= |a| && n <= |b| && a[..n] == b[..n]
    ensures i < n ==> a[i] == b[i]
  {
    if i < n { assert a[..n][i] == b[..n][i]; }
  }

  lemma BackAt(a: string, b: string, n: nat, i: nat)
    requires n <= |a| && n <= |b| && a[|a| - n..] == b[|b| - n..]
    ensures i < n ==> a[|a| - 1 - i] == b[|b| - 1 - i]
  {
    if i < n { assert a[|a| - n..][n - 1 - i] == b[|b| - n..][n - 1 - i]; }
  }

  lemma SameCut(a: string, b: string, k: nat, n: nat)
    requires Longest(a, b, k, n, true, true) && a[..k] == b[..k] && a[|a| - n..] == b[|b| - n..]
    ensures n == CommonSuffixLen(a, b) && k == CommonPrefixLen(a[..|a| - n], b[..|b| - n])
  {
    SameSuffix(a, b, n);
    SamePrefix(a[..|a| - n], b[..|b| - n], k);
  }

  lemma SameSuffix(a: string, b: string, n: nat)
    requires n <= |a| && n <= |b| && a[|a| - n..] == b[|b| - n..] && (n < |a| && n < |b| ==> a[|a| - 1 - n] != b[|b| - 1 - n])
    ensures n == CommonSuffixLen(a, b)
  {
    var m := CommonSuffixLen(a, b);
    BackAt(a, b, m, n);
    BackAt(a, b, n, m);
    assert m < |a| && m < |b| ==> FromEnd(a, m) != FromEnd(b, m);
  }

  lemma SamePrefix(a: string, b: string, k: nat)
    requires k <= |a| && k <= |b| && a[..k] == b[..k] && (k < |a| && k < |b| ==> a[k] != b[k])
    ensures k == CommonPrefixLen(a, b)
  {
    var m := CommonPrefixLen(a, b);
    FrontAt(a, b, m, k);
    FrontAt(a, b, k, m);
  }

  /** Where the left text begins the right, the whole of it is the prefix. */
  lemma PlainPrefix(left: string, right: string)
    requires Plain(left) && Plain(right) && left != "" && left <= right
    ensures SplitOf(left, right) == Diff(left, "", "", right[|left|..])
  {
    PlainTexts(left, right);
    PrefixLeavesNothing(left, right);
    assert left == right ==> right[|left|..] == "";
  }

  lemma PrefixLeavesNothing(left: string, right: string)
    requires left <= right
    ensures var d := SplitTexts("", "", left, right, true, true);
            d.left == "" && (left == right <==> d.right == "")
  {
    var n := CommonSuffixLen(left, right);
    BeginsBefore(left, right, n);
    SplitWith("", "", left, right, |left| - n, n);
  }

  lemma BeginsBefore(left: string, right: string, n: nat)
    requires left <= right && n <= |left|
    ensures CommonPrefixLen(left[..|left| - n], right[..|right| - n]) == |left| - n
  {
    var x, y := left[..|left| - n], right[..|right| - n];
    FrontOf(left, right, |x|);
    assert x[..|x|] == x && y[..|x|] == right[..|x|];
    SamePrefix(x, y, |x|);
  }

  lemma FrontOf(left: string, right: string, k: nat)
    requires left <= right && k <= |left|
    ensures left[..k] == right[..k]
  {
    assert left == right[..|left|];
  }

  // ----- when a marker is cut in two -----

  // The texts of both sides are in whole markers up to each of the three cuts.
  predicate KeepsMarkers(d: Diff) { Whole(d.prefix) && Whole(d.prefix + d.left) && Whole(d.prefix + d.right) }

  // The last text left over of one side, behind another segment, is the end of the other text, and the
  // character before it there closes that segment.
  predicate Reaches(s: seq<Segment>, from: nat, end: nat, other: string)
    requires from <= end < |s|
  {
    var v := s[end].value;
    && from < end && |v| < |other| && EndsWith(other, v)
    && s[end - 1].value != "" && s[end - 1].value[|s[end - 1].value| - 1] == other[|other| - |v| - 1]
  }

  // The suffix reaches into a marker: neither side is used up, both end in text, and one of these texts
  // with the bracket before it is the end of the other; and the left text does not begin the right.
  predicate CutsMarker(left: string, right: string) {
    var l, r := Segments(left), Segments(right);
    l != [] && r != [] && !(left <= right) &&
    var e := EndOf(left, right);
    && !e.leftUsed && !e.rightUsed && l[e.le].kind.TEXT? && r[e.re].kind.TEXT?
    && (Reaches(l, e.ls, e.le, r[e.re].value) || Reaches(r, e.rs, e.re, l[e.le].value))
  }

  lemma GoodPart(s: seq<Segment>, i: nat, j: nat)
    requires Good(s) && i <= j <= |s|
    ensures Good(s[i..j]) && Whole(Concat(s[i..j]))
  {
    GoodIsWhole(s[i..j]);
  }

  lemma WholeConcat(a: string, b: string)
    requires Whole(a)
    ensures Read(Closed, a + b) == Read(Closed, b)
  {
    ScanConcat(Closed, a, b);
  }

  lemma PlainCut(t: string, n: nat)
    requires Plain(t) && n <= |t|
    ensures Whole(t[..n])
  {
    ScanPlain(t[..n]);
  }

  // A cut in the first text left over.
  lemma FrontCut(s: seq<Segment>, from: nat, end: nat, k: nat)
    requires Good(s) && from <= end < |s| && s[from].kind.TEXT? && k <= |s[from].value|
    ensures k <= |LeftOver(s, from, end, false)| && Whole(LeftOver(s, from, end, false)[..k])
  {
    RestFront(s, from, end);
    var v, rest := s[from].value, Concat(s[from + 1..end + 1]);
    assert (v + rest)[..k] == v[..k];
    PlainCut(v, k);
  }

  // A cut in the last.
  lemma BackCut(s: seq<Segment>, from: nat, end: nat, n: nat)
    requires Good(s) && from <= end < |s| && s[end].kind.TEXT? && n <= |s[end].value|
    ensures n <= |LeftOver(s, from, end, false)|
    ensures Whole(LeftOver(s, from, end, false)[..|LeftOver(s, from, end, false)| - n])
  {
    RestBack(s, from, end);
    var v, rest := s[end].value, Concat(s[from..end]);
    assert (rest + v)[..|rest + v| - n] == rest + v[..|v| - n];
    GoodPart(s, from, end);
    PlainCut(v, |v| - n);
    WholeConcat(rest, v[..|v| - n]);
  }

  // The character before the last text closes a marker, which is open before it.
  lemma BeforeLast(s: seq<Segment>, from: nat, end: nat)
    requires Good(s) && from < end < |s| && s[end].kind.TEXT? && (forall k :: 0 <= k < |s| ==> SegmentIs(s, k))
    ensures var a, v, w := LeftOver(s, from, end, false), s[end].value, s[end - 1].value;
            && w != "" && |v| < |a| && a[|a| - |v| - 1] == w[|w| - 1]
            && Read(Closed, a[..|a| - |v| - 1]).Opened?
  {
    assert SegmentIs(s, end) && SegmentIs(s, end - 1);
    var v, w := s[end].value, s[end - 1].value;
    RestBack(s, from, end);
    assert s[from..end] == s[from..end - 1] + [s[end - 1]];
    ConcatAppend(s[from..end - 1], [s[end - 1]]);
    ConcatOne(s[end - 1]);
    var front := Concat(s[from..end - 1]);
    GoodPart(s, from, end - 1);
    ScanMarker(w);
    CutBeforeLast(front, w, v);
    WholeConcat(front, w[..|w| - 1]);
  }

  lemma CutBeforeLast(front: string, w: string, v: string)
    requires w != ""
    ensures var a := (front + w) + v;
            |a| - |v| - 1 >= 0 && a[|a| - |v| - 1] == w[|w| - 1] && a[..|a| - |v| - 1] == front + w[..|w| - 1]
  {
  }

  // ----- the cut at the front -----

  lemma AfterFirst(s: seq<Segment>, from: nat, end: nat)
    requires Good(s) && AllAre(s) && from <= end < |s| && s[from].kind.TEXT?
    ensures var a, v := LeftOver(s, from, end, false), s[from].value;
            |v| <= |a| && a[..|v|] == v && (|v| < |a| ==> from < end && IsOpener(a[|v|]))
  {
    RestFront(s, from, end);
    if from < end {
      assert SegmentIs(s, from) && SegmentIs(s, from + 1);
      RestFront(s, from + 1, end);
    }
  }

  // Characters that both sides share at the front end within the first text of one.
  lemma FrontTexts(a: string, b: string, k: nat, f: string, g: string)
    requires k <= |a| && k <= |b| && a[..k] == b[..k] && |f| <= |a| && |g| <= |b| && a[..|f|] == f && b[..|g|] == g
    ensures |f| == |g| <= k ==> f == g
    ensures |f| < |g| && |f| < k ==> a[|f|] == g[|f|]
    ensures |g| < |f| && |g| < k ==> b[|g|] == f[|g|]
  {
    FrontAt(a, b, k, |f|);
    FrontAt(a, b, k, |g|);
    if |f| == |g| <= k { assert a[..k][..|f|] == a[..|f|] && b[..k][..|f|] == b[..|f|]; }
    if |f| < |g| { assert b[..|g|][|f|] == g[|f|]; }
    if |g| < |f| { assert a[..|f|][|g|] == f[|g|]; }
  }

  lemma FrontStops(l: seq<Segment>, r: seq<Segment>, e: Match, a: string, b: string, k: nat)
    requires Good(l) && Good(r) && AllAre(l) && AllAre(r) && InRange(l, r, e) && Stopped(l, r, e)
    requires l[e.ls].kind.TEXT? && r[e.rs].kind.TEXT?
    requires a == LeftOver(l, e.ls, e.le, false) && b == LeftOver(r, e.rs, e.re, false)
    requires k <= |a| && k <= |b| && a[..k] == b[..k]
    ensures k <= |l[e.ls].value| || k <= |r[e.rs].value|
  {
    AfterFirst(l, e.ls, e.le);
    AfterFirst(r, e.rs, e.re);
    FrontTexts(a, b, k, l[e.ls].value, r[e.rs].value);
  }

  lemma PrefixWhole(l: seq<Segment>, r: seq<Segment>, e: Match, a: string, b: string, k: nat)
    requires Good(l) && Good(r) && AllAre(l) && AllAre(r) && InRange(l, r, e) && Stopped(l, r, e)
    requires a == LeftOver(l, e.ls, e.le, false) && b == LeftOver(r, e.rs, e.re, false)
    requires k <= |a| && k <= |b| && a[..k] == b[..k] && (k > 0 ==> l[e.ls].kind.TEXT? && r[e.rs].kind.TEXT?)
    ensures Whole(a[..k])
  {
    if k == 0 {
      assert a[..0] == "";
    } else {
      FrontStops(l, r, e, a, b, k);
      if k <= |l[e.ls].value| { FrontCut(l, e.ls, e.le, k); } else { FrontCut(r, e.rs, e.re, k); }
    }
  }

  // ----- the cut at the back -----

  // The end that two sides share, against the last text of the one that has the shorter one.
  lemma ReachesIff(s: seq<Segment>, from: nat, end: nat, w: string, a: string, b: string, n: nat)
    requires Good(s) && AllAre(s) && from <= end < |s| && s[end].kind.TEXT? && a == LeftOver(s, from, end, false)
    requires EndsWith(b, w) && |s[end].value| < |w|
    requires n <= |a| && n <= |b| && a[|a| - n..] == b[|b| - n..] && (n < |a| && n < |b| ==> a[|a| - 1 - n] != b[|b| - 1 - n])
    ensures Reaches(s, from, end, w) <==> n > |s[end].value|
  {
    var v := s[end].value;
    RestBack(s, from, end);
    var front := Concat(s[from..end]);
    assert a == front + v;
    if from < end { BeforeLast(s, from, end); } else { assert s[from..end] == []; }
    BackOfLast(a, front, v, b, w, n);
  }

  // The same on texts: a ends in v, b in w, which is longer.
  lemma BackOfLast(a: string, front: string, v: string, b: string, w: string, n: nat)
    requires a == front + v && EndsWith(b, w) && |v| < |w|
    requires n <= |a| && n <= |b| && a[|a| - n..] == b[|b| - n..] && (n < |a| && n < |b| ==> a[|a| - 1 - n] != b[|b| - 1 - n])
    ensures n > |v| <==> front != "" && EndsWith(w, v) && front[|front| - 1] == w[|w| - |v| - 1]
  {
    if n > |v| { BackBeyond(a, front, v, b, w, n); }
    if n <= |v| && EndsWith(w, v) && front != "" { BackWithin(a, front, v, b, w, n); }
  }

  lemma EndAt(t: string, s: string, i: nat)
    requires EndsWith(t, s) && i < |s|
    ensures s[|s| - 1 - i] == t[|t| - 1 - i]
  {
    assert t[|t| - |s|..][|s| - 1 - i] == s[|s| - 1 - i];
  }

  lemma BackBeyond(a: string, front: string, v: string, b: string, w: string, n: nat)
    requires a == front + v && EndsWith(b, w) && |v| < |w| && |v| < n <= |a| && n <= |b| && a[|a| - n..] == b[|b| - n..]
    ensures front != "" && EndsWith(w, v) && front[|front| - 1] == w[|w| - |v| - 1]
  {
    var x := w[|w| - |v|..];
    forall i | 0 <= i < |v|
      ensures x[i] == v[i]
    {
      BackAt(a, b, n, |v| - 1 - i);
      EndAt(b, w, |v| - 1 - i);
    }
    assert x == v;
    BackAt(a, b, n, |v|);
    EndAt(b, w, |v|);
  }

  lemma BackWithin(a: string, front: string, v: string, b: string, w: string, n: nat)
    requires a == front + v && EndsWith(b, w) && |v| < |w| && n <= |v| && EndsWith(w, v) && front != ""
    requires n < |a| && n < |b| ==> a[|a| - 1 - n] != b[|b| - 1 - n]
    ensures front[|front| - 1] != w[|w| - |v| - 1]
  {
    EndAt(b, w, n);
    if n < |v| { EndAt(w, v, n); }
  }

  // Beyond the shorter last text, the cut is inside a marker of one side.
  lemma BeyondCuts(s: seq<Segment>, from: nat, end: nat, t: seq<Segment>, from': nat, end': nat, a: string, b: string, n: nat)
    requires Good(s) && AllAre(s) && from < end < |s| && s[end].kind.TEXT? && a == LeftOver(s, from, end, false)
    requires Good(t) && from' <= end' < |t| && t[end'].kind.TEXT? && b == LeftOver(t, from', end', false)
    requires |s[end].value| < |t[end'].value| && |s[end].value| < n <= |a| && n <= |b| && a[|a| - n..] == b[|b| - n..]
    ensures !(Whole(a[..|a| - n]) && Whole(b[..|b| - n]))
  {
    var c := |s[end].value| + 1;
    BeforeLast(s, from, end);
    BackCut(t, from', end', c);
    var x := a[|a| - n..|a| - c];
    assert x == a[|a| - n..][..n - c] == b[|b| - n..][..n - c] == b[|b| - n..|b| - c];
    assert a[..|a| - c] == a[..|a| - n] + x && b[..|b| - c] == b[..|b| - n] + x;
    ScanConcat(Closed, a[..|a| - n], x);
    ScanConcat(Closed, b[..|b| - n], x);
  }

  // ----- the left text begins the right -----

  lemma PrefixAt(v: string, t: string, i: nat)
    requires v <= t
    ensures i < |v| ==> v[i] == t[i]
  {
  }

  lemma NotLonger(v: string, w: string, t: string)
    requires IsMarker(v) && IsMarker(w) && v <= t && w <= t
    ensures |w| <= |v|
  {
    PrefixAt(v, t, 0);
    PrefixAt(w, t, 0);
    PrefixAt(v, t, |v| - 1);
    PrefixAt(w, t, |v| - 1);
  }

  lemma MarkerStart(v: string, w: string, t: string)
    requires IsMarker(v) && IsMarker(w) && v <= t && w <= t
    ensures v == w
  {
    NotLonger(v, w, t);
    NotLonger(w, v, t);
  }

  // The first segments left over, when what is left of one side begins what is left of the other.
  lemma FirstBothText(l: seq<Segment>, r: seq<Segment>, e: Match, a: string, b: string)
    requires Good(l) && Good(r) && AllAre(l) && AllAre(r) && InRange(l, r, e) && Stopped(l, r, e)
    requires a == LeftOver(l, e.ls, e.le, false) && b == LeftOver(r, e.rs, e.re, false) && a <= b
    ensures l[e.ls].kind.TEXT? && r[e.rs].kind.TEXT?
  {
    assert SegmentIs(l, e.ls) && SegmentIs(r, e.rs);
    RestFront(l, e.ls, e.le);
    RestFront(r, e.rs, e.re);
    var v, w := l[e.ls].value, r[e.rs].value;
    assert v <= a && w <= b;
    assert v <= b by { assert a == b[..|a|]; assert v == a[..|v|] == b[..|v|]; }
    assert a[0] == b[0] == v[0] == w[0];
    if l[e.ls].kind.MARKER? && r[e.rs].kind.MARKER? { MarkerStart(v, w, b); }
  }

  lemma PrefixLeaves(l: seq<Segment>, r: seq<Segment>, e: Match, a: string, b: string, k: nat, n: nat, d: Diff)
    requires Good(l) && Good(r) && AllAre(l) && AllAre(r) && InRange(l, r, e) && Stopped(l, r, e)
    requires a == LeftOver(l, e.ls, e.le, false) && b == LeftOver(r, e.rs, e.re, false) && a <= b
    requires IsCut(d, e.prefix, e.suffix, a, b, k, n)
    requires Longest(a, b, k, n, l[e.ls].kind.TEXT? && r[e.rs].kind.TEXT?, l[e.le].kind.TEXT? && r[e.re].kind.TEXT?)
    ensures d.left == ""
  {
    FirstBothText(l, r, e, a, b);
    assert a == b[..|a|];
    assert k < |a| ==> a[k] == b[k];
  }

  lemma LeftsBegin(p: string, a: string, b: string, s: string)
    requires Glue(p, a, s) <= Glue(p, b, s)
    ensures a <= b
  {
    var x, y := Glue(p, a, s), Glue(p, b, s);
    assert |a| <= |b|;
    assert a == x[|p|..|p| + |a|] == y[|p|..|p| + |a|] == b[..|a|];
  }

  // ----- the theorem -----

  lemma SharedGlue(s: seq<Segment>, from: nat, end: nat)
    requires from <= end < |s|
    ensures Glue(Concat(s[..from]), LeftOver(s, from, end, false), Concat(s[end + 1..])) == Concat(s)
  {
    ThreeParts(s, from, end + 1);
    ConcatAppend(s[..from], s[from..end + 1] + s[end + 1..]);
    ConcatAppend(s[from..end + 1], s[end + 1..]);
    GlueIs(Concat(s[..from]), Concat(s[from..end + 1]), Concat(s[end + 1..]));
  }

  lemma ThreeParts(s: seq<Segment>, i: nat, j: nat)
    requires i <= j <= |s|
    ensures s == s[..i] + (s[i..j] + s[j..])
  {
  }

  lemma GlueIs(p: string, a: string, s: string)
    ensures Glue(p, a, s) == p + (a + s)
  {
  }

  // The corrections keep the markers whole, and apply only when the left text begins the right.
  lemma CorrectedMarkers(d: Diff, left: string, right: string)
    requires Whole(left) && Whole(right)
    ensures Corrected(d, left, right) != d ==> KeepsMarkers(Corrected(d, left, right))
    ensures d.left == "" && left <= right ==> KeepsMarkers(Corrected(d, left, right))
    ensures Corrected(d, left, right) == d || d.left == ""
    ensures !(left <= right) && Corrected(d, left, right) != d ==> d.left == "" && d.right == ""
  {
    assert left + "" == left;
    if left <= right { assert left + right[|left|..] == right; }
  }

  // Cuts of one side, seen from its start.
  lemma CutFromStart(p: string, a: string, k: nat, n: nat)
    requires Whole(p) && k + n <= |a|
    ensures Whole(p + a[..k]) <==> Whole(a[..k])
    ensures (p + a[..k]) + a[k..|a| - n] == p + a[..|a| - n]
    ensures Whole((p + a[..k]) + a[k..|a| - n]) <==> Whole(a[..|a| - n])
  {
    WholeConcat(p, a[..k]);
    WholeConcat(p, a[..|a| - n]);
    assert a[..|a| - n] == a[..k] + a[k..|a| - n];
  }

  // Neither side used up: the markers are kept exactly when the cut stays in the last texts.
  lemma BackIff(l: seq<Segment>, r: seq<Segment>, e: Match, a: string, b: string, n: nat)
    requires Good(l) && Good(r) && AllAre(l) && AllAre(r) && InRange(l, r, e) && Stopped(l, r, e)
    requires a == LeftOver(l, e.ls, e.le, false) && b == LeftOver(r, e.rs, e.re, false)
    requires LongestBack(a, b, n) && l[e.le].kind.TEXT? && r[e.re].kind.TEXT?
    ensures Whole(a[..|a| - n]) && Whole(b[..|b| - n]) <==>
              !(Reaches(l, e.ls, e.le, r[e.re].value) || Reaches(r, e.rs, e.re, l[e.le].value))
  {
    var v, w := l[e.le].value, r[e.re].value;
    if |v| < |w| {
      ShorterIff(l, r, e, a, b, n);
    } else if |w| < |v| {
      ShorterIff(r, l, Mirrored(e), b, a, n);
    } else {
      SameLast(l, r, e, a, b, n);
      BackCut(l, e.ls, e.le, n);
      BackCut(r, e.rs, e.re, n);
    }
  }

  // The longest common end of two texts.
  predicate LongestBack(a: string, b: string, n: nat) {
    && n <= |a| && n <= |b| && a[|a| - n..] == b[|b| - n..]
    && (n < |a| && n < |b| ==> a[|a| - 1 - n] != b[|b| - 1 - n])
  }

  lemma ShorterIff(s: seq<Segment>, t: seq<Segment>, e: Match, a: string, b: string, n: nat)
    requires Good(s) && Good(t) && AllAre(s) && InRange(s, t, e) && s[e.le].kind.TEXT? && t[e.re].kind.TEXT?
    requires a == LeftOver(s, e.ls, e.le, false) && b == LeftOver(t, e.rs, e.re, false)
    requires |s[e.le].value| < |t[e.re].value| && LongestBack(a, b, n)
    ensures Whole(a[..|a| - n]) && Whole(b[..|b| - n]) <==> !Reaches(s, e.ls, e.le, t[e.re].value)
  {
    EndsInText(t, e.rs, e.re);
    ReachesIff(s, e.ls, e.le, t[e.re].value, a, b, n);
    if n > |s[e.le].value| {
      Beyond(s, t, e, a, b, n);
    } else {
      BackCut(s, e.ls, e.le, n);
      BackCut(t, e.rs, e.re, n);
    }
  }

  lemma EndsInText(t: seq<Segment>, from: nat, end: nat)
    requires from <= end < |t|
    ensures EndsWith(LeftOver(t, from, end, false), t[end].value)
  {
    RestBack(t, from, end);
    EndsInLast(Concat(t[from..end]), t[end].value);
  }

  lemma EndsInLast(x: string, y: string)
    ensures EndsWith(x + y, y)
  {
  }

  // With a marker at the end of one side nothing is cut there.
  lemma NoBackCut(s: seq<Segment>, from: nat, end: nat)
    requires Good(s) && from <= end < |s|
    ensures var a := LeftOver(s, from, end, false); Whole(a) && a[..|a| - 0] == a
  {
    GoodPart(s, from, end + 1);
  }

  // The match with its sides exchanged.
  function Mirrored(e: Match): Match { Match(e.rs, e.re, e.ls, e.le, e.rightUsed, e.leftUsed, e.prefix, e.suffix) }

  lemma Beyond(s: seq<Segment>, t: seq<Segment>, e: Match, a: string, b: string, n: nat)
    requires Good(s) && Good(t) && AllAre(s) && InRange(s, t, e) && s[e.le].kind.TEXT? && t[e.re].kind.TEXT?
    requires a == LeftOver(s, e.ls, e.le, false) && b == LeftOver(t, e.rs, e.re, false)
    requires |s[e.le].value| < |t[e.re].value| && |s[e.le].value| < n <= |a| && n <= |b| && a[|a| - n..] == b[|b| - n..]
    ensures !(Whole(a[..|a| - n]) && Whole(b[..|b| - n]))
  {
    if e.ls == e.le { OneSegment(s, e.ls); }
    BeyondCuts(s, e.ls, e.le, t, e.rs, e.re, a, b, n);
  }

  // Last texts of one length are shared only in part, or are all that is left of both sides.
  lemma SameLast(l: seq<Segment>, r: seq<Segment>, e: Match, a: string, b: string, n: nat)
    requires InRange(l, r, e) && Stopped(l, r, e) && l[e.le].kind.TEXT? && r[e.re].kind.TEXT?
    requires a == LeftOver(l, e.ls, e.le, false) && b == LeftOver(r, e.rs, e.re, false)
    requires |l[e.le].value| == |r[e.re].value| && n <= |a| && n <= |b| && a[|a| - n..] == b[|b| - n..]
    ensures n <= |l[e.le].value|
  {
    var v, w := l[e.le].value, r[e.re].value;
    RestBack(l, e.ls, e.le);
    RestBack(r, e.rs, e.re);
    EndsInLast(Concat(l[e.ls..e.le]), v);
    EndsInLast(Concat(r[e.rs..e.re]), w);
    OneSegment(l, e.le);
    OneSegment(r, e.re);
    SameBack(a, b, v, w, n);
  }

  lemma SameBack(a: string, b: string, v: string, w: string, n: nat)
    requires EndsWith(a, v) && EndsWith(b, w) && |v| == |w| && n <= |a| && n <= |b| && a[|a| - n..] == b[|b| - n..]
    ensures n >= |v| ==> v == w
  {
    if n >= |v| {
      assert a[|a| - |v|..] == a[|a| - n..][n - |v|..] && b[|b| - |v|..] == b[|b| - n..][n - |v|..];
    }
  }

  lemma UsedWhole(l: seq<Segment>, r: seq<Segment>, e: Match)
    requires Good(l) && Good(r) && InRange(l, r, e) && Whole(e.prefix) && (e.leftUsed || e.rightUsed)
    requires (e.leftUsed ==> e.ls == e.le) && (e.rightUsed ==> e.rs == e.re)
    ensures KeepsMarkers(Texts(l, r, e))
  {
    TextsOneSided(l, r, e);
    RestWhole(l, e.ls, e.le, e.leftUsed);
    RestWhole(r, e.rs, e.re, e.rightUsed);
    WholeConcat(e.prefix, LeftOver(l, e.ls, e.le, e.leftUsed));
    WholeConcat(e.prefix, LeftOver(r, e.rs, e.re, e.rightUsed));
  }

  lemma RestWhole(s: seq<Segment>, from: nat, end: nat, used: bool)
    requires Good(s) && from <= end < |s|
    ensures Whole(LeftOver(s, from, end, used))
  {
    GoodPart(s, from, if used then end else end + 1);
  }

  // The end of the matching: its prefix is whole, and a side that is used up has nothing left.
  lemma EndFacts(left: string, right: string)
    requires Whole(left) && Whole(right) && Segments(left) != [] && Segments(right) != []
    ensures var e := EndOf(left, right);
            Whole(e.prefix) && (e.leftUsed ==> e.ls == e.le) && (e.rightUsed ==> e.rs == e.re)
  {
    var l, r := Segments(left), Segments(right);
    WholeIsGood(left);
    WholeIsGood(right);
    StartInv(l, r);
    MatchedKeeps(l, r, Begin(l, r));
    UsedAtEnd(l, r, Matched(l, r, Begin(l, r)));
    FinishedPrefix(l, r, Matched(l, r, Begin(l, r)));
  }

  lemma FinishedPrefix(l: seq<Segment>, r: seq<Segment>, m: Match)
    requires InRange(l, r, m) && MatchInv(l, r, m) && Good(l) && Good(r)
    ensures Whole(Finish(l, r, m).prefix)
  {
    GoodIsWhole(l[..m.ls]);
    OneIsWhole(l, m.ls);
    OneIsWhole(r, m.rs);
    WholeConcat(m.prefix, l[m.ls].value);
    WholeConcat(m.prefix, r[m.rs].value);
  }

  lemma OneIsWhole(s: seq<Segment>, i: nat)
    requires Good(s) && i < |s|
    ensures Whole(s[i].value)
  {
    if s[i].kind.MARKER? { ScanMarker(s[i].value); } else { ScanPlain(s[i].value); }
  }

  // What the cut at the front and the one at the back do, when neither side is used up.
  ghost predicate Unused(l: seq<Segment>, r: seq<Segment>, e: Match, a: string, b: string, k: nat, n: nat, d: Diff) {
    && Good(l) && Good(r) && AllAre(l) && AllAre(r) && InRange(l, r, e) && Shared(l, r, e) && Stopped(l, r, e)
    && !e.leftUsed && !e.rightUsed
    && a == LeftOver(l, e.ls, e.le, false) && b == LeftOver(r, e.rs, e.re, false)
    && IsCut(d, e.prefix, e.suffix, a, b, k, n)
    && Longest(a, b, k, n, l[e.ls].kind.TEXT? && r[e.rs].kind.TEXT?, l[e.le].kind.TEXT? && r[e.re].kind.TEXT?)
  }

  lemma UnusedIff(l: seq<Segment>, r: seq<Segment>, e: Match, a: string, b: string, k: nat, n: nat, d: Diff)
    requires Unused(l, r, e, a, b, k, n, d)
    ensures Whole(d.prefix) && (KeepsMarkers(d) <==> Whole(a[..|a| - n]) && Whole(b[..|b| - n]))
  {
    GoodIsWhole(l[..e.ls]);
    PrefixWhole(l, r, e, a, b, k);
    CutFromStart(e.prefix, a, k, n);
    CutFromStart(e.prefix, b, k, n);
  }

  lemma UnusedBack(l: seq<Segment>, r: seq<Segment>, e: Match, a: string, b: string, k: nat, n: nat, d: Diff)
    requires Unused(l, r, e, a, b, k, n, d)
    ensures var reaches := l[e.le].kind.TEXT? && r[e.re].kind.TEXT? &&
                           (Reaches(l, e.ls, e.le, r[e.re].value) || Reaches(r, e.rs, e.re, l[e.le].value));
            Whole(a[..|a| - n]) && Whole(b[..|b| - n]) <==> !reaches
  {
    if l[e.le].kind.TEXT? && r[e.re].kind.TEXT? {
      BackIff(l, r, e, a, b, n);
    } else {
      NoBackCut(l, e.ls, e.le);
      NoBackCut(r, e.rs, e.re);
    }
  }

  // The left text begins the right: nothing of it is left.
  lemma UnusedPrefix(l: seq<Segment>, r: seq<Segment>, e: Match, a: string, b: string, k: nat, n: nat, d: Diff)
    requires Unused(l, r, e, a, b, k, n, d)
    ensures Concat(l) <= Concat(r) ==> d.left == ""
    ensures d.left == "" && d.right == "" ==> Concat(l) == Concat(r)
  {
    SharedTexts(l, r, e);
    NothingLeft(d, e.prefix, e.suffix, a, b, k, n);
    if Concat(l) <= Concat(r) {
      LeftsBegin(e.prefix, a, b, e.suffix);
      PrefixLeaves(l, r, e, a, b, k, n, d);
    }
  }

  lemma SharedTexts(l: seq<Segment>, r: seq<Segment>, e: Match)
    requires InRange(l, r, e) && Shared(l, r, e)
    ensures Concat(l) == Glue(e.prefix, LeftOver(l, e.ls, e.le, false), e.suffix)
    ensures Concat(r) == Glue(e.prefix, LeftOver(r, e.rs, e.re, false), e.suffix)
  {
    SharedGlue(l, e.ls, e.le);
    SharedGlue(r, e.rs, e.re);
  }

  lemma NothingLeft(d: Diff, prefix: string, suffix: string, a: string, b: string, k: nat, n: nat)
    requires IsCut(d, prefix, suffix, a, b, k, n)
    ensures d.left == "" && d.right == "" ==> a == b
  {
    if d.left == "" && d.right == "" { SameText(a, b, k, n); }
  }

  // The three together, for the end of the matching.
  lemma UnusedFacts(l: seq<Segment>, r: seq<Segment>, e: Match)
    requires Good(l) && Good(r) && AllAre(l) && AllAre(r) && InRange(l, r, e) && Shared(l, r, e) && Stopped(l, r, e)
    requires !e.leftUsed && !e.rightUsed
    ensures var d := Texts(l, r, e);
            var reaches := l[e.le].kind.TEXT? && r[e.re].kind.TEXT? &&
                           (Reaches(l, e.ls, e.le, r[e.re].value) || Reaches(r, e.rs, e.re, l[e.le].value));
            && Whole(d.prefix) && (KeepsMarkers(d) <==> !reaches)
            && (Concat(l) <= Concat(r) ==> d.left == "")
            && (d.left == "" && d.right == "" ==> Concat(l) == Concat(r))
  {
    var d := Texts(l, r, e);
    var k, n := TextsCut(l, r, e);
    var a, b := LeftOver(l, e.ls, e.le, false), LeftOver(r, e.rs, e.re, false);
    UnusedIff(l, r, e, a, b, k, n, d);
    UnusedBack(l, r, e, a, b, k, n, d);
    UnusedPrefix(l, r, e, a, b, k, n, d);
  }

  /** The prefix never ends inside a marker; and no marker of either text is cut in two exactly when the
      common characters at the end do not reach from the last texts into one. */
  lemma MarkersKeptIff(left: string, right: string)
    requires Whole(left) && Whole(right)
    ensures Whole(SplitOf(left, right).prefix)
    ensures KeepsMarkers(SplitOf(left, right)) <==> !CutsMarker(left, right)
  {
    var l, r := Segments(left), Segments(right);
    WholeIsGood(left);
    WholeIsGood(right);
    assert "" + left == left && "" + right == right;
    if l != [] && r != [] {
      var e := EndOf(left, right);
      var d := Texts(l, r, e);
      CorrectedMarkers(d, left, right);
      EndFacts(left, right);
      if e.leftUsed || e.rightUsed {
        UsedWhole(l, r, e);
      } else {
        EndShares(left, right);
        UnusedFacts(l, r, e);
      }
    }
  }

  // A marker that is cut: that of "<a>x" against "b>x", from which the suffix takes ">x".
  lemma MarkerCut(left: string, right: string)
    requires |left| == 4 && left[0] == '<' && left[1] == 'a' && left[2] == '>' && left[3] == 'x'
    requires |right| == 3 && right[0] == 'b' && right[1] == '>' && right[2] == 'x'
    ensures Whole(left) && Whole(right) && CutsMarker(left, right) && !KeepsMarkers(SplitOf(left, right))
  {
    TagThenText(left);
    PlainSegments(right);
    var l, r := Segments(left), Segments(right);
    assert EndOf(left, right) == Begin(l, r);
    assert right[2..] == ['x'] && left[3..] == ['x'];
    assert Reaches(l, 0, 1, right);
    ScanPlain(right);
    MarkersKeptIff(left, right);
  }

  lemma TagThenText(t: string)
    requires |t| == 4 && t[0] == '<' && t[1] == 'a' && t[2] == '>' && t[3] == 'x'
    ensures Segments(t) == [Segment(MARKER, t[..3]), Segment(TEXT, t[3..])] && Whole(t)
  {
    assert FindCloser('<', t, 1) == 2 by { assert FindCloser('<', t, 2) == 2; }
    assert FindOpener(t, 3) == 4 by { assert FindOpener(t, 4) == 4; }
    assert SegmentsFrom(t, 4) == [] && t[0..3] == t[..3] && t[3..4] == t[3..];
    assert SegmentsFrom(t, 3) == [Segment(TEXT, t[3..])];
    assert t == t[..3] + t[3..];
    ScanMarker(t[..3]);
    ScanPlain(t[3..]);
    ScanConcat(Closed, t[..3], t[3..]);
  }
}
