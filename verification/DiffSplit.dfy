/** Splitting two texts into a common prefix and suffix and what differs between them, with
    markers such as <tag> and [tag] kept whole (common/chat-auto-parser-helpers.cpp). */
module DiffSplit {

  datatype Kind = TEXT | MARKER

  datatype Segment = Segment(kind: Kind, value: string)

  // ----- segments -----

  predicate IsOpener(c: char) { c == '<' || c == '[' }

  predicate Closes(op: char, c: char) { (op == '<' && c == '>') || (op == '[' && c == ']') }

  // The first position at or after i that holds an opener, or the end of the text.
  function FindOpener(t: string, i: nat): (p: nat)
    requires i <= |t|
    ensures i <= p <= |t| && (p < |t| ==> IsOpener(t[p]))
    ensures forall j :: i <= j < p ==> !IsOpener(t[j])
    decreases |t| - i
  {
    if i == |t| || IsOpener(t[i]) then i else FindOpener(t, i + 1)
  }

  function FindCloser(op: char, t: string, i: nat): (p: nat)
    requires i <= |t|
    ensures i <= p <= |t| && (p < |t| ==> Closes(op, t[p]))
    ensures forall j :: i <= j < p ==> !Closes(op, t[j])
    decreases |t| - i
  {
    if i == |t| || Closes(op, t[i]) then i else FindCloser(op, t, i + 1)
  }

  // The end and kind of the segment at position i: a marker runs to its first closing
  // bracket, and a marker that is never closed is text.
  function SegmentEnd(t: string, i: nat): (p: (nat, Kind))
    requires i < |t|
    ensures i < p.0 <= |t|
  {
    if IsOpener(t[i]) then
      var c := FindCloser(t[i], t, i + 1);
      if c < |t| then (c + 1, MARKER) else (|t|, TEXT)
    else (FindOpener(t, i), TEXT)
  }

  function SegmentsFrom(t: string, i: nat): seq<Segment>
    requires i <= |t|
    decreases |t| - i
  {
    if i == |t| then []
    else
      var (end, kind) := SegmentEnd(t, i);
      [Segment(kind, t[i..end])] + SegmentsFrom(t, end)
  }

  function Segments(t: string): seq<Segment> { SegmentsFrom(t, 0) }

  function Concat(segs: seq<Segment>): string {
    if segs == [] then [] else segs[0].value + Concat(segs[1..])
  }

  lemma {:induction false} ConcatAppend(a: seq<Segment>, b: seq<Segment>)
    ensures Concat(a + b) == Concat(a) + Concat(b)
  {
    if a == [] {
      assert a + b == b;
    } else {
      assert (a + b)[1..] == a[1..] + b;
      ConcatAppend(a[1..], b);
      assert a[0].value + (Concat(a[1..]) + Concat(b)) == (a[0].value + Concat(a[1..])) + Concat(b);
    }
  }

  lemma ConcatFront(s: Segment, rest: seq<Segment>)
    ensures Concat([s] + rest) == s.value + Concat(rest)
  {
    assert ([s] + rest)[1..] == rest;
  }

  // Nothing is lost and no segment is empty.
  lemma {:induction false} SegmentsConcat(t: string, i: nat)
    requires i <= |t|
    ensures Concat(SegmentsFrom(t, i)) == t[i..]
    ensures forall k :: 0 <= k < |SegmentsFrom(t, i)| ==> SegmentsFrom(t, i)[k].value != []
    decreases |t| - i
  {
    if i < |t| {
      var (end, kind) := SegmentEnd(t, i);
      SegmentsConcat(t, end);
      ConcatFront(Segment(kind, t[i..end]), SegmentsFrom(t, end));
      assert t[i..end] + t[end..] == t[i..];
    }
  }

  // ----- segmentize_markers -----

  // What the loop knows at position cur.
  ghost predicate Scanned(text: string, border: nat, cur: nat, inMarker: bool, opener: char) {
    border <= cur <= |text| &&
    if inMarker then
      border < cur && opener == text[border] && IsOpener(opener) && forall j :: border < j < cur ==> !Closes(opener, text[j])
    else
      forall j :: border <= j < cur ==> !IsOpener(text[j])
  }

  lemma TextAt(text: string, border: nat, cur: nat)
    requires Scanned(text, border, cur, false, '\0') && border < cur && (cur < |text| ==> IsOpener(text[cur]))
    ensures SegmentEnd(text, border) == (cur, TEXT)
  {
  }

  lemma MarkerAt(text: string, border: nat, cur: nat, opener: char)
    requires Scanned(text, border, cur, true, opener) && (cur < |text| ==> Closes(opener, text[cur]))
    ensures SegmentEnd(text, border) == if cur < |text| then (cur + 1, MARKER) else (cur, TEXT)
  {
  }

  lemma LastAt(text: string, border: nat, inMarker: bool, opener: char)
    requires Scanned(text, border, |text|, inMarker, opener) && border < |text|
    ensures SegmentEnd(text, border) == (|text|, TEXT)
  {
  }

  ghost function Remaining(text: string, border: nat): seq<Segment>
    requires border <= |text|
  {
    SegmentsFrom(text, border)
  }

  // The segments found so far, and those from the last border on, are all of them.
  ghost predicate Found(text: string, segs: seq<Segment>, border: nat)
    requires border <= |text|
  {
    segs + Remaining(text, border) == Remaining(text, 0)
  }

  lemma AddSegment(text: string, segs: seq<Segment>, border: nat, to: nat, kind: Kind)
    requires border < to <= |text| && Found(text, segs, border) && SegmentEnd(text, border) == (to, kind)
    ensures Found(text, segs + [Segment(kind, text[border..to])], to)
  {
    var s := Segment(kind, text[border..to]);
    assert Remaining(text, border) == [s] + Remaining(text, to);
    assert segs + ([s] + Remaining(text, to)) == (segs + [s]) + Remaining(text, to);
  }

  // Ends the segment that began at the last border.
  method EndSegment(text: string, segs: seq<Segment>, border: nat, to: nat, kind: Kind) returns (more: seq<Segment>)
    requires border < to <= |text| && Found(text, segs, border) && SegmentEnd(text, border) == (to, kind)
    ensures Found(text, more, to)
  {
    more := segs + [Segment(kind, text[border..to])];
    AddSegment(text, segs, border, to, kind);
  }

  lemma NextPlain(text: string, border: nat, cur: nat, inMarker: bool, opener: char)
    requires Scanned(text, border, cur, inMarker, opener) && cur < |text|
    requires if inMarker then !Closes(opener, text[cur]) else !IsOpener(text[cur])
    ensures Scanned(text, border, cur + 1, inMarker, opener)
  {
  }

  /** segmentize_markers */
  method SegmentizeMarkers(text: string) returns (segs: seq<Segment>)
    ensures segs == Segments(text)
  {
    segs := [];
    var inMarker, opener, lastBorder := false, '\0', 0;
    var cur := 0;
    assert Found(text, [], 0);
    while cur < |text|
      invariant Scanned(text, lastBorder, cur, inMarker, opener)
      invariant Found(text, segs, lastBorder)
    {
      if !inMarker && IsOpener(text[cur]) {
        if lastBorder < cur {
          TextAt(text, lastBorder, cur);
          segs := EndSegment(text, segs, lastBorder, cur, TEXT);
        }
        lastBorder, inMarker, opener := cur, true, text[cur];
      } else if inMarker && Closes(opener, text[cur]) {
        MarkerAt(text, lastBorder, cur, opener);
        segs := EndSegment(text, segs, lastBorder, cur + 1, MARKER);
        lastBorder, inMarker, opener := cur + 1, false, '\0';
      } else {
        NextPlain(text, lastBorder, cur, inMarker, opener);
      }
      cur := cur + 1;
    }
    if lastBorder < |text| {
      LastAt(text, lastBorder, inMarker, opener);
      segs := EndSegment(text, segs, lastBorder, |text|, TEXT);
    }
    FoundAll(text, segs);
  }

  lemma FoundAll(text: string, segs: seq<Segment>)
    requires Found(text, segs, |text|)
    ensures segs == Segments(text)
  {
  }

  // ----- the two-ended matching -----

  // The inclusive ranges of segments still to be matched, the text taken so far, and whether
  // the last segment of a side has been taken although its range cannot shrink any more.
  datatype Match = Match(ls: nat, le: nat, rs: nat, re: nat, leftUsed: bool, rightUsed: bool, prefix: string, suffix: string)

  predicate InRange(l: seq<Segment>, r: seq<Segment>, m: Match) {
    m.ls <= m.le < |l| && m.rs <= m.re < |r|
  }

  function Begin(l: seq<Segment>, r: seq<Segment>): Match
    requires l != [] && r != []
  {
    Match(0, |l| - 1, 0, |r| - 1, false, false, "", "")
  }

  function TakeFront(l: seq<Segment>, r: seq<Segment>, m: Match): Match
    requires InRange(l, r, m)
  {
    if l[m.ls] == r[m.rs] then m.(prefix := m.prefix + l[m.ls].value, ls := m.ls + 1, rs := m.rs + 1) else m
  }

  function TakeBack(l: seq<Segment>, r: seq<Segment>, m: Match): Match
    requires InRange(l, r, m)
  {
    if l[m.le] == r[m.re] then
      m.(suffix := l[m.le].value + m.suffix,
         le := if m.ls != m.le then m.le - 1 else m.le,
         leftUsed := m.leftUsed || m.ls == m.le,
         re := if m.rs != m.re then m.re - 1 else m.re,
         rightUsed := m.rightUsed || m.rs == m.re)
    else m
  }

  function Matched(l: seq<Segment>, r: seq<Segment>, m: Match): (e: Match)
    requires InRange(l, r, m)
    ensures InRange(l, r, e)
    decreases m.le - m.ls + m.re - m.rs
  {
    if m.ls == m.le || m.rs == m.re then m
    else if l[m.ls] != r[m.rs] && l[m.le] != r[m.re] then m
    else Matched(l, r, TakeBack(l, r, TakeFront(l, r, m)))
  }

  // The branches after the loop.
  predicate LastLeft(l: seq<Segment>, r: seq<Segment>, m: Match)
    requires InRange(l, r, m)
  {
    m.ls == m.le && m.rs != m.re && (l[m.ls] == r[m.re] || l[m.ls] == r[m.rs])
  }

  predicate LastRight(l: seq<Segment>, r: seq<Segment>, m: Match)
    requires InRange(l, r, m)
  {
    m.rs == m.re && m.ls != m.le && (l[m.le] == r[m.rs] || l[m.ls] == r[m.rs])
  }

  predicate LastBoth(l: seq<Segment>, r: seq<Segment>, m: Match)
    requires InRange(l, r, m)
  {
    m.ls == m.le && m.rs == m.re && l[m.ls] == r[m.rs] && l[m.ls].kind.MARKER?
  }

  function Finish(l: seq<Segment>, r: seq<Segment>, m: Match): (e: Match)
    requires InRange(l, r, m)
    ensures InRange(l, r, e)
  {
    if LastLeft(l, r, m) then
      if l[m.ls] == r[m.re] then m.(suffix := r[m.re].value + m.suffix, re := m.re - 1, leftUsed := true)
      else m.(prefix := m.prefix + r[m.rs].value, rs := m.rs + 1, leftUsed := true)
    else if LastRight(l, r, m) then
      if l[m.le] == r[m.rs] then m.(suffix := l[m.le].value + m.suffix, le := m.le - 1, rightUsed := true)
      else m.(prefix := m.prefix + l[m.ls].value, ls := m.ls + 1, rightUsed := true)
    else if LastBoth(l, r, m) then m.(prefix := m.prefix + r[m.rs].value, leftUsed := true, rightUsed := true)
    else m
  }

  // ----- what is left over, character by character -----

  // The counting loop of common_prefix_len.
  function PrefixFrom(a: string, b: string, k: nat): (n: nat)
    requires k <= |a| && k <= |b| && forall i :: 0 <= i < k ==> a[i] == b[i]
    ensures k <= n <= |a| && n <= |b| && forall i :: 0 <= i < n ==> a[i] == b[i]
    ensures n < |a| && n < |b| ==> a[n] != b[n]
    decreases |a| - k
  {
    if k < |a| && k < |b| && a[k] == b[k] then PrefixFrom(a, b, k + 1) else k
  }

  function CommonPrefixLen(a: string, b: string): (n: nat)
    ensures n <= |a| && n <= |b| && a[..n] == b[..n]
    ensures n < |a| && n < |b| ==> a[n] != b[n]
  {
    PrefixFrom(a, b, 0)
  }

  // The character i places before the last one.
  function FromEnd(s: string, i: nat): char
    requires i < |s|
  {
    s[|s| - 1 - i]
  }

  // The counting loop of common_suffix_len.
  function SuffixFrom(a: string, b: string, k: nat): (n: nat)
    requires k <= |a| && k <= |b| && forall i: nat :: i < k ==> FromEnd(a, i) == FromEnd(b, i)
    ensures k <= n <= |a| && n <= |b| && forall i: nat :: i < n ==> FromEnd(a, i) == FromEnd(b, i)
    ensures n < |a| && n < |b| ==> FromEnd(a, n) != FromEnd(b, n)
    decreases |a| - k
  {
    if k < |a| && k < |b| && FromEnd(a, k) == FromEnd(b, k) then SuffixFrom(a, b, k + 1) else k
  }

  function CommonSuffixLen(a: string, b: string): (n: nat)
    ensures n <= |a| && n <= |b| && a[|a| - n..] == b[|b| - n..]
    ensures n < |a| && n < |b| ==> FromEnd(a, n) != FromEnd(b, n)
  {
    var n := SuffixFrom(a, b, 0);
    SameEnds(a, b, n);
    n
  }

  lemma SameEnds(a: string, b: string, n: nat)
    requires n <= |a| && n <= |b| && forall i: nat :: i < n ==> FromEnd(a, i) == FromEnd(b, i)
    ensures a[|a| - n..] == b[|b| - n..]
  {
    var x, y := a[|a| - n..], b[|b| - n..];
    forall j | 0 <= j < n
      ensures x[j] == y[j]
    {
      assert FromEnd(a, n - 1 - j) == FromEnd(b, n - 1 - j);
    }
  }

  datatype Diff = Diff(prefix: string, suffix: string, left: string, right: string)

  // The segments of a side that are left over.
  function Rest(s: seq<Segment>, from: nat, to: nat, used: bool): seq<Segment>
    requires from <= to < |s|
  {
    s[from..if used then to else to + 1]
  }

  // Splits the leftovers a and b where characters at their ends may be compared.
  function SplitTexts(prefix: string, suffix: string, a: string, b: string, suffixes: bool, prefixes: bool): Diff {
    var n := if suffixes then CommonSuffixLen(a, b) else 0;
    var k := if prefixes then CommonPrefixLen(a[..|a| - n], b[..|b| - n]) else 0;
    Diff(prefix + a[..k], a[|a| - n..] + suffix, a[k..|a| - n], b[k..|b| - n])
  }

  function Texts(l: seq<Segment>, r: seq<Segment>, m: Match): Diff
    requires InRange(l, r, m)
  {
    SplitTexts(m.prefix, m.suffix,
               Concat(Rest(l, m.ls, m.le, m.leftUsed)), Concat(Rest(r, m.rs, m.re, m.rightUsed)),
               l[m.le].kind.TEXT? && r[m.re].kind.TEXT?, l[m.ls].kind.TEXT? && r[m.rs].kind.TEXT?)
  }

  // The two corrections at the end.
  function Corrected(d: Diff, left: string, right: string): Diff {
    var d1 := if d.left == [] && d.right == [] then d.(prefix := left, suffix := "") else d;
    if d1.left == [] && d1.right != [] && left <= right
    then Diff(left, "", d1.left, right[|left|..])
    else d1
  }

  function SplitOf(left: string, right: string): Diff {
    var l, r := Segments(left), Segments(right);
    if l == [] then Diff("", "", "", right)
    else if r == [] then Diff("", "", left, "")
    else Corrected(Texts(l, r, Finish(l, r, Matched(l, r, Begin(l, r)))), left, right)
  }

  // The loop of calculate_diff_split.
  method MatchEnds(l: seq<Segment>, r: seq<Segment>) returns (m: Match)
    requires l != [] && r != []
    ensures m == Matched(l, r, Begin(l, r)) && InRange(l, r, m)
  {
    var ls, le, rs, re := 0, |l| - 1, 0, |r| - 1;
    var leftUsed, rightUsed := false, false;
    var prefix, suffix := "", "";
    while ls != le && rs != re
      invariant ls <= le < |l| && rs <= re < |r|
      invariant Matched(l, r, Match(ls, le, rs, re, leftUsed, rightUsed, prefix, suffix)) == Matched(l, r, Begin(l, r))
      decreases le - ls + re - rs
    {
      ghost var before := Match(ls, le, rs, re, leftUsed, rightUsed, prefix, suffix);
      var advanced := false;
      if l[ls] == r[rs] {
        prefix := prefix + l[ls].value;
        ls, rs := ls + 1, rs + 1;
        advanced := true;
      }
      assert TakeFront(l, r, before) == Match(ls, le, rs, re, leftUsed, rightUsed, prefix, suffix);
      if l[le] == r[re] {
        suffix := l[le].value + suffix;
        if ls != le { le := le - 1; } else { leftUsed := true; }
        if rs != re { re := re - 1; } else { rightUsed := true; }
        advanced := true;
      }
      assert TakeBack(l, r, TakeFront(l, r, before)) == Match(ls, le, rs, re, leftUsed, rightUsed, prefix, suffix);
      if !advanced { break; }
    }
    m := Match(ls, le, rs, re, leftUsed, rightUsed, prefix, suffix);
  }

  // Its branches after the loop.
  method TakeLast(l: seq<Segment>, r: seq<Segment>, m: Match) returns (e: Match)
    requires InRange(l, r, m)
    ensures e == Finish(l, r, m)
  {
    e := m;
    if m.ls == m.le && m.rs != m.re {
      if l[m.ls] == r[m.re] {
        e := e.(suffix := r[m.re].value + m.suffix, re := m.re - 1, leftUsed := true);
      } else if l[m.ls] == r[m.rs] {
        e := e.(prefix := m.prefix + r[m.rs].value, rs := m.rs + 1, leftUsed := true);
      }
    } else if m.rs == m.re && m.ls != m.le {
      if l[m.le] == r[m.rs] {
        e := e.(suffix := l[m.le].value + m.suffix, le := m.le - 1, rightUsed := true);
      } else if l[m.ls] == r[m.rs] {
        e := e.(prefix := m.prefix + l[m.ls].value, ls := m.ls + 1, rightUsed := true);
      }
    } else if m.ls == m.le && m.rs == m.re && l[m.ls] == r[m.rs] && l[m.ls].kind.MARKER? {
      e := e.(prefix := m.prefix + r[m.rs].value, leftUsed := true, rightUsed := true);
    }
  }

  /** calculate_diff_split */
  method CalculateDiffSplit(left: string, right: string) returns (d: Diff)
    ensures d == SplitOf(left, right)
  {
    var l := SegmentizeMarkers(left);
    var r := SegmentizeMarkers(right);
    if l == [] { return Diff("", "", "", right); }
    if r == [] { return Diff("", "", left, ""); }
    var m := MatchEnds(l, r);
    m := TakeLast(l, r, m);
    d := Texts(l, r, m);
    if d.left == "" && d.right == "" { d := d.(prefix := left, suffix := ""); }
    if d.left == "" && d.right != "" && |left| <= |right| && right[..|left|] == left {
      d := Diff(left, "", d.left, right[|left|..]);
    }
  }

  // ----- nothing is lost -----

  function Glue(prefix: string, middle: string, suffix: string): string { (prefix + middle) + suffix }

  predicate Rebuilds(d: Diff, left: string, right: string) {
    Glue(d.prefix, d.left, d.suffix) == left && Glue(d.prefix, d.right, d.suffix) == right
  }

  // Where the untaken segments of a side end.
  function Stop(end: nat, used: bool): nat { if used then end else end + 1 }

  predicate Taken(s: seq<Segment>, from: nat, end: nat, used: bool, prefix: string, suffix: string)
    requires from <= end < |s|
  {
    prefix == Concat(s[..from]) && suffix == Concat(s[Stop(end, used)..]) && (used ==> from == end)
  }

  // What the loop keeps: each segment taken at the front is taken from both sides, and so is
  // each one taken at the back, once.
  predicate MatchInv(l: seq<Segment>, r: seq<Segment>, m: Match)
    requires InRange(l, r, m)
  {
    && Taken(l, m.ls, m.le, m.leftUsed, m.prefix, m.suffix)
    && Taken(r, m.rs, m.re, m.rightUsed, m.prefix, m.suffix)
    && (m.leftUsed ==> m.re + 1 < |r| + (if m.rightUsed then 1 else 0) && l[m.le] == r[Stop(m.re, m.rightUsed)])
    && (m.rightUsed ==> m.le + 1 < |l| + (if m.leftUsed then 1 else 0) && r[m.re] == l[Stop(m.le, m.leftUsed)])
    && (m.leftUsed || m.rightUsed ==> m.ls == m.le || m.rs == m.re)
  }

  lemma ConcatSnoc(s: seq<Segment>, i: nat)
    requires i < |s|
    ensures Concat(s[..i + 1]) == Concat(s[..i]) + s[i].value
    ensures Concat(s[i..]) == s[i].value + Concat(s[i + 1..])
  {
    assert s[..i + 1] == s[..i] + [s[i]];
    ConcatAppend(s[..i], [s[i]]);
    assert Concat([s[i]]) == s[i].value + Concat([]);
    assert s[i..] == [s[i]] + s[i + 1..];
    ConcatFront(s[i], s[i + 1..]);
  }

  lemma FrontKeeps(l: seq<Segment>, r: seq<Segment>, m: Match)
    requires InRange(l, r, m) && MatchInv(l, r, m) && m.ls != m.le && m.rs != m.re
    ensures var m' := TakeFront(l, r, m); InRange(l, r, m') && MatchInv(l, r, m') && !m'.leftUsed && !m'.rightUsed
  {
    ConcatSnoc(l, m.ls);
    ConcatSnoc(r, m.rs);
  }

  // A segment taken at the back of a side.
  lemma TakenBack(s: seq<Segment>, from: nat, end: nat, prefix: string, suffix: string)
    requires from <= end < |s| && Taken(s, from, end, false, prefix, suffix)
    ensures from == end ==> Taken(s, from, end, true, prefix, s[end].value + suffix)
    ensures from < end ==> Taken(s, from, end - 1, false, prefix, s[end].value + suffix)
  {
    ConcatSnoc(s, end);
  }

  lemma BackKeeps(l: seq<Segment>, r: seq<Segment>, m: Match)
    requires InRange(l, r, m) && MatchInv(l, r, m) && !m.leftUsed && !m.rightUsed
    ensures var m' := TakeBack(l, r, m); InRange(l, r, m') && MatchInv(l, r, m')
  {
    TakenBack(l, m.ls, m.le, m.prefix, m.suffix);
    TakenBack(r, m.rs, m.re, m.prefix, m.suffix);
  }

  lemma {:induction false} MatchedKeeps(l: seq<Segment>, r: seq<Segment>, m: Match)
    requires InRange(l, r, m) && MatchInv(l, r, m)
    ensures MatchInv(l, r, Matched(l, r, m))
    decreases m.le - m.ls + m.re - m.rs
  {
    if m.ls != m.le && m.rs != m.re && (l[m.ls] == r[m.rs] || l[m.le] == r[m.re]) {
      FrontKeeps(l, r, m);
      BackKeeps(l, r, TakeFront(l, r, m));
      MatchedKeeps(l, r, TakeBack(l, r, TakeFront(l, r, m)));
    }
  }

  // ----- when a segment is taken twice -----

  // A branch after the loop fires for a side whose last segment the loop has taken already.
  predicate TakesTwice(l: seq<Segment>, r: seq<Segment>, m: Match)
    requires InRange(l, r, m)
  {
    m.leftUsed != m.rightUsed && (LastLeft(l, r, m) || LastRight(l, r, m) || LastBoth(l, r, m))
  }

  // The text of a side is the prefix, what is left over and the suffix.
  lemma Parts(s: seq<Segment>, from: nat, end: nat, used: bool, prefix: string, suffix: string)
    requires from <= end < |s| && Taken(s, from, end, used, prefix, suffix)
    ensures Whole(s, from, end, used, prefix, suffix)
  {
    var a, rest, b := s[..from], Rest(s, from, end, used), s[Stop(end, used)..];
    assert s == (a + rest) + b;
    ConcatAppend(a + rest, b);
    ConcatAppend(a, rest);
  }

  predicate Whole(s: seq<Segment>, from: nat, end: nat, used: bool, prefix: string, suffix: string)
    requires from <= end < |s|
  {
    Glue(prefix, Concat(Rest(s, from, end, used)), suffix) == Concat(s)
  }

  // The characters that both leftovers share move into the prefix and the suffix.
  lemma SplitTextsRebuilds(prefix: string, suffix: string, a: string, b: string, suffixes: bool, prefixes: bool)
    ensures var d := SplitTexts(prefix, suffix, a, b, suffixes, prefixes);
            Glue(d.prefix, d.left, d.suffix) == Glue(prefix, a, suffix) && Glue(d.prefix, d.right, d.suffix) == Glue(prefix, b, suffix)
  {
    var n := if suffixes then CommonSuffixLen(a, b) else 0;
    var a', b' := a[..|a| - n], b[..|b| - n];
    var k := if prefixes then CommonPrefixLen(a', b') else 0;
    var d := SplitTexts(prefix, suffix, a, b, suffixes, prefixes);
    assert a'[..k] == b'[..k];
    MoveShared(prefix, suffix, a, b, n, k, d);
  }

  lemma MoveShared(prefix: string, suffix: string, a: string, b: string, n: nat, k: nat, d: Diff)
    requires n <= |a| && n <= |b| && a[|a| - n..] == b[|b| - n..]
    requires k <= |a| - n && k <= |b| - n && a[..|a| - n][..k] == b[..|b| - n][..k]
    requires d == Diff(prefix + a[..k], a[|a| - n..] + suffix, a[k..|a| - n], b[k..|b| - n])
    ensures Glue(d.prefix, d.left, d.suffix) == Glue(prefix, a, suffix) && Glue(d.prefix, d.right, d.suffix) == Glue(prefix, b, suffix)
  {
    SharedEnds(a, b, n, k);
    Reassemble(prefix, a, suffix, k, n);
    Reassemble(prefix, b, suffix, k, n);
  }

  // A leftover that is empty shares nothing.
  lemma SplitTextsEmpty(prefix: string, suffix: string, a: string, b: string, suffixes: bool, prefixes: bool)
    requires a == [] || b == []
    ensures SplitTexts(prefix, suffix, a, b, suffixes, prefixes) == Diff(prefix, suffix, a, b)
  {
    NothingCut(a);
    NothingCut(b);
    NothingAdded(prefix);
    NothingAdded(suffix);
  }

  lemma NothingCut(s: string)
    ensures s[..0] == [] && s[|s|..] == [] && s[..|s|] == s && s[..|s| - 0] == s && s[0..|s|] == s && s[0..|s| - 0] == s
    ensures s[|s| - 0..] == []
  {
  }

  lemma NothingAdded(s: string)
    ensures s + [] == s && [] + s == s
  {
  }

  lemma TextsRebuild(l: seq<Segment>, r: seq<Segment>, m: Match)
    requires InRange(l, r, m)
    ensures var d := Texts(l, r, m);
            && Glue(d.prefix, d.left, d.suffix) == Glue(m.prefix, Concat(Rest(l, m.ls, m.le, m.leftUsed)), m.suffix)
            && Glue(d.prefix, d.right, d.suffix) == Glue(m.prefix, Concat(Rest(r, m.rs, m.re, m.rightUsed)), m.suffix)
  {
    SplitTextsRebuilds(m.prefix, m.suffix, Concat(Rest(l, m.ls, m.le, m.leftUsed)), Concat(Rest(r, m.rs, m.re, m.rightUsed)),
                       l[m.le].kind.TEXT? && r[m.re].kind.TEXT?, l[m.ls].kind.TEXT? && r[m.rs].kind.TEXT?);
  }

  lemma TextsOneSided(l: seq<Segment>, r: seq<Segment>, m: Match)
    requires InRange(l, r, m) && ((m.leftUsed && m.ls == m.le) || (m.rightUsed && m.rs == m.re))
    ensures Texts(l, r, m) ==
              Diff(m.prefix, m.suffix, Concat(Rest(l, m.ls, m.le, m.leftUsed)), Concat(Rest(r, m.rs, m.re, m.rightUsed)))
  {
    SplitTextsEmpty(m.prefix, m.suffix, Concat(Rest(l, m.ls, m.le, m.leftUsed)), Concat(Rest(r, m.rs, m.re, m.rightUsed)),
                    l[m.le].kind.TEXT? && r[m.re].kind.TEXT?, l[m.ls].kind.TEXT? && r[m.rs].kind.TEXT?);
  }

  lemma SharedEnds(a: string, b: string, n: nat, k: nat)
    requires n <= |a| && n <= |b| && a[|a| - n..] == b[|b| - n..]
    requires k <= |a| - n && k <= |b| - n && a[..|a| - n][..k] == b[..|b| - n][..k]
    ensures a[..k] == b[..k]
  {
    assert a[..|a| - n][..k] == a[..k] && b[..|b| - n][..k] == b[..k];
  }

  lemma Reassemble(p: string, a: string, s: string, k: nat, n: nat)
    requires k + n <= |a|
    ensures Glue(p + a[..k], a[k..|a| - n], a[|a| - n..] + s) == Glue(p, a, s)
  {
    assert a == a[..k] + a[k..|a| - n] + a[|a| - n..];
  }

  // The two corrections keep a correct split correct.
  lemma CorrectedRebuilds(d: Diff, left: string, right: string)
    requires Rebuilds(d, left, right)
    ensures Rebuilds(Corrected(d, left, right), left, right)
  {
    if left <= right { assert left + right[|left|..] == right; }
  }

  // Both sides used up: the texts are equal, and the first correction says so.
  lemma BothUsed(d: Diff, left: string, right: string)
    requires d.left == [] && d.right == [] && left == right
    ensures Rebuilds(Corrected(d, left, right), left, right)
  {
  }

  lemma Assoc(p: string, a: string, x: string, s: string)
    ensures Glue(p, a + x, s) == Glue(p, a, x + s)
    ensures Glue(p, a + x, s) == Glue(p + a, x, s)
  {
    assert p + (a + x) == (p + a) + x;
  }

  lemma ConcatOne(s: Segment)
    ensures Concat([s]) == s.value
  {
    ConcatFront(s, []);
    assert [s] + [] == [s] && s.value + "" == s.value;
  }

  lemma RestFront(s: seq<Segment>, from: nat, end: nat)
    requires from <= end < |s|
    ensures Concat(Rest(s, from, end, false)) == s[from].value + Concat(s[from + 1..end + 1])
  {
    assert s[from..end + 1] == [s[from]] + s[from + 1..end + 1];
    ConcatFront(s[from], s[from + 1..end + 1]);
  }

  lemma RestBack(s: seq<Segment>, from: nat, end: nat)
    requires from <= end < |s|
    ensures Concat(Rest(s, from, end, false)) == Concat(s[from..end]) + s[end].value
  {
    assert s[from..end + 1] == s[from..end] + [s[end]];
    ConcatAppend(s[from..end], [s[end]]);
    ConcatOne(s[end]);
  }

  // One segment moves from the front of the leftover into the prefix.
  lemma MoveFront(s: seq<Segment>, from: nat, end: nat, prefix: string, suffix: string)
    requires from <= end < |s| && Whole(s, from, end, false, prefix, suffix)
    ensures from < end ==> Whole(s, from + 1, end, false, prefix + s[from].value, suffix)
    ensures from == end ==> Whole(s, from, end, true, prefix + s[from].value, suffix)
  {
    RestFront(s, from, end);
    Assoc(prefix, s[from].value, Concat(s[from + 1..end + 1]), suffix);
    if from == end { assert s[from + 1..end + 1] == s[from..end]; }
  }

  // One segment moves from the back of the leftover into the suffix.
  lemma MoveBack(s: seq<Segment>, from: nat, end: nat, prefix: string, suffix: string)
    requires from <= end < |s| && Whole(s, from, end, false, prefix, suffix)
    ensures from < end ==> Whole(s, from, end - 1, false, prefix, s[end].value + suffix)
    ensures from == end ==> Whole(s, from, end, true, prefix, s[end].value + suffix)
  {
    RestBack(s, from, end);
    Assoc(prefix, Concat(s[from..end]), s[end].value, suffix);
  }

  ghost predicate BothWhole(l: seq<Segment>, r: seq<Segment>, m: Match)
    requires InRange(l, r, m)
  {
    Whole(l, m.ls, m.le, m.leftUsed, m.prefix, m.suffix) && Whole(r, m.rs, m.re, m.rightUsed, m.prefix, m.suffix)
  }

  lemma FinishLeft(l: seq<Segment>, r: seq<Segment>, m: Match)
    requires InRange(l, r, m) && !m.leftUsed && !m.rightUsed && BothWhole(l, r, m) && LastLeft(l, r, m)
    ensures BothWhole(l, r, Finish(l, r, m))
  {
    if l[m.ls] == r[m.re] {
      MoveBack(l, m.ls, m.le, m.prefix, m.suffix);
      MoveBack(r, m.rs, m.re, m.prefix, m.suffix);
    } else {
      MoveFront(l, m.ls, m.le, m.prefix, m.suffix);
      MoveFront(r, m.rs, m.re, m.prefix, m.suffix);
    }
  }

  lemma FinishRight(l: seq<Segment>, r: seq<Segment>, m: Match)
    requires InRange(l, r, m) && !m.leftUsed && !m.rightUsed && BothWhole(l, r, m) && LastRight(l, r, m)
    ensures BothWhole(l, r, Finish(l, r, m))
  {
    if l[m.le] == r[m.rs] {
      MoveBack(l, m.ls, m.le, m.prefix, m.suffix);
      MoveBack(r, m.rs, m.re, m.prefix, m.suffix);
    } else {
      MoveFront(l, m.ls, m.le, m.prefix, m.suffix);
      MoveFront(r, m.rs, m.re, m.prefix, m.suffix);
    }
  }

  lemma FinishWhole(l: seq<Segment>, r: seq<Segment>, m: Match)
    requires InRange(l, r, m) && !m.leftUsed && !m.rightUsed && BothWhole(l, r, m)
    ensures BothWhole(l, r, Finish(l, r, m))
  {
    if LastLeft(l, r, m) {
      FinishLeft(l, r, m);
    } else if LastRight(l, r, m) {
      FinishRight(l, r, m);
    } else if LastBoth(l, r, m) {
      MoveFront(l, m.ls, m.le, m.prefix, m.suffix);
      MoveFront(r, m.rs, m.re, m.prefix, m.suffix);
    }
  }

  // Nothing taken twice: the split rebuilds both texts.
  lemma TakenOnceRebuilds(left: string, right: string, l: seq<Segment>, r: seq<Segment>, m: Match)
    requires InRange(l, r, m) && MatchInv(l, r, m) && Concat(l) == left && Concat(r) == right
    requires !TakesTwice(l, r, m)
    ensures Rebuilds(Corrected(Texts(l, r, Finish(l, r, m)), left, right), left, right)
  {
    var e := Finish(l, r, m);
    TextsRebuild(l, r, e);
    if m.leftUsed && m.rightUsed {
      assert Rest(l, e.ls, e.le, true) == [] && Rest(r, e.rs, e.re, true) == [];
      Parts(l, m.ls, m.le, true, m.prefix, m.suffix);
      Parts(r, m.rs, m.re, true, m.prefix, m.suffix);
      BothUsed(Texts(l, r, e), left, right);
    } else {
      Parts(l, m.ls, m.le, m.leftUsed, m.prefix, m.suffix);
      Parts(r, m.rs, m.re, m.rightUsed, m.prefix, m.suffix);
      if !m.leftUsed && !m.rightUsed { FinishWhole(l, r, m); }
      CorrectedRebuilds(Texts(l, r, e), left, right);
    }
  }

  // ----- and what happens otherwise -----

  predicate NoEmpty(s: seq<Segment>) { forall i :: 0 <= i < |s| ==> s[i].value != [] }

  lemma ConcatNonEmpty(s: seq<Segment>)
    requires s != [] && NoEmpty(s)
    ensures Concat(s) != []
  {
  }

  // The final rotation repairs a split in which the left text is a prefix of the right one.
  predicate Repaired(left: string, right: string, m: Match) { m.leftUsed && m.rs != m.re && left <= right }

  // Prefix and suffix alone are longer than the text of the used-up side.
  lemma TooLong(text: string, d: Diff, prefix: string, suffix: string)
    requires Glue(prefix, "", suffix) == text && |d.prefix| + |d.suffix| > |prefix| + |suffix|
    ensures Glue(d.prefix, "", d.suffix) != text
  {
    assert |Glue(d.prefix, "", d.suffix)| == |d.prefix| + |d.suffix|;
  }

  lemma LeftGrows(l: seq<Segment>, r: seq<Segment>, m: Match)
    requires InRange(l, r, m) && NoEmpty(r) && m.leftUsed && LastLeft(l, r, m) && !m.rightUsed
    ensures var e := Finish(l, r, m);
            && e.leftUsed && !e.rightUsed && e.ls == e.le == m.ls && Rest(l, e.ls, e.le, true) == []
            && |e.prefix| + |e.suffix| > |m.prefix| + |m.suffix|
  {
  }

  lemma RightGrows(l: seq<Segment>, r: seq<Segment>, m: Match)
    requires InRange(l, r, m) && NoEmpty(l) && m.rightUsed && LastRight(l, r, m) && !m.leftUsed
    ensures var e := Finish(l, r, m);
            && e.rightUsed && !e.leftUsed && e.rs == e.re == m.rs && Rest(r, e.rs, e.re, true) == []
            && |e.prefix| + |e.suffix| > |m.prefix| + |m.suffix|
  {
  }

  // A side that is used up is the prefix and the suffix alone.
  lemma UsedUp(s: seq<Segment>, from: nat, end: nat, prefix: string, suffix: string)
    requires from <= end < |s| && Taken(s, from, end, true, prefix, suffix)
    ensures Glue(prefix, "", suffix) == Concat(s)
  {
    Parts(s, from, end, true, prefix, suffix);
    assert Rest(s, from, end, true) == [];
  }

  // The end of the matching on the left, when that side is used up.
  lemma EndsLeft(left: string, right: string, l: seq<Segment>, r: seq<Segment>, m: Match, e: Match)
    requires InRange(l, r, m) && InRange(l, r, e) && Concat(l) == left && NoEmpty(r)
    requires m.leftUsed && Taken(l, m.ls, m.le, true, m.prefix, m.suffix)
    requires e.leftUsed && !e.rightUsed && e.ls == e.le && Rest(l, e.ls, e.le, true) == []
    requires |e.prefix| + |e.suffix| > |m.prefix| + |m.suffix|
    ensures Rebuilds(Corrected(Texts(l, r, e), left, right), left, right) <==> left <= right
  {
    UsedUp(l, m.ls, m.le, m.prefix, m.suffix);
    TextsOneSided(l, r, e);
    ConcatNonEmpty(Rest(r, e.rs, e.re, false));
    OnlyRotation(Texts(l, r, e), left, right, m.prefix, m.suffix);
  }

  // A segment taken twice on a side that is used up makes its rebuilt text too long.
  lemma TwiceLeft(left: string, right: string, l: seq<Segment>, r: seq<Segment>, m: Match)
    requires InRange(l, r, m) && MatchInv(l, r, m) && Concat(l) == left && Concat(r) == right && NoEmpty(l) && NoEmpty(r)
    requires TakesTwice(l, r, m) && LastLeft(l, r, m)
    ensures Rebuilds(Corrected(Texts(l, r, Finish(l, r, m)), left, right), left, right) <==> left <= right
    ensures m.leftUsed && m.rs != m.re
  {
    LeftGrows(l, r, m);
    EndsLeft(left, right, l, r, m, Finish(l, r, m));
  }

  // With the left side used up and too long, only the rotation can make the split right.
  lemma OnlyRotation(d: Diff, left: string, right: string, prefix: string, suffix: string)
    requires d.left == [] && d.right != []
    requires Glue(prefix, "", suffix) == left && |d.prefix| + |d.suffix| > |prefix| + |suffix|
    ensures Rebuilds(Corrected(d, left, right), left, right) <==> left <= right
  {
    TooLong(left, d, prefix, suffix);
    RotationRebuilds(d, left, right);
  }

  // The rotation is right whenever it applies.
  lemma RotationRebuilds(d: Diff, left: string, right: string)
    requires d.left == [] && d.right != []
    ensures if left <= right then Rebuilds(Corrected(d, left, right), left, right) else Corrected(d, left, right) == d
  {
    if left <= right {
      assert Glue(left, "", "") == left && Glue(left, right[|left|..], "") == right;
    }
  }

  lemma EndsRight(left: string, right: string, l: seq<Segment>, r: seq<Segment>, m: Match, e: Match)
    requires InRange(l, r, m) && InRange(l, r, e) && Concat(r) == right && NoEmpty(l)
    requires m.rightUsed && Taken(r, m.rs, m.re, true, m.prefix, m.suffix)
    requires e.rightUsed && !e.leftUsed && e.rs == e.re && Rest(r, e.rs, e.re, true) == []
    requires |e.prefix| + |e.suffix| > |m.prefix| + |m.suffix|
    ensures !Rebuilds(Corrected(Texts(l, r, e), left, right), left, right)
  {
    UsedUp(r, m.rs, m.re, m.prefix, m.suffix);
    TextsOneSided(l, r, e);
    ConcatNonEmpty(Rest(l, e.ls, e.le, false));
    TooLong(right, Texts(l, r, e), m.prefix, m.suffix);
  }

  lemma TwiceRight(left: string, right: string, l: seq<Segment>, r: seq<Segment>, m: Match)
    requires InRange(l, r, m) && MatchInv(l, r, m) && Concat(l) == left && Concat(r) == right && NoEmpty(l) && NoEmpty(r)
    requires TakesTwice(l, r, m) && LastRight(l, r, m)
    ensures !Rebuilds(Corrected(Texts(l, r, Finish(l, r, m)), left, right), left, right)
    ensures !m.leftUsed
  {
    RightGrows(l, r, m);
    EndsRight(left, right, l, r, m, Finish(l, r, m));
  }

  // The last segment of both sides, already taken on one of them: both leftovers vanish.
  lemma TwiceBoth(left: string, right: string, l: seq<Segment>, r: seq<Segment>, m: Match)
    requires InRange(l, r, m) && MatchInv(l, r, m) && Concat(l) == left && Concat(r) == right && NoEmpty(l) && NoEmpty(r)
    requires TakesTwice(l, r, m) && LastBoth(l, r, m)
    ensures !Rebuilds(Corrected(Texts(l, r, Finish(l, r, m)), left, right), left, right)
    ensures !Repaired(left, right, m)
  {
    var e := Finish(l, r, m);
    assert Rest(l, e.ls, e.le, true) == [] && Rest(r, e.rs, e.re, true) == [];
    assert Texts(l, r, e).left == [] && Texts(l, r, e).right == [];
    assert Corrected(Texts(l, r, e), left, right) == Diff(left, "", "", "");
    Parts(l, m.ls, m.le, m.leftUsed, m.prefix, m.suffix);
    Parts(r, m.rs, m.re, m.rightUsed, m.prefix, m.suffix);
    if m.leftUsed {
      assert Rest(l, m.ls, m.le, true) == [] && Rest(r, m.rs, m.re, false) == [r[m.rs]];
      ConcatOne(r[m.rs]);
      assert |left| < |right|;
    } else {
      assert Rest(r, m.rs, m.re, true) == [] && Rest(l, m.ls, m.le, false) == [l[m.ls]];
      ConcatOne(l[m.ls]);
      assert |right| < |left|;
    }
  }

  // The condition under which calculate_diff_split loses text.
  predicate LosesText(left: string, right: string) {
    var l, r := Segments(left), Segments(right);
    l != [] && r != [] &&
    var m := Matched(l, r, Begin(l, r));
    TakesTwice(l, r, m) && !Repaired(left, right, m)
  }

  lemma StartInv(l: seq<Segment>, r: seq<Segment>)
    requires l != [] && r != []
    ensures MatchInv(l, r, Begin(l, r))
  {
  }

  /** Prefix, difference and suffix rebuild both texts, unless a branch after the loop fires
      on the side whose last segment the loop has taken, and the rotation does not repair it. */
  lemma SplitRebuildsIff(left: string, right: string)
    ensures Rebuilds(SplitOf(left, right), left, right) <==> !LosesText(left, right)
  {
    var l, r := Segments(left), Segments(right);
    SegmentsConcat(left, 0);
    SegmentsConcat(right, 0);
    if l != [] && r != [] {
      var m := Matched(l, r, Begin(l, r));
      StartInv(l, r);
      MatchedKeeps(l, r, Begin(l, r));
      if !TakesTwice(l, r, m) {
        TakenOnceRebuilds(left, right, l, r, m);
      } else if LastBoth(l, r, m) {
        TwiceBoth(left, right, l, r, m);
      } else if LastLeft(l, r, m) {
        TwiceLeft(left, right, l, r, m);
      } else {
        TwiceRight(left, right, l, r, m);
      }
    }
  }

  // ----- texts without repeated segments -----

  predicate NoRepeats(s: seq<Segment>) { forall i, j :: 0 <= i < j < |s| ==> s[i] != s[j] }

  lemma UniqueNeverTwice(l: seq<Segment>, r: seq<Segment>, m: Match)
    requires InRange(l, r, m) && MatchInv(l, r, m) && NoRepeats(l) && NoRepeats(r)
    ensures !TakesTwice(l, r, m)
  {
  }

  /** Without repeated segments on either side nothing is lost. */
  lemma UniqueRebuilds(left: string, right: string)
    requires NoRepeats(Segments(left)) && NoRepeats(Segments(right))
    ensures Rebuilds(SplitOf(left, right), left, right)
  {
    var l, r := Segments(left), Segments(right);
    if l != [] && r != [] {
      StartInv(l, r);
      MatchedKeeps(l, r, Begin(l, r));
      UniqueNeverTwice(l, r, Matched(l, r, Begin(l, r)));
    }
    SplitRebuildsIff(left, right);
  }

  // With them text can be lost: the shape of "<a><b>" against "<a><b><b>".
  lemma RepeatLoses(left: string, right: string, a: Segment, b: Segment)
    requires a != b && b.kind.MARKER?
    requires Segments(left) == [a, b] && Segments(right) == [a, b, b]
    ensures LosesText(left, right) && !Rebuilds(SplitOf(left, right), left, right)
  {
    var l, r := [a, b], [a, b, b];
    var m := Match(1, 1, 1, 1, true, false, "" + a.value, b.value + "");
    assert TakeBack(l, r, TakeFront(l, r, Begin(l, r))) == m;
    assert Matched(l, r, Begin(l, r)) == m;
    SplitRebuildsIff(left, right);
  }

  predicate TagAt(t: string, i: nat, c: char) {
    i + 3 <= |t| && t[i] == '<' && t[i + 1] == c && t[i + 2] == '>'
  }

  lemma ReadTag(t: string, i: nat, c: char)
    requires TagAt(t, i, c) && c != '>'
    ensures SegmentsFrom(t, i) == [Segment(MARKER, ['<', c, '>'])] + SegmentsFrom(t, i + 3)
  {
    assert FindCloser('<', t, i + 1) == i + 2;
    assert t[i..i + 3] == ['<', c, '>'];
  }

  lemma TagsLose(left: string, right: string)
    requires |left| == 6 && TagAt(left, 0, 'a') && TagAt(left, 3, 'b')
    requires |right| == 9 && TagAt(right, 0, 'a') && TagAt(right, 3, 'b') && TagAt(right, 6, 'b')
    ensures LosesText(left, right) && !Rebuilds(SplitOf(left, right), left, right)
  {
    ReadTag(left, 0, 'a');
    ReadTag(left, 3, 'b');
    ReadTag(right, 0, 'a');
    ReadTag(right, 3, 'b');
    ReadTag(right, 6, 'b');
    RepeatLoses(left, right, Segment(MARKER, ['<', 'a', '>']), Segment(MARKER, ['<', 'b', '>']));
  }
}
