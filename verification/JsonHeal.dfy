/** The healing of a truncated JSON text in common/json-partial.cpp: a completion is tried,
    and a different one, carrying the marker, is written. */
module JsonHeal {
  import opened Json
  import opened JsonLocator
  import opened JsonGuards

  // ----- what the source reads off the text -----

  // find_last_of, with -1 for "not found".
  function FindLastOf(s: string, chars: string): (r: int)
    ensures -1 <= r < |s|
    ensures r >= 0 ==> s[r] in chars
    ensures forall i :: r < i < |s| ==> s[i] !in chars
  {
    if s == [] then -1
    else if s[|s| - 1] in chars then |s| - 1
    else FindLastOf(s[..|s| - 1], chars)
  }

  // find_last_not_of, with -1 for "not found".
  function FindLastNotOf(s: string, chars: string): (r: int)
    ensures -1 <= r < |s|
    ensures r >= 0 ==> s[r] !in chars
    ensures forall i :: r < i < |s| ==> s[i] in chars
  {
    if s == [] then -1
    else if s[|s| - 1] !in chars then |s| - 1
    else FindLastNotOf(s[..|s| - 1], chars)
  }

  const Spaces := " \n\r\t"

  // std::isspace in the C locale.
  predicate IsSpace(c: char) {
    c == ' ' || c == '\n' || c == '\r' || c == '\t' || c == '\U{000B}' || c == '\U{000C}'
  }

  // Whether the text may stop inside a number.
  predicate WasMaybeNumber(str: string, lastNonSpace: char) {
    !(str != [] && IsSpace(str[|str| - 1])) &&
    (IsDigit(lastNonSpace) || lastNonSpace == '.' || lastNonSpace == 'e' || lastNonSpace == 'E' || lastNonSpace == '-')
  }

  // The text ends in `\u` and k - 2 hexadecimal digits.
  predicate EndsInEscape(str: string, k: nat)
    requires k >= 2
  {
    && |str| >= k
    && str[|str| - k] == '\\'
    && str[|str| - k + 1] == 'u'
    && (forall i :: |str| - k + 2 <= i < |str| ==> IsHex(str[i]))
  }

  // The length of the match of the partial-unicode regular expression, 0 for none.
  function PartialLen(str: string): (k: nat)
    ensures k <= |str| && (k == 0 || (2 <= k <= 6 && EndsInEscape(str, k)))
  {
    if EndsInEscape(str, 6) then 6
    else if EndsInEscape(str, 5) then 5
    else if EndsInEscape(str, 4) then 4
    else if EndsInEscape(str, 3) then 3
    else if EndsInEscape(str, 2) then 2
    else 0
  }

  predicate IsHighSurrogate(s: string) {
    && |s| >= 4 && s[0] == '\\' && s[1] == 'u'
    && (s[2] == 'd' || s[2] == 'D')
    && (s[3] == '8' || s[3] == '9' || s[3] == 'a' || s[3] == 'A' || s[3] == 'b' || s[3] == 'B')
  }

  // The text before the last escape ends in what looks like a high surrogate.
  predicate PreludeLooksHigh(str: string) {
    var prelude := str[..|str| - PartialLen(str)];
    var k := PartialLen(prelude);
    k > 0 && IsHighSurrogate(prelude[|prelude| - k..])
  }

  function Zeros(n: nat): (z: string)
    ensures |z| == n
  {
    seq(n, _ => '0')
  }

  // unicode_marker_padding
  function Padding(str: string): string {
    var k := PartialLen(str);
    if k == 0 then "udc00"
    else if IsHighSurrogate(str[|str| - k..]) then Zeros(6 - k) + "\\udc00"
    else if PreludeLooksHigh(str) && k == 2 then "dc00"
    else if PreludeLooksHigh(str) && k == 3 then "c00"
    else Zeros(6 - k)
  }

  // ----- from texts to recogniser states -----

  function Reached(str: string): State { Run(Init, str) }

  lemma Tried(str: string, x: string, closing: string)
    ensures Valid(str + x + closing) == Accepts(Reached(str), x + closing)
    ensures WellFormed(Reached(str))
  {
    RunConcat(Init, str, x + closing);
    assert str + x + closing == str + (x + closing);
    RunWellFormed(Init, str);
  }

  lemma Tried2(str: string, x: string, y: string, closing: string)
    ensures Valid(str + x + (y + closing)) == Accepts(Reached(str), x + y + closing)
    ensures Valid(str + x + (y + closing)) == Accepts(Reached(str + x), y + closing)
    ensures WellFormed(Reached(str))
  {
    assert str + x + (y + closing) == str + x + y + closing;
    Tried(str, x + y, closing);
    Tried(str + x, y, closing);
    assert str + (x + y) == str + x + y;
  }

  lemma NumberStep(s: State, c: char)
    requires Step(s, c).ctl.Num?
    ensures !IsWs(c) && c != ':' && c != ',' && c != '[' && c != '{'
    ensures IsComplete(Step(s, c).ctl.phase) ==> IsDigit(c)
  {
  }

  lemma EscStep(s: State, c: char)
    requires Step(s, c).ctl.Esc? || Step(s, c).ctl.HighEsc?
    ensures c == '\\'
  {
  }

  // The last character betrays numbers and escapes.
  lemma LastChar(str: string)
    requires str != []
    ensures var c := str[|str| - 1]; var ctl := Reached(str).ctl;
            && (ctl.Num? ==> !IsWs(c) && c != ':' && c != ',' && c != '[' && c != '{')
            && (ctl.Num? && IsComplete(ctl.phase) ==> IsDigit(c))
            && (ctl.Esc? || ctl.HighEsc? ==> c == '\\')
  {
    var init, c := str[..|str| - 1], str[|str| - 1];
    assert str == init + [c];
    RunSnoc(Init, init, c);
    if Reached(str).ctl.Num? { NumberStep(Reached(init), c); }
    if Reached(str).ctl.Esc? || Reached(str).ctl.HighEsc? { EscStep(Reached(init), c); }
  }

  // The last character that is not a space, in the same way.
  lemma LastNonSpaceChar(str: string, at: int)
    requires at == FindLastNotOf(str, Spaces) && at >= 0
    ensures var c := str[at];
            c == ':' || c == ',' || c == '[' || c == '{' ==> !Reached(str).ctl.Num? && !Reached(str).ctl.Esc?
  {
    LastChar(str);
    if at < |str| - 1 { assert str[|str| - 1] in Spaces; }
  }

  // ----- each guarded branch is sound -----

  lemma ValueBranch(str: string, m: string, closing: string)
    requires Marker(m) && IsClosing(closing) && Valid(str + "1" + closing) && !Reached(str).ctl.Num?
    ensures Valid(str + ("\"" + m) + ("\"" + closing))
  {
    Tried(str, "1", closing);
    OneGuard(Reached(str), closing);
    WriteString(Reached(str), m, closing);
    Tried2(str, "\"" + m, "\"", closing);
  }

  lemma ColonBranch(str: string, m: string, closing: string)
    requires Marker(m) && IsClosing(closing) && Valid(str + ": 1" + closing)
    ensures Valid(str + (":\"" + m) + ("\"" + closing))
  {
    Tried(str, ": 1", closing);
    ColonOneGuard(Reached(str), closing);
    WriteColonString(Reached(str), m, closing);
    Tried2(str, ":\"" + m, "\"", closing);
  }

  lemma BraceBranch(str: string, m: string, closing: string)
    requires Marker(m) && IsClosing(closing) && Valid(str + closing) && str != []
    requires var at := FindLastNotOf(str, Spaces); at >= 0 && str[at] == '{'
    ensures Valid(str + ("\"" + m) + ("\": 1" + closing))
  {
    Tried(str, "", closing);
    assert str + "" == str && "" + closing == closing;
    var s := Reached(str);
    ClosesOnlyValues(s, closing);
    OpenedByBrace(str);
    BraceGuard(s, closing);
    WriteKey(s, m, closing);
    Tried2(str, "\"" + m, "\": 1", closing);
  }

  lemma BraceStep(s: State, c: char)
    requires WellFormed(s) && (c == '{' || (c in Spaces && !Finished(s) && !s.ctl.ValueOrEnd?))
    ensures !Finished(Step(s, c)) && !Step(s, c).ctl.ValueOrEnd?
  {
    assert c in Spaces ==> c == ' ' || c == '\n' || c == '\r' || c == '\t';
  }

  // After an opening brace and spaces no value can be complete.
  lemma {:induction false} OpenedByBrace(str: string)
    requires var at := FindLastNotOf(str, Spaces); at >= 0 && str[at] == '{'
    ensures !Finished(Reached(str)) && !Reached(str).ctl.ValueOrEnd?
  {
    var init, c := str[..|str| - 1], str[|str| - 1];
    assert str == init + [c];
    RunSnoc(Init, init, c);
    RunWellFormed(Init, init);
    if c in Spaces { OpenedByBrace(init); }
    BraceStep(Reached(init), c);
  }

  lemma QuoteBranch(str: string, pad: string, m: string, closing: string)
    requires Marker(m) && IsClosing(closing) && Valid(str + pad + "\"" + closing)
    ensures Valid(str + (pad + m) + ("\"" + closing))
  {
    Tried(str + pad, "\"", closing);
    QuoteGuard(Reached(str + pad), closing);
    WriteStringTail(Reached(str + pad), m, closing);
    Tried2(str + pad, m, "\"", closing);
    assert str + pad + m == str + (pad + m);
  }

  lemma OpenBranch(str: string, m: string, closing: string)
    requires Marker(m) && IsClosing(closing)
    ensures Valid(str + "\"" + closing) ==> Valid(str + ("" + m) + ("\"" + closing))
    ensures Valid(str + "\": 1" + closing) ==> Valid(str + ("" + m) + ("\": 1" + closing))
  {
    assert str + "" == str && "" + m == m;
    if Valid(str + "\"" + closing) { QuoteBranch(str, "", m, closing); }
    if Valid(str + "\": 1" + closing) { KeyTailBranch(str, "", m, closing); }
  }

  lemma EscapeBranch(str: string, m: string, closing: string)
    requires Marker(m) && IsClosing(closing)
    ensures Valid(str + "\\\"" + closing) ==> Valid(str + ("\\" + m) + ("\"" + closing))
    ensures Valid(str + "\\\": 1" + closing) ==> Valid(str + ("\\" + m) + ("\": 1" + closing))
  {
    assert str + "\\\"" + closing == str + "\\" + "\"" + closing;
    assert str + "\\\": 1" + closing == str + "\\" + "\": 1" + closing;
    if Valid(str + "\\\"" + closing) { QuoteBranch(str, "\\", m, closing); }
    if Valid(str + "\\\": 1" + closing) { KeyTailBranch(str, "\\", m, closing); }
  }

  lemma KeyTailBranch(str: string, pad: string, m: string, closing: string)
    requires Marker(m) && IsClosing(closing) && Valid(str + pad + "\": 1" + closing)
    ensures Valid(str + (pad + m) + ("\": 1" + closing))
  {
    Tried(str + pad, "\": 1", closing);
    KeyTailGuard(Reached(str + pad), closing);
    WriteKeyTail(Reached(str + pad), m, closing);
    Tried2(str + pad, m, "\": 1", closing);
    assert str + pad + m == str + (pad + m);
  }

  lemma CommaBranch(str: string, m: string, closing: string)
    requires Marker(m) && IsClosing(closing) && Valid(str + ", 1" + closing)
    ensures Valid(str + (",\"" + m) + ("\"" + closing))
  {
    Tried(str, ", 1", closing);
    CommaOneGuard(Reached(str), closing);
    WriteCommaString(Reached(str), m, closing);
    Tried2(str, ",\"" + m, "\"", closing);
  }

  lemma EmptyKeyBranch(str: string, m: string, closing: string)
    requires Marker(m) && IsClosing(closing) && Valid(str + "\"\": 1" + closing) && !Reached(str).ctl.Esc?
    ensures Valid(str + ("\"" + m) + ("\": 1" + closing))
  {
    Tried(str, "\"\": 1", closing);
    EmptyKeyGuard(Reached(str), closing);
    WriteKey(Reached(str), m, closing);
    Tried2(str, "\"" + m, "\": 1", closing);
  }

  lemma CommaKeyBranch(str: string, m: string, closing: string)
    requires Marker(m) && IsClosing(closing) && Valid(str + ",\"\": 1" + closing)
    ensures Valid(str + (",\"" + m) + ("\": 1" + closing))
  {
    Tried(str, ",\"\": 1", closing);
    CommaKeyGuard(Reached(str), closing);
    WriteCommaKey(Reached(str), m, closing);
    Tried2(str, ",\"" + m, "\": 1", closing);
  }

  // ----- where a truncated text may stop -----

  // A proper prefix of some JSON text.
  ghost predicate Truncated(str: string) {
    !Valid(str) && exists t :: Valid(str + t)
  }

  // The text stops in a number or a literal name, or just after true or false, which
  // the source cannot tell from a number in exponent notation.
  predicate StopsInToken(str: string) {
    var ctl := Reached(str).ctl;
    ctl.Lit? || ctl.Num? || (ctl.After? && str != [] && str[|str| - 1] == 'e')
  }

  // The text stops in a \uXXXX escape that no high surrogate precedes, but plain text that
  // looks like one (an escaped backslash, then u, d and so on) does.
  predicate FalseHighSurrogate(str: string) {
    var ctl := Reached(str).ctl;
    ctl.Hex? && !ctl.afterHigh && (ctl.n == 0 || (ctl.n == 1 && ctl.kind.Dee?)) && PreludeLooksHigh(str)
  }

  predicate IsDead(ctl: Ctl) {
    ctl.Hex? &&
    if ctl.afterHigh then (ctl.n == 1 && !ctl.kind.Dee?) || (ctl.n >= 2 && !ctl.kind.Low?)
    else ctl.n >= 2 && ctl.kind.Low?
  }

  lemma {:induction false} DeadNeverAccepts(s: State, t: string)
    requires IsDead(s.ctl) && WellFormed(s)
    ensures !Accepts(s, t)
    decreases |t|
  {
    if t != [] {
      var next := Step(s, t[0]);
      StepWellFormed(s, t[0]);
      if next.ctl.Err? { RunFailed(next, t[1..]); } else { DeadNeverAccepts(next, t[1..]); }
    }
  }

  lemma TruncatedIsAlive(str: string)
    requires Truncated(str)
    ensures !Reached(str).ctl.Err? && !IsDead(Reached(str).ctl) && WellFormed(Reached(str)) && !Valid(str)
  {
    RunWellFormed(Init, str);
    var t :| Valid(str + t);
    RunConcat(Init, str, t);
    if Reached(str).ctl.Err? { RunFailed(Reached(str), t); }
    if IsDead(Reached(str).ctl) { DeadNeverAccepts(Reached(str), t); }
  }

  // Position p holds the character that opened the value which str stops in or before.
  predicate OpensAt(str: string, p: nat) {
    var s := Reached(str);
    && p < |str| && s.stack != []
    && (var s0 := Reached(str[..p + 1]);
        s0.stack == s.stack && (s0.ctl.Value? || s0.ctl.ValueOrEnd?))
    && (if Top(s.stack).Obj? then str[p] == ':' else str[p] == '[' || str[p] == ',')
    && (forall i :: p < i < |str| ==> str[i] != ':' && str[i] != '[' && str[i] != ',')
  }

  lemma OpensAtSnoc(init: string, c: char, p: nat)
    requires OpensAt(init, p) && Reached(init + [c]).stack == Reached(init).stack
    requires c != ':' && c != '[' && c != ','
    ensures OpensAt(init + [c], p)
  {
    assert (init + [c])[..p + 1] == init[..p + 1];
  }

  predicate InToken(ctl: Ctl) { ctl.Lit? || ctl.Num? }

  lemma TokenStep(s: State, c: char)
    requires WellFormed(s) && (InToken(Step(s, c).ctl) || (Step(s, c).ctl.After? && c == 'e'))
    ensures (InToken(s.ctl) || AtValue(s.ctl)) && Step(s, c).stack == s.stack
    ensures c != ':' && c != '[' && c != ','
  {
  }

  lemma ValueStep(s: State, c: char)
    requires WellFormed(s) && AtValue(Step(s, c).ctl) && Step(s, c).stack != []
    ensures IsWs(c) ==> s == Step(s, c)
    ensures !IsWs(c) ==> if Top(Step(s, c).stack).Obj? then c == ':' else c == '[' || c == ','
  {
  }

  lemma {:induction false} Opens(str: string) returns (p: nat)
    requires Reached(str).stack != []
    requires StopsInToken(str) || AtValue(Reached(str).ctl)
    ensures OpensAt(str, p)
    ensures AtValue(Reached(str).ctl) ==> forall i :: p < i < |str| ==> IsWs(str[i])
  {
    var init, c := str[..|str| - 1], str[|str| - 1];
    assert str == init + [c];
    RunSnoc(Init, init, c);
    RunWellFormed(Init, init);
    if AtValue(Reached(str).ctl) {
      ValueStep(Reached(init), c);
      if IsWs(c) {
        p := Opens(init);
        OpensAtSnoc(init, c, p);
      } else {
        p := |str| - 1;
        assert str[..p + 1] == str;
      }
    } else {
      TokenStep(Reached(init), c);
      p := Opens(init);
      OpensAtSnoc(init, c, p);
    }
  }

  // The opening character that the source cuts back to.
  function Openers(stack: seq<Container>): string {
    if stack != [] && Top(stack).Arr? then "[," else ":"
  }

  // Cutting back to it and writing the marker as the value gives a JSON text.
  lemma CutBack(str: string, m: string)
    requires Reached(str).stack != [] && StopsInToken(str) && Marker(m)
    ensures var stack := Reached(str).stack; var p := FindLastOf(str, Openers(stack));
            p >= 0 && Valid(str[..p + 1] + ("\"" + m) + ("\"" + Closers(stack)))
  {
    var stack := Reached(str).stack;
    var q := Opens(str);
    var p := FindLastOf(str, Openers(stack));
    assert q == p;
    ClosersAreClosing(stack);
    ClosingIsUnique(stack, Closers(stack));
    WriteString(Reached(str[..p + 1]), m, Closers(stack));
    Tried2(str[..p + 1], "\"" + m, "\"", Closers(stack));
  }

  // ----- the padding completes every unicode escape -----

  function KindOf(digits: string): Kind {
    if digits == [] then Plain
    else NextKind(|digits| - 1, KindOf(digits[..|digits| - 1]), digits[|digits| - 1])
  }

  lemma HexBack(s: State, c: char)
    requires WellFormed(s) && Step(s, c).ctl.Hex?
    ensures var ctl := Step(s, c).ctl;
            if ctl.n == 0 then
              c == 'u' && s.ctl == if ctl.afterHigh then HighEsc(ctl.isKey) else Esc(ctl.isKey)
            else
              IsHex(c) && s.ctl.Hex? && s.ctl.n == ctl.n - 1 && ctl.kind == NextKind(s.ctl.n, s.ctl.kind, c) &&
              s.ctl.isKey == ctl.isKey && s.ctl.afterHigh == ctl.afterHigh
  {
  }

  lemma EscBack(s: State, c: char)
    requires WellFormed(s)
    ensures Step(s, c).ctl.Esc? ==> c == '\\' && s.ctl == Str(Step(s, c).ctl.isKey)
    ensures Step(s, c).ctl.HighEsc? ==> c == '\\' && s.ctl == HighDone(Step(s, c).ctl.isKey)
  {
  }

  // The text ends in the characters of the escape that the recogniser is in.
  predicate HexEnd(str: string, ctl: Ctl) {
    && ctl.Hex? && EndsInEscape(str, ctl.n + 2)
    && KindOf(str[|str| - ctl.n..]) == ctl.kind
    && Reached(str[..|str| - ctl.n - 2]).ctl == (if ctl.afterHigh then HighDone(ctl.isKey) else Str(ctl.isKey))
  }

  lemma HexEndSnoc(init: string, c: char, ctl: Ctl)
    requires HexEnd(init, ctl) && IsHex(c)
    ensures HexEnd(init + [c], ctl.(n := ctl.n + 1, kind := NextKind(ctl.n, ctl.kind, c)))
  {
    var str, n := init + [c], ctl.n + 1;
    var digits := str[|str| - n..];
    assert digits[..n - 1] == init[|init| - (n - 1)..];
    assert str[..|str| - n - 2] == init[..|init| - ctl.n - 2];
  }

  lemma HexEndStart(str: string, ctl: Ctl)
    requires ctl.Hex? && ctl.n == 0 && ctl.kind == Plain
    requires |str| >= 2 && str[|str| - 1] == 'u' && str[|str| - 2] == '\\'
    requires Reached(str[..|str| - 2]).ctl == (if ctl.afterHigh then HighDone(ctl.isKey) else Str(ctl.isKey))
    ensures HexEnd(str, ctl)
  {
    assert str[|str|..] == [];
    assert |str| - 0 - 2 == |str| - 2;
  }

  lemma {:induction false} HexTail(str: string)
    requires Reached(str).ctl.Hex?
    ensures HexEnd(str, Reached(str).ctl)
  {
    var init, c := str[..|str| - 1], str[|str| - 1];
    assert str == init + [c];
    RunSnoc(Init, init, c);
    RunWellFormed(Init, str);
    RunWellFormed(Init, init);
    HexBack(Reached(init), c);
    if Reached(str).ctl.n == 0 {
      assert init != [];
      var init2, c2 := init[..|init| - 1], init[|init| - 1];
      assert init == init2 + [c2];
      RunSnoc(Init, init2, c2);
      RunWellFormed(Init, init2);
      EscBack(Reached(init2), c2);
      assert str[..|str| - 2] == init2;
      HexEndStart(str, Reached(str).ctl);
    } else {
      HexTail(init);
      HexEndSnoc(init, c, Reached(init).ctl);
    }
  }

  lemma HighBack(s: State, c: char)
    requires WellFormed(s) && Step(s, c).ctl.HighDone?
    ensures s.ctl.Hex? && s.ctl.n == 3 && s.ctl.kind == High && IsHex(c)
  {
  }

  lemma HighTail(str: string)
    requires Reached(str).ctl.HighDone?
    ensures EndsInEscape(str, 6) && KindOf(str[|str| - 4..]) == High
  {
    var init, c := str[..|str| - 1], str[|str| - 1];
    assert str == init + [c];
    RunSnoc(Init, init, c);
    RunWellFormed(Init, init);
    HighBack(Reached(init), c);
    HexTail(init);
    HexEndSnoc(init, c, Reached(init).ctl);
  }

  // An escape is matched at one length only.
  lemma EscapeLength(str: string, k: nat)
    requires 2 <= k <= 6 && EndsInEscape(str, k)
    ensures PartialLen(str) == k
  {
  }

  lemma KindIsHigh(e: string)
    requires 2 <= |e| <= 6 && e[0] == '\\' && e[1] == 'u' && (forall i :: 2 <= i < |e| ==> IsHex(e[i]))
    ensures IsHighSurrogate(e) <==> KindOf(e[2..]) == High
  {
    var d := e[2..];
    if |d| >= 1 { KindOfPrefix(d, 1); assert KindOf(d[..1]) == NextKind(0, KindOf([]), d[0]) by { assert d[..1][..0] == []; } }
    if |d| >= 2 {
      KindOfPrefix(d, 2);
      assert d[..2][..1] == d[..1];
      assert e[2] == d[0] && e[3] == d[1];
    }
  }

  // The kind is settled by two digits.
  lemma {:induction false} KindOfPrefix(d: string, n: nat)
    requires n == 1 || n == 2
    requires |d| >= n
    ensures n == 2 ==> KindOf(d) == KindOf(d[..2])
    ensures n == 1 && |d| == 1 ==> KindOf(d) == KindOf(d[..1])
  {
    if |d| == n {
      assert d[..n] == d;
    } else if n == 2 {
      KindOfPrefix(d[..|d| - 1], 2);
      assert d[..|d| - 1][..2] == d[..2];
    }
  }

  // ----- the paddings, read from the states they are meant for -----

  lemma ReadC00(key: bool, stack: seq<Container>)
    ensures Run(State(Hex(key, true, 1, Dee), stack), "c00") == State(Str(key), stack)
  {
    assert "c00"[1..] == "00" && "00"[1..] == "0" && "0"[1..] == "";
    var s2 := State(Hex(key, true, 2, Low), stack);
    var s3 := State(Hex(key, true, 3, Low), stack);
    assert Run(s3, "0") == Run(State(Str(key), stack), "");
    assert Run(s2, "00") == Run(s3, "0");
  }

  lemma ReadUdc00(key: bool, stack: seq<Container>)
    ensures Run(State(Hex(key, true, 0, Plain), stack), "dc00") == State(Str(key), stack)
    ensures Run(State(HighEsc(key), stack), "udc00") == State(Str(key), stack)
    ensures Run(State(HighDone(key), stack), "\\udc00") == State(Str(key), stack)
  {
    ReadC00(key, stack);
    assert "\\udc00"[1..] == "udc00" && "udc00"[1..] == "dc00" && "dc00"[1..] == "c00";
    assert Run(State(Hex(key, true, 0, Plain), stack), "dc00") == Run(State(Hex(key, true, 1, Dee), stack), "c00");
    assert Run(State(HighEsc(key), stack), "udc00") == Run(State(Hex(key, true, 0, Plain), stack), "dc00");
  }

  // What the four digits of an escape lead to.
  function HexDone(ctl: Ctl): Ctl
    requires ctl.Hex?
  {
    if ctl.afterHigh then if ctl.kind.Low? then Str(ctl.isKey) else Err
    else if ctl.kind.High? then HighDone(ctl.isKey)
    else if ctl.kind.Low? then Err
    else Str(ctl.isKey)
  }

  lemma {:induction false} ReadZeros(s: State, n: nat)
    requires WellFormed(s) && s.ctl.Hex? && s.ctl.n + n == 4
    ensures Run(s, Zeros(n)) == Of(HexDone(s.ctl.(kind := if s.ctl.kind.Dee? then Plain else s.ctl.kind)), s.stack)
    decreases n
  {
    assert Zeros(n)[1..] == Zeros(n - 1);
    if n > 1 { ReadZeros(Step(s, '0'), n - 1); }
  }

  // After a real high surrogate the text before the escape looks like one.
  lemma LooksHighAfterHigh(str: string)
    requires HexEnd(str, Reached(str).ctl) && Reached(str).ctl.afterHigh
    requires PartialLen(str) == Reached(str).ctl.n + 2
    ensures PreludeLooksHigh(str)
  {
    var prelude := str[..|str| - PartialLen(str)];
    HighTail(prelude);
    EscapeLength(prelude, 6);
    var e := prelude[|prelude| - 6..];
    assert e[2..] == prelude[|prelude| - 4..];
    KindIsHigh(e);
  }

  // The padding, by what the recogniser knows about the escape.
  function PaddingFor(k: nat, kind: Kind, looksHigh: bool): string
    requires 2 <= k <= 6
  {
    if kind.High? then Zeros(6 - k) + "\\udc00"
    else if looksHigh && k == 2 then "dc00"
    else if looksHigh && k == 3 then "c00"
    else Zeros(6 - k)
  }

  lemma PaddingIs(str: string, k: nat, kind: Kind)
    requires 2 <= k <= 6 && EndsInEscape(str, k) && KindOf(str[|str| - k + 2..]) == kind
    ensures PartialLen(str) == k && Padding(str) == PaddingFor(k, kind, PreludeLooksHigh(str))
  {
    EscapeLength(str, k);
    var e := str[|str| - k..];
    assert e[2..] == str[|str| - k + 2..];
    KindIsHigh(e);
  }

  lemma HexPads(s: State, looksHigh: bool)
    requires WellFormed(s) && s.ctl.Hex? && !IsDead(s.ctl) && (s.ctl.afterHigh ==> looksHigh)
    requires !(looksHigh && !s.ctl.afterHigh && (s.ctl.n == 0 || (s.ctl.n == 1 && s.ctl.kind.Dee?)))
    ensures Run(s, PaddingFor(s.ctl.n + 2, s.ctl.kind, looksHigh)) == State(Str(s.ctl.isKey), s.stack)
  {
    var zeros := Zeros(4 - s.ctl.n);
    ReadZeros(s, 4 - s.ctl.n);
    if s.ctl.kind.High? {
      ReadUdc00(s.ctl.isKey, s.stack);
      RunConcat(s, zeros, "\\udc00");
    } else if looksHigh && s.ctl.n == 0 {
      ReadUdc00(s.ctl.isKey, s.stack);
    } else if looksHigh && s.ctl.n == 1 {
      if s.ctl.afterHigh { ReadC00(s.ctl.isKey, s.stack); } else { ReadPlainC00(s); }
    }
  }

  lemma ReadPlainC00(s: State)
    requires s.ctl.Hex? && !s.ctl.afterHigh && s.ctl.n == 1 && s.ctl.kind.Plain?
    ensures Run(s, "c00") == State(Str(s.ctl.isKey), s.stack)
  {
    assert "c00"[1..] == "00" && "00"[1..] == "0" && "0"[1..] == "";
    var s2 := s.(ctl := s.ctl.(n := 2));
    var s3 := s.(ctl := s.ctl.(n := 3));
    assert Run(s3, "0") == Run(State(Str(s.ctl.isKey), s.stack), "");
    assert Run(s2, "00") == Run(s3, "0");
  }

  lemma HighEscPads(str: string)
    requires Reached(str).ctl.HighEsc?
    ensures Padding(str) == "udc00"
  {
    if str != [] { LastChar(str); }
    assert PartialLen(str) == 0;
  }

  lemma HighDonePads(str: string)
    requires Reached(str).ctl.HighDone?
    ensures Padding(str) == "\\udc00"
  {
    HighTail(str);
    PaddingIs(str, 6, High);
    assert Zeros(0) + "\\udc00" == "\\udc00";
  }

  lemma HexPadding(str: string)
    requires Reached(str).ctl.Hex? && !IsDead(Reached(str).ctl) && !FalseHighSurrogate(str)
    ensures Run(Reached(str), Padding(str)) == State(Str(Reached(str).ctl.isKey), Reached(str).stack)
  {
    var s := Reached(str);
    RunWellFormed(Init, str);
    HexTail(str);
    PaddingIs(str, s.ctl.n + 2, s.ctl.kind);
    if s.ctl.afterHigh { LooksHighAfterHigh(str); }
    HexPads(s, PreludeLooksHigh(str));
  }

  // The padding finishes the escape that the text stops in.
  lemma PaddingCompletes(str: string)
    requires var ctl := Reached(str).ctl; ctl.Hex? || ctl.HighDone? || ctl.HighEsc?
    requires !IsDead(Reached(str).ctl) && !FalseHighSurrogate(str)
    ensures Reached(str + Padding(str)) == State(Str(Reached(str).ctl.isKey), Reached(str).stack)
  {
    var s := Reached(str);
    RunConcat(Init, str, Padding(str));
    if s.ctl.Hex? {
      HexPadding(str);
    } else {
      ReadUdc00(s.ctl.isKey, s.stack);
      if s.ctl.HighEsc? { HighEscPads(str); } else { HighDonePads(str); }
    }
  }

  // ----- some guard holds wherever a text may stop outside a token -----

  predicate LooksBack(str: string) { str != [] && str[|str| - 1] == '\\' }

  predicate LastIs(str: string, chars: string) {
    var at := FindLastNotOf(str, Spaces);
    at >= 0 && str[at] in chars
  }

  lemma WsIsSpace(c: char)
    ensures c in Spaces <==> IsWs(c)
  {
    assert Spaces[0] == ' ' && Spaces[1] == '\n' && Spaces[2] == '\r' && Spaces[3] == '\t';
  }

  lemma ValueReady(str: string, closing: string)
    requires AtValue(Reached(str).ctl) && Reached(str).stack != []
    requires IsClosing(closing) && CanClose(Reached(str), closing)
    ensures Valid(str + "1" + closing)
    ensures LastIs(str, if Top(Reached(str).stack).Obj? then ":" else ",[")
  {
    var s := Reached(str);
    Tried(str, "1", closing);
    WriteOne(s, closing);
    var p := Opens(str);
    WsIsSpace(str[p]);
    forall i | p < i < |str| ensures str[i] in Spaces { WsIsSpace(str[i]); }
    assert FindLastNotOf(str, Spaces) == p;
  }

  lemma KeyStep(s: State, c: char)
    requires WellFormed(s) && (Step(s, c).ctl.Key? || Step(s, c).ctl.KeyOrEnd?)
    ensures if IsWs(c) then s == Step(s, c) else c == if Step(s, c).ctl.Key? then ',' else '{'
  {
  }

  lemma {:induction false} KeyOpens(str: string)
    requires Reached(str).ctl.Key? || Reached(str).ctl.KeyOrEnd?
    ensures LastIs(str, if Reached(str).ctl.Key? then "," else "{")
  {
    var init, c := str[..|str| - 1], str[|str| - 1];
    assert str == init + [c];
    RunSnoc(Init, init, c);
    RunWellFormed(Init, init);
    KeyStep(Reached(init), c);
    WsIsSpace(c);
    if IsWs(c) { KeyOpens(init); }
  }

  lemma KeyReady(str: string, closing: string)
    requires IsClosing(closing) && CanClose(Reached(str), closing)
    ensures Reached(str).ctl.Key? ==> Valid(str + "\"\": 1" + closing)
    ensures Reached(str).ctl.KeyOrEnd? && WellFormed(Reached(str)) && closing == Closers(Reached(str).stack) ==>
              Valid(str + closing)
  {
    var s := Reached(str);
    if s.ctl.Key? {
      Tried(str, "\"\": 1", closing);
      WriteKey(s, "", closing);
      assert "\"" + "" + "\": 1" == "\"\": 1";
    } else if s.ctl.KeyOrEnd? && WellFormed(s) && closing == Closers(s.stack) {
      Tried(str, "", closing);
      assert str + "" == str && "" + closing == closing;
    }
  }

  lemma StringReady(str: string, x: string, closing: string)
    requires Reached(str + x).ctl.Str? && IsClosing(closing) && CanClose(Reached(str + x), closing)
    ensures if Reached(str + x).ctl.isKey then Valid(str + x + "\": 1" + closing) else Valid(str + x + "\"" + closing)
  {
    var s := Reached(str + x);
    if s.ctl.isKey {
      Tried(str + x, "\": 1", closing);
      WriteKeyTail(s, "", closing);
      assert "" + "\": 1" == "\": 1";
    } else {
      Tried(str + x, "\"", closing);
      WriteStringTail(s, "", closing);
      assert "" + "\"" == "\"";
    }
  }

  // In an open string: closing it, finishing the escape or padding it succeeds.
  lemma OpenStringReady(str: string, closing: string)
    requires IsStr(Reached(str).ctl) && !IsDead(Reached(str).ctl) && !FalseHighSurrogate(str)
    requires IsClosing(closing) && CanClose(Reached(str), closing)
    ensures var tail := if Reached(str).ctl.isKey then "\": 1" else "\"";
            || Valid(str + tail + closing)
            || (LooksBack(str) && Valid(str + ("\\" + tail) + closing))
            || Valid(str + Padding(str) + tail + closing)
  {
    var s := Reached(str);
    if s.ctl.Str? {
      assert str + "" == str;
      StringReady(str, "", closing);
    } else if s.ctl.Esc? {
      if str == [] { assert false; }
      LastChar(str);
      RunSnoc(Init, str, '\\');
      StringReady(str, "\\", closing);
      var tail := if s.ctl.isKey then "\": 1" else "\"";
      assert str + ("\\" + tail) + closing == str + "\\" + tail + closing;
    } else {
      PaddingCompletes(str);
      StringReady(str, Padding(str), closing);
    }
  }

  lemma AfterStep(s: State, c: char)
    requires WellFormed(s) && Step(s, c).ctl.After?
    ensures IsWs(c) || c == '"' || IsCloser(c) || c == 'e' || c == 'l'
  {
  }

  lemma AfterIsNoNumber(str: string)
    requires Reached(str).ctl.After? && !StopsInToken(str)
    ensures var at := FindLastNotOf(str, Spaces); at >= 0 ==> !WasMaybeNumber(str, str[at])
  {
    if str != [] {
      var init, c := str[..|str| - 1], str[|str| - 1];
      assert str == init + [c];
      RunSnoc(Init, init, c);
      RunWellFormed(Init, init);
      AfterStep(Reached(init), c);
      WsIsSpace(c);
    }
  }

  lemma AfterReady(str: string, closing: string)
    requires Reached(str).ctl.After? && Reached(str).stack != [] && !StopsInToken(str)
    requires IsClosing(closing) && CanClose(Reached(str), closing)
    ensures if Top(Reached(str).stack).Obj? then Valid(str + ",\"\": 1" + closing) else Valid(str + ", 1" + closing)
  {
    var s := Reached(str);
    if Top(s.stack).Obj? {
      Tried(str, ",\"\": 1", closing);
      WriteCommaKey(s, "", closing);
      assert ",\"" + "" + "\": 1" == ",\"\": 1";
    } else {
      Tried(str, ", 1", closing);
      Peel(s, ", 1", closing);
      assert ", 1"[1..] == " 1";
      WriteOne(State(Value, s.stack), closing);
    }
  }

  lemma ColonReady(str: string, closing: string)
    requires Reached(str).ctl.Colon? && IsClosing(closing) && CanClose(Reached(str), closing)
    ensures Valid(str + ": 1" + closing)
  {
    var s := Reached(str);
    Tried(str, ": 1", closing);
    WriteColonOne(s, closing);
  }

  // ----- the guards of the three branches, and what they promise together -----

  predicate KeyGuards(str: string, closing: string) {
    || (LastIs(str, ":") && Valid(str + "1" + closing))
    || Valid(str + ": 1" + closing)
    || (LastIs(str, "{") && Valid(str + closing))
    || Valid(str + "\"" + closing)
    || (LooksBack(str) && Valid(str + "\\\"" + closing))
    || Valid(str + Padding(str) + "\"" + closing)
  }

  predicate ArrayGuards(str: string, closing: string) {
    var at := FindLastNotOf(str, Spaces);
    || (LastIs(str, ",[") && Valid(str + "1" + closing))
    || Valid(str + "\"" + closing)
    || (LooksBack(str) && Valid(str + "\\\"" + closing))
    || Valid(str + Padding(str) + "\"" + closing)
    || (at >= 0 && !WasMaybeNumber(str, str[at]) && Valid(str + ", 1" + closing))
  }

  predicate ObjectGuards(str: string, closing: string) {
    var at := FindLastNotOf(str, Spaces);
    || (LastIs(str, "{") && Valid(str + closing))
    || (LastIs(str, ",") && Valid(str + "\"\": 1" + closing))
    || (at >= 0 && !WasMaybeNumber(str, str[at]) && Valid(str + ",\"\": 1" + closing))
    || Valid(str + "\": 1" + closing)
    || (LooksBack(str) && Valid(str + "\\\": 1" + closing))
    || Valid(str + Padding(str) + "\": 1" + closing)
  }

  predicate GuardsFor(top: Element, str: string, closing: string) {
    match top
    case KeyEl => KeyGuards(str, closing)
    case ArrayEl => ArrayGuards(str, closing)
    case ObjectEl => ObjectGuards(str, closing)
  }

  // Some completion that the healer tries is accepted.
  predicate SomeGuard(str: string, stack: seq<Element>) {
    && stack != [] && FindLastNotOf(str, Spaces) >= 0
    && GuardsFor(stack[|stack| - 1], str, ClosingOf(stack))
  }

  lemma {:induction false} NoQuoteNoString(s: State, t: string)
    requires !IsStr(s.ctl) && '"' !in t
    ensures !IsStr(Run(s, t).ctl)
    decreases |t|
  {
    if t != [] { NoQuoteNoString(Step(s, t[0]), t[1..]); }
  }

  // Text written after a number or literal name cannot be inside a string.
  lemma TokenIsNoString(str: string, pad: string, closing: string)
    requires !IsStr(Reached(str).ctl) && '"' !in pad && IsClosing(closing)
    ensures !Valid(str + pad + "\"" + closing) && !Valid(str + pad + "\": 1" + closing)
  {
    RunConcat(Init, str, pad);
    NoQuoteNoString(Reached(str), pad);
    Tried(str + pad, "\"", closing);
    Tried(str + pad, "\": 1", closing);
    if Valid(str + pad + "\"" + closing) { QuoteGuard(Reached(str + pad), closing); }
    if Valid(str + pad + "\": 1" + closing) { KeyTailGuard(Reached(str + pad), closing); }
  }

  lemma TokenLooksLikeNumber(str: string)
    requires StopsInToken(str) && Finished(Reached(str)) && str != []
    ensures var at := FindLastNotOf(str, Spaces); at == |str| - 1 && WasMaybeNumber(str, str[at])
  {
    LastChar(str);
    WsIsSpace(str[|str| - 1]);
  }

  // The bare completions, tried after a number or literal name, are all refused.
  lemma TokenRefuses(str: string, closing: string)
    requires StopsInToken(str) && IsClosing(closing) && str != []
    ensures !Valid(str + ": 1" + closing)
    ensures var at := FindLastNotOf(str, Spaces);
            at >= 0 && !WasMaybeNumber(str, str[at]) ==>
              !Valid(str + ", 1" + closing) && !Valid(str + ",\"\": 1" + closing)
    ensures LastIs(str, ":") || LastIs(str, ",[") ==> !Valid(str + "1" + closing)
    ensures LastIs(str, ",") ==> !Valid(str + "\"\": 1" + closing)
    ensures LastIs(str, "{") ==> !Valid(str + closing)
  {
    var s := Reached(str);
    RunWellFormed(Init, str);
    Tried(str, ": 1", closing);
    Tried(str, ", 1", closing);
    Tried(str, "1", closing);
    Tried(str, ",\"\": 1", closing);
    Tried(str, "\"\": 1", closing);
    Tried(str, "", closing);
    assert str + "" == str && "" + closing == closing;
    if Valid(str + ": 1" + closing) { ColonOneGuard(s, closing); }
    if Finished(s) { TokenLooksLikeNumber(str); }
    if Valid(str + ", 1" + closing) { CommaOneGuard(s, closing); }
    if Valid(str + ",\"\": 1" + closing) { CommaKeyGuard(s, closing); }
    var at := FindLastNotOf(str, Spaces);
    if at >= 0 {
      LastNonSpaceChar(str, at);
      if Valid(str + "1" + closing) && !s.ctl.Num? { OneGuard(s, closing); }
      if Valid(str + "\"\": 1" + closing) { EmptyKeyGuard(s, closing); }
      if LastIs(str, "{") && Valid(str + closing) {
        OpenedByBrace(str);
        ClosesOnlyValues(s, closing);
      }
    }
  }

  lemma TokenRefusesQuotes(str: string, closing: string)
    requires StopsInToken(str) && IsClosing(closing)
    ensures !Valid(str + "\"" + closing) && !Valid(str + "\": 1" + closing)
    ensures !Valid(str + "\\\"" + closing) && !Valid(str + "\\\": 1" + closing)
    ensures !Valid(str + Padding(str) + "\"" + closing) && !Valid(str + Padding(str) + "\": 1" + closing)
  {
    assert str + "" == str;
    assert str + "\\\"" + closing == str + "\\" + "\"" + closing;
    assert str + "\\\": 1" + closing == str + "\\" + "\": 1" + closing;
    TokenIsNoString(str, "", closing);
    TokenIsNoString(str, "\\", closing);
    TokenIsNoString(str, Padding(str), closing);
  }

  lemma TokenMeetsNoGuard(str: string, stack: seq<Element>)
    requires StopsInToken(str) && str != []
    ensures !SomeGuard(str, stack)
  {
    if stack != [] {
      var closing := ClosingOf(stack);
      ClosingOfIsClosing(stack);
      TokenRefuses(str, closing);
      TokenRefusesQuotes(str, closing);
    }
  }

  lemma TopElement(s: State)
    requires s.stack != []
    ensures Mirror(s) != []
    ensures Mirror(s)[|Mirror(s)| - 1] == TopEl(s)
  {
  }

  lemma StringMeetsGuard(str: string, closing: string)
    requires IsStr(Reached(str).ctl) && !IsDead(Reached(str).ctl) && !FalseHighSurrogate(str)
    requires IsClosing(closing) && CanClose(Reached(str), closing)
    ensures if Reached(str).ctl.isKey then ObjectGuards(str, closing)
            else KeyGuards(str, closing) && ArrayGuards(str, closing)
  {
    OpenStringReady(str, closing);
    assert "\\" + "\"" == "\\\"" && "\\" + "\": 1" == "\\\": 1";
  }

  lemma OtherMeetsGuard(str: string, closing: string)
    requires !IsStr(Reached(str).ctl) && !Reached(str).ctl.Err? && WellFormed(Reached(str)) && !StopsInToken(str)
    requires Reached(str).stack != [] && closing == Closers(Reached(str).stack)
    requires IsClosing(closing) && CanClose(Reached(str), closing)
    ensures var s := Reached(str);
            if Top(s.stack).Arr? then ArrayGuards(str, closing)
            else if HoldsKey(s.ctl) then KeyGuards(str, closing)
            else ObjectGuards(str, closing)
  {
    var s := Reached(str);
    if AtValue(s.ctl) {
      ValueReady(str, closing);
    } else if s.ctl.Key? || s.ctl.KeyOrEnd? {
      KeyOpens(str);
      KeyReady(str, closing);
    } else if s.ctl.Colon? {
      ColonReady(str, closing);
    } else {
      AfterIsNoNumber(str);
      NotBlank(str);
      AfterReady(str, closing);
    }
  }

  function TopEl(s: State): Element
    requires s.stack != []
  {
    if Top(s.stack).Arr? then ArrayEl else if HoldsKey(s.ctl) then KeyEl else ObjectEl
  }

  lemma AliveMeetsGuard(str: string)
    requires !Reached(str).ctl.Err? && !IsDead(Reached(str).ctl) && Reached(str).stack != []
    requires !FalseHighSurrogate(str) && !StopsInToken(str)
    ensures GuardsFor(TopEl(Reached(str)), str, Closers(Reached(str).stack))
  {
    var s := Reached(str);
    RunWellFormed(Init, str);
    ClosersAreClosing(s.stack);
    ClosingIsUnique(s.stack, Closers(s.stack));
    if IsStr(s.ctl) { StringMeetsGuard(str, Closers(s.stack)); } else { OtherMeetsGuard(str, Closers(s.stack)); }
  }

  // Outside numbers and literal names a truncated text always meets one.
  lemma TruncationMeetsGuard(str: string)
    requires Truncated(str) && Reached(str).stack != [] && !FalseHighSurrogate(str) && !StopsInToken(str)
    ensures SomeGuard(str, Mirror(Reached(str)))
  {
    TruncatedIsAlive(str);
    AliveMeetsGuard(str);
    MirrorClosing(Reached(str));
    NotBlank(str);
    TopElement(Reached(str));
  }

  lemma {:induction false} NotBlank(str: string)
    requires Reached(str).stack != [] || IsStr(Reached(str).ctl)
    ensures FindLastNotOf(str, Spaces) >= 0
  {
    var init, c := str[..|str| - 1], str[|str| - 1];
    assert str == init + [c];
    RunSnoc(Init, init, c);
    WsIsSpace(c);
    if IsWs(c) { NotBlank(init); }
  }

  lemma ClosingOfIsClosing(stack: seq<Element>)
    ensures IsClosing(ClosingOf(stack))
  {
  }
}
