/** The grammar of RFC 8259, rule by rule, and the proof that the recogniser accepts exactly the
    texts that it derives. As in the library, escaped surrogates must come in pairs. */
module JsonGrammar {
  import opened Json

  // ----- the rules -----

  // ws (section 2)
  predicate IsSpaces(t: string) { forall i :: 0 <= i < |t| ==> t[i] in " \t\n\r" }

  // DIGIT
  predicate IsDigits(t: string) { forall i :: 0 <= i < |t| ==> '0' <= t[i] <= '9' }

  // number = [ minus ] int [ frac ] [ exp ] (section 6)
  predicate IsMinus(t: string) { t == "" || t == "-" }

  predicate IsInt(t: string) { t == "0" || (t != "" && '1' <= t[0] <= '9' && IsDigits(t[1..])) }

  predicate IsFrac(t: string) { t == "" || (|t| >= 2 && t[0] == '.' && IsDigits(t[1..])) }

  predicate IsExp(t: string) {
    t == "" || (|t| >= 2 && (t[0] == 'e' || t[0] == 'E') && IsExponent(t[1..]))
  }

  predicate IsExponent(t: string) {
    t != "" && (IsDigits(t) || (|t| >= 2 && (t[0] == '+' || t[0] == '-') && IsDigits(t[1..])))
  }

  // char (section 7): unescaped, a short escape, a code unit, or a pair of surrogates.
  datatype Piece = Raw(c: char) | Short(c: char) | Unit(digits: string) | Pair(high: string, low: string)

  predicate IsHexDigit(c: char) { '0' <= c <= '9' || 'a' <= c <= 'f' || 'A' <= c <= 'F' }

  function DigitValue(c: char): (v: nat)
    requires IsHexDigit(c)
    ensures v < 16
  {
    if c <= '9' then (c - '0') as nat else if c <= 'F' then (c - 'A') as nat + 10 else (c - 'a') as nat + 10
  }

  predicate IsUnit(d: string) { |d| == 4 && IsHexDigit(d[0]) && IsHexDigit(d[1]) && IsHexDigit(d[2]) && IsHexDigit(d[3]) }

  function CodeUnit(d: string): nat
    requires IsUnit(d)
  {
    4096 * DigitValue(d[0]) + 256 * DigitValue(d[1]) + 16 * DigitValue(d[2]) + DigitValue(d[3])
  }

  predicate IsPiece(p: Piece) {
    match p
    case Raw(c) => c >= ' ' && c != '"' && c != '\\'
    case Short(c) => c in "\"\\/bfnrt"
    case Unit(d) => IsUnit(d) && !(0xD800 <= CodeUnit(d) < 0xE000)
    case Pair(h, l) => IsUnit(h) && IsUnit(l) && 0xD800 <= CodeUnit(h) < 0xDC00 && 0xDC00 <= CodeUnit(l) < 0xE000
  }

  predicate ArePieces(ps: seq<Piece>) { forall k :: 0 <= k < |ps| ==> IsPiece(ps[k]) }

  function PieceText(p: Piece): string {
    match p
    case Raw(c) => [c]
    case Short(c) => ['\\', c]
    case Unit(d) => "\\u" + d
    case Pair(h, l) => "\\u" + h + ("\\u" + l)
  }

  function PiecesText(ps: seq<Piece>): string {
    if ps == [] then "" else PieceText(ps[0]) + PiecesText(ps[1..])
  }

  // string = quotation-mark *char quotation-mark, from its first character on
  function Rest(ps: seq<Piece>): string { PiecesText(ps) + "\"" }

  // value (section 3), object (section 4) and array (section 5)
  datatype Tree =
    | Name(text: string)
    | Number(minus: string, whole: string, frac: string, exp: string)
    | Quoted(pieces: seq<Piece>)
    | Empty(kind: Container, space: string)
    | Group(kind: Container, entries: Entries)

  // The elements or members, separated by commas; there is at least one.
  datatype Entries = Only(e: Entry) | More(e: Entry, rest: Entries)

  // An element, or a member with its key, and the space around them.
  datatype Entry =
    | Element(before: string, value: Tree, after: string)
    | Member(before: string, key: seq<Piece>, between: string, past: string, value: Tree, after: string)

  predicate IsTree(v: Tree) {
    match v
    case Name(t) => t == "true" || t == "false" || t == "null"
    case Number(m, i, f, e) => IsMinus(m) && IsInt(i) && IsFrac(f) && IsExp(e)
    case Quoted(ps) => ArePieces(ps)
    case Empty(_, space) => IsSpaces(space)
    case Group(kind, es) => AreEntries(kind, es)
  }

  predicate AreEntries(kind: Container, es: Entries)
    decreases es
  {
    IsEntry(kind, es.e) && (es.More? ==> AreEntries(kind, es.rest))
  }

  predicate IsEntry(kind: Container, e: Entry)
    decreases e
  {
    match e
    case Element(before, v, after) => kind.Arr? && IsSpaces(before) && IsTree(v) && IsSpaces(after)
    case Member(before, key, between, past, v, after) =>
      kind.Obj? && IsSpaces(before) && ArePieces(key) && IsSpaces(between) && IsSpaces(past) && IsTree(v) && IsSpaces(after)
  }

  function Open(kind: Container): string { if kind.Obj? then "{" else "[" }

  function Close(kind: Container): string { if kind.Obj? then "}" else "]" }

  function TextOf(v: Tree): string {
    match v
    case Name(t) => t
    case Number(m, i, f, e) => m + (i + (f + e))
    case Quoted(ps) => "\"" + Rest(ps)
    case Empty(kind, space) => Open(kind) + (space + Close(kind))
    case Group(kind, es) => Open(kind) + (EntriesText(es) + Close(kind))
  }

  function EntriesText(es: Entries): string {
    EntryText(es.e) + if es.More? then "," + EntriesText(es.rest) else ""
  }

  function EntryText(e: Entry): string {
    match e
    case Element(before, v, after) => before + (TextOf(v) + after)
    case Member(before, key, between, past, v, after) =>
      before + ("\"" + (Rest(key) + (between + (":" + (past + (TextOf(v) + after))))))
  }

  // JSON-text = ws value ws
  ghost predicate IsJson(t: string) {
    exists before, v, after :: IsText(t, before, v, after)
  }

  predicate IsText(t: string, before: string, v: Tree, after: string) {
    IsSpaces(before) && IsTree(v) && IsSpaces(after) && t == before + (TextOf(v) + after)
  }

  // ----- what the recogniser does with a derived text: spaces and strings -----

  // The states that pass over space.
  predicate Idle(ctl: Ctl) {
    ctl.Value? || ctl.ValueOrEnd? || ctl.KeyOrEnd? || ctl.Key? || ctl.Colon? || ctl.After?
  }

  lemma {:induction false} RunSpaces(s: State, t: string)
    requires Idle(s.ctl) && IsSpaces(t)
    ensures Run(s, t) == s
    decreases |t|
  {
    if t != [] {
      assert t[0] in " \t\n\r";
      assert IsSpaces(t[1..]);
      RunSpaces(s, t[1..]);
    }
  }

  lemma FirstDigit(c: char)
    requires IsHexDigit(c)
    ensures NextKind(0, Plain, c) == if DigitValue(c) == 13 then Dee else Plain
  {
  }

  lemma SecondDigit(c: char)
    requires IsHexDigit(c)
    ensures NextKind(1, Plain, c) == Plain
    ensures NextKind(1, Dee, c) == if DigitValue(c) < 8 then Plain else if DigitValue(c) < 12 then High else Low
  {
  }

  lemma UnitRange(x: nat, y: nat, u: nat)
    requires x < 16 && y < 16 && 4096 * x + 256 * y <= u < 4096 * x + 256 * y + 256
    ensures 0xD800 <= u < 0xDC00 <==> x == 13 && 8 <= y < 12
    ensures 0xDC00 <= u < 0xE000 <==> x == 13 && y >= 12
  {
  }

  lemma SurrogateKind(d: string)
    requires IsUnit(d)
    ensures var kind := NextKind(1, NextKind(0, Plain, d[0]), d[1]);
            && (kind.High? <==> 0xD800 <= CodeUnit(d) < 0xDC00)
            && (kind.Low? <==> 0xDC00 <= CodeUnit(d) < 0xE000)
  {
    FirstDigit(d[0]);
    SecondDigit(d[1]);
    UnitRange(DigitValue(d[0]), DigitValue(d[1]), CodeUnit(d));
  }

  function AfterUnit(k: bool, afterHigh: bool, kind: Kind): Ctl {
    if afterHigh then if kind.Low? then Str(k) else Err
    else if kind.High? then HighDone(k)
    else if kind.Low? then Err
    else Str(k)
  }

  lemma RunUnit(k: bool, afterHigh: bool, stack: seq<Container>, d: string)
    requires IsUnit(d)
    ensures Run(State(Hex(k, afterHigh, 0, Plain), stack), d) ==
              Of(AfterUnit(k, afterHigh, NextKind(1, NextKind(0, Plain, d[0]), d[1])), stack)
  {
    assert d == [d[0]] + ([d[1]] + ([d[2]] + ([d[3]] + [])));
    var k0 := NextKind(0, Plain, d[0]);
    var k1 := NextKind(1, k0, d[1]);
    RunCons(State(Hex(k, afterHigh, 0, Plain), stack), d[0], [d[1]] + ([d[2]] + ([d[3]] + [])));
    RunCons(State(Hex(k, afterHigh, 1, k0), stack), d[1], [d[2]] + ([d[3]] + []));
    RunCons(State(Hex(k, afterHigh, 2, k1), stack), d[2], [d[3]] + []);
    RunCons(State(Hex(k, afterHigh, 3, k1), stack), d[3], []);
  }

  lemma RunEscapedUnit(s: State, d: string, afterHigh: bool)
    requires IsUnit(d) && (if afterHigh then s.ctl.HighDone? else s.ctl.Str?)
    ensures Run(s, "\\u" + d) == Of(AfterUnit(s.ctl.isKey, afterHigh, NextKind(1, NextKind(0, Plain, d[0]), d[1])), s.stack)
  {
    assert "\\u" + d == ['\\'] + (['u'] + d);
    RunCons(s, '\\', ['u'] + d);
    RunCons(Step(s, '\\'), 'u', d);
    RunUnit(s.ctl.isKey, afterHigh, s.stack, d);
  }

  lemma RunPiece(s: State, p: Piece)
    requires s.ctl.Str? && IsPiece(p)
    ensures Run(s, PieceText(p)) == s
  {
    match p
    case Raw(c) => RunCons(s, c, []);
    case Short(c) =>
      assert ['\\', c] == ['\\'] + ([c] + []);
      RunCons(s, '\\', [c] + []);
      RunCons(Step(s, '\\'), c, []);
    case Unit(d) =>
      RunEscapedUnit(s, d, false);
      SurrogateKind(d);
    case Pair(h, l) =>
      RunEscapedUnit(s, h, false);
      SurrogateKind(h);
      RunConcat(s, "\\u" + h, "\\u" + l);
      RunEscapedUnit(State(HighDone(s.ctl.isKey), s.stack), l, true);
      SurrogateKind(l);
  }

  lemma {:induction false} RunPieces(s: State, ps: seq<Piece>)
    requires s.ctl.Str? && ArePieces(ps)
    ensures Run(s, PiecesText(ps)) == s
    decreases |ps|
  {
    if ps != [] {
      RunPiece(s, ps[0]);
      RunConcat(s, PieceText(ps[0]), PiecesText(ps[1..]));
      RunPieces(s, ps[1..]);
    }
  }

  lemma RunRest(s: State, ps: seq<Piece>)
    requires s.ctl.Str? && ArePieces(ps)
    ensures Run(s, Rest(ps)) == s.(ctl := if s.ctl.isKey then Colon else After)
  {
    RunPieces(s, ps);
    RunSnoc(s, PiecesText(ps), '"');
  }

  // ----- numbers -----

  lemma {:induction false} RunDigits(s: State, t: string)
    requires s.ctl.Num? && (s.ctl.phase.Int? || s.ctl.phase.Frac? || s.ctl.phase.ExpDigits?) && IsDigits(t)
    ensures Run(s, t) == s
    decreases |t|
  {
    if t != [] { RunDigits(s, t[1..]); }
  }

  lemma RunInt(s: State, t: string)
    requires (s.ctl.Value? || s.ctl == Num(Minus)) && IsInt(t)
    ensures Run(s, t) == s.(ctl := Num(if t == "0" then Zero else Int))
  {
    assert t == [t[0]] + t[1..];
    RunCons(s, t[0], t[1..]);
    if t != "0" { RunDigits(State(Num(Int), s.stack), t[1..]); }
  }

  lemma RunFracDigits(stack: seq<Container>, t: string)
    requires t != "" && IsDigits(t)
    ensures Run(State(Num(Dot), stack), t) == State(Num(Frac), stack)
  {
    assert t == [t[0]] + t[1..];
    RunCons(State(Num(Dot), stack), t[0], t[1..]);
    RunDigits(State(Num(Frac), stack), t[1..]);
  }

  lemma RunFrac(s: State, t: string)
    requires (s.ctl == Num(Zero) || s.ctl == Num(Int)) && IsFrac(t)
    ensures Run(s, t) == if t == "" then s else s.(ctl := Num(Frac))
  {
    if t != "" {
      assert t == ['.'] + t[1..];
      RunCons(s, '.', t[1..]);
      RunFracDigits(s.stack, t[1..]);
    }
  }

  lemma RunExponentDigits(s: State, t: string)
    requires (s.ctl == Num(Exp) || s.ctl == Num(ExpSign)) && t != "" && IsDigits(t)
    ensures Run(s, t) == s.(ctl := Num(ExpDigits))
  {
    assert t == [t[0]] + t[1..];
    RunCons(s, t[0], t[1..]);
    RunDigits(State(Num(ExpDigits), s.stack), t[1..]);
  }

  lemma RunExp(s: State, t: string)
    requires s.ctl.Num? && (s.ctl.phase.Zero? || s.ctl.phase.Int? || s.ctl.phase.Frac?) && IsExp(t)
    ensures Run(s, t) == if t == "" then s else s.(ctl := Num(ExpDigits))
  {
    if t != "" {
      var u := t[1..];
      assert t == [t[0]] + u;
      RunCons(s, t[0], u);
      if IsDigits(u) {
        RunExponentDigits(State(Num(Exp), s.stack), u);
      } else {
        assert u == [u[0]] + u[1..];
        RunCons(State(Num(Exp), s.stack), u[0], u[1..]);
        RunExponentDigits(State(Num(ExpSign), s.stack), u[1..]);
      }
    }
  }

  // A value has ended, or is a number that the next character may end.
  predicate Ends(s: State, stack: seq<Container>) {
    s.stack == stack && (s.ctl.After? || (s.ctl.Num? && IsComplete(s.ctl.phase)))
  }

  lemma RunNumber(stack: seq<Container>, m: string, i: string, f: string, e: string)
    requires IsMinus(m) && IsInt(i) && IsFrac(f) && IsExp(e)
    ensures Ends(Run(State(Value, stack), m + (i + (f + e))), stack)
  {
    var s0 := State(Value, stack);
    if m != "" { RunCons(s0, '-', []); }
    var s1 := Run(s0, m);
    RunConcat(s0, m, i + (f + e));
    RunInt(s1, i);
    RunConcat(s1, i, f + e);
    var s2 := Run(s1, i);
    RunFrac(s2, f);
    RunConcat(s2, f, e);
    RunExp(Run(s2, f), e);
  }

  // ----- values -----

  lemma RunName(stack: seq<Container>, t: string)
    requires t == "true" || t == "false" || t == "null"
    ensures Run(State(Value, stack), t) == State(After, stack)
  {
    var w := if t == "true" then True else if t == "false" then False else Null;
    assert t == [t[0]] + t[1..];
    RunCons(State(Value, stack), t[0], t[1..]);
    RunLetters(stack, w, 1);
  }

  lemma {:induction false} RunLetters(stack: seq<Container>, w: Word, n: nat)
    requires 0 < n < |Spell(w)|
    ensures Run(State(Lit(w, n), stack), Spell(w)[n..]) == State(After, stack)
    decreases |Spell(w)| - n
  {
    var t := Spell(w)[n..];
    assert t == [Spell(w)[n]] + Spell(w)[n + 1..];
    RunCons(State(Lit(w, n), stack), Spell(w)[n], Spell(w)[n + 1..]);
    if n + 1 < |Spell(w)| { RunLetters(stack, w, n + 1); }
  }

  // A value starts with no space and no closing bracket.
  lemma FirstOfTree(v: Tree)
    requires IsTree(v)
    ensures TextOf(v) != "" && !IsWs(TextOf(v)[0]) && TextOf(v)[0] != ']'
  {
    match v
    case Number(m, i, f, e) => assert m == "" ==> m + (i + (f + e)) == i + (f + e);
    case _ =>
  }

  // Just after '[' a value is read as anywhere else.
  lemma StartOfArray(s: State, t: string)
    requires s.ctl.ValueOrEnd? && t != "" && !IsWs(t[0]) && t[0] != ']'
    ensures Run(s, t) == Run(s.(ctl := Value), t)
  {
  }

  // A character that cannot continue a number ends it.
  lemma EndStep(s: State, stack: seq<Container>, c: char)
    requires Ends(s, stack) && (IsWs(c) || c == ',' || c == '}' || c == ']')
    ensures Step(s, c) == AfterValue(stack, c)
  {
  }

  lemma RunEnd(s: State, stack: seq<Container>, after: string)
    requires Ends(s, stack) && IsSpaces(after)
    ensures Ends(Run(s, after), stack)
  {
    if after != [] {
      assert after[0] in " \t\n\r" && IsSpaces(after[1..]);
      EndStep(s, stack, after[0]);
      RunSpaces(State(After, stack), after[1..]);
    }
  }

  // Where an entry starts: after a comma, or at the start of its container.
  predicate Starts(ctl: Ctl, kind: Container) {
    if kind.Obj? then ctl.Key? || ctl.KeyOrEnd? else ctl.Value? || ctl.ValueOrEnd?
  }

  lemma {:induction false} RunTree(v: Tree, stack: seq<Container>)
    requires IsTree(v)
    ensures Ends(Run(State(Value, stack), TextOf(v)), stack)
    decreases v, 0
  {
    var s := State(Value, stack);
    match v
    case Name(t) => RunName(stack, t);
    case Number(m, i, f, e) => RunNumber(stack, m, i, f, e);
    case Quoted(ps) =>
      RunCons(s, '"', Rest(ps));
      RunRest(State(Str(false), stack), ps);
    case Empty(kind, space) =>
      RunSpaces(Opened(kind, stack), space);
      RunBrackets(kind, space, stack);
    case Group(kind, es) =>
      RunEntries(es, kind, Opened(kind, stack), stack);
      RunBrackets(kind, EntriesText(es), stack);
  }

  // Just after an opening bracket.
  function Opened(kind: Container, stack: seq<Container>): State {
    State(if kind.Obj? then KeyOrEnd else ValueOrEnd, stack + [kind])
  }

  lemma CloseStep(s: State, kind: Container, stack: seq<Container>)
    requires s == Opened(kind, stack) || Ends(s, stack + [kind])
    ensures Step(s, Close(kind)[0]) == State(After, stack)
  {
    PopTop(stack, kind);
    if s != Opened(kind, stack) { EndStep(s, stack + [kind], Close(kind)[0]); }
  }

  lemma RunBrackets(kind: Container, inside: string, stack: seq<Container>)
    requires var s := Run(Opened(kind, stack), inside); s == Opened(kind, stack) || Ends(s, stack + [kind])
    ensures Run(State(Value, stack), Open(kind) + (inside + Close(kind))) == State(After, stack)
  {
    RunCons(State(Value, stack), Open(kind)[0], inside + Close(kind));
    RunConcat(Opened(kind, stack), inside, Close(kind));
    CloseStep(Run(Opened(kind, stack), inside), kind, stack);
    RunCons(Run(Opened(kind, stack), inside), Close(kind)[0], []);
  }

  lemma PopTop(stack: seq<Container>, kind: Container)
    ensures Pop(stack + [kind]) == State(After, stack) && Top(stack + [kind]) == kind
  {
    assert (stack + [kind])[..|stack|] == stack;
  }

  lemma {:induction false} RunEntries(es: Entries, kind: Container, s: State, stack: seq<Container>)
    requires AreEntries(kind, es) && Starts(s.ctl, kind) && s.stack == stack + [kind]
    ensures Ends(Run(s, EntriesText(es)), stack + [kind])
    decreases es, 0
  {
    RunEntry(es.e, kind, s, stack + [kind]);
    if es.More? {
      RunConcat(s, EntryText(es.e), "," + EntriesText(es.rest));
      var s1 := Run(s, EntryText(es.e));
      RunCons(s1, ',', EntriesText(es.rest));
      EndStep(s1, stack + [kind], ',');
      RunEntries(es.rest, kind, Step(s1, ','), stack);
    } else {
      assert EntryText(es.e) + "" == EntryText(es.e);
    }
  }

  lemma {:induction false} RunEntry(e: Entry, kind: Container, s: State, stack: seq<Container>)
    requires IsEntry(kind, e) && Starts(s.ctl, kind) && s.stack == stack
    ensures Ends(Run(s, EntryText(e)), stack)
    decreases e, 0
  {
    match e
    case Element(before, v, after) =>
      RunConcat(s, before, TextOf(v) + after);
      RunSpaces(s, before);
      FirstOfTree(v);
      if s.ctl.ValueOrEnd? { StartOfArray(s, TextOf(v)); }
      RunTree(v, stack);
      RunConcat(s, TextOf(v), after);
      RunEnd(Run(s, TextOf(v)), stack, after);
    case Member(before, key, between, past, v, after) =>
      RunKey(s, before, key, between, past, TextOf(v) + after);
      RunTree(v, stack);
      RunConcat(State(Value, stack), TextOf(v), after);
      RunEnd(Run(State(Value, stack), TextOf(v)), stack, after);
  }

  lemma RunKey(s: State, before: string, key: seq<Piece>, between: string, past: string, rest: string)
    requires (s.ctl.Key? || s.ctl.KeyOrEnd?) && IsSpaces(before) && ArePieces(key) && IsSpaces(between) && IsSpaces(past)
    ensures Run(s, before + ("\"" + (Rest(key) + (between + (":" + (past + rest)))))) == Run(State(Value, s.stack), rest)
  {
    RunConcat(s, before, "\"" + (Rest(key) + (between + (":" + (past + rest)))));
    RunSpaces(s, before);
    RunCons(s, '"', Rest(key) + (between + (":" + (past + rest))));
    var k, c, v := State(Str(true), s.stack), State(Colon, s.stack), State(Value, s.stack);
    RunConcat(k, Rest(key), between + (":" + (past + rest)));
    RunRest(k, key);
    RunConcat(c, between, ":" + (past + rest));
    RunSpaces(c, between);
    RunCons(c, ':', past + rest);
    RunConcat(v, past, rest);
    RunSpaces(v, past);
  }

  lemma DerivedIsValid(t: string)
    requires IsJson(t)
    ensures Valid(t)
  {
    var before, v, after :| IsText(t, before, v, after);
    RunConcat(Init, before, TextOf(v) + after);
    RunSpaces(Init, before);
    RunConcat(Init, TextOf(v), after);
    RunTree(v, []);
    RunEnd(Run(Init, TextOf(v)), [], after);
  }

  // ----- a text that is accepted is derived: strings -----

  // The first character of an accepted text leads to a state that accepts the others.
  lemma AcceptsFirst(s: State, t: string)
    requires Accepts(s, t) && t != ""
    ensures Accepts(Step(s, t[0]), t[1..]) && !Step(s, t[0]).ctl.Err?
  {
    if Step(s, t[0]).ctl.Err? { FailedNeverAccepts(Step(s, t[0]), t[1..]); }
  }

  lemma AcceptsSome(s: State, t: string)
    requires Accepts(s, t) && !(s.stack == [] && (s.ctl.After? || s.ctl.Num?))
    ensures t != ""
  {
  }

  lemma ReadDigit(k: bool, afterHigh: bool, n: nat, kind: Kind, stack: seq<Container>, t: string)
    requires n < 3 && Accepts(State(Hex(k, afterHigh, n, kind), stack), t)
    ensures t != "" && IsHexDigit(t[0]) && Accepts(State(Hex(k, afterHigh, n + 1, NextKind(n, kind, t[0])), stack), t[1..])
  {
    AcceptsSome(State(Hex(k, afterHigh, n, kind), stack), t);
    AcceptsFirst(State(Hex(k, afterHigh, n, kind), stack), t);
  }

  lemma ReadLastDigit(k: bool, afterHigh: bool, kind: Kind, stack: seq<Container>, t: string)
    requires Accepts(State(Hex(k, afterHigh, 3, kind), stack), t)
    ensures t != "" && IsHexDigit(t[0]) && Accepts(State(AfterUnit(k, afterHigh, kind), stack), t[1..])
    ensures !AfterUnit(k, afterHigh, kind).Err?
  {
    AcceptsSome(State(Hex(k, afterHigh, 3, kind), stack), t);
    AcceptsFirst(State(Hex(k, afterHigh, 3, kind), stack), t);
  }

  lemma ReadUnit(k: bool, afterHigh: bool, stack: seq<Container>, t: string) returns (d: string, rest: string)
    requires Accepts(State(Hex(k, afterHigh, 0, Plain), stack), t)
    ensures IsUnit(d) && t == d + rest
    ensures Accepts(State(AfterUnit(k, afterHigh, NextKind(1, NextKind(0, Plain, d[0]), d[1])), stack), rest)
    ensures !AfterUnit(k, afterHigh, NextKind(1, NextKind(0, Plain, d[0]), d[1])).Err?
  {
    ReadDigit(k, afterHigh, 0, Plain, stack, t);
    var k0, t1 := NextKind(0, Plain, t[0]), t[1..];
    ReadDigit(k, afterHigh, 1, k0, stack, t1);
    var k1, t2 := NextKind(1, k0, t1[0]), t1[1..];
    var t3 := ReadTwoDigits(k, afterHigh, k1, stack, t2);
    d, rest := [t[0], t1[0], t2[0], t3[0]], t3[1..];
    FourFirst(t, t1, t2, t3);
  }

  lemma ReadTwoDigits(k: bool, afterHigh: bool, kind: Kind, stack: seq<Container>, t: string) returns (u: string)
    requires Accepts(State(Hex(k, afterHigh, 2, kind), stack), t)
    ensures t != "" && u == t[1..] && u != "" && IsHexDigit(t[0]) && IsHexDigit(u[0])
    ensures Accepts(State(AfterUnit(k, afterHigh, kind), stack), u[1..]) && !AfterUnit(k, afterHigh, kind).Err?
  {
    ReadDigit(k, afterHigh, 2, kind, stack, t);
    LaterKind(2, kind, t[0]);
    u := t[1..];
    ReadLastDigit(k, afterHigh, kind, stack, u);
  }

  lemma LaterKind(n: nat, kind: Kind, c: char)
    requires n >= 2
    ensures NextKind(n, kind, c) == kind
  {
  }

  lemma FourFirst(t: string, t1: string, t2: string, t3: string)
    requires t != "" && t1 == t[1..] && t1 != "" && t2 == t1[1..] && t2 != "" && t3 == t2[1..] && t3 != ""
    ensures t == [t[0], t1[0], t2[0], t3[0]] + t3[1..]
  {
    assert t == [t[0]] + ([t1[0]] + ([t2[0]] + ([t3[0]] + t3[1..])));
  }

  lemma ReadPiece(k: bool, stack: seq<Container>, t: string) returns (p: Piece, rest: string)
    requires Accepts(State(Str(k), stack), t) && t != "" && t[0] != '"'
    ensures IsPiece(p) && t == PieceText(p) + rest && |rest| < |t| && Accepts(State(Str(k), stack), rest)
  {
    var s := State(Str(k), stack);
    AcceptsFirst(s, t);
    if t[0] != '\\' {
      p, rest := Raw(t[0]), t[1..];
    } else {
      var u := t[1..];
      AcceptsSome(State(Esc(k), stack), u);
      AcceptsFirst(State(Esc(k), stack), u);
      if u[0] != 'u' {
        p, rest := Short(u[0]), u[1..];
      } else {
        p, rest := ReadEscape(k, stack, u[1..]);
        assert t == "\\u" + u[1..];
      }
    }
  }

  lemma ReadEscape(k: bool, stack: seq<Container>, t: string) returns (p: Piece, rest: string)
    requires Accepts(State(Hex(k, false, 0, Plain), stack), t)
    ensures IsPiece(p) && "\\u" + t == PieceText(p) + rest && |rest| < |t| && Accepts(State(Str(k), stack), rest)
  {
    var d, v := ReadUnit(k, false, stack, t);
    SurrogateKind(d);
    if !(0xD800 <= CodeUnit(d) < 0xDC00) {
      p, rest := Unit(d), v;
    } else {
      var l;
      l, rest := ReadLow(k, stack, v);
      p := Pair(d, l);
      assert "\\u" + (d + ("\\u" + l + rest)) == "\\u" + d + ("\\u" + l) + rest;
    }
  }

  lemma ReadLow(k: bool, stack: seq<Container>, t: string) returns (l: string, rest: string)
    requires Accepts(State(HighDone(k), stack), t)
    ensures IsUnit(l) && 0xDC00 <= CodeUnit(l) < 0xE000
    ensures t == "\\u" + l + rest && Accepts(State(Str(k), stack), rest)
  {
    AcceptsSome(State(HighDone(k), stack), t);
    AcceptsFirst(State(HighDone(k), stack), t);
    var u := t[1..];
    AcceptsSome(State(HighEsc(k), stack), u);
    AcceptsFirst(State(HighEsc(k), stack), u);
    l, rest := ReadUnit(k, true, stack, u[1..]);
    SurrogateKind(l);
    assert t == "\\u" + u[1..];
  }

  lemma {:induction false} ReadRest(k: bool, stack: seq<Container>, t: string) returns (ps: seq<Piece>, rest: string)
    requires Accepts(State(Str(k), stack), t)
    ensures ArePieces(ps) && t == Rest(ps) + rest && |rest| < |t|
    ensures Accepts(State(if k then Colon else After, stack), rest)
    decreases |t|
  {
    AcceptsSome(State(Str(k), stack), t);
    if t[0] == '"' {
      AcceptsFirst(State(Str(k), stack), t);
      ps, rest := [], t[1..];
    } else {
      var p, u := ReadPiece(k, stack, t);
      var qs;
      qs, rest := ReadRest(k, stack, u);
      ps := [p] + qs;
      assert ps[1..] == qs;
      assert t == PieceText(p) + (Rest(qs) + rest) == (PieceText(p) + PiecesText(qs)) + "\"" + rest;
    }
  }

  // ----- numbers -----

  lemma {:induction false} ReadDigits(p: Phase, stack: seq<Container>, t: string) returns (d: string, rest: string)
    requires (p.Int? || p.Frac? || p.ExpDigits?) && Accepts(State(Num(p), stack), t)
    ensures IsDigits(d) && t == d + rest && Accepts(State(Num(p), stack), rest) && (rest == "" || !IsDigit(rest[0]))
    decreases |t|
  {
    if t == "" || !IsDigit(t[0]) {
      d, rest := "", t;
    } else {
      var d';
      d', rest := ReadDigits(p, stack, t[1..]);
      d := [t[0]] + d';
    }
  }

  // A number that the next character does not continue has ended.
  lemma NumberEnded(p: Phase, stack: seq<Container>, t: string)
    requires Accepts(State(Num(p), stack), t) && (t == "" || !NextPhase(p, t[0]).0)
    ensures IsComplete(p) && Accepts(State(After, stack), t)
  {
    if t != "" { AcceptsFirst(State(Num(p), stack), t); }
  }

  lemma ReadExponentDigits(p: Phase, stack: seq<Container>, t: string) returns (d: string, rest: string)
    requires (p.Exp? || p.ExpSign?) && Accepts(State(Num(p), stack), t) && t != "" && IsDigit(t[0])
    ensures d != "" && IsDigits(d) && t == d + rest && Accepts(State(After, stack), rest)
  {
    AcceptsFirst(State(Num(p), stack), t);
    d, rest := ReadDigits(ExpDigits, stack, t[1..]);
    NumberEnded(ExpDigits, stack, rest);
    d := [t[0]] + d;
  }

  lemma ReadExponent(stack: seq<Container>, t: string) returns (d: string, rest: string)
    requires Accepts(State(Num(Exp), stack), t)
    ensures IsExponent(d) && t == d + rest && Accepts(State(After, stack), rest)
  {
    NumberGoesOn(Exp, stack, t);
    if IsDigit(t[0]) {
      d, rest := ReadExponentDigits(Exp, stack, t);
    } else {
      AcceptsFirst(State(Num(Exp), stack), t);
      NumberGoesOn(ExpSign, stack, t[1..]);
      var d';
      d', rest := ReadExponentDigits(ExpSign, stack, t[1..]);
      d := [t[0]] + d';
      assert d[1..] == d';
    }
  }

  lemma NumberGoesOn(p: Phase, stack: seq<Container>, t: string)
    requires !IsComplete(p) && Accepts(State(Num(p), stack), t)
    ensures t != "" && NextPhase(p, t[0]).0
  {
    if t == "" || !NextPhase(p, t[0]).0 { NumberEnded(p, stack, t); }
  }

  lemma ReadExp(p: Phase, stack: seq<Container>, t: string) returns (e: string, rest: string)
    requires (p.Zero? || p.Int? || p.Frac?) && Accepts(State(Num(p), stack), t)
    requires t == "" || (!(IsDigit(t[0]) && !p.Zero?) && !(t[0] == '.' && !p.Frac?))
    ensures IsExp(e) && t == e + rest && Accepts(State(After, stack), rest)
  {
    if t != "" && (t[0] == 'e' || t[0] == 'E') {
      var d;
      d, rest := ReadExponent(stack, t[1..]);
      e := [t[0]] + d;
      assert e[1..] == d;
    } else {
      e, rest := "", t;
      NumberEnded(p, stack, t);
    }
  }

  lemma ReadFrac(p: Phase, stack: seq<Container>, t: string) returns (f: string, e: string, rest: string)
    requires (p.Zero? || p.Int?) && Accepts(State(Num(p), stack), t) && (p.Int? && t != "" ==> !IsDigit(t[0]))
    ensures IsFrac(f) && IsExp(e) && t == f + (e + rest) && Accepts(State(After, stack), rest)
  {
    if t != "" && t[0] == '.' {
      NumberGoesOn(Dot, stack, t[1..]);
      var d, u := ReadDigits(Frac, stack, t[1..][1..]);
      e, rest := NoPoint(stack, u);
      f := ['.', t[1]] + d;
      assert f[1..] == [t[1]] + d;
      assert t == ['.', t[1]] + t[1..][1..];
    } else {
      f := "";
      e, rest := ReadExp(p, stack, t);
    }
  }

  lemma NoPoint(stack: seq<Container>, t: string) returns (e: string, rest: string)
    requires Accepts(State(Num(Frac), stack), t) && (t == "" || !IsDigit(t[0]))
    ensures IsExp(e) && t == e + rest && Accepts(State(After, stack), rest)
  {
    e, rest := ReadExp(Frac, stack, t);
  }

  lemma ReadInt(c: char, p: Phase, stack: seq<Container>, t: string) returns (i: string, f: string, e: string, rest: string)
    requires (if c == '0' then p.Zero? else '1' <= c <= '9' && p.Int?) && Accepts(State(Num(p), stack), t)
    ensures IsInt(i) && IsFrac(f) && IsExp(e) && [c] + t == i + (f + (e + rest)) && Accepts(State(After, stack), rest)
  {
    if p.Zero? {
      i := "0";
      f, e, rest := ReadFrac(Zero, stack, t);
    } else {
      var d, u := ReadDigits(Int, stack, t);
      f, e, rest := ReadFrac(Int, stack, u);
      i := [c] + d;
      assert i[1..] == d;
      assert [c] + t == i + u;
    }
  }

  lemma ReadNumber(stack: seq<Container>, t: string) returns (v: Tree, rest: string)
    requires t != "" && (t[0] == '-' || IsDigit(t[0])) && Accepts(State(Value, stack), t)
    ensures IsTree(v) && t == TextOf(v) + rest && Accepts(State(After, stack), rest)
  {
    AcceptsFirst(State(Value, stack), t);
    var i, f, e;
    if t[0] == '-' {
      i, f, e, rest := ReadMinus(stack, t[1..]);
      v := Number("-", i, f, e);
      assert t == "-" + t[1..];
    } else {
      i, f, e, rest := ReadUnsigned(stack, t);
      v := Number("", i, f, e);
      assert t == "" + t;
    }
    NumberText(v.minus, i, f, e, rest);
  }

  lemma NumberText(m: string, i: string, f: string, e: string, rest: string)
    ensures m + (i + (f + (e + rest))) == m + (i + (f + e)) + rest
  {
  }

  lemma ReadUnsigned(stack: seq<Container>, t: string) returns (i: string, f: string, e: string, rest: string)
    requires t != "" && IsDigit(t[0]) && Accepts(State(Value, stack), t)
    ensures IsInt(i) && IsFrac(f) && IsExp(e) && t == i + (f + (e + rest)) && Accepts(State(After, stack), rest)
  {
    AcceptsFirst(State(Value, stack), t);
    i, f, e, rest := ReadInt(t[0], if t[0] == '0' then Zero else Int, stack, t[1..]);
    assert t == [t[0]] + t[1..];
  }

  lemma ReadMinus(stack: seq<Container>, t: string) returns (i: string, f: string, e: string, rest: string)
    requires Accepts(State(Num(Minus), stack), t)
    ensures IsInt(i) && IsFrac(f) && IsExp(e) && t == i + (f + (e + rest)) && Accepts(State(After, stack), rest)
  {
    NumberGoesOn(Minus, stack, t);
    AcceptsFirst(State(Num(Minus), stack), t);
    i, f, e, rest := ReadInt(t[0], if t[0] == '0' then Zero else Int, stack, t[1..]);
    assert [t[0]] + t[1..] == t;
  }

  // ----- values -----

  lemma {:induction false} ReadLetters(w: Word, n: nat, stack: seq<Container>, t: string) returns (rest: string)
    requires 0 < n < |Spell(w)| && Accepts(State(Lit(w, n), stack), t)
    ensures t == Spell(w)[n..] + rest && Accepts(State(After, stack), rest)
    decreases |Spell(w)| - n
  {
    AcceptsSome(State(Lit(w, n), stack), t);
    AcceptsFirst(State(Lit(w, n), stack), t);
    if n + 1 == |Spell(w)| {
      rest := t[1..];
    } else {
      rest := ReadLetters(w, n + 1, stack, t[1..]);
    }
    assert Spell(w)[n..] == [Spell(w)[n]] + Spell(w)[n + 1..];
  }

  lemma {:induction false} ReadSpaces(s: State, t: string) returns (space: string, rest: string)
    requires Idle(s.ctl) && Accepts(s, t)
    ensures IsSpaces(space) && t == space + rest && Accepts(s, rest) && (rest == "" || !IsWs(rest[0]))
    decreases |t|
  {
    if t == "" || !IsWs(t[0]) {
      space, rest := "", t;
    } else {
      AcceptsFirst(s, t);
      IdleStep(s, t[0]);
      space, rest := ReadSpaces(s, t[1..]);
      space := [t[0]] + space;
    }
  }

  lemma IdleStep(s: State, c: char)
    requires Idle(s.ctl) && IsWs(c)
    ensures Step(s, c) == s
  {
  }

  // What starts where a value is expected and no space is next.
  lemma {:induction false} ReadTree(stack: seq<Container>, t: string) returns (v: Tree, rest: string)
    requires Accepts(State(Value, stack), t) && (t == "" || !IsWs(t[0]))
    ensures IsTree(v) && t == TextOf(v) + rest && |rest| < |t| && Accepts(State(After, stack), rest)
    decreases |t|, 0
  {
    AcceptsSome(State(Value, stack), t);
    AcceptsFirst(State(Value, stack), t);
    if t[0] == '{' {
      v, rest := ReadBrackets(Obj, stack, t[1..]);
    } else if t[0] == '[' {
      v, rest := ReadBrackets(Arr, stack, t[1..]);
    } else {
      v, rest := ReadScalar(stack, t);
    }
  }

  lemma ReadScalar(stack: seq<Container>, t: string) returns (v: Tree, rest: string)
    requires Accepts(State(Value, stack), t) && t != "" && !IsWs(t[0]) && t[0] != '{' && t[0] != '['
    ensures IsTree(v) && t == TextOf(v) + rest && |rest| < |t| && Accepts(State(After, stack), rest)
  {
    AcceptsFirst(State(Value, stack), t);
    if t[0] == '"' {
      var ps;
      ps, rest := ReadRest(false, stack, t[1..]);
      v := Quoted(ps);
    } else if t[0] == '-' || IsDigit(t[0]) {
      v, rest := ReadNumber(stack, t);
      FirstOfTree(v);
    } else {
      v, rest := ReadName(stack, t);
    }
  }

  lemma ReadName(stack: seq<Container>, t: string) returns (v: Tree, rest: string)
    requires t != "" && (t[0] == 't' || t[0] == 'f' || t[0] == 'n') && Accepts(State(Value, stack), t)
    ensures IsTree(v) && t == TextOf(v) + rest && |rest| < |t| && Accepts(State(After, stack), rest)
  {
    AcceptsFirst(State(Value, stack), t);
    var w := if t[0] == 't' then True else if t[0] == 'f' then False else Null;
    rest := ReadLetters(w, 1, stack, t[1..]);
    v := Name(Spell(w));
  }

  lemma {:induction false} ReadBrackets(kind: Container, stack: seq<Container>, t: string) returns (v: Tree, rest: string)
    requires Accepts(Opened(kind, stack), t)
    ensures IsTree(v) && Open(kind) + t == TextOf(v) + rest && |rest| < |t| && Accepts(State(After, stack), rest)
    decreases |t|, 3
  {
    var space, u := ReadSpaces(Opened(kind, stack), t);
    AcceptsSome(Opened(kind, stack), u);
    if u[0] == Close(kind)[0] {
      AcceptsFirst(Opened(kind, stack), u);
      CloseStep(Opened(kind, stack), kind, stack);
      v, rest := Empty(kind, space), u[1..];
    } else {
      SameStart(kind, stack, u);
      var es;
      es, rest := ReadEntries(kind, space, stack, u);
      v := Group(kind, es);
    }
  }

  // What may be expected where an entry starts, but for the closing bracket of an empty container.
  function EntryState(kind: Container, stack: seq<Container>): State {
    State(if kind.Obj? then Key else Value, stack + [kind])
  }

  lemma SameStart(kind: Container, stack: seq<Container>, u: string)
    requires Accepts(Opened(kind, stack), u) && u != "" && !IsWs(u[0]) && u[0] != Close(kind)[0]
    ensures Accepts(EntryState(kind, stack), u)
  {
    AcceptsFirst(Opened(kind, stack), u);
  }

  lemma {:induction false} ReadEntries(kind: Container, space: string, stack: seq<Container>, t: string)
      returns (es: Entries, rest: string)
    requires IsSpaces(space) && Accepts(EntryState(kind, stack), t) && (t == "" || !IsWs(t[0]))
    ensures AreEntries(kind, es) && space + t == EntriesText(es) + (Close(kind) + rest) && |rest| < |t|
    ensures Accepts(State(After, stack), rest)
    decreases |t|, 2
  {
    var e, u := ReadEntry(kind, space, stack, t);
    var inner := State(After, stack + [kind]);
    AcceptsSome(inner, u);
    AcceptsFirst(inner, u);
    PopTop(stack, kind);
    if u[0] == ',' {
      var space', u' := ReadSpaces(EntryState(kind, stack), u[1..]);
      var more;
      more, rest := ReadEntries(kind, space', stack, u');
      es := More(e, more);
      assert u == "," + u[1..];
      MoreText(e, more, Close(kind) + rest);
    } else {
      es, rest := Only(e), u[1..];
      assert u == Close(kind) + rest && EntriesText(es) == EntryText(e);
    }
  }

  lemma MoreText(e: Entry, more: Entries, t: string)
    ensures EntriesText(More(e, more)) + t == EntryText(e) + ("," + (EntriesText(more) + t))
  {
    var x, y := EntryText(e), EntriesText(more);
    assert EntriesText(More(e, more)) == x + ("," + y);
    assert (x + ("," + y)) + t == x + ("," + (y + t));
  }

  lemma {:induction false} ReadEntry(kind: Container, space: string, stack: seq<Container>, t: string)
      returns (e: Entry, rest: string)
    requires IsSpaces(space) && Accepts(EntryState(kind, stack), t) && (t == "" || !IsWs(t[0]))
    ensures IsEntry(kind, e) && space + t == EntryText(e) + rest && |rest| < |t|
    ensures Accepts(State(After, stack + [kind]), rest) && (rest == "" || !IsWs(rest[0]))
    decreases |t|, 1
  {
    var inner := stack + [kind];
    if kind.Arr? {
      var v, u := ReadTree(inner, t);
      var after;
      after, rest := ReadSpaces(State(After, inner), u);
      e := Element(space, v, after);
    } else {
      var key, between, past, w := ReadKey(inner, t);
      var v, u := ReadTree(inner, w);
      var after;
      after, rest := ReadSpaces(State(After, inner), u);
      e := Member(space, key, between, past, v, after);
    }
  }

  lemma ReadKey(stack: seq<Container>, t: string)
      returns (key: seq<Piece>, between: string, past: string, rest: string)
    requires Accepts(State(Key, stack), t) && (t == "" || !IsWs(t[0]))
    ensures ArePieces(key) && IsSpaces(between) && IsSpaces(past)
    ensures t == "\"" + (Rest(key) + (between + (":" + (past + rest)))) && |rest| < |t|
    ensures Accepts(State(Value, stack), rest) && (rest == "" || !IsWs(rest[0]))
  {
    AcceptsSome(State(Key, stack), t);
    AcceptsFirst(State(Key, stack), t);
    var u, w;
    key, u := ReadRest(true, stack, t[1..]);
    between, w := ReadSpaces(State(Colon, stack), u);
    AcceptsSome(State(Colon, stack), w);
    AcceptsFirst(State(Colon, stack), w);
    past, rest := ReadSpaces(State(Value, stack), w[1..]);
    assert w == ":" + (past + rest);
  }

  lemma ValidIsDerived(t: string)
    requires Valid(t)
    ensures IsJson(t)
  {
    var before, u := ReadSpaces(Init, t);
    var v, w := ReadTree([], u);
    var after, rest := ReadSpaces(State(After, []), w);
    if rest != "" { AcceptsFirst(State(After, []), rest); }
    assert IsText(t, before, v, after);
  }

  /** The recogniser accepts exactly what the grammar derives. */
  lemma ValidIffDerived(t: string)
    ensures Valid(t) <==> IsJson(t)
  {
    if Valid(t) { ValidIsDerived(t); }
    if IsJson(t) { DerivedIsValid(t); }
  }
}
