/** A recogniser for JSON texts (section 2 of RFC 8259), one character at a time.

    It stands for the JSON library that the healer calls. Where the grammar of
    RFC 8259 leaves room, it follows that library: an escaped high surrogate must
    be followed by an escaped low one, and a low one must follow a high one. */
module Json {

  datatype Container = Obj | Arr

  datatype Phase = Minus | Zero | Int | Dot | Frac | Exp | ExpSign | ExpDigits

  datatype Word = True | False | Null

  // What the digits of a \uXXXX escape read so far say about surrogates.
  datatype Kind = Plain | Dee | High | Low

  datatype Ctl =
    | Value                 // a value must start here
    | ValueOrEnd            // just after '['
    | KeyOrEnd              // just after '{'
    | Key                   // just after ',' in an object
    | Colon                 // a key has been read
    | After                 // a value has been read
    | Str(isKey: bool)
    | Esc(isKey: bool)      // just after '\' in a string
    | Hex(isKey: bool, afterHigh: bool, n: nat, kind: Kind)  // n digits of \uXXXX read
    | HighDone(isKey: bool) // a high surrogate has been read
    | HighEsc(isKey: bool)  // ... and the '\' after it
    | Lit(word: Word, read: nat) // letters of true, false or null read
    | Num(phase: Phase)
    | Err

  datatype State = State(ctl: Ctl, stack: seq<Container>)

  const Init := State(Value, [])
  const Failed := State(Err, [])

  predicate IsWs(c: char) { c == ' ' || c == '\n' || c == '\r' || c == '\t' }

  predicate IsDigit(c: char) { '0' <= c <= '9' }

  predicate IsHex(c: char) { IsDigit(c) || 'a' <= c <= 'f' || 'A' <= c <= 'F' }

  predicate IsEscape(c: char) {
    c == '"' || c == '\\' || c == '/' || c == 'b' || c == 'f' || c == 'n' || c == 'r' || c == 't'
  }

  // An unescaped string character that is not the closing quote or a backslash.
  predicate IsPlain(c: char) { c != '"' && c != '\\' && c >= ' ' }

  predicate IsPlainText(t: string) { forall i :: 0 <= i < |t| ==> IsPlain(t[i]) }

  predicate IsComplete(p: Phase) { p == Zero || p == Int || p == Frac || p == ExpDigits }

  function Spell(w: Word): string {
    match w
    case True => "true"
    case False => "false"
    case Null => "null"
  }

  // ----- one step -----

  function Top(stack: seq<Container>): (c: Container)
    requires stack != []
  {
    stack[|stack| - 1]
  }

  function Pop(stack: seq<Container>): State
    requires stack != []
  {
    State(After, stack[..|stack| - 1])
  }

  function BeginValue(s: State, c: char): State {
    if IsWs(c) then s
    else if c == '{' then State(KeyOrEnd, s.stack + [Obj])
    else if c == '[' then State(ValueOrEnd, s.stack + [Arr])
    else if c == '"' then s.(ctl := Str(false))
    else if c == '-' then s.(ctl := Num(Minus))
    else if c == '0' then s.(ctl := Num(Zero))
    else if IsDigit(c) then s.(ctl := Num(Int))
    else if c == 't' then s.(ctl := Lit(True, 1))
    else if c == 'f' then s.(ctl := Lit(False, 1))
    else if c == 'n' then s.(ctl := Lit(Null, 1))
    else Failed
  }

  function AfterValue(stack: seq<Container>, c: char): State {
    if IsWs(c) then State(After, stack)
    else if stack == [] then Failed
    else if Top(stack).Obj? then
      if c == ',' then State(Key, stack) else if c == '}' then Pop(stack) else Failed
    else
      if c == ',' then State(Value, stack) else if c == ']' then Pop(stack) else Failed
  }

  function NextPhase(p: Phase, c: char): (r: (bool, Phase)) {
    if p.Minus? && c == '0' then (true, Zero)
    else if p.Minus? && IsDigit(c) then (true, Int)
    else if p.Int? && IsDigit(c) then (true, Int)
    else if (p.Zero? || p.Int?) && c == '.' then (true, Dot)
    else if (p.Dot? || p.Frac?) && IsDigit(c) then (true, Frac)
    else if (p.Zero? || p.Int? || p.Frac?) && (c == 'e' || c == 'E') then (true, Exp)
    else if p.Exp? && (c == '+' || c == '-') then (true, ExpSign)
    else if (p.Exp? || p.ExpSign? || p.ExpDigits?) && IsDigit(c) then (true, ExpDigits)
    else (false, p)
  }

  function NextKind(n: nat, kind: Kind, c: char): Kind {
    if n == 0 then if c == 'd' || c == 'D' then Dee else Plain
    else if n == 1 && kind.Dee? then
      if '0' <= c <= '7' then Plain
      else if c == '8' || c == '9' || c == 'a' || c == 'A' || c == 'b' || c == 'B' then High
      else Low
    else kind
  }

  function HexStep(ctl: Ctl, c: char): Ctl
    requires ctl.Hex?
  {
    var kind := NextKind(ctl.n, ctl.kind, c);
    if !IsHex(c) then Err
    else if ctl.n < 3 then ctl.(n := ctl.n + 1, kind := kind)
    else if ctl.afterHigh then if kind.Low? then Str(ctl.isKey) else Err
    else if kind.High? then HighDone(ctl.isKey)
    else if kind.Low? then Err
    else Str(ctl.isKey)
  }

  function InString(ctl: Ctl, c: char): Ctl
    requires IsStr(ctl)
  {
    match ctl
    case Str(k) =>
      if c == '"' then if k then Colon else After
      else if c == '\\' then Esc(k)
      else if c < ' ' then Err
      else ctl
    case Esc(k) =>
      if c == 'u' then Hex(k, false, 0, Plain) else if IsEscape(c) then Str(k) else Err
    case Hex(_, _, _, _) => HexStep(ctl, c)
    case HighDone(k) => if c == '\\' then HighEsc(k) else Err
    case HighEsc(k) => if c == 'u' then Hex(k, true, 0, Plain) else Err
  }

  predicate IsStr(ctl: Ctl) { ctl.Str? || ctl.Esc? || ctl.Hex? || ctl.HighDone? || ctl.HighEsc? }

  function Of(ctl: Ctl, stack: seq<Container>): State {
    if ctl.Err? then Failed else State(ctl, stack)
  }

  function Step(s: State, c: char): State {
    if IsStr(s.ctl) then Of(InString(s.ctl, c), s.stack)
    else match s.ctl
      case Value => BeginValue(s, c)
      case ValueOrEnd => if c == ']' && s.stack != [] then Pop(s.stack) else BeginValue(s, c)
      case KeyOrEnd =>
        if IsWs(c) then s
        else if c == '"' then s.(ctl := Str(true))
        else if c == '}' && s.stack != [] then Pop(s.stack)
        else Failed
      case Key => if IsWs(c) then s else if c == '"' then s.(ctl := Str(true)) else Failed
      case Colon => if IsWs(c) then s else if c == ':' then s.(ctl := Value) else Failed
      case After => AfterValue(s.stack, c)
      case Lit(w, n) =>
        if n >= |Spell(w)| || c != Spell(w)[n] then Failed
        else if n + 1 == |Spell(w)| then s.(ctl := After)
        else s.(ctl := Lit(w, n + 1))
      case Num(p) =>
        var (more, p') := NextPhase(p, c);
        if more then s.(ctl := Num(p'))
        else if IsComplete(p) then AfterValue(s.stack, c)
        else Failed
      case _ => Failed
  }

  function Run(s: State, t: string): State
    decreases |t|
  {
    if t == [] then s else Run(Step(s, t[0]), t[1..])
  }

  predicate Accepting(s: State) {
    s.stack == [] && (s.ctl.After? || (s.ctl.Num? && IsComplete(s.ctl.phase)))
  }

  predicate Accepts(s: State, t: string) { Accepting(Run(s, t)) }

  // A JSON text.
  predicate Valid(t: string) { Accepts(Init, t) }

  // ----- running over concatenations -----

  lemma {:induction false} RunConcat(s: State, a: string, b: string)
    ensures Run(s, a + b) == Run(Run(s, a), b)
    decreases |a|
  {
    if a == [] {
      assert a + b == b;
    } else {
      assert (a + b)[1..] == a[1..] + b;
      RunConcat(Step(s, a[0]), a[1..], b);
    }
  }

  lemma RunSnoc(s: State, a: string, c: char)
    ensures Run(s, a + [c]) == Step(Run(s, a), c)
  {
    RunConcat(s, a, [c]);
    assert Run(Run(s, a), [c]) == Run(Step(Run(s, a), c), [c][1..]);
  }

  // One more character in front.
  lemma RunCons(s: State, c: char, t: string)
    ensures Run(s, [c] + t) == Run(Step(s, c), t)
  {
    assert ([c] + t)[1..] == t;
  }

  // Peels one character off the first of two pieces.
  lemma Peel(s: State, a: string, b: string)
    requires a != []
    ensures Run(s, a + b) == Run(Step(s, a[0]), a[1..] + b)
  {
    assert (a + b)[1..] == a[1..] + b;
  }

  lemma {:induction false} RunFailed(s: State, t: string)
    requires s.ctl.Err?
    ensures Run(s, t).ctl.Err?
    decreases |t|
  {
    if t != [] { RunFailed(Step(s, t[0]), t[1..]); }
  }

  lemma {:induction false} RunPlain(s: State, t: string)
    requires s.ctl.Str? && IsPlainText(t)
    ensures Run(s, t) == s
    decreases |t|
  {
    if t != [] { RunPlain(s, t[1..]); }
  }

  // ----- reachable states -----

  predicate NeedsArray(ctl: Ctl) { ctl.ValueOrEnd? }

  predicate NeedsObject(ctl: Ctl) {
    ctl.KeyOrEnd? || ctl.Key? || ctl.Colon? || (IsStr(ctl) && ctl.isKey)
  }

  predicate KindFits(n: nat, kind: Kind) {
    if n == 0 then kind.Plain? else if n == 1 then kind.Plain? || kind.Dee? else !kind.Dee?
  }

  // What every reachable state satisfies.
  predicate WellFormed(s: State) {
    && (NeedsArray(s.ctl) ==> s.stack != [] && Top(s.stack).Arr?)
    && (NeedsObject(s.ctl) ==> s.stack != [] && Top(s.stack).Obj?)
    && (s.ctl.Lit? ==> 0 < s.ctl.read < |Spell(s.ctl.word)|)
    && (s.ctl.Hex? ==> s.ctl.n < 4 && KindFits(s.ctl.n, s.ctl.kind))
  }

  lemma StringWellFormed(s: State, c: char)
    requires WellFormed(s) && IsStr(s.ctl)
    ensures WellFormed(Step(s, c))
  {
  }

  lemma StepWellFormed(s: State, c: char)
    requires WellFormed(s)
    ensures WellFormed(Step(s, c))
  {
    if IsStr(s.ctl) { StringWellFormed(s, c); }
  }

  lemma {:induction false} RunWellFormed(s: State, t: string)
    requires WellFormed(s)
    ensures WellFormed(Run(s, t))
    decreases |t|
  {
    if t != [] {
      StepWellFormed(s, t[0]);
      RunWellFormed(Step(s, t[0]), t[1..]);
    }
  }

  // ----- closing brackets -----

  predicate IsCloser(c: char) { c == '}' || c == ']' }

  predicate IsClosing(t: string) { forall i :: 0 <= i < |t| ==> IsCloser(t[i]) }

  function Closer(c: Container): char { if c.Obj? then '}' else ']' }

  // The brackets that close all open containers, innermost first.
  function Closers(stack: seq<Container>): string {
    if stack == [] then [] else [Closer(Top(stack))] + Closers(stack[..|stack| - 1])
  }

  lemma {:induction false} ClosersAreClosing(stack: seq<Container>)
    ensures IsClosing(Closers(stack))
  {
    if stack != [] { ClosersAreClosing(stack[..|stack| - 1]); }
  }

  // No run of closing brackets ends an unfinished string.
  lemma {:induction false} StringNeverCloses(s: State, closing: string)
    requires IsStr(s.ctl) && IsClosing(closing)
    ensures !Accepts(s, closing)
    decreases |closing|
  {
    if closing != [] {
      var next := Step(s, closing[0]);
      if next.ctl.Err? { RunFailed(next, closing[1..]); } else { StringNeverCloses(next, closing[1..]); }
    }
  }

  lemma {:induction false} FailedNeverAccepts(s: State, t: string)
    requires s.ctl.Err?
    ensures !Accepts(s, t)
  {
    RunFailed(s, t);
  }

  // A complete number is closed exactly like any other finished value.
  lemma NumberCloses(p: Phase, stack: seq<Container>, closing: string)
    requires IsComplete(p) && IsClosing(closing)
    ensures Accepts(State(Num(p), stack), closing) == Accepts(State(After, stack), closing)
  {
    if closing != [] {
      assert Step(State(Num(p), stack), closing[0]) == Step(State(After, stack), closing[0]);
    }
  }

  // From a finished value the open containers are closed by one string of brackets, and no other.
  lemma {:induction false} ClosingIsUnique(stack: seq<Container>, closing: string)
    requires IsClosing(closing)
    ensures Accepts(State(After, stack), closing) <==> closing == Closers(stack)
  {
    if closing == [] {
    } else if stack == [] {
      RunFailed(Step(State(After, stack), closing[0]), closing[1..]);
    } else if closing[0] == Closer(Top(stack)) {
      ClosingIsUnique(stack[..|stack| - 1], closing[1..]);
      assert closing == [closing[0]] + closing[1..];
    } else {
      RunFailed(Step(State(After, stack), closing[0]), closing[1..]);
    }
  }
}
