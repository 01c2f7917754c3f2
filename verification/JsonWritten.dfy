/** What the healer writes around the marker, by where the text stops, and that each guarded
    branch writes just that. */
module JsonWritten {
  import opened Json
  import opened JsonLocator
  import opened JsonGuards
  import opened JsonHeal
  import opened JsonHealLimits

  // The digits that complete a \uXXXX escape of which n are read, and the low surrogate that a high
  // one needs. After what looks like a high surrogate a low one is completed.
  function Digits(n: nat, high: bool, looksHigh: bool): string
    requires n <= 4
  {
    if high then Zeros(4 - n) + "\\udc00"
    else if looksHigh && n == 0 then "dc00"
    else if looksHigh && n == 1 then "c00"
    else Zeros(4 - n)
  }

  // Between what is kept and the marker.
  function Before(str: string): string {
    var s := Reached(str);
    if StopsInToken(str) || FalseHighSurrogate(str) then "\""
    else
      match s.ctl
      case Str(_) => ""
      case Esc(_) => "\\"
      case Hex(_, _, n, kind) => if n <= 4 then Digits(n, kind.High?, PreludeLooksHigh(str)) else ""
      case HighDone(_) => "\\udc00"
      case HighEsc(_) => "udc00"
      case Colon => ":\""
      case After => ",\""
      case _ => "\""
  }

  // The text stops in a key, or where one begins.
  predicate AtKey(str: string) {
    var s := Reached(str);
    match s.ctl
    case Str(isKey) => isKey
    case Esc(isKey) => isKey
    case Hex(isKey, _, _, _) => isKey
    case HighDone(isKey) => isKey
    case HighEsc(isKey) => isKey
    case KeyOrEnd => true
    case Key => true
    case After => s.stack != [] && Top(s.stack).Obj?
    case _ => false
  }

  // Between the marker and the closing brackets: a value for a key.
  function Behind(str: string): string {
    if !StopsInToken(str) && !FalseHighSurrogate(str) && AtKey(str) then "\": 1" else "\""
  }

  // ----- what each accepted completion says about the text -----

  lemma ValueSays(str: string, closing: string)
    requires IsClosing(closing) && Valid(str + "1" + closing) && !Reached(str).ctl.Num?
    ensures Before(str) == "\"" && Behind(str) == "\""
  {
    Tried(str, "1", closing);
    OneGuard(Reached(str), closing);
  }

  lemma ColonSays(str: string, closing: string)
    requires IsClosing(closing) && Valid(str + ": 1" + closing)
    ensures Before(str) == ":\"" && Behind(str) == "\""
  {
    Tried(str, ": 1", closing);
    ColonOneGuard(Reached(str), closing);
  }

  lemma BraceSays(str: string, closing: string)
    requires IsClosing(closing) && Valid(str + closing)
    requires var at := FindLastNotOf(str, Spaces); at >= 0 && str[at] == '{'
    ensures Before(str) == "\"" && Behind(str) == "\": 1"
  {
    RunConcat(Init, str, closing);
    RunWellFormed(Init, str);
    OpenedByBrace(str);
    ClosesOnlyValues(Reached(str), closing);
  }

  lemma QuoteSays(str: string, closing: string)
    requires IsClosing(closing) && Valid(str + "\"" + closing)
    ensures Before(str) == "" && Behind(str) == "\"" && Reached(str).ctl == Str(false)
  {
    Tried(str, "\"", closing);
    QuoteGuard(Reached(str), closing);
  }

  lemma KeyTailSays(str: string, closing: string)
    requires IsClosing(closing) && Valid(str + "\": 1" + closing)
    ensures Before(str) == "" && Behind(str) == "\": 1" && Reached(str).ctl == Str(true)
  {
    Tried(str, "\": 1", closing);
    KeyTailGuard(Reached(str), closing);
  }

  lemma BackslashStep(s: State, k: bool)
    requires Step(s, '\\').ctl == Str(k)
    ensures s.ctl == Esc(k)
  {
  }

  lemma BackQuoteSays(str: string, closing: string)
    requires IsClosing(closing)
    ensures Valid(str + "\\\"" + closing) ==> Before(str) == "\\" && Behind(str) == "\""
    ensures Valid(str + "\\\": 1" + closing) ==> Before(str) == "\\" && Behind(str) == "\": 1"
  {
    var t := str + "\\";
    assert t + "\"" + closing == str + "\\\"" + closing && t + "\": 1" + closing == str + "\\\": 1" + closing;
    RunSnoc(Init, str, '\\');
    if Valid(str + "\\\"" + closing) {
      QuoteSays(t, closing);
      BackslashStep(Reached(str), false);
    }
    if Valid(str + "\\\": 1" + closing) {
      KeyTailSays(t, closing);
      BackslashStep(Reached(str), true);
    }
  }

  lemma CommaSays(str: string, closing: string)
    requires IsClosing(closing) && Valid(str + ", 1" + closing)
    requires var at := FindLastNotOf(str, Spaces); at >= 0 && !WasMaybeNumber(str, str[at])
    ensures Before(str) == ",\"" && Behind(str) == "\""
  {
    Tried(str, ", 1", closing);
    CommaOneGuard(Reached(str), closing);
    FinishedSays(str);
  }

  lemma CommaKeySays(str: string, closing: string)
    requires IsClosing(closing) && Valid(str + ",\"\": 1" + closing)
    requires var at := FindLastNotOf(str, Spaces); at >= 0 && !WasMaybeNumber(str, str[at])
    ensures Before(str) == ",\"" && Behind(str) == "\": 1"
  {
    Tried(str, ",\"\": 1", closing);
    CommaKeyGuard(Reached(str), closing);
    FinishedSays(str);
  }

  // A finished value that cannot be a number is just that.
  lemma FinishedSays(str: string)
    requires Finished(Reached(str))
    requires var at := FindLastNotOf(str, Spaces); at >= 0 && !WasMaybeNumber(str, str[at])
    ensures Reached(str).ctl.After? && !StopsInToken(str)
  {
    if StopsInToken(str) { TokenLooksLikeNumber(str); }
  }

  lemma EmptyKeySays(str: string, closing: string)
    requires IsClosing(closing) && Valid(str + "\"\": 1" + closing) && !Reached(str).ctl.Esc?
    ensures Before(str) == "\"" && Behind(str) == "\": 1"
  {
    Tried(str, "\"\": 1", closing);
    EmptyKeyGuard(Reached(str), closing);
  }

  // ----- the padding -----

  // Without a quote, a string stays the same string.
  lemma {:induction false} SameString(s: State, t: string)
    requires '"' !in t && IsStr(Run(s, t).ctl)
    ensures IsStr(s.ctl) && s.ctl.isKey == Run(s, t).ctl.isKey && s.stack == Run(s, t).stack
    decreases |t|
  {
    if !IsStr(s.ctl) {
      NoQuoteNoString(s, t);
    } else if t != [] {
      SameString(Step(s, t[0]), t[1..]);
      SameStringStep(s, t[0]);
    }
  }

  lemma SameStringStep(s: State, c: char)
    requires IsStr(s.ctl) && IsStr(Step(s, c).ctl)
    ensures s.ctl.isKey == Step(s, c).ctl.isKey && s.stack == Step(s, c).stack
  {
  }

  lemma PaddingHasNoQuote(str: string)
    ensures '"' !in Padding(str)
  {
  }

  // After a backslash, the padding is no escape.
  lemma EscapeUnpadded(str: string)
    requires Reached(str).ctl.Esc?
    ensures Reached(str + Padding(str)).ctl.Err?
  {
    if str != [] { LastChar(str); }
    assert Padding(str) == "udc00";
    RunConcat(Init, str, Padding(str));
    ReadLoneUdc00(Reached(str));
  }

  lemma ReadLoneUdc00(s: State)
    requires s.ctl.Esc?
    ensures Run(s, "udc00").ctl.Err?
  {
    assert "udc00"[1..] == "dc00" && "dc00"[1..] == "c00";
    var s1 := State(Hex(s.ctl.isKey, false, 0, Plain), s.stack);
    assert Run(s, "udc00") == Run(s1, "dc00");
    ReadLoneC00(Step(s1, 'd'));
    assert Run(s1, "dc00") == Run(Step(s1, 'd'), "c00");
  }

  // In a string that was no escape, the padding is plain text, or an escape that fails.
  lemma StringPadded(str: string)
    requires Reached(str).ctl.Str? && Reached(str + Padding(str)).ctl.Str?
    ensures Reached(str + Padding(str)) == Reached(str)
  {
    var s, pad := Reached(str), Padding(str);
    RunConcat(Init, str, pad);
    PaddingHasNoQuote(str);
    SameString(s, pad);
  }

  // Padding that leads to an open string: an escape was being read, and is completed.
  lemma PadSays(str: string)
    requires Reached(str + Padding(str)).ctl.Str? && Reached(str + Padding(str)) != Reached(str)
    ensures Before(str) == Padding(str) || FalseHighSurrogate(str)
    ensures IsStr(Reached(str).ctl) && Reached(str).ctl.isKey == Reached(str + Padding(str)).ctl.isKey
  {
    var s, pad := Reached(str), Padding(str);
    RunConcat(Init, str, pad);
    PaddingHasNoQuote(str);
    SameString(s, pad);
    match s.ctl {
      case Str(_) => StringPadded(str);
      case Esc(_) => EscapeUnpadded(str);
      case Hex(_, _, _, _) => HexSays(str);
      case HighDone(_) => HighDonePads(str);
      case HighEsc(_) => HighEscPads(str);
    }
  }

  lemma HexSays(str: string)
    requires Reached(str).ctl.Hex?
    ensures Before(str) == Padding(str) || FalseHighSurrogate(str)
  {
    var ctl := Reached(str).ctl;
    RunWellFormed(Init, str);
    HexTail(str);
    assert str[|str| - ctl.n..] == str[|str| - (ctl.n + 2) + 2..];
    PaddingIs(str, ctl.n + 2, ctl.kind);
    DigitsAre(ctl.n, ctl.kind, PreludeLooksHigh(str));
  }

  lemma DigitsAre(n: nat, kind: Kind, looksHigh: bool)
    requires n <= 4
    ensures PaddingFor(n + 2, kind, looksHigh) == Digits(n, kind.High?, looksHigh)
  {
    assert 6 - (n + 2) == 4 - n;
  }

  lemma PadQuoteSays(str: string, closing: string)
    requires IsClosing(closing) && Valid(str + Padding(str) + "\"" + closing) && !Valid(str + "\"" + closing)
    ensures Before(str) == Padding(str) && Behind(str) == "\""
  {
    QuoteSays(str + Padding(str), closing);
    if FalseHighSurrogate(str) { PaddingFails(str, "\"", closing); }
    Tried(str, "\"", closing);
    Tried(str + Padding(str), "\"", closing);
    PadSays(str);
  }

  lemma PadKeySays(str: string, closing: string)
    requires IsClosing(closing) && Valid(str + Padding(str) + "\": 1" + closing) && !Valid(str + "\": 1" + closing)
    ensures Before(str) == Padding(str) && Behind(str) == "\": 1"
  {
    KeyTailSays(str + Padding(str), closing);
    if FalseHighSurrogate(str) { PaddingFails(str, "\": 1", closing); }
    Tried(str, "\": 1", closing);
    Tried(str + Padding(str), "\": 1", closing);
    PadSays(str);
  }
}
