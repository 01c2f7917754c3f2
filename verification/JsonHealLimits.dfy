/** Which truncated texts can be healed: the texts that meet no guard, when cutting back to the
    last opening character gives JSON, and what becomes of texts with no open container. */
module JsonHealLimits {
  import opened Json
  import opened JsonLocator
  import opened JsonGuards
  import opened JsonHeal

  // ----- what looks like a high surrogate and is none meets no guard -----

  lemma FirstFails(str: string, x: string, closing: string)
    requires x != [] && Step(Reached(str), x[0]).ctl.Err?
    ensures !Valid(str + x + closing)
  {
    Tried(str, x, closing);
    assert x + closing == [x[0]] + (x[1..] + closing);
    RunCons(Reached(str), x[0], x[1..] + closing);
    FailedNeverAccepts(Step(Reached(str), x[0]), x[1..] + closing);
  }

  // The padding becomes a lone low surrogate.
  lemma PaddingFails(str: string, tail: string, closing: string)
    requires FalseHighSurrogate(str)
    ensures !Valid(str + Padding(str) + tail + closing)
  {
    var s, pad := Reached(str), Padding(str);
    HexTail(str);
    RunWellFormed(Init, str);
    assert str[|str| - s.ctl.n..] == str[|str| - (s.ctl.n + 2) + 2..];
    PaddingIs(str, s.ctl.n + 2, s.ctl.kind);
    ReadLoneLow(s, pad);
    RunConcat(Init, str, pad);
    Tried(str + pad, tail, closing);
    FailedNeverAccepts(Reached(str + pad), tail + closing);
  }

  lemma ReadLoneLow(s: State, low: string)
    requires WellFormed(s) && s.ctl.Hex? && !s.ctl.afterHigh
    requires (s.ctl.n == 0 && low == "dc00") || (s.ctl.n == 1 && s.ctl.kind.Dee? && low == "c00")
    ensures Run(s, low).ctl.Err?
  {
    if s.ctl.n == 0 {
      assert "dc00"[1..] == "c00";
      ReadLoneC00(Step(s, 'd'));
    } else {
      ReadLoneC00(s);
    }
  }

  lemma ReadLoneC00(s: State)
    requires s.ctl.Hex? && !s.ctl.afterHigh && s.ctl.n == 1 && s.ctl.kind.Dee?
    ensures Run(s, "c00").ctl.Err?
  {
    assert "c00"[1..] == "00" && "00"[1..] == "0" && "0"[1..] == "";
    var s2 := State(Hex(s.ctl.isKey, false, 2, Low), s.stack);
    assert Run(s, "c00") == Run(s2, "00");
    var s3 := State(Hex(s.ctl.isKey, false, 3, Low), s.stack);
    assert Run(s2, "00") == Run(s3, "0");
    assert Run(s3, "0") == Run(Step(s3, '0'), "");
  }

  // In a unicode escape every bare completion is refused at its first character.
  lemma EscapeRefuses(str: string, closing: string)
    requires Reached(str).ctl.Hex? && IsClosing(closing)
    ensures !Valid(str + ": 1" + closing) && !Valid(str + ", 1" + closing) && !Valid(str + ",\"\": 1" + closing)
    ensures !Valid(str + "\"" + closing) && !Valid(str + "\": 1" + closing) && !Valid(str + "\"\": 1" + closing)
    ensures !Valid(str + "\\\"" + closing) && !Valid(str + "\\\": 1" + closing)
    ensures !Valid(str + closing)
  {
    FirstFails(str, ": 1", closing);
    FirstFails(str, ", 1", closing);
    FirstFails(str, ",\"\": 1", closing);
    FirstFails(str, "\"", closing);
    FirstFails(str, "\": 1", closing);
    FirstFails(str, "\"\": 1", closing);
    FirstFails(str, "\\\"", closing);
    FirstFails(str, "\\\": 1", closing);
    RunConcat(Init, str, closing);
    StringNeverCloses(Reached(str), closing);
  }

  lemma OneAfterEscape(str: string, closing: string)
    requires Reached(str).ctl.Hex? && IsClosing(closing)
    ensures !Valid(str + "1" + closing)
  {
    Tried(str, "1", closing);
    if Valid(str + "1" + closing) { OneGuard(Reached(str), closing); }
  }

  lemma FalseHighMeetsNoGuard(str: string, stack: seq<Element>)
    requires FalseHighSurrogate(str)
    ensures !SomeGuard(str, stack)
  {
    var closing := ClosingOf(stack);
    ClosingOfIsClosing(stack);
    EscapeRefuses(str, closing);
    OneAfterEscape(str, closing);
    PaddingFails(str, "\"", closing);
    PaddingFails(str, "\": 1", closing);
  }

  /** Some completion of a truncated text with an open container is accepted exactly when it does not stop in a number
      or literal name, nor in an escape that only seems to follow a high surrogate. */
  lemma MeetsGuardIff(str: string)
    requires Truncated(str) && Reached(str).stack != []
    ensures SomeGuard(str, Mirror(AtEnd(Reached(str)))) <==> !StopsInToken(str) && !FalseHighSurrogate(str)
  {
    if FalseHighSurrogate(str) {
      FalseHighMeetsNoGuard(str, Mirror(AtEnd(Reached(str))));
    } else if StopsInToken(str) {
      TokenMeetsNoGuard(str, Mirror(AtEnd(Reached(str))));
    } else {
      TruncationMeetsGuard(str);
      assert AtEnd(Reached(str)) == Reached(str);
    }
  }

  // ----- when cutting back gives JSON -----

  // The last opening character opens a value of the innermost open container.
  predicate LastOpenerFits(str: string) {
    var stack := Reached(str).stack;
    var p := FindLastOf(str, Openers(stack));
    p >= 0 && AtValue(Reached(str[..p + 1]).ctl) && Reached(str[..p + 1]).stack == stack
  }

  lemma {:induction false} ClosersDiffer(a: seq<Container>, b: seq<Container>)
    requires Closers(a) == Closers(b)
    ensures a == b
    decreases |a|
  {
    if a != [] {
      assert Closers(a)[0] == Closer(Top(a));
      var x, y := a[..|a| - 1], b[..|b| - 1];
      assert Closers(a)[1..] == Closers(x) && Closers(b)[1..] == Closers(y);
      ClosersDiffer(x, y);
      assert a == x + [Top(a)] && b == y + [Top(b)];
    }
  }

  lemma OpenerStep(s: State, c: char)
    requires c == ':' || c == '[' || c == ','
    ensures !Step(s, c).ctl.Esc? && !Step(s, c).ctl.HighEsc?
  {
  }

  // A quote that leads into a value string, not after a backslash.
  lemma QuoteOpens(s: State)
    requires Step(s, '"').ctl == Str(false) && !s.ctl.Esc?
    ensures AtValue(s.ctl) && Step(s, '"').stack == s.stack
  {
  }

  // If a quote, plain text, a quote and brackets are accepted, a value began there.
  lemma StringWasValue(s: State, m: string, closing: string)
    requires WellFormed(s) && !s.ctl.Esc? && Marker(m) && IsClosing(closing) && Accepts(s, "\"" + m + "\"" + closing)
    ensures AtValue(s.ctl) && CanClose(s, closing)
  {
    var next := Step(s, '"');
    Peel(s, "\"", m + "\"" + closing);
    assert "\"" + m + "\"" + closing == "\"" + (m + "\"" + closing);
    assert "\""[1..] + (m + "\"" + closing) == m + ("\"" + closing);
    RunConcat(next, m, "\"" + closing);
    StepWellFormed(s, '"');
    RunWellFormed(next, m);
    QuoteGuard(Run(next, m), closing);
    NoQuoteInMarker(m);
    if !IsStr(next.ctl) {
      NoQuoteNoString(next, m);
    } else {
      QuoteLeadsTo(s);
      RunPlain(next, m);
      QuoteOpens(s);
    }
  }

  lemma QuoteLeadsTo(s: State)
    requires IsStr(Step(s, '"').ctl)
    ensures Step(s, '"').ctl.Str?
  {
  }

  lemma NoQuoteInMarker(m: string)
    requires Marker(m)
    ensures '"' !in m
  {
  }

  /** Cutting back to the last opening character gives JSON exactly when that character opens a value
      of the innermost open container. */
  lemma CutIff(str: string, m: string)
    requires Reached(str).stack != [] && Marker(m)
    ensures var stack := Reached(str).stack; var p := FindLastOf(str, Openers(stack));
            LastOpenerFits(str) <==> p >= 0 && Valid(str[..p + 1] + ("\"" + m) + ("\"" + Closers(stack)))
  {
    var stack := Reached(str).stack;
    var p := FindLastOf(str, Openers(stack));
    if p >= 0 {
      var front := str[..p + 1];
      var s := Reached(front);
      assert front == str[..p] + [str[p]];
      RunSnoc(Init, str[..p], str[p]);
      OpenerStep(Reached(str[..p]), str[p]);
      ClosersAreClosing(stack);
      Tried2(front, "\"" + m, "\"", Closers(stack));
      ClosingIsUnique(s.stack, Closers(stack));
      if LastOpenerFits(str) {
        WriteString(s, m, Closers(stack));
      } else if Accepts(s, "\"" + m + "\"" + Closers(stack)) {
        StringWasValue(s, m, Closers(stack));
        ClosersDiffer(stack, s.stack);
      }
    }
  }

  // In a number or literal name it always does.
  lemma TokenFits(str: string)
    requires Reached(str).stack != [] && StopsInToken(str)
    ensures LastOpenerFits(str)
  {
    CutBack(str, "");
    CutIff(str, "");
  }

  // ----- texts with no open container -----

  // The two completions that are tried there.
  predicate TopGuards(str: string) { Valid(str + "\"") || (LooksBack(str) && Valid(str + "\\\"")) }

  lemma BackslashLeadsTo(s: State)
    requires Step(s, '\\').ctl == Str(false)
    ensures s.ctl == Esc(false) && Step(s, '\\').stack == s.stack
  {
  }

  /** One of them is accepted exactly in a string, or after a lone backslash in it: not in a unicode
      escape, a number or a literal name. */
  lemma TopGuardsIff(str: string)
    requires Reached(str).stack == []
    ensures TopGuards(str) <==> Reached(str).ctl == Str(false) || Reached(str).ctl == Esc(false)
  {
    var s := Reached(str);
    RunWellFormed(Init, str);
    RunSnoc(Init, str, '"');
    QuoteEnds(s);
    var t := str + ['\\'];
    RunSnoc(Init, str, '\\');
    RunSnoc(Init, t, '"');
    assert str + "\\\"" == t + ['"'];
    RunWellFormed(Init, t);
    QuoteEnds(Reached(t));
    if Reached(t).ctl == Str(false) { BackslashLeadsTo(s); }
    if s.ctl == Esc(false) { LastChar(str); assert str != []; }
  }

  // A quote completes a text exactly when it ends a bare string.
  lemma QuoteEnds(s: State)
    requires WellFormed(s)
    ensures Accepting(Step(s, '"')) <==> s.ctl == Str(false) && s.stack == []
  {
  }

  // ----- together -----

  /** The truncated texts that are healed. */
  predicate CanHeal(str: string) {
    var s := Reached(str);
    if s.stack == [] then s.ctl == Str(false) || s.ctl == Esc(false)
    else !FalseHighSurrogate(str) || LastOpenerFits(str)
  }
}
