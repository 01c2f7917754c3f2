/** What each completion tried by the healer tells about the text so far, and why a
    different completion may then be written instead. Every lemma holds of any reachable
    recogniser state and any string of closing brackets. */
module JsonGuards {
  import opened Json

  predicate CanClose(s: State, closing: string) { Accepts(State(After, s.stack), closing) }

  predicate Finished(s: State) { s.ctl.After? || (s.ctl.Num? && IsComplete(s.ctl.phase)) }

  // An open string absorbs everything up to a quote.
  lemma {:induction false} OpenStringNeverCloses(s: State, t: string, closing: string)
    requires s.ctl.Str? && IsClosing(closing) && IsPlainText(t)
    ensures !Accepts(s, t + closing)
  {
    RunConcat(s, t, closing);
    RunPlain(s, t);
    StringNeverCloses(s, closing);
  }

  predicate AtValue(ctl: Ctl) { ctl.Value? || ctl.ValueOrEnd? }

  // What is left after a finished value: only complete values close.
  lemma ClosesOnlyValues(s: State, closing: string)
    requires WellFormed(s) && IsClosing(closing) && Accepts(s, closing)
    ensures Finished(s) || s.ctl.ValueOrEnd? || s.ctl.KeyOrEnd?
  {
    if IsStr(s.ctl) {
      StringNeverCloses(s, closing);
    } else if closing != [] {
      var next := Step(s, closing[0]);
      if next.ctl.Err? { RunFailed(next, closing[1..]); }
    }
  }

  lemma QuoteStep(s: State)
    ensures var next := Step(s, '"');
            next.ctl.Err? || IsStr(next.ctl) || (s.ctl == Str(true) && next.ctl.Colon?) ||
            (s.ctl == Str(false) && next == State(After, s.stack))
  {
  }

  // `"`
  lemma QuoteGuard(s: State, closing: string)
    requires WellFormed(s) && IsClosing(closing) && Accepts(s, "\"" + closing)
    ensures s.ctl == Str(false) && CanClose(s, closing)
  {
    Peel(s, "\"", closing);
    var next := Step(s, '"');
    assert "\""[1..] + closing == closing;
    QuoteStep(s);
    if next.ctl.Err? {
      FailedNeverAccepts(next, closing);
    } else if IsStr(next.ctl) {
      StringNeverCloses(next, closing);
    } else if next.ctl.Colon? && closing != [] {
      FailedNeverAccepts(Step(next, closing[0]), closing[1..]);
    }
  }

  lemma OneStep(s: State)
    requires !s.ctl.Num?
    ensures var next := Step(s, '1');
            next.ctl.Err? || IsStr(next.ctl) || (AtValue(s.ctl) && next == State(Num(Int), s.stack))
  {
  }

  // `1`, when no number is being read
  lemma OneGuard(s: State, closing: string)
    requires WellFormed(s) && IsClosing(closing) && Accepts(s, "1" + closing) && !s.ctl.Num?
    ensures AtValue(s.ctl) && CanClose(s, closing)
  {
    Peel(s, "1", closing);
    var next := Step(s, '1');
    assert "1"[1..] + closing == closing;
    OneStep(s);
    if next.ctl.Err? {
      FailedNeverAccepts(next, closing);
    } else if IsStr(next.ctl) {
      StringNeverCloses(next, closing);
    } else {
      NumberCloses(Int, s.stack, closing);
    }
  }

  // `: 1`
  lemma ColonOneGuard(s: State, closing: string)
    requires WellFormed(s) && IsClosing(closing) && Accepts(s, ": 1" + closing)
    ensures s.ctl.Colon? && CanClose(s, closing)
  {
    Peel(s, ": 1", closing);
    var next := Step(s, ':');
    StepWellFormed(s, ':');
    assert ": 1"[1..] == " 1";
    if next.ctl.Err? {
      FailedNeverAccepts(next, " 1" + closing);
    } else if s.ctl.Colon? {
      Peel(next, " 1", closing);
      assert " 1"[1..] == "1";
      OneGuard(next, closing);
    } else {
      assert next.ctl.Str? && next == s;
      OpenStringNeverCloses(next, " 1", closing);
    }
  }

  // A plain text tried in an open string, or in a state that cannot take its first character.
  lemma NotInString(s: State, t: string, closing: string)
    requires IsClosing(closing) && IsPlainText(t) && Accepts(s, t + closing)
    ensures !s.ctl.Str?
  {
    if s.ctl.Str? { OpenStringNeverCloses(s, t, closing); }
  }

  // `,` leads on to a value or a key only from a finished value.
  lemma CommaStep(s: State)
    requires WellFormed(s) && !s.ctl.Str?
    ensures var next := Step(s, ',');
            next.ctl.Err? || (Finished(s) && s.stack != [] && next == State(if Top(s.stack).Obj? then Key else Value, s.stack))
  {
  }

  // `, 1`
  lemma CommaOneGuard(s: State, closing: string)
    requires WellFormed(s) && IsClosing(closing) && Accepts(s, ", 1" + closing)
    ensures Finished(s) && s.stack != [] && Top(s.stack).Arr? && CanClose(s, closing)
  {
    NotInString(s, ", 1", closing);
    CommaStep(s);
    Peel(s, ", 1", closing);
    var next := Step(s, ',');
    assert ", 1"[1..] == " 1" && " 1"[1..] == "1";
    if next.ctl.Err? { FailedNeverAccepts(next, " 1" + closing); }
    Peel(next, " 1", closing);
    OneGuard(next, closing);
  }

  // `": 1`
  lemma KeyTailGuard(s: State, closing: string)
    requires WellFormed(s) && IsClosing(closing) && Accepts(s, "\": 1" + closing)
    ensures s.ctl == Str(true) && CanClose(s, closing)
  {
    Peel(s, "\": 1", closing);
    var next := Step(s, '"');
    StepWellFormed(s, '"');
    assert "\": 1"[1..] == ": 1";
    if next.ctl.Err? { FailedNeverAccepts(next, ": 1" + closing); }
    ColonOneGuard(next, closing);
  }

  // `"": 1`, when the text does not stop at an escape
  lemma EmptyKeyGuard(s: State, closing: string)
    requires WellFormed(s) && IsClosing(closing) && Accepts(s, "\"\": 1" + closing) && !s.ctl.Esc?
    ensures (s.ctl.Key? || s.ctl.KeyOrEnd?) && CanClose(s, closing)
  {
    Peel(s, "\"\": 1", closing);
    var next := Step(s, '"');
    StepWellFormed(s, '"');
    assert "\"\": 1"[1..] == "\": 1";
    KeyTailGuard(next, closing);
  }

  // `,"": 1`
  lemma CommaKeyGuard(s: State, closing: string)
    requires WellFormed(s) && IsClosing(closing) && Accepts(s, ",\"\": 1" + closing)
    ensures Finished(s) && s.stack != [] && Top(s.stack).Obj? && CanClose(s, closing)
  {
    Peel(s, ",\"\": 1", closing);
    var next := Step(s, ',');
    StepWellFormed(s, ',');
    assert ",\"\": 1"[1..] == "\"\": 1";
    EmptyKeyGuard(next, closing);
  }

  // An opening brace that the closing text closes at once.
  lemma BraceGuard(s: State, closing: string)
    requires WellFormed(s) && IsClosing(closing) && Accepts(s, closing) && s.ctl.KeyOrEnd?
    ensures CanClose(s, closing)
  {
    assert closing != [];
    if closing[0] != '}' { FailedNeverAccepts(Step(s, closing[0]), closing[1..]); }
  }

  // ----- what is written instead -----

  predicate Marker(m: string) { IsPlainText(m) }

  // Text that reads as the rest of an open string and its closing quote.
  lemma WriteStringTail(s: State, m: string, closing: string)
    requires s.ctl == Str(false) && Marker(m) && CanClose(s, closing)
    ensures Accepts(s, m + "\"" + closing)
  {
    RunConcat(s, m, "\"" + closing);
    RunPlain(s, m);
    Peel(s, "\"", closing);
    assert m + "\"" + closing == m + ("\"" + closing);
    assert "\""[1..] + closing == closing;
  }

  lemma WriteString(s: State, m: string, closing: string)
    requires AtValue(s.ctl) && Marker(m) && CanClose(s, closing)
    ensures Accepts(s, "\"" + m + "\"" + closing)
  {
    var next := Step(s, '"');
    Peel(s, "\"", m + "\"" + closing);
    assert "\"" + m + "\"" + closing == "\"" + (m + "\"" + closing);
    assert "\""[1..] + (m + "\"" + closing) == m + "\"" + closing;
    WriteStringTail(next, m, closing);
  }

  lemma WriteColonString(s: State, m: string, closing: string)
    requires s.ctl.Colon? && Marker(m) && CanClose(s, closing)
    ensures Accepts(s, ":\"" + m + "\"" + closing)
  {
    var rest := "\"" + m + "\"" + closing;
    Peel(s, ":", rest);
    assert ":\"" + m + "\"" + closing == ":" + rest;
    assert ":"[1..] + rest == rest;
    WriteString(Step(s, ':'), m, closing);
  }

  lemma WriteCommaString(s: State, m: string, closing: string)
    requires Finished(s)
    requires s.stack != [] && Top(s.stack).Arr? && Marker(m) && CanClose(s, closing)
    ensures Accepts(s, ",\"" + m + "\"" + closing)
  {
    var rest := "\"" + m + "\"" + closing;
    Peel(s, ",", rest);
    assert ",\"" + m + "\"" + closing == "," + rest;
    assert ","[1..] + rest == rest;
    assert Step(s, ',') == State(Value, s.stack);
    WriteString(Step(s, ','), m, closing);
  }

  // ` 1` where a value must start, with or without a space.
  lemma WriteOne(s: State, closing: string)
    requires AtValue(s.ctl) && IsClosing(closing) && CanClose(s, closing)
    ensures Accepts(s, "1" + closing) && Accepts(s, " 1" + closing)
  {
    NumberCloses(Int, s.stack, closing);
    Peel(s, "1", closing);
    Peel(s, " 1", closing);
    assert "1"[1..] + closing == closing && " 1"[1..] == "1";
  }

  lemma WriteColonOne(s: State, closing: string)
    requires s.ctl.Colon? && IsClosing(closing) && CanClose(s, closing)
    ensures Accepts(s, ": 1" + closing)
  {
    Peel(s, ": 1", closing);
    assert ": 1"[1..] == " 1";
    WriteOne(Step(s, ':'), closing);
  }

  lemma WriteKeyTail(s: State, m: string, closing: string)
    requires s.ctl == Str(true) && Marker(m) && CanClose(s, closing) && IsClosing(closing)
    ensures Accepts(s, m + "\": 1" + closing)
  {
    var tail := "\": 1" + closing;
    assert m + "\": 1" + closing == m + tail;
    RunConcat(s, m, tail);
    RunPlain(s, m);
    Peel(s, "\": 1", closing);
    assert "\": 1"[1..] == ": 1";
    WriteColonOne(Step(s, '"'), closing);
  }

  lemma WriteKey(s: State, m: string, closing: string)
    requires (s.ctl.Key? || s.ctl.KeyOrEnd?) && Marker(m) && CanClose(s, closing) && IsClosing(closing)
    ensures Accepts(s, "\"" + m + "\": 1" + closing)
  {
    var rest := m + "\": 1" + closing;
    Peel(s, "\"", rest);
    assert "\"" + m + "\": 1" + closing == "\"" + rest;
    assert "\""[1..] + rest == rest;
    WriteKeyTail(Step(s, '"'), m, closing);
  }

  lemma WriteCommaKey(s: State, m: string, closing: string)
    requires Finished(s)
    requires s.stack != [] && Top(s.stack).Obj? && Marker(m) && CanClose(s, closing) && IsClosing(closing)
    ensures Accepts(s, ",\"" + m + "\": 1" + closing)
  {
    var rest := "\"" + m + "\": 1" + closing;
    Peel(s, ",", rest);
    assert ",\"" + m + "\": 1" + closing == "," + rest;
    assert ","[1..] + rest == rest;
    WriteKey(Step(s, ','), m, closing);
  }
}
