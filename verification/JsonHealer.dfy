/** The healer of common/json-partial.cpp: the guarded branches in the order of the source, and the
    cut when none of them is taken. */
module JsonHealer {
  import opened Json
  import opened JsonLocator
  import opened JsonGuards
  import opened JsonHeal
  import opened JsonHealLimits
  import opened JsonWritten

  // ----- the healer -----

  // A healed text is what is kept of the input, the dump marker, and the tail that closes it.
  datatype Outcome =
    | Complete(text: string)
    | Healed(kept: string, dump: string, tail: string)
    | Unhealable            // an exception
    | NotHealed             // the function returns false

  function Text(r: Outcome): string
    requires r.Complete? || r.Healed?
  {
    if r.Complete? then r.text else r.kept + r.dump + r.tail
  }

  predicate EndsIn(dump: string, m: string) { |m| <= |dump| && dump[|dump| - |m|..] == m }

  // The final parse of the rewritten text, which throws when it is not JSON.
  function Finish(kept: string, lead: string, m: string, tail: string): (r: Outcome)
    ensures r.Healed? ==> Valid(Text(r)) && r.kept == kept && EndsIn(r.dump, m)
    ensures r.Healed? <==> Valid(kept + (lead + m) + tail)
    ensures r.Healed? || r.Unhealable?
  {
    if Valid(kept + (lead + m) + tail) then Healed(kept, lead + m, tail) else Unhealable
  }

  // What is kept of a truncated text: all of it, or what comes before the value cut off.
  function Kept(str: string): string {
    if StopsInToken(str) || FalseHighSurrogate(str) then str[..FindLastOf(str, Openers(Reached(str).stack)) + 1] else str
  }

  // The text cut back to its last opening character, with the marker as the value.
  function CutTo(str: string, chars: string, m: string, closing: string): Outcome {
    var p := FindLastOf(str, chars);
    if p < 0 then Unhealable else Finish(str[..p + 1], "\"", m, "\"" + closing)
  }

  // What is written around the marker, as the state that the text stops in asks for.
  predicate Around(r: Outcome, str: string, m: string, closing: string)
    requires r.Healed?
  {
    r.dump == Before(str) + m && r.tail == Behind(str) + closing
  }

  // A guarded branch that fires: a text that keeps everything, and is JSON for a plain marker.
  predicate Fired(r: Outcome, str: string, m: string, closing: string) {
    && (Marker(m) ==> r.Healed?) && !r.Complete?
    && (r.Healed? ==> Valid(Text(r)) && r.kept == str && EndsIn(r.dump, m) && Around(r, str, m, closing))
  }

  lemma ValueFires(str: string, m: string, closing: string)
    requires IsClosing(closing) && Valid(str + "1" + closing) && !Reached(str).ctl.Num?
    ensures Fired(Finish(str, "\"", m, "\"" + closing), str, m, closing)
  {
    ValueSays(str, closing);
    if Marker(m) { ValueBranch(str, m, closing); }
  }

  lemma ColonFires(str: string, m: string, closing: string)
    requires IsClosing(closing) && Valid(str + ": 1" + closing)
    ensures Fired(Finish(str, ":\"", m, "\"" + closing), str, m, closing)
  {
    ColonSays(str, closing);
    if Marker(m) { ColonBranch(str, m, closing); }
  }

  lemma BraceFires(str: string, m: string, closing: string)
    requires IsClosing(closing) && Valid(str + closing) && LastIs(str, "{") && str != []
    ensures Fired(Finish(str, "\"", m, "\": 1" + closing), str, m, closing)
  {
    BraceSays(str, closing);
    if Marker(m) { BraceBranch(str, m, closing); }
  }

  lemma QuoteFires(str: string, m: string, closing: string)
    requires IsClosing(closing) && Valid(str + "\"" + closing)
    ensures Fired(Finish(str, "", m, "\"" + closing), str, m, closing)
  {
    QuoteSays(str, closing);
    if Marker(m) { OpenBranch(str, m, closing); }
  }

  lemma EscapeFires(str: string, m: string, closing: string)
    requires IsClosing(closing)
    ensures Valid(str + "\\\"" + closing) ==> Fired(Finish(str, "\\", m, "\"" + closing), str, m, closing)
    ensures Valid(str + "\\\": 1" + closing) ==> Fired(Finish(str, "\\", m, "\": 1" + closing), str, m, closing)
  {
    BackQuoteSays(str, closing);
    if Marker(m) { EscapeBranch(str, m, closing); }
  }

  lemma PadFires(str: string, m: string, closing: string)
    requires IsClosing(closing) && Valid(str + Padding(str) + "\"" + closing) && !Valid(str + "\"" + closing)
    ensures Fired(Finish(str, Padding(str), m, "\"" + closing), str, m, closing)
  {
    PadQuoteSays(str, closing);
    if Marker(m) { QuoteBranch(str, Padding(str), m, closing); }
  }

  lemma CommaFires(str: string, m: string, closing: string)
    requires IsClosing(closing) && Valid(str + ", 1" + closing) && EndsNoNumber(str)
    ensures Fired(Finish(str, ",\"", m, "\"" + closing), str, m, closing)
  {
    CommaSays(str, closing);
    if Marker(m) { CommaBranch(str, m, closing); }
  }

  lemma CommaKeyFires(str: string, m: string, closing: string)
    requires IsClosing(closing) && Valid(str + ",\"\": 1" + closing) && EndsNoNumber(str)
    ensures Fired(Finish(str, ",\"", m, "\": 1" + closing), str, m, closing)
  {
    CommaKeySays(str, closing);
    if Marker(m) { CommaKeyBranch(str, m, closing); }
  }

  lemma EmptyKeyFires(str: string, m: string, closing: string)
    requires IsClosing(closing) && Valid(str + "\"\": 1" + closing) && !Reached(str).ctl.Esc?
    ensures Fired(Finish(str, "\"", m, "\": 1" + closing), str, m, closing)
  {
    EmptyKeySays(str, closing);
    if Marker(m) { EmptyKeyBranch(str, m, closing); }
  }

  lemma KeyTailFires(str: string, m: string, closing: string)
    requires IsClosing(closing) && Valid(str + "\": 1" + closing)
    ensures Fired(Finish(str, "", m, "\": 1" + closing), str, m, closing)
  {
    KeyTailSays(str, closing);
    if Marker(m) { OpenBranch(str, m, closing); }
  }

  lemma PadKeyFires(str: string, m: string, closing: string)
    requires IsClosing(closing) && Valid(str + Padding(str) + "\": 1" + closing) && !Valid(str + "\": 1" + closing)
    ensures Fired(Finish(str, Padding(str), m, "\": 1" + closing), str, m, closing)
  {
    PadKeySays(str, closing);
    if Marker(m) { KeyTailBranch(str, Padding(str), m, closing); }
  }

  // The last character is not that of a number.
  predicate EndsNoNumber(str: string) {
    var at := FindLastNotOf(str, Spaces);
    at >= 0 && !WasMaybeNumber(str, str[at])
  }

  method HealKey(str: string, m: string, closing: string) returns (r: Outcome)
    requires str != [] && IsClosing(closing) && FindLastNotOf(str, Spaces) >= 0
    ensures !r.Complete? && (r.Healed? ==> Valid(Text(r)) && r.kept <= str && EndsIn(r.dump, m))
    ensures Marker(m) && KeyGuards(str, closing) ==> r.Healed? && r.kept == str
    ensures KeyGuards(str, closing) && r.Healed? ==> Around(r, str, m, closing)
    ensures !KeyGuards(str, closing) ==> r == CutTo(str, ":", m, closing)
  {
    var last := FindLastNotOf(str, Spaces);
    LastNonSpaceChar(str, last);
    if str[last] == ':' && Valid(str + "1" + closing) {
      r := Finish(str, "\"", m, "\"" + closing);
      ValueFires(str, m, closing);
    } else if Valid(str + ": 1" + closing) {
      r := Finish(str, ":\"", m, "\"" + closing);
      ColonFires(str, m, closing);
    } else if str[last] == '{' && Valid(str + closing) {
      r := Finish(str, "\"", m, "\": 1" + closing);
      BraceFires(str, m, closing);
    } else if Valid(str + "\"" + closing) {
      r := Finish(str, "", m, "\"" + closing);
      QuoteFires(str, m, closing);
    } else if str[|str| - 1] == '\\' && Valid(str + "\\\"" + closing) {
      r := Finish(str, "\\", m, "\"" + closing);
      EscapeFires(str, m, closing);
    } else if Valid(str + Padding(str) + "\"" + closing) {
      r := Finish(str, Padding(str), m, "\"" + closing);
      PadFires(str, m, closing);
    } else {
      r := CutTo(str, ":", m, closing);
    }
  }

  method HealArray(str: string, m: string, closing: string) returns (r: Outcome)
    requires str != [] && IsClosing(closing) && FindLastNotOf(str, Spaces) >= 0
    ensures !r.Complete? && (r.Healed? ==> Valid(Text(r)) && r.kept <= str && EndsIn(r.dump, m))
    ensures Marker(m) && ArrayGuards(str, closing) ==> r.Healed? && r.kept == str
    ensures ArrayGuards(str, closing) && r.Healed? ==> Around(r, str, m, closing)
    ensures !ArrayGuards(str, closing) ==> r == CutTo(str, "[,", m, closing)
  {
    var last := FindLastNotOf(str, Spaces);
    LastNonSpaceChar(str, last);
    if (str[last] == ',' || str[last] == '[') && Valid(str + "1" + closing) {
      r := Finish(str, "\"", m, "\"" + closing);
      ValueFires(str, m, closing);
    } else if Valid(str + "\"" + closing) {
      r := Finish(str, "", m, "\"" + closing);
      QuoteFires(str, m, closing);
    } else if str[|str| - 1] == '\\' && Valid(str + "\\\"" + closing) {
      r := Finish(str, "\\", m, "\"" + closing);
      EscapeFires(str, m, closing);
    } else if Valid(str + Padding(str) + "\"" + closing) {
      r := Finish(str, Padding(str), m, "\"" + closing);
      PadFires(str, m, closing);
    } else if !WasMaybeNumber(str, str[last]) && Valid(str + ", 1" + closing) {
      r := Finish(str, ",\"", m, "\"" + closing);
      CommaFires(str, m, closing);
    } else {
      r := CutTo(str, "[,", m, closing);
    }
  }

  method HealObject(str: string, m: string, closing: string) returns (r: Outcome)
    requires str != [] && IsClosing(closing) && FindLastNotOf(str, Spaces) >= 0
    ensures !r.Complete? && (r.Healed? ==> Valid(Text(r)) && r.kept <= str && EndsIn(r.dump, m))
    ensures Marker(m) && ObjectGuards(str, closing) ==> r.Healed? && r.kept == str
    ensures ObjectGuards(str, closing) && r.Healed? ==> Around(r, str, m, closing)
    ensures !ObjectGuards(str, closing) ==> r == CutTo(str, ":", m, closing)
  {
    var last := FindLastNotOf(str, Spaces);
    LastNonSpaceChar(str, last);
    if (str[last] == '{' && Valid(str + closing)) || (str[last] == ',' && Valid(str + "\"\": 1" + closing)) {
      r := Finish(str, "\"", m, "\": 1" + closing);
      if str[last] == '{' && Valid(str + closing) { BraceFires(str, m, closing); } else { EmptyKeyFires(str, m, closing); }
    } else if !WasMaybeNumber(str, str[last]) && Valid(str + ",\"\": 1" + closing) {
      r := Finish(str, ",\"", m, "\": 1" + closing);
      CommaKeyFires(str, m, closing);
    } else if Valid(str + "\": 1" + closing) {
      r := Finish(str, "", m, "\": 1" + closing);
      KeyTailFires(str, m, closing);
    } else if str[|str| - 1] == '\\' && Valid(str + "\\\": 1" + closing) {
      r := Finish(str, "\\", m, "\": 1" + closing);
      EscapeFires(str, m, closing);
    } else if Valid(str + Padding(str) + "\": 1" + closing) {
      r := Finish(str, Padding(str), m, "\": 1" + closing);
      PadKeyFires(str, m, closing);
    } else {
      r := CutTo(str, ":", m, closing);
    }
  }

  method HealTop(str: string, m: string) returns (r: Outcome)
    requires str != []
    ensures !r.Complete? && (r.Healed? ==> Valid(Text(r)) && r.kept == str && EndsIn(r.dump, m))
    ensures Marker(m) && TopGuards(str) ==> r.Healed?
    ensures r.Healed? ==> Around(r, str, m, "")
    ensures !TopGuards(str) ==> r.NotHealed?
  {
    assert str + "\"" + "" == str + "\"" && str + "\\\"" + "" == str + "\\\"" && "\"" + "" == "\"";
    if Valid(str + "\"") {
      r := Finish(str, "", m, "\"");
      QuoteSays(str, "");
      if Marker(m) { OpenBranch(str, m, ""); }
    } else if str[|str| - 1] == '\\' && Valid(str + "\\\"") {
      r := Finish(str, "\\", m, "\"");
      BackQuoteSays(str, "");
      if Marker(m) { EscapeBranch(str, m, ""); }
    } else {
      r := NotHealed;
    }
  }

  method HealOpen(str: string, m: string, stack: seq<Element>, closing: string) returns (r: Outcome)
    requires str != [] && FindLastNotOf(str, Spaces) >= 0 && stack != [] && closing == ClosingOf(stack)
    ensures !r.Complete? && (r.Healed? ==> Valid(Text(r)) && r.kept <= str && EndsIn(r.dump, m))
    ensures Marker(m) && SomeGuard(str, stack) ==> r.Healed? && r.kept == str
    ensures SomeGuard(str, stack) && r.Healed? ==> Around(r, str, m, closing)
    ensures !SomeGuard(str, stack) ==>
              r == CutTo(str, if stack[|stack| - 1].ArrayEl? then "[," else ":", m, closing)
  {
    ClosingOfIsClosing(stack);
    match stack[|stack| - 1] {
      case KeyEl => r := HealKey(str, m, closing);
      case ArrayEl => r := HealArray(str, m, closing);
      case ObjectEl => r := HealObject(str, m, closing);
    }
  }

  // A truncated text, with the elements that are open in it.
  ghost predicate Stopped(str: string, m: string, stack: seq<Element>) {
    Marker(m) && m != "" && Truncated(str) && stack == Mirror(AtEnd(Reached(str)))
  }

  // The character to cut back to, and the brackets, read off the stack of elements.
  lemma ReadOffStack(s: State, stack: seq<Element>)
    requires s.stack != [] && stack == Mirror(AtEnd(s))
    ensures stack != [] && ClosingOf(stack) == Closers(s.stack)
    ensures (if stack[|stack| - 1].ArrayEl? then "[," else ":") == Openers(s.stack)
  {
    TopIsArray(s, stack);
    MirrorClosing(AtEnd(s));
  }

  lemma TopIsArray(s: State, stack: seq<Element>)
    requires s.stack != [] && stack == Mirror(AtEnd(s))
    ensures stack != [] && (stack[|stack| - 1].ArrayEl? <==> Top(s.stack).Arr?)
  {
    TopElement(AtEnd(s));
  }

  // The cut of a text with an open container.
  lemma CutHeals(str: string, m: string, chars: string, closing: string)
    requires Reached(str).stack != [] && Marker(m) && (StopsInToken(str) || FalseHighSurrogate(str))
    requires chars == Openers(Reached(str).stack) && closing == Closers(Reached(str).stack)
    ensures var r := CutTo(str, chars, m, closing);
            (r.Healed? <==> LastOpenerFits(str)) && (r.Healed? ==> r.kept == Kept(str) && Around(r, str, m, closing))
  {
    CutIs(str, chars, m, closing);
    CutIff(str, m);
    KeptIs(str);
  }

  lemma KeptIs(str: string)
    requires StopsInToken(str) || FalseHighSurrogate(str)
    ensures Kept(str) == str[..FindLastOf(str, Openers(Reached(str).stack)) + 1]
  {
  }

  lemma CutIs(str: string, chars: string, m: string, closing: string)
    ensures var p := FindLastOf(str, chars); var r := CutTo(str, chars, m, closing);
            && (r.Healed? <==> p >= 0 && Valid(str[..p + 1] + ("\"" + m) + ("\"" + closing)))
            && (r.Healed? ==> r.kept == str[..p + 1] && r.dump == "\"" + m && r.tail == "\"" + closing)
  {
  }

  // What becomes of a truncated text with an open container.
  lemma HealsOpen(str: string, m: string, stack: seq<Element>)
    requires Stopped(str, m, stack) && Reached(str).stack != []
    ensures stack != [] && FindLastNotOf(str, Spaces) >= 0
    ensures SomeGuard(str, stack) ==> CanHeal(str) && Kept(str) == str
    ensures !SomeGuard(str, stack) ==>
              var r := CutTo(str, if stack[|stack| - 1].ArrayEl? then "[," else ":", m, ClosingOf(stack));
              (r.Healed? <==> CanHeal(str)) && (r.Healed? ==> r.kept == Kept(str) && Around(r, str, m, ClosingOf(stack)))
  {
    ReadOffStack(Reached(str), stack);
    NotBlank(str);
    MeetsGuardIff(str);
    if StopsInToken(str) { TokenFits(str); }
    if StopsInToken(str) || FalseHighSurrogate(str) {
      CutHeals(str, m, if stack[|stack| - 1].ArrayEl? then "[," else ":", ClosingOf(stack));
    }
  }

  // What becomes of one without.
  lemma HealsBare(str: string, m: string, stack: seq<Element>)
    requires Stopped(str, m, stack) && Reached(str).stack == []
    ensures stack == [] && (TopGuards(str) <==> CanHeal(str))
    ensures CanHeal(str) ==> str != [] && Kept(str) == str
  {
    TopGuardsIff(str);
  }

  // Position at is the first at which d occurs in t.
  predicate FirstAt(t: string, d: string, at: nat) {
    at + |d| <= |t| && t[at..at + |d|] == d && forall i :: 0 <= i < at ==> t[i..][..|d|] != d
  }

  /** Cutting the healed text at the first occurrence of the dump marker leaves a prefix of the input. */
  ghost predicate CutsToPrefix(r: Outcome, input: string)
    requires r.Healed?
  {
    forall at: nat :: FirstAt(Text(r), r.dump, at) ==> Text(r)[..at] <= input
  }

  lemma CutAtMarker(r: Outcome, input: string)
    requires r.Healed? && r.kept <= input
    ensures CutsToPrefix(r, input)
  {
    var text := Text(r);
    assert text[|r.kept|..][..|r.dump|] == r.dump;
    forall at: nat | FirstAt(text, r.dump, at)
      ensures text[..at] <= input
    {
      assert at <= |r.kept|;
      assert text[..at] == r.kept[..at] == input[..at];
    }
  }

  /** A truncated text is healed to what is kept of it, the marker with what belongs before and behind
      it there, and the brackets of the open containers. */
  predicate Written(r: Outcome, str: string, m: string) {
    r == Healed(Kept(str), Before(str) + m, Behind(str) + Closers(Reached(str).stack))
  }

  // The brackets that the source reads off its stack are those.
  lemma ClosingIsClosers(str: string, stack: seq<Element>)
    requires stack == Mirror(AtEnd(Reached(str)))
    ensures ClosingOf(stack) == Closers(Reached(str).stack)
  {
    MirrorClosing(AtEnd(Reached(str)));
  }

  /** The healing of the text before the error, with what the handler found open in it. */
  method Heal(str: string, m: string, loc: JsonErrorLocator) returns (r: Outcome)
    requires !Valid(str)
    ensures m == "" ==> r.NotHealed?
    ensures !r.Complete? && (r.Healed? ==> Valid(Text(r)) && r.kept <= str && EndsIn(r.dump, m) && CutsToPrefix(r, str))
    ensures Marker(m) && m != "" && SomeGuard(str, loc.stack) ==> r.Healed? && r.kept == str
    ensures Stopped(str, m, loc.stack) ==> (r.Healed? <==> CanHeal(str)) && (r.Healed? ==> Written(r, str, m))
  {
    if Stopped(str, m, loc.stack) {
      ClosingIsClosers(str, loc.stack);
      if Reached(str).stack != [] { HealsOpen(str, m, loc.stack); } else { HealsBare(str, m, loc.stack); }
    }
    if m != "" && loc.stack != [] {
      if FindLastNotOf(str, Spaces) < 0 { return Unhealable; }
      var closing := loc.Closing();
      r := HealOpen(str, m, loc.stack, closing);
    } else if str != [] && m != "" {
      r := HealTop(str, m);
    } else {
      r := NotHealed;
    }
    if r.Healed? { CutAtMarker(r, str); }
  }

  /** common_json_parse: parses a text, healing it when it is truncated. */
  method CommonJsonParse(input: string, m: string) returns (r: Outcome)
    ensures Valid(input) ==> r == Complete(input)
    ensures r.Complete? ==> Valid(Text(r)) && r.text <= input
    ensures r.Healed? ==> Valid(Text(r)) && r.kept <= input && EndsIn(r.dump, m) && CutsToPrefix(r, input)
    ensures Marker(m) && m != "" && Truncated(input) ==>
              (r.Healed? <==> CanHeal(input)) && (r.Healed? ==> Written(r, input, m))
  {
    var loc := new JsonErrorLocator();
    loc.SaxParse(input);
    if !loc.foundError { return Complete(input); }
    var str := input[..loc.position];
    if Truncated(input) {
      TruncatedIsAlive(input);
      assert loc.position == |input| by {
        if loc.position < |input| { FailsAt(input, loc.position); }
      }
      assert str == input;
    }
    if Valid(str) { return Complete(str); }
    r := Heal(str, m, loc);
    if r.Healed? { CutAtMarker(r, input); }
  }
}
