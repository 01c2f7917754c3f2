/** Calls whose arguments are strings and other values, in any mixture. */
module ChatValues {
  import Quotes
  import opened ChatMapper
  import opened ChatArguments

  // An argument, with a value that is a string by its schema or is written as it stands.
  datatype Value = Value(key: string, text: string, isString: bool)

  function ValueEvents(a: Value): seq<Event> {
    Four(ArgOpen, ArgName(a.key), if a.isString then ArgStringValue(a.text) else ArgValue(a.text), ArgClose)
  }

  function AllValueEvents(args: seq<Value>): seq<Event> {
    if args == [] then [] else AllValueEvents(args[..|args| - 1]) + ValueEvents(args[|args| - 1])
  }

  // How a value is written: a string escaped and in quotes, a list or an object with its quotes
  // normalised, anything else unchanged; each trimmed of one space at either end.
  function Shown(a: Value): string {
    var v := TrimValue(a.text);
    if a.isString then Dump(v)
    else if v != "" && (v[0] == '[' || v[0] == '{') then Quotes.Normalize(v, Quotes.Out)
    else v
  }

  function ValueEntry(a: Value): string { Dump(TrimKey(a.key)) + ":" + Shown(a) }

  function JoinValues(args: seq<Value>): string {
    if args == [] then ""
    else JoinValues(args[..|args| - 1]) + (if |args| > 1 then "," else "") + ValueEntry(args[|args| - 1])
  }

  lemma PlainValueStep(s: State, v: string, t: string, n: nat)
    requires Streaming(s, t, n)
    ensures Step(s, ArgValue(v)) == With(s, t + Shown(Value("", v, false)), n, false)
  {
    assert ValueText(s, ArgValue(v)) == Shown(Value("", v, false));
  }

  lemma PlainCloseStep(s: State, t: string, n: nat)
    requires Streaming(s, t, n)
    ensures Step(s, ArgClose) == s == With(s, t, n, false)
  {
    assert s.calls[|s.calls| - 1 := Tool(s)] == s.calls;
  }

  lemma PlainPieces(t: string, comma: string, a: Value)
    requires !a.isString
    ensures (t + (comma + (Dump(TrimKey(a.key)) + ":"))) + Shown(a) == (t + comma) + ValueEntry(a)
  {
    var k := Dump(TrimKey(a.key)) + ":";
    Assoc(t, comma, k);
    Assoc(t + comma, k, Shown(a));
  }

  lemma PlainValue(s: State, a: Value, t: string, n: nat)
    requires Streaming(s, t, n) && t != "" && !a.isString
    ensures SafeRun(s, ValueEvents(a))
    ensures Run(s, ValueEvents(a)) == With(s, t + (if n > 0 then "," else "") + ValueEntry(a), n + 1, false)
  {
    var comma := if n > 0 then "," else "";
    var k := Dump(TrimKey(a.key)) + ":";
    assert Step(s, ArgOpen) == s;
    NameStep(s, a.key, t, n);
    var s2 := With(s, t + (comma + k), n + 1, false);
    PlainValueStep(s2, a.text, t + (comma + k), n + 1);
    WithTwice(s, t + (comma + k), n + 1, false, t + (comma + k) + Shown(a), n + 1, false);
    var s3 := With(s, t + (comma + k) + Shown(a), n + 1, false);
    PlainCloseStep(s3, t + (comma + k) + Shown(a), n + 1);
    FourSteps(s, ArgOpen, ArgName(a.key), ArgValue(a.text), ArgClose);
    PlainPieces(t, comma, a);
  }

  lemma OneValue(s: State, a: Value, t: string, n: nat)
    requires Streaming(s, t, n) && t != ""
    ensures SafeRun(s, ValueEvents(a))
    ensures Run(s, ValueEvents(a)) == With(s, t + (if n > 0 then "," else "") + ValueEntry(a), n + 1, false)
  {
    if a.isString {
      OneArg(s, Arg(a.key, a.text), t, n);
    } else {
      PlainValue(s, a, t, n);
    }
  }

  lemma JoinValuesSnoc(args: seq<Value>)
    requires args != []
    ensures "{" + JoinValues(args) ==
              ("{" + JoinValues(args[..|args| - 1])) + (if |args| - 1 > 0 then "," else "") + ValueEntry(args[|args| - 1])
  {
    var j, comma := JoinValues(args[..|args| - 1]), if |args| > 1 then "," else "";
    Assoc("{", j, comma);
    Assoc("{", j + comma, ValueEntry(args[|args| - 1]));
  }

  lemma {:induction false} AllValues(s: State, args: seq<Value>)
    requires Streaming(s, "{", 0)
    ensures SafeRun(s, AllValueEvents(args))
    ensures Run(s, AllValueEvents(args)) == With(s, "{" + JoinValues(args), |args|, false)
  {
    if args == [] {
      assert "{" + "" == "{";
    } else {
      var init, a := args[..|args| - 1], args[|args| - 1];
      AllValues(s, init);
      var m := With(s, "{" + JoinValues(init), |init|, false);
      OneValue(m, a, "{" + JoinValues(init), |init|);
      RunConcat(s, AllValueEvents(init), ValueEvents(a));
      JoinValuesSnoc(args);
      WithTwice(s, "{" + JoinValues(init), |init|, false, "{" + JoinValues(args), |args|, false);
    }
  }

  // ----- before the name -----

  lemma PlainValueInner(s: State, v: string)
    requires BeforeName(s) && !s.closing && s.buffer != ""
    ensures var s' := Step(s, ArgValue(v)); BeforeName(s') && !s'.closing && s'.buffer != ""
  {
  }

  lemma OneValueInner(s: State, a: Value)
    requires BeforeName(s) && !s.closing
    ensures InnerRun(s, ValueEvents(a))
    ensures var e := ValueEvents(a); SafeRun(s, e) && BeforeName(Run(s, e)) && !Run(s, e).closing
  {
    if a.isString {
      OneInner(s, Arg(a.key, a.text));
    } else {
      PlainInner(s, a);
    }
  }

  lemma PlainInner(s: State, a: Value)
    requires BeforeName(s) && !s.closing && !a.isString
    ensures InnerRun(s, ValueEvents(a))
    ensures var e := ValueEvents(a); SafeRun(s, e) && BeforeName(Run(s, e)) && !Run(s, e).closing
  {
    var s1 := Step(s, ArgOpen);
    var s2 := Step(s1, ArgName(a.key));
    NameInner(s1, a.key);
    var s3 := Step(s2, ArgValue(a.text));
    PlainValueInner(s2, a.text);
    InnerKeepsUnnamed(s3, ArgClose);
    FourSteps(s, ArgOpen, ArgName(a.key), ArgValue(a.text), ArgClose);
    InnerOne(s3, ArgClose);
    InnerCons(s2, ArgValue(a.text), [ArgClose]);
    InnerCons(s1, ArgName(a.key), [ArgValue(a.text)] + [ArgClose]);
    InnerCons(s, ArgOpen, [ArgName(a.key)] + ([ArgValue(a.text)] + [ArgClose]));
  }

  lemma {:induction false} ValuesAreInner(s: State, args: seq<Value>)
    requires BeforeName(s) && !s.closing
    ensures InnerRun(s, AllValueEvents(args))
    ensures SafeRun(s, AllValueEvents(args)) && BeforeName(Run(s, AllValueEvents(args))) && !Run(s, AllValueEvents(args)).closing
  {
    if args != [] {
      var init, a := args[..|args| - 1], args[|args| - 1];
      ValuesAreInner(s, init);
      var m := Run(s, AllValueEvents(init));
      OneValueInner(m, a);
      InnerConcat(s, AllValueEvents(init), ValueEvents(a));
      RunConcat(s, AllValueEvents(init), ValueEvents(a));
    }
  }

  // ----- the whole call -----

  lemma CloseValues(s: State, text: string, n: nat)
    requires Streaming(s, text, n)
    ensures Step(s, ToolClose).calls ==
              s.calls[|s.calls| - 1 := Tool(s).(arguments := text + Braces(Quotes.Depth(text, false, false)))]
  {
    assert text + "" == text;
  }

  /** A call ends with exactly its entries, the braces that are still open closed, wherever its name
      stood among the events. */
  lemma CallWithValues(s: State, args: seq<Value>, i: nat, name: string)
    requires Valid(s) && i <= |AllValueEvents(args)| && TrimTrailing(name) != ""
    ensures SafeRun(s, CallEvents(AllValueEvents(args), i, name))
    ensures var text := "{" + JoinValues(args);
            Run(s, CallEvents(AllValueEvents(args), i, name)).calls ==
              s.calls + [ToolCall(TrimTrailing(name), "", text + Braces(Quotes.Depth(text, false, false)))]
  {
    var o := Step(s, ToolOpen);
    ValuesAreInner(o, args);
    CallRun(s, AllValueEvents(args), i, name);
    NameRenames(o, name);
    AllValues(Renamed(o, name), args);
    LastWith(Renamed(o, name), s.calls, ToolCall(TrimTrailing(name), "", "{"), "{" + JoinValues(args), |args|);
  }

  // The call that was streamed, closed.
  lemma LastWith(r: State, calls: seq<ToolCall>, c: ToolCall, text: string, n: nat)
    requires Streaming(r, "{", 0) && r.calls == calls + [c] && c.name != ""
    ensures Step(With(r, text, n, false), ToolClose).calls ==
              calls + [c.(arguments := text + Braces(Quotes.Depth(text, false, false)))]
  {
    CloseValues(With(r, text, n, false), text, n);
    ReplaceLast(calls, c, c.(arguments := text));
    ReplaceLast(calls, c.(arguments := text), c.(arguments := text + Braces(Quotes.Depth(text, false, false))));
  }
}
