/** What a call with string arguments ends up with: a JSON object, whatever the texts are. */
module ChatArguments {
  import Json
  import Quotes
  import opened ChatMapper

  datatype Arg = Arg(key: string, value: string)

  function Four(a: Event, b: Event, c: Event, d: Event): seq<Event> { [a] + ([b] + ([c] + [d])) }

  function ArgEvents(a: Arg): seq<Event> { Four(ArgOpen, ArgName(a.key), ArgStringValue(a.value), ArgClose) }

  function AllEvents(args: seq<Arg>): seq<Event> {
    if args == [] then [] else AllEvents(args[..|args| - 1]) + ArgEvents(args[|args| - 1])
  }

  // "key":"value", both escaped, the value trimmed of one space at each end.
  function Entry(a: Arg): string { Dump(TrimKey(a.key)) + ":" + Dump(TrimValue(a.value)) }

  function Join(args: seq<Arg>): string {
    if args == [] then ""
    else Join(args[..|args| - 1]) + (if |args| > 1 then "," else "") + Entry(args[|args| - 1])
  }

  function Object(args: seq<Arg>): string { "{" + Join(args) + "}" }

  // ----- the arguments are assembled exactly -----

  // The call that is being streamed after the name.
  predicate Streaming(s: State, arguments: string, n: nat) {
    && Valid(s) && s.current.LastCall? && Tool(s).name != "" && s.pending.None?
    && Tool(s).arguments == arguments && s.argCount == n && !s.closing && s.buffer == ""
  }

  // The same call with other arguments.
  function With(s: State, arguments: string, n: nat, closing: bool): (r: State)
    requires Valid(s) && s.current.LastCall?
    ensures Valid(r) && r.current.LastCall?
  {
    SetTool(s, Tool(s).(arguments := arguments)).(argCount := n, closing := closing)
  }

  lemma WithTwice(s: State, a: string, n: nat, b: bool, a': string, n': nat, b': bool)
    requires Valid(s) && s.current.LastCall?
    ensures With(With(s, a, n, b), a', n', b') == With(s, a', n', b')
  {
    var i := |s.calls| - 1;
    assert s.calls[i := Tool(s).(arguments := a)][i := Tool(s).(arguments := a')] == s.calls[i := Tool(s).(arguments := a')];
  }

  lemma FourSteps(s: State, a: Event, b: Event, c: Event, d: Event)
    requires Valid(s) && Safe(s, a) && Safe(Step(s, a), b) && Safe(Step(Step(s, a), b), c) && Safe(Step(Step(Step(s, a), b), c), d)
    ensures SafeRun(s, Four(a, b, c, d)) && Run(s, Four(a, b, c, d)) == Step(Step(Step(Step(s, a), b), c), d)
  {
    RunOne(Step(Step(Step(s, a), b), c), d);
    RunCons(Step(Step(s, a), b), c, [d]);
    RunCons(Step(s, a), b, [c] + [d]);
    RunCons(s, a, [b] + ([c] + [d]));
  }

  lemma RunCons(s: State, e: Event, es: seq<Event>)
    requires Valid(s) && Safe(s, e)
    ensures SafeRun(s, [e] + es) <==> SafeRun(Step(s, e), es)
    ensures SafeRun(Step(s, e), es) ==> Run(s, [e] + es) == Run(Step(s, e), es)
  {
    assert ([e] + es)[1..] == es;
  }

  lemma NameStep(s: State, k: string, t: string, n: nat)
    requires Streaming(s, t, n) && t != ""
    ensures var e := (if n > 0 then "," else "") + (Dump(TrimKey(k)) + ":");
            Step(s, ArgName(k)) == With(s, t + e, n + 1, false)
  {
  }

  lemma ValueStep(s: State, v: string, t: string, n: nat)
    requires Streaming(s, t, n)
    ensures Step(s, ArgStringValue(v)) == With(s, t + ("\"" + EscapeInner(TrimValue(v))), n, true)
  {
    assert ValueText(s, ArgStringValue(v)) == "\"" + EscapeInner(TrimValue(v));
  }

  lemma CloseStep(s: State, t: string, n: nat)
    requires Streaming(s.(closing := false), t, n) && s.closing
    ensures Step(s, ArgClose) == With(s, t + "\"", n, false)
  {
  }

  lemma Assoc(a: string, b: string, c: string)
    ensures (a + b) + c == a + (b + c)
  {
  }

  // The pieces that the three events write are the entry.
  lemma EntryPieces(t: string, comma: string, a: Arg)
    ensures var k, v := Dump(TrimKey(a.key)) + ":", "\"" + EscapeInner(TrimValue(a.value));
            ((t + (comma + k)) + v) + "\"" == (t + comma) + Entry(a)
  {
    var k, v := Dump(TrimKey(a.key)) + ":", "\"" + EscapeInner(TrimValue(a.value));
    Assoc(t, comma, k);
    Assoc((t + comma) + k, v, "\"");
    Assoc(t + comma, k, v + "\"");
  }

  lemma OneArg(s: State, a: Arg, t: string, n: nat)
    requires Streaming(s, t, n) && t != ""
    ensures SafeRun(s, ArgEvents(a))
    ensures Run(s, ArgEvents(a)) == With(s, t + (if n > 0 then "," else "") + Entry(a), n + 1, false)
  {
    var comma := if n > 0 then "," else "";
    var k, v := Dump(TrimKey(a.key)) + ":", "\"" + EscapeInner(TrimValue(a.value));
    assert Step(s, ArgOpen) == s;
    NameStep(s, a.key, t, n);
    var s2 := With(s, t + (comma + k), n + 1, false);
    ValueStep(s2, a.value, t + (comma + k), n + 1);
    WithTwice(s, t + (comma + k), n + 1, false, t + (comma + k) + v, n + 1, true);
    var s3 := With(s, t + (comma + k) + v, n + 1, true);
    CloseStep(s3, t + (comma + k) + v, n + 1);
    WithTwice(s, t + (comma + k) + v, n + 1, true, t + (comma + k) + v + "\"", n + 1, false);
    FourSteps(s, ArgOpen, ArgName(a.key), ArgStringValue(a.value), ArgClose);
    EntryPieces(t, comma, a);
  }

  lemma {:induction false} AllArgs(s: State, args: seq<Arg>)
    requires Streaming(s, "{", 0)
    ensures SafeRun(s, AllEvents(args))
    ensures Run(s, AllEvents(args)) == With(s, "{" + Join(args), |args|, false)
  {
    if args == [] {
      assert "{" + "" == "{";
    } else {
      var init, a := args[..|args| - 1], args[|args| - 1];
      AllArgs(s, init);
      var m := With(s, "{" + Join(init), |init|, false);
      OneArg(m, a, "{" + Join(init), |init|);
      RunConcat(s, AllEvents(init), ArgEvents(a));
      JoinSnoc(args);
      WithTwice(s, "{" + Join(init), |init|, false, "{" + Join(args), |args|, false);
    }
  }

  lemma JoinSnoc(args: seq<Arg>)
    requires args != []
    ensures "{" + Join(args) ==
              ("{" + Join(args[..|args| - 1])) + (if |args| - 1 > 0 then "," else "") + Entry(args[|args| - 1])
  {
    var j, comma := Join(args[..|args| - 1]), if |args| > 1 then "," else "";
    Assoc("{", j, comma);
    Assoc("{", j + comma, Entry(args[|args| - 1]));
  }

  // ----- brace depth -----

  // A text that the brace counter reads without any effect.
  ghost predicate Neutral(a: string) {
    forall t :: Quotes.Depth(a + t, false, false) == Quotes.Depth(t, false, false)
  }

  lemma NeutralConcat(a: string, b: string)
    requires Neutral(a) && Neutral(b)
    ensures Neutral(a + b)
  {
    forall t
      ensures Quotes.Depth(a + b + t, false, false) == Quotes.Depth(t, false, false)
    {
      assert a + b + t == a + (b + t);
    }
  }

  lemma NeutralChar(c: char)
    requires c != '"' && c != '{' && c != '}'
    ensures Neutral([c])
  {
    forall t
      ensures Quotes.Depth([c] + t, false, false) == Quotes.Depth(t, false, false)
    {
      assert ([c] + t)[1..] == t;
    }
  }

  lemma EscapedCharDepth(c: char, t: string)
    ensures Quotes.Depth(EscapeChar(c) + t, true, false) == Quotes.Depth(t, true, false)
  {
    var e := EscapeChar(c);
    assert (e + t)[1..] == e[1..] + t;
    if |e| == 2 {
      assert (e[1..] + t)[1..] == t;
    } else if |e| == 6 {
      PlainDepth(e[2..], t);
      assert (e[1..] + t)[1..] == e[2..] + t;
    }
  }

  lemma {:induction false} PlainDepth(p: string, t: string)
    requires forall i :: 0 <= i < |p| ==> p[i] != '"' && p[i] != '\\'
    ensures Quotes.Depth(p + t, true, false) == Quotes.Depth(t, true, false)
  {
    if p == [] {
      assert p + t == t;
    } else {
      assert (p + t)[1..] == p[1..] + t;
      PlainDepth(p[1..], t);
    }
  }

  lemma {:induction false} EscapedDepth(x: string, t: string)
    ensures Quotes.Depth(EscapeInner(x) + t, true, false) == Quotes.Depth(t, true, false)
  {
    if x == [] {
      assert EscapeInner(x) + t == t;
    } else {
      assert EscapeInner(x) + t == EscapeChar(x[0]) + (EscapeInner(x[1..]) + t);
      EscapedCharDepth(x[0], EscapeInner(x[1..]) + t);
      EscapedDepth(x[1..], t);
    }
  }

  lemma NeutralDump(x: string)
    ensures Neutral(Dump(x))
  {
    forall t
      ensures Quotes.Depth(Dump(x) + t, false, false) == Quotes.Depth(t, false, false)
    {
      var rest := EscapeInner(x) + ("\"" + t);
      assert Dump(x) + t == ['"'] + rest && (['"'] + rest)[1..] == rest;
      EscapedDepth(x, "\"" + t);
      assert ("\"" + t)[1..] == t;
    }
  }

  lemma {:induction false} NeutralJoin(args: seq<Arg>)
    ensures Neutral(Join(args))
  {
    if args == [] {
      forall t
        ensures Quotes.Depth("" + t, false, false) == Quotes.Depth(t, false, false)
      {
        assert "" + t == t;
      }
    } else {
      var a := args[|args| - 1];
      NeutralJoin(args[..|args| - 1]);
      NeutralDump(TrimKey(a.key));
      NeutralDump(TrimValue(a.value));
      NeutralChar(':');
      NeutralChar(',');
      NeutralConcat(Dump(TrimKey(a.key)), ":");
      NeutralConcat(Dump(TrimKey(a.key)) + ":", Dump(TrimValue(a.value)));
      var front := Join(args[..|args| - 1]) + if |args| > 1 then "," else "";
      if |args| > 1 { NeutralConcat(Join(args[..|args| - 1]), ","); } else { assert front == Join(args[..|args| - 1]); }
      NeutralConcat(front, Entry(a));
    }
  }

  // Before the call is closed one brace is open, and afterwards none.
  lemma ObjectDepth(args: seq<Arg>)
    ensures Quotes.Depth("{" + Join(args), false, false) == 1
    ensures Quotes.Depth(Object(args), false, false) == 0
  {
    NeutralJoin(args);
    OpenDepth(Join(args), "");
    OpenDepth(Join(args), "}");
    assert Join(args) + "" == Join(args);
    assert "}"[1..] == "";
    Assoc("{", Join(args), "}");
  }

  lemma OpenDepth(j: string, t: string)
    requires Neutral(j)
    ensures Quotes.Depth("{" + (j + t), false, false) == 1 + Quotes.Depth(t, false, false)
  {
    assert ("{" + (j + t))[1..] == j + t;
  }

  // ----- JSON -----

  lemma RunChar(s: Json.State, c: char)
    ensures Json.Run(s, [c]) == Json.Step(s, c)
  {
    assert [c][1..] == [];
  }

  lemma ReadEscapedChar(s: Json.State, c: char)
    requires s.ctl.Str?
    ensures Json.Run(s, EscapeChar(c)) == s
  {
    var e := EscapeChar(c);
    if |e| == 1 {
      RunChar(s, c);
    } else if |e| == 2 {
      assert e == [e[0]] + [e[1]];
      Json.RunConcat(s, [e[0]], [e[1]]);
      RunChar(s, e[0]);
      RunChar(Json.Step(s, e[0]), e[1]);
    } else {
      ReadControl(s, e[4], e[5]);
      assert e == ['\\', 'u', '0', '0', e[4], e[5]];
    }
  }

  lemma ReadControl(s: Json.State, h: char, l: char)
    requires s.ctl.Str? && Json.IsHex(h) && Json.IsHex(l)
    ensures Json.Run(s, ['\\', 'u', '0', '0', h, l]) == s
  {
    var e := ['\\', 'u', '0', '0', h, l];
    var k := s.ctl.isKey;
    assert e[1..][1..] == e[2..] && e[2..][1..] == e[3..] && e[3..][1..] == e[4..] && e[4..][1..] == e[5..] && e[5..][1..] == [];
    var s2 := Json.State(Json.Hex(k, false, 0, Json.Plain), s.stack);
    var s3 := Json.State(Json.Hex(k, false, 1, Json.Plain), s.stack);
    var s4 := Json.State(Json.Hex(k, false, 2, Json.Plain), s.stack);
    var s5 := Json.State(Json.Hex(k, false, 3, Json.Plain), s.stack);
    assert Json.Run(s5, e[5..]) == Json.Run(s, e[5..][1..]);
    assert Json.Run(s4, e[4..]) == Json.Run(s5, e[4..][1..]);
    assert Json.Run(s3, e[3..]) == Json.Run(s4, e[3..][1..]);
    assert Json.Run(s2, e[2..]) == Json.Run(s3, e[2..][1..]);
    assert Json.Run(Json.State(Json.Esc(k), s.stack), e[1..]) == Json.Run(s2, e[1..][1..]);
  }

  lemma {:induction false} ReadEscaped(s: Json.State, x: string)
    requires s.ctl.Str?
    ensures Json.Run(s, EscapeInner(x)) == s
  {
    if x != [] {
      Json.RunConcat(s, EscapeChar(x[0]), EscapeInner(x[1..]));
      ReadEscapedChar(s, x[0]);
      ReadEscaped(s, x[1..]);
    }
  }

  // A dumped string reads as a string, wherever a value or a key may stand.
  lemma ReadDump(s: Json.State, x: string)
    requires s.ctl.Value? || s.ctl.Key? || s.ctl.KeyOrEnd?
    ensures Json.Run(s, Dump(x)) == Json.State(if s.ctl.Value? then Json.After else Json.Colon, s.stack)
  {
    var open := Json.Step(s, '"');
    RunChar(s, '"');
    Json.RunConcat(s, "\"", EscapeInner(x));
    ReadEscaped(open, x);
    Json.RunConcat(s, "\"" + EscapeInner(x), "\"");
    RunChar(open, '"');
  }

  lemma ReadEntry(s: Json.State, a: Arg)
    requires s.ctl.Key? || s.ctl.KeyOrEnd?
    ensures Json.Run(s, Entry(a)) == Json.State(Json.After, s.stack)
  {
    var k, v := Dump(TrimKey(a.key)), Dump(TrimValue(a.value));
    ReadDump(s, TrimKey(a.key));
    Json.RunConcat(s, k, ":");
    RunChar(Json.State(Json.Colon, s.stack), ':');
    Json.RunConcat(s, k + ":", v);
    ReadDump(Json.State(Json.Value, s.stack), TrimValue(a.value));
  }

  // Everything up to the last entry, with its comma.
  function Front(args: seq<Arg>): string
    requires args != []
  {
    Join(args[..|args| - 1]) + if |args| > 1 then "," else ""
  }

  lemma ReadFront(s: Json.State, args: seq<Arg>)
    requires s == Json.State(Json.KeyOrEnd, [Json.Obj]) && args != []
    requires |args| > 1 ==> Json.Run(s, Join(args[..|args| - 1])) == Json.State(Json.After, s.stack)
    ensures Json.Run(s, Front(args)) == if |args| > 1 then Json.State(Json.Key, s.stack) else s
  {
    if |args| > 1 {
      Json.RunConcat(s, Join(args[..|args| - 1]), ",");
      RunChar(Json.State(Json.After, s.stack), ',');
    } else {
      assert Front(args) == "";
    }
  }

  lemma {:induction false} ReadJoin(s: Json.State, args: seq<Arg>)
    requires s == Json.State(Json.KeyOrEnd, [Json.Obj]) && args != []
    ensures Json.Run(s, Join(args)) == Json.State(Json.After, s.stack)
  {
    if |args| > 1 { ReadJoin(s, args[..|args| - 1]); }
    ReadFront(s, args);
    Json.RunConcat(s, Front(args), Entry(args[|args| - 1]));
    ReadEntry(Json.Run(s, Front(args)), args[|args| - 1]);
  }

  lemma ObjectIsJson(args: seq<Arg>)
    ensures Json.Valid(Object(args))
  {
    var s := Json.State(Json.KeyOrEnd, [Json.Obj]);
    var m := Json.Run(s, Join(args));
    if args == [] { assert Join(args) == "" && m == s; } else { ReadJoin(s, args); }
    ReadBraces(Join(args), m);
    CloseBrace(m);
  }

  lemma CloseBrace(m: Json.State)
    requires m.stack == [Json.Obj] && (m.ctl.KeyOrEnd? || m.ctl.After?)
    ensures Json.Accepting(Json.Step(m, '}'))
  {
    assert m.stack[..0] == [];
  }

  lemma ReadBraces(j: string, m: Json.State)
    requires Json.Run(Json.State(Json.KeyOrEnd, [Json.Obj]), j) == m
    ensures Json.Run(Json.Init, "{" + j + "}") == Json.Step(m, '}')
  {
    assert "{" == ['{'] && "}" == ['}'] && Json.Init.stack + [Json.Obj] == [Json.Obj];
    RunChar(Json.Init, '{');
    Json.RunConcat(Json.Init, "{", j);
    Json.RunConcat(Json.Init, "{" + j, "}");
    RunChar(m, '}');
  }

  // ----- the whole call -----

  /** A call with string arguments ends with exactly the JSON object of its escaped, trimmed
      keys and values, wherever its name stood among the events. */
  lemma CallWithStrings(s: State, args: seq<Arg>, i: nat, name: string)
    requires Valid(s) && i <= |AllEvents(args)| && TrimTrailing(name) != ""
    ensures SafeRun(s, CallEvents(AllEvents(args), i, name))
    ensures Run(s, CallEvents(AllEvents(args), i, name)).calls == s.calls + [ToolCall(TrimTrailing(name), "", Object(args))]
    ensures Json.Valid(Object(args)) && Quotes.Depth(Object(args), false, false) == 0
  {
    var o := Step(s, ToolOpen);
    StringsAreInner(o, args);
    CallRun(s, AllEvents(args), i, name);
    NameRenames(o, name);
    var r := Renamed(o, name);
    AllArgs(r, args);
    ObjectDepth(args);
    ObjectIsJson(args);
    CloseObject(With(r, "{" + Join(args), |args|, false), args);
    var c := ToolCall(TrimTrailing(name), "", "{");
    ReplaceLast(s.calls, c, c.(arguments := "{" + Join(args)));
    ReplaceLast(s.calls, c.(arguments := "{" + Join(args)), c.(arguments := Object(args)));
  }

  lemma {:induction false} CloseObject(s: State, args: seq<Arg>)
    requires Streaming(s, "{" + Join(args), |args|)
    ensures Step(s, ToolClose).calls == s.calls[|s.calls| - 1 := Tool(s).(arguments := Object(args))]
  {
    var t := "{" + Join(args);
    ObjectDepth(args);
    assert Braces(1) == "}" + Braces(0) == "}";
    assert t + "" == t && Closed(t, false) == Object(args);
  }

  lemma OneInner(s: State, a: Arg)
    requires BeforeName(s) && !s.closing
    ensures InnerRun(s, ArgEvents(a))
    ensures var e := ArgEvents(a); SafeRun(s, e) && BeforeName(Run(s, e)) && !Run(s, e).closing
  {
    var s1 := Step(s, ArgOpen);
    var s2 := Step(s1, ArgName(a.key));
    NameInner(s1, a.key);
    var s3 := Step(s2, ArgStringValue(a.value));
    ValueInner(s2, a.value);
    var s4 := Step(s3, ArgClose);
    InnerKeepsUnnamed(s3, ArgClose);
    FourSteps(s, ArgOpen, ArgName(a.key), ArgStringValue(a.value), ArgClose);
    InnerOne(s3, ArgClose);
    InnerCons(s2, ArgStringValue(a.value), [ArgClose]);
    InnerCons(s1, ArgName(a.key), [ArgStringValue(a.value)] + [ArgClose]);
    InnerCons(s, ArgOpen, [ArgName(a.key)] + ([ArgStringValue(a.value)] + [ArgClose]));
  }

  lemma NameInner(s: State, k: string)
    requires BeforeName(s) && !s.closing
    ensures var s' := Step(s, ArgName(k)); BeforeName(s') && !s'.closing && s'.buffer != ""
  {
  }

  lemma ValueInner(s: State, v: string)
    requires BeforeName(s) && !s.closing && s.buffer != ""
    ensures var s' := Step(s, ArgStringValue(v)); BeforeName(s') && s'.closing && s'.buffer != ""
  {
  }

  lemma InnerOne(s: State, e: Event)
    requires BeforeName(s) && IsInner(e) && StartsObject(s, e)
    ensures InnerRun(s, [e])
  {
    assert [e][1..] == [];
  }

  lemma InnerCons(s: State, e: Event, es: seq<Event>)
    requires BeforeName(s) && IsInner(e) && StartsObject(s, e) && InnerRun(Step(s, e), es)
    ensures InnerRun(s, [e] + es)
  {
    assert ([e] + es)[1..] == es;
  }

  lemma {:induction false} InnerConcat(s: State, a: seq<Event>, b: seq<Event>)
    requires Valid(s) && InnerRun(s, a) && SafeRun(s, a) && InnerRun(Run(s, a), b)
    ensures InnerRun(s, a + b)
    decreases |a|
  {
    if a == [] {
      assert a + b == b;
    } else {
      assert (a + b)[1..] == a[1..] + b && (a + b)[0] == a[0];
      InnerConcat(Step(s, a[0]), a[1..], b);
    }
  }

  lemma {:induction false} StringsAreInner(s: State, args: seq<Arg>)
    requires BeforeName(s) && !s.closing
    ensures InnerRun(s, AllEvents(args))
    ensures SafeRun(s, AllEvents(args)) && BeforeName(Run(s, AllEvents(args))) && !Run(s, AllEvents(args)).closing
  {
    if args != [] {
      var init, a := args[..|args| - 1], args[|args| - 1];
      StringsAreInner(s, init);
      OneInner(Run(s, AllEvents(init)), a);
      InnerConcat(s, AllEvents(init), ArgEvents(a));
      RunConcat(s, AllEvents(init), ArgEvents(a));
    }
  }

  // ----- reading the strings back -----

  function HexValue(c: char): nat {
    if '0' <= c <= '9' then (c - '0') as nat
    else if 'a' <= c <= 'f' then (c - 'a') as nat + 10
    else if 'A' <= c <= 'F' then (c - 'A') as nat + 10
    else 0
  }

  // The character that a one-letter escape stands for.
  function Unescaped(c: char): char {
    if c == 'b' then '\U{0008}' else if c == 'f' then '\U{000C}' else if c == 'n' then '\n'
    else if c == 'r' then '\r' else if c == 't' then '\t' else c
  }

  // The contents of a JSON string, for escapes up to \u00FF.
  function Unescape(t: string): string
    decreases |t|
  {
    if t == [] then []
    else if t[0] != '\\' || |t| == 1 then [t[0]] + Unescape(t[1..])
    else if t[1] == 'u' && |t| >= 6 then [(16 * HexValue(t[4]) + HexValue(t[5])) as char] + Unescape(t[6..])
    else [Unescaped(t[1])] + Unescape(t[2..])
  }

  lemma HexDigitValue(n: nat)
    requires n < 16
    ensures HexValue(HexDigit(n)) == n && HexDigit(n) != '"'
  {
  }

  lemma UnescapeOne(c: char, t: string)
    ensures Unescape(EscapeChar(c) + t) == [c] + Unescape(t)
  {
    var e := EscapeChar(c);
    if |e| == 1 {
      assert (e + t)[1..] == t;
    } else if |e| == 2 {
      assert (e + t)[2..] == t;
    } else {
      assert (e + t)[6..] == t;
      HexDigitValue(c as nat / 16);
      HexDigitValue(c as nat % 16);
    }
  }

  /** A JSON reader gets back exactly the text that was escaped. */
  lemma {:induction false} UnescapeEscaped(x: string)
    ensures Unescape(EscapeInner(x)) == x
  {
    if x != [] {
      UnescapeOne(x[0], EscapeInner(x[1..]));
      UnescapeEscaped(x[1..]);
    }
  }
}
