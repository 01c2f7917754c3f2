/** What becomes of the texts that the events carry: content and reasoning, identifiers, whole
    argument objects, and calls that never get a name. */
module ChatTexts {
  import Quotes
  import opened ChatMapper

  // ----- content and reasoning -----

  // The texts of the content events, and of the reasoning events, in order.
  function ContentOf(es: seq<Event>): string {
    if es == [] then "" else (if es[0].Content? then es[0].text else "") + ContentOf(es[1..])
  }

  function ReasoningOf(es: seq<Event>): string {
    if es == [] then "" else (if es[0].Reasoning? then es[0].text else "") + ReasoningOf(es[1..])
  }

  lemma StepTexts(s: State, e: Event)
    requires Valid(s) && Safe(s, e)
    ensures Step(s, e).content == s.content + if e.Content? then e.text else ""
    ensures Step(s, e).reasoning == s.reasoning + if e.Reasoning? then e.text else ""
  {
    assert s.content + "" == s.content && s.reasoning + "" == s.reasoning;
  }

  /** The content of the message is that of the content events, and its reasoning that of the
      reasoning events, whatever else happens between them. */
  lemma {:induction false} RunTexts(s: State, es: seq<Event>)
    requires Valid(s) && SafeRun(s, es)
    ensures Run(s, es).content == s.content + ContentOf(es)
    ensures Run(s, es).reasoning == s.reasoning + ReasoningOf(es)
    decreases |es|
  {
    if es == [] {
      assert s.content + "" == s.content && s.reasoning + "" == s.reasoning;
    } else {
      StepTexts(s, es[0]);
      RunTexts(Step(s, es[0]), es[1..]);
      Assoc(s.content, if es[0].Content? then es[0].text else "", ContentOf(es[1..]));
      Assoc(s.reasoning, if es[0].Reasoning? then es[0].text else "", ReasoningOf(es[1..]));
    }
  }

  lemma Assoc(a: string, b: string, c: string)
    ensures (a + b) + c == a + (b + c)
  {
  }

  // ----- what is trimmed -----

  predicate Spaces(w: string) { forall i :: 0 <= i < |w| ==> IsSpace(w[i]) }

  predicate EndsPlain(t: string) { t == "" || !IsSpace(t[|t| - 1]) }

  /** All trailing spaces go, and nothing else. */
  lemma {:induction false} TrimTrailingIs(t: string, w: string)
    requires EndsPlain(t) && Spaces(w)
    ensures TrimTrailing(t + w) == t
    decreases |w|
  {
    if w == "" {
      assert t + w == t;
    } else {
      var v := w[..|w| - 1];
      assert (t + w)[..|t + w| - 1] == t + v && (t + w)[|t + w| - 1] == w[|w| - 1];
      TrimTrailingIs(t, v);
    }
  }

  /** Of a value one space goes at each end, and not a second one. */
  lemma TrimValueIs(x: char, t: string, y: char)
    requires IsSpace(x) && IsSpace(y)
    ensures TrimValue([x] + t + [y]) == t
    ensures t != "" && !IsSpace(t[|t| - 1]) ==> TrimValue([x] + t) == t
    ensures t != "" && !IsSpace(t[0]) ==> TrimValue(t + [y]) == t
    ensures t != "" && !IsSpace(t[0]) && !IsSpace(t[|t| - 1]) ==> TrimValue(t) == t
    ensures TrimValue("") == ""
  {
    assert ([x] + t + [y])[1..] == t + [y] && (t + [y])[..|t|] == t && ([x] + t)[1..] == t;
  }

  /** Of a key one leading space goes, and all trailing ones. */
  lemma TrimKeyIs(x: char, t: string, w: string)
    requires IsSpace(x) && EndsPlain(t) && Spaces(w)
    ensures TrimKey([x] + t + w) == t
    ensures t != "" && !IsSpace(t[0]) ==> TrimKey(t + w) == t
  {
    assert ([x] + t + w)[1..] == t + w;
    TrimTrailingIs(t, w);
  }

  // ----- the identifier of a call -----

  /** A quoted identifier loses its quotes and what follows, one that is not is taken as it is. */
  lemma IdIs(s: State, id: string, w: string)
    requires Valid(s) && HasTool(s) && Spaces(w)
    ensures Tool(Step(s, ToolId("\"" + id + "\"" + w))).id == id
    ensures EndsPlain(id) && !(|id| >= 2 && id[0] == '"' && id[|id| - 1] == '"') ==> Tool(Step(s, ToolId(id + w))).id == id
    ensures forall t :: Step(s, ToolId(t)) == SetTool(s, Tool(s).(id := Tool(Step(s, ToolId(t))).id))
  {
    var q := "\"" + id + "\"";
    assert q[|q| - 1] == '"' && !IsSpace('"');
    TrimTrailingIs(q, w);
    assert q[1..|q| - 1] == id;
    if EndsPlain(id) { TrimTrailingIs(id, w); }
  }

  // ----- arguments given as one object -----

  lemma BracesAre(n: int)
    ensures |Braces(n)| == (if n <= 0 then 0 else n) && forall i :: 0 <= i < |Braces(n)| ==> Braces(n)[i] == '}'
  {
  }

  /** A call with a whole object for its arguments ends with that text, without trailing spaces, and
      the braces that it leaves open; a text that is no object is dropped. */
  lemma CallWithObject(s: State, t: string, w: string, i: nat, name: string)
    requires Valid(s) && i <= 1 && TrimTrailing(name) != "" && EndsPlain(t) && Spaces(w)
    ensures SafeRun(s, CallEvents([ToolArgs(t + w)], i, name))
    ensures var text := if t != "" && t[0] == '{' then t else "{";
            Run(s, CallEvents([ToolArgs(t + w)], i, name)).calls ==
              s.calls + [ToolCall(TrimTrailing(name), "", text + Braces(Quotes.Depth(text, false, false)))]
  {
    var e, o := ToolArgs(t + w), Step(s, ToolOpen);
    assert InnerRun(o, [e]) by { assert [e][1..] == []; }
    CallRun(s, [e], i, name);
    NameRenames(o, name);
    RunOne(Renamed(o, name), e);
    ObjectStep(Renamed(o, name), s.calls, name, t, w);
    CloseLast(Step(Renamed(o, name), e), s.calls, ToolCall(TrimTrailing(name), "", if t != "" && t[0] == '{' then t else "{"));
  }

  lemma ObjectStep(r: State, calls: seq<ToolCall>, name: string, t: string, w: string)
    requires Valid(r) && r.current.LastCall? && r.pending.None? && !r.closing && r.buffer == ""
    requires TrimTrailing(name) != "" && r.calls == calls + [ToolCall(TrimTrailing(name), "", "{")] && EndsPlain(t) && Spaces(w)
    ensures Step(r, ToolArgs(t + w)) ==
              r.(calls := calls + [ToolCall(TrimTrailing(name), "", if t != "" && t[0] == '{' then t else "{")])
  {
    TrimTrailingIs(t, w);
    var c := ToolCall(TrimTrailing(name), "", "{");
    ReplaceLast(calls, c, c.(arguments := t));
  }

  // The end of a call whose name has been read.
  lemma CloseLast(r: State, calls: seq<ToolCall>, c: ToolCall)
    requires Valid(r) && r.current.LastCall? && r.pending.None? && !r.closing && r.buffer == ""
    requires c.name != "" && r.calls == calls + [c]
    ensures Step(r, ToolClose).calls == calls + [c.(arguments := c.arguments + Braces(Quotes.Depth(c.arguments, false, false)))]
  {
    assert c.arguments + "" == c.arguments;
    ReplaceLast(calls, c, c.(arguments := Closed(c.arguments, false)));
  }

  // ----- a call without a name -----

  lemma {:induction false} InnerStaysUnnamed(s: State, es: seq<Event>)
    requires BeforeName(s) && InnerRun(s, es)
    ensures SafeRun(s, es) && BeforeName(Run(s, es)) && Run(s, es).calls == s.calls
    decreases |es|
  {
    if es != [] {
      InnerKeepsUnnamed(s, es[0]);
      InnerStaysUnnamed(Step(s, es[0]), es[1..]);
    }
  }

  /** A call that is closed without a name is dropped. */
  lemma UnnamedDropped(s: State, es: seq<Event>)
    requires Valid(s) && InnerRun(Step(s, ToolOpen), es)
    ensures SafeRun(s, [ToolOpen] + es + [ToolClose])
    ensures Run(s, [ToolOpen] + es + [ToolClose]).calls == s.calls
  {
    var o := Step(s, ToolOpen);
    InnerStaysUnnamed(o, es);
    RunOne(s, ToolOpen);
    RunConcat(s, [ToolOpen], es);
    RunOne(Run(o, es), ToolClose);
    RunConcat(s, [ToolOpen] + es, [ToolClose]);
  }
}
