/** The mapper of common/chat-peg-parser.cpp: parser events are assembled into a message
    whose tool calls carry JSON arguments. */
module ChatMapper {
  import Quotes

  datatype Option<T> = None | Some(value: T)

  datatype ToolCall = ToolCall(name: string, id: string, arguments: string)

  // A tagged node of the parse tree, in visiting order. Other is any other tag.
  datatype Event =
    | Reasoning(text: string) | Content(text: string) | Other
    | ToolOpen | ToolClose | ToolName(text: string) | ToolId(text: string) | ToolArgs(text: string)
    | ArgOpen | ArgClose | ArgName(text: string) | ArgValue(text: string) | ArgStringValue(text: string)

  // ----- text helpers -----

  predicate IsSpace(c: char) {
    c == ' ' || c == '\n' || c == '\r' || c == '\t' || c == '\U{000B}' || c == '\U{000C}'
  }

  function TrimTrailing(s: string): string {
    if s != [] && IsSpace(s[|s| - 1]) then TrimTrailing(s[..|s| - 1]) else s
  }

  // At most one space is trimmed.
  function TrimTrailing1(s: string): string {
    if s != [] && IsSpace(s[|s| - 1]) then s[..|s| - 1] else s
  }

  function TrimLeading1(s: string): string {
    if s != [] && IsSpace(s[0]) then s[1..] else s
  }

  // A key: one leading space and all trailing spaces go.
  function TrimKey(s: string): string { TrimTrailing(TrimLeading1(s)) }

  // A value: one space goes at each end.
  function TrimValue(s: string): string { TrimTrailing1(TrimLeading1(s)) }

  function HexDigit(n: nat): char
    requires n < 16
  {
    "0123456789abcdef"[n]
  }

  function EscapeChar(c: char): string {
    if c == '"' then "\\\""
    else if c == '\\' then "\\\\"
    else if c == '\U{0008}' then "\\b"
    else if c == '\U{000C}' then "\\f"
    else if c == '\n' then "\\n"
    else if c == '\r' then "\\r"
    else if c == '\t' then "\\t"
    else if c < ' ' then ['\\', 'u', '0', '0', HexDigit(c as nat / 16), HexDigit(c as nat % 16)]
    else [c]
  }

  // The inside of a JSON string that holds s.
  function EscapeInner(s: string): string {
    if s == [] then [] else EscapeChar(s[0]) + EscapeInner(s[1..])
  }

  function Dump(s: string): string { "\"" + EscapeInner(s) + "\"" }

  // ----- the state -----

  // Where current_tool points: nowhere, to the pending call, to the last finished or
  // streaming call, or to a pending call that no longer exists.
  datatype Current = NoTool | PendingTool | LastCall | Dangling

  datatype State = State(
    content: string,
    reasoning: string,
    calls: seq<ToolCall>,
    pending: Option<ToolCall>,
    current: Current,
    argCount: nat,
    closing: bool,      // closing_quote_pending
    buffer: string)     // args_buffer

  const Fresh := State("", "", [], None, NoTool, 0, false, "")

  predicate Valid(s: State) {
    && (s.current.PendingTool? <==> s.pending.Some?)
    && (s.current.LastCall? ==> s.calls != [])
  }

  // The events that look at current_tool.
  predicate UsesTool(e: Event) {
    !(e.Reasoning? || e.Content? || e.Other? || e.ToolOpen? || e.ArgOpen?)
  }

  // The source never follows the pointer to a pending call that is gone.
  predicate Safe(s: State, e: Event) { s.current.Dangling? ==> !UsesTool(e) }

  predicate HasTool(s: State) { s.current.PendingTool? || s.current.LastCall? }

  function Tool(s: State): ToolCall
    requires Valid(s) && HasTool(s)
  {
    if s.current.PendingTool? then s.pending.value else s.calls[|s.calls| - 1]
  }

  function SetTool(s: State, c: ToolCall): (r: State)
    requires Valid(s) && HasTool(s)
    ensures Valid(r) && r.current == s.current && Tool(r) == c
  {
    if s.current.PendingTool? then s.(pending := Some(c)) else s.(calls := s.calls[|s.calls| - 1 := c])
  }

  // args_target(): the buffer until the name is known.
  function Target(s: State): string
    requires Valid(s) && HasTool(s)
  {
    if Tool(s).name != "" then Tool(s).arguments else s.buffer
  }

  function SetTarget(s: State, t: string): (r: State)
    requires Valid(s) && HasTool(s)
    ensures Valid(r) && r.current == s.current
  {
    if Tool(s).name != "" then SetTool(s, Tool(s).(arguments := t)) else s.(buffer := t)
  }

  // ----- one event -----

  function Unquote(t: string): string {
    if |t| >= 2 && t[0] == '"' && t[|t| - 1] == '"' then t[1..|t| - 1] else t
  }

  function OnName(s: State, text: string): State
    requires Valid(s) && HasTool(s)
  {
    var named := Tool(s).(name := TrimTrailing(text));
    var c := if s.buffer != "" then named.(arguments := s.buffer)
             else if named.arguments == "" then named.(arguments := "{")
             else named;
    var s1 := SetTool(s, c).(buffer := "");
    if s.pending.Some? then s1.(calls := s.calls + [c], pending := None, current := LastCall) else s1
  }

  function ArgEntry(s: State, text: string): string {
    (if s.argCount > 0 then "," else "") + (Dump(TrimKey(text)) + ":")
  }

  // What a value event adds to the arguments.
  function ValueText(s: State, e: Event): string
    requires e.ArgValue? || e.ArgStringValue?
  {
    var v := TrimValue(e.text);
    if e.ArgStringValue? then
      if v == "" then "\"" else (if s.closing then "" else "\"") + EscapeInner(v)
    else if v == "" then ""
    else if v[0] == '[' || v[0] == '{' then Quotes.Normalize(v, Quotes.Out)
    else v
  }

  function Braces(n: int): string { if n <= 0 then "" else "}" + Braces(n - 1) }

  // The arguments at the end of a call, with a pending quote and unclosed braces closed.
  function Closed(arguments: string, closing: bool): string {
    var a := arguments + if closing then "\"" else "";
    a + Braces(Quotes.Depth(a, false, false))
  }

  function OnClose(s: State): State
    requires Valid(s) && HasTool(s)
  {
    var c := Tool(s);
    var takes := c.name == "" && s.buffer != "";
    var c1 := c.(arguments := Closed(if takes then s.buffer else c.arguments, s.closing));
    var s1 := SetTool(s, c1).(buffer := if takes then "" else s.buffer, closing := false);
    if s.pending.Some? then
      s1.(calls := if c1.name != "" then s.calls + [c1] else s.calls, pending := None, current := Dangling)
    else s1
  }

  function OnTool(s: State, e: Event): State
    requires Valid(s) && HasTool(s) && UsesTool(e)
  {
    match e
    case ToolId(t) => SetTool(s, Tool(s).(id := Unquote(TrimTrailing(t))))
    case ToolName(t) => OnName(s, t)
    case ToolArgs(t) =>
      var text := TrimTrailing(t);
      if text != "" && text[0] == '{' then SetTarget(s, text) else s
    case ArgName(t) =>
      var target := if Target(s) == "" then "{" else Target(s);
      SetTarget(s, target + ArgEntry(s, t)).(argCount := s.argCount + 1)
    case ArgValue(_) => SetTarget(s, Target(s) + ValueText(s, e))
    case ArgStringValue(_) => SetTarget(s, Target(s) + ValueText(s, e)).(closing := true)
    case ArgClose => if s.closing then SetTarget(s, Target(s) + "\"").(closing := false) else s
    case ToolClose => OnClose(s)
  }

  function Step(s: State, e: Event): (r: State)
    requires Valid(s) && Safe(s, e)
    ensures Valid(r)
  {
    match e
    case Reasoning(t) => s.(reasoning := s.reasoning + t)
    case Content(t) => s.(content := s.content + t)
    case Other => s
    case ToolOpen => s.(pending := Some(ToolCall("", "", "")), current := PendingTool, argCount := 0, buffer := "", closing := false)
    case ArgOpen => s.(closing := false)
    case _ => if HasTool(s) then OnTool(s, e) else s
  }

  ghost predicate SafeRun(s: State, es: seq<Event>)
    requires Valid(s)
    decreases |es|
  {
    es == [] || (Safe(s, es[0]) && SafeRun(Step(s, es[0]), es[1..]))
  }

  ghost function Run(s: State, es: seq<Event>): (r: State)
    requires Valid(s) && SafeRun(s, es)
    ensures Valid(r)
    decreases |es|
  {
    if es == [] then s else Run(Step(s, es[0]), es[1..])
  }

  // ----- a pending call never has a name -----

  predicate Unnamed(s: State) { s.pending.Some? ==> s.pending.value.name == "" }

  lemma StepUnnamed(s: State, e: Event)
    requires Valid(s) && Safe(s, e) && Unnamed(s)
    ensures Unnamed(Step(s, e))
  {
  }

  /** In no reachable state does the pending call have a name, so the flush at the end of
      from_ast never fires. */
  lemma {:induction false} RunUnnamed(s: State, es: seq<Event>)
    requires Valid(s) && SafeRun(s, es) && Unnamed(s)
    ensures Unnamed(Run(s, es))
    decreases |es|
  {
    if es != [] {
      StepUnnamed(s, es[0]);
      RunUnnamed(Step(s, es[0]), es[1..]);
    }
  }

  // ----- streaming only extends -----

  // Where a well-formed event sequence is: outside a call, or inside one, whose name has
  // been read or not and whose arguments are absent, whole, or given one by one.
  datatype Args = NoArgs | Whole | OneByOne

  datatype Phase = Outside | Inside(named: bool, args: Args)

  predicate Follows(p: Phase, e: Event) {
    match e
    case Reasoning(_) => true
    case Content(_) => true
    case Other => true
    case ToolOpen => p.Outside?
    case ToolClose => p.Inside?
    case ToolName(t) => p.Inside? && !p.named && TrimTrailing(t) != ""
    case ToolId(_) => p.Inside?
    case ToolArgs(_) => p.Inside? && p.args.NoArgs?
    case _ => p.Inside? && !p.args.Whole?
  }

  function NextPhase(p: Phase, e: Event): Phase
    requires Follows(p, e)
  {
    match e
    case ToolOpen => Inside(false, NoArgs)
    case ToolClose => Outside
    case ToolName(_) => p.(named := true)
    case ToolArgs(_) => p.(args := Whole)
    case ArgOpen => p.(args := OneByOne)
    case ArgClose => p.(args := OneByOne)
    case ArgName(_) => p.(args := OneByOne)
    case ArgValue(_) => p.(args := OneByOne)
    case ArgStringValue(_) => p.(args := OneByOne)
    case _ => p
  }

  ghost predicate WellFormed(p: Phase, es: seq<Event>)
    decreases |es|
  {
    es == [] || (Follows(p, es[0]) && WellFormed(NextPhase(p, es[0]), es[1..]))
  }

  // What the state of the mapper is in each phase.
  predicate Agrees(s: State, p: Phase) {
    && Valid(s) && Unnamed(s)
    && match p
       case Outside => !s.current.PendingTool?
       case Inside(named, args) =>
         if named then
           s.current.LastCall? && Tool(s).name != "" && s.buffer == "" &&
           (args.NoArgs? ==> Tool(s).arguments == "{" && !s.closing)
         else
           s.current.PendingTool? && Tool(s).arguments == "" && (args.NoArgs? ==> s.buffer == "" && !s.closing)
  }

  // The calls that are finished.
  function Finished(s: State, p: Phase): seq<ToolCall> {
    if p.Inside? && p.named && s.calls != [] then s.calls[..|s.calls| - 1] else s.calls
  }

  // Content, reasoning and finished calls grow at the end only, and the arguments of the
  // call that is being streamed by a suffix, under an unchanged name.
  predicate Extends(s: State, p: Phase, s': State) {
    && s.content <= s'.content && s.reasoning <= s'.reasoning
    && Finished(s, p) <= s'.calls && |s.calls| <= |s'.calls|
    && (p.Inside? && p.named && s.calls != [] ==>
          var i := |s.calls| - 1;
          s'.calls[i].name == s.calls[i].name && s.calls[i].arguments <= s'.calls[i].arguments)
  }

  lemma NameExtends(s: State, p: Phase, t: string)
    requires Agrees(s, p) && Follows(p, ToolName(t))
    ensures var e := ToolName(t); Agrees(Step(s, e), NextPhase(p, e)) && Extends(s, p, Step(s, e))
  {
  }

  lemma CloseExtends(s: State, p: Phase)
    requires Agrees(s, p) && Follows(p, ToolClose)
    ensures Agrees(Step(s, ToolClose), Outside) && Extends(s, p, Step(s, ToolClose))
  {
  }

  lemma WriteExtends(s: State, p: Phase, w: string)
    requires Agrees(s, p) && p.Inside? && Target(s) <= w
    ensures Agrees(SetTarget(s, w), p.(args := OneByOne)) && Extends(s, p, SetTarget(s, w))
    ensures Agrees(SetTarget(s, w), p.(args := Whole))
  {
  }

  lemma ArgExtends(s: State, p: Phase, e: Event)
    requires Agrees(s, p) && Follows(p, e) && (e.ArgName? || e.ArgValue? || e.ArgStringValue? || e.ArgClose? || e.ToolArgs?)
    ensures Agrees(Step(s, e), NextPhase(p, e)) && Extends(s, p, Step(s, e))
  {
    if e.ToolArgs? {
      var text := TrimTrailing(e.text);
      if text != "" && text[0] == '{' { WriteExtends(s, p, text); }
    } else if e.ArgName? {
      WriteExtends(s, p, (if Target(s) == "" then "{" else Target(s)) + ArgEntry(s, e.text));
    } else if e.ArgClose? {
      WriteExtends(s, p, Target(s) + "\"");
    } else {
      WriteExtends(s, p, Target(s) + ValueText(s, e));
    }
  }

  /** Every event of a well-formed sequence is safe and only extends what is shown already. */
  lemma StepExtends(s: State, p: Phase, e: Event)
    requires Agrees(s, p) && Follows(p, e)
    ensures Safe(s, e) && Agrees(Step(s, e), NextPhase(p, e)) && Extends(s, p, Step(s, e))
  {
    match e {
      case ToolName(t) => NameExtends(s, p, t);
      case ToolClose => CloseExtends(s, p);
      case ToolArgs(_) => ArgExtends(s, p, e);
      case ArgName(_) => ArgExtends(s, p, e);
      case ArgValue(_) => ArgExtends(s, p, e);
      case ArgStringValue(_) => ArgExtends(s, p, e);
      case ArgClose => ArgExtends(s, p, e);
      case _ =>
    }
  }

  function NextPhases(p: Phase, es: seq<Event>): Phase
    requires WellFormed(p, es)
    decreases |es|
  {
    if es == [] then p else NextPhases(NextPhase(p, es[0]), es[1..])
  }

  lemma ExtendsTransitive(s: State, p: Phase, e: Event, s'': State)
    requires Agrees(s, p) && Follows(p, e) && Safe(s, e)
    requires Agrees(Step(s, e), NextPhase(p, e)) && Extends(s, p, Step(s, e)) && Extends(Step(s, e), NextPhase(p, e), s'')
    ensures Extends(s, p, s'')
  {
    var s', p' := Step(s, e), NextPhase(p, e);
    assert |Finished(s, p)| <= |Finished(s', p')|;
    assert Finished(s, p) <= Finished(s', p');
  }

  /** Over any well-formed sequence of events, what has been shown is only ever extended, the
      source's pointer is never followed to a call that is gone, and no call is pending with a name. */
  lemma {:induction false} StreamingExtends(s: State, p: Phase, es: seq<Event>)
    requires Agrees(s, p) && WellFormed(p, es)
    ensures SafeRun(s, es) && Agrees(Run(s, es), NextPhases(p, es)) && Extends(s, p, Run(s, es))
    decreases |es|
  {
    if es != [] {
      StepExtends(s, p, es[0]);
      StreamingExtends(Step(s, es[0]), NextPhase(p, es[0]), es[1..]);
      ExtendsTransitive(s, p, es[0], Run(s, es));
    }
  }

  // ----- the position of the name does not matter -----

  predicate IsInner(e: Event) { !e.ToolOpen? && !e.ToolClose? && !e.ToolName? }

  // Before the name, with no argument text yet, an event may write only what starts an object.
  predicate StartsObject(s: State, e: Event) {
    s.buffer != "" || match e
      case ArgValue(_) => ValueText(s, e) == ""
      case ArgStringValue(_) => false
      case ArgClose => !s.closing
      case _ => true
  }

  // Inside a call that has no name yet.
  predicate BeforeName(s: State) {
    Valid(s) && s.current.PendingTool? && s.pending.value.name == "" && s.pending.value.arguments == ""
  }

  // The state after the name: the call moves to the results, with what is buffered.
  function Renamed(s: State, name: string): State
    requires BeforeName(s)
  {
    var c := ToolCall(TrimTrailing(name), s.pending.value.id, if s.buffer != "" then s.buffer else "{");
    s.(calls := s.calls + [c], pending := None, current := LastCall, buffer := "")
  }

  lemma NameRenames(s: State, name: string)
    requires BeforeName(s) && TrimTrailing(name) != ""
    ensures Step(s, ToolName(name)) == Renamed(s, name)
  {
  }

  lemma ReplaceLast(calls: seq<ToolCall>, c: ToolCall, d: ToolCall)
    ensures (calls + [c])[|calls| := d] == calls + [d]
  {
  }

  // Writing w to the buffer, or to the arguments after the name, comes to the same.
  lemma WriteCommutes(s: State, name: string, w: string)
    requires BeforeName(s) && TrimTrailing(name) != "" && w != ""
    ensures SetTarget(Renamed(s, name), w) == Renamed(SetTarget(s, w), name)
    ensures BeforeName(SetTarget(s, w))
  {
    var r := Renamed(s, name);
    ReplaceLast(s.calls, Tool(r), Tool(r).(arguments := w));
  }

  lemma KeepCommutes(s: State, name: string)
    requires BeforeName(s) && TrimTrailing(name) != "" && s.buffer != ""
    ensures Target(Renamed(s, name)) == Target(s)
  {
  }

  lemma IdCommutes(s: State, name: string, t: string)
    requires BeforeName(s) && TrimTrailing(name) != ""
    ensures Step(Renamed(s, name), ToolId(t)) == Renamed(Step(s, ToolId(t)), name)
  {
    var r := Renamed(s, name);
    ReplaceLast(s.calls, Tool(r), Tool(r).(id := Unquote(TrimTrailing(t))));
  }

  lemma NoWriteCommutes(s: State, name: string)
    requires BeforeName(s) && TrimTrailing(name) != "" && s.buffer == ""
    ensures SetTarget(s, Target(s) + "") == s
    ensures var r := Renamed(s, name); SetTarget(r, Target(r) + "") == r
  {
    var r := Renamed(s, name);
    assert Target(r) + "" == Target(r) && Target(s) + "" == Target(s);
    ReplaceLast(s.calls, Tool(r), Tool(r));
  }

  lemma ValueCommutes(s: State, name: string, e: Event)
    requires BeforeName(s) && TrimTrailing(name) != "" && (e.ArgValue? || e.ArgStringValue?) && StartsObject(s, e)
    ensures BeforeName(Step(s, e)) && Step(Renamed(s, name), e) == Renamed(Step(s, e), name)
  {
    var v := ValueText(s, e);
    if s.buffer != "" {
      KeepCommutes(s, name);
      WriteCommutes(s, name, s.buffer + v);
    } else {
      NoWriteCommutes(s, name);
    }
  }

  lemma ArgNameCommutes(s: State, name: string, t: string)
    requires BeforeName(s) && TrimTrailing(name) != ""
    ensures Step(Renamed(s, name), ArgName(t)) == Renamed(Step(s, ArgName(t)), name)
  {
    var start := if s.buffer == "" then "{" else s.buffer;
    WriteCommutes(s, name, start + ArgEntry(s, t));
  }

  lemma CloseCommutes(s: State, name: string)
    requires BeforeName(s) && TrimTrailing(name) != "" && StartsObject(s, ArgClose)
    ensures BeforeName(Step(s, ArgClose)) && Step(Renamed(s, name), ArgClose) == Renamed(Step(s, ArgClose), name)
  {
    if s.closing {
      KeepCommutes(s, name);
      WriteCommutes(s, name, s.buffer + "\"");
    }
  }

  lemma ArgsCommutes(s: State, name: string, t: string)
    requires BeforeName(s) && TrimTrailing(name) != ""
    ensures Step(Renamed(s, name), ToolArgs(t)) == Renamed(Step(s, ToolArgs(t)), name)
  {
    if TrimTrailing(t) != "" { WriteCommutes(s, name, TrimTrailing(t)); }
  }

  lemma InnerKeepsUnnamed(s: State, e: Event)
    requires BeforeName(s) && IsInner(e)
    ensures BeforeName(Step(s, e))
  {
  }

  // An event and the name may change places.
  lemma NameCommutes(s: State, e: Event, name: string)
    requires BeforeName(s) && IsInner(e) && StartsObject(s, e) && TrimTrailing(name) != ""
    ensures BeforeName(Step(s, e))
    ensures var n := ToolName(name);
            Safe(Step(s, n), e) && Step(Step(s, e), n) == Step(Step(s, n), e)
  {
    InnerKeepsUnnamed(s, e);
    NameRenames(s, name);
    NameRenames(Step(s, e), name);
    match e {
      case ToolId(t) => IdCommutes(s, name, t);
      case ToolArgs(t) => ArgsCommutes(s, name, t);
      case ArgName(t) => ArgNameCommutes(s, name, t);
      case ArgValue(_) => ValueCommutes(s, name, e);
      case ArgStringValue(_) => ValueCommutes(s, name, e);
      case ArgClose => CloseCommutes(s, name);
      case _ =>
    }
  }

  ghost predicate InnerRun(s: State, es: seq<Event>)
    requires Valid(s)
    decreases |es|
  {
    es == [] || (BeforeName(s) && IsInner(es[0]) && StartsObject(s, es[0]) && InnerRun(Step(s, es[0]), es[1..]))
  }

  lemma {:induction false} RunConcat(s: State, a: seq<Event>, b: seq<Event>)
    requires Valid(s) && SafeRun(s, a) && SafeRun(Run(s, a), b)
    ensures SafeRun(s, a + b) && Run(s, a + b) == Run(Run(s, a), b)
    decreases |a|
  {
    if a == [] {
      assert a + b == b;
    } else {
      assert (a + b)[1..] == a[1..] + b && (a + b)[0] == a[0];
      RunConcat(Step(s, a[0]), a[1..], b);
    }
  }

  // The name may move from behind a list of events to the front of it.
  lemma {:induction false} NameMovesToFront(s: State, es: seq<Event>, name: string)
    requires BeforeName(s) && InnerRun(s, es) && TrimTrailing(name) != ""
    ensures SafeRun(s, es) && BeforeName(Run(s, es))
    ensures var n := ToolName(name);
            SafeRun(Step(s, n), es) && Step(Run(s, es), n) == Run(Step(s, n), es)
    decreases |es|
  {
    if es != [] {
      NameCommutes(s, es[0], name);
      NameMovesToFront(Step(s, es[0]), es[1..], name);
    }
  }

  lemma {:induction false} InnerSplit(s: State, a: seq<Event>, b: seq<Event>)
    requires BeforeName(s) && InnerRun(s, a + b)
    ensures InnerRun(s, a)
    decreases |a|
  {
    if a != [] {
      assert (a + b)[0] == a[0] && (a + b)[1..] == a[1..] + b;
      if a[1..] != [] {
        assert (a[1..] + b)[0] == a[1];
        InnerSplit(Step(s, a[0]), a[1..], b);
      }
    }
  }

  // A whole call with its name after the first i inner events.
  function CallEvents(es: seq<Event>, i: nat, name: string): seq<Event>
    requires i <= |es|
  {
    [ToolOpen] + (es[..i] + ([ToolName(name)] + es[i..])) + [ToolClose]
  }

  lemma RunOne(s: State, e: Event)
    requires Valid(s) && Safe(s, e)
    ensures SafeRun(s, [e]) && Run(s, [e]) == Step(s, e)
  {
    assert [e][1..] == [];
  }

  // A call that does not close is safe throughout.
  lemma {:induction false} LastCallIsSafe(s: State, es: seq<Event>)
    requires Valid(s) && s.current.LastCall? && forall i :: 0 <= i < |es| ==> IsInner(es[i])
    ensures SafeRun(s, es) && Run(s, es).current.LastCall?
    decreases |es|
  {
    if es != [] { LastCallIsSafe(Step(s, es[0]), es[1..]); }
  }

  lemma {:induction false} InnerAll(s: State, es: seq<Event>)
    requires Valid(s) && InnerRun(s, es)
    ensures forall i :: 0 <= i < |es| ==> IsInner(es[i])
    decreases |es|
  {
    if es != [] {
      InnerAll(Step(s, es[0]), es[1..]);
      assert forall i :: 0 < i < |es| ==> es[i] == es[1..][i - 1];
    }
  }

  // The run of the inner events with the name after the first i of them.
  lemma NameAt(s: State, es: seq<Event>, i: nat, name: string)
    requires i <= |es| && BeforeName(s) && InnerRun(s, es) && TrimTrailing(name) != ""
    ensures var n := ToolName(name);
            && SafeRun(s, es[..i] + ([n] + es[i..])) && SafeRun(Step(s, n), es)
            && Run(s, es[..i] + ([n] + es[i..])) == Run(Step(s, n), es)
            && Run(Step(s, n), es).current.LastCall?
  {
    var n := ToolName(name);
    assert es[..i] + es[i..] == es;
    InnerSplit(s, es[..i], es[i..]);
    NameMovesToFront(s, es[..i], name);
    InnerAll(s, es);
    var q := Run(s, es[..i]);
    LastCallIsSafe(Step(q, n), es[i..]);
    RunOne(q, n);
    RunConcat(q, [n], es[i..]);
    RunConcat(s, es[..i], [n] + es[i..]);
    RunConcat(Step(s, n), es[..i], es[i..]);
  }

  /** Where the name stands among the events of a call does not matter: the whole state
      after the call, and so the call, is the same as with the name first. */
  lemma NamePositionDoesNotMatter(s: State, es: seq<Event>, i: nat, name: string)
    requires Valid(s) && i <= |es| && TrimTrailing(name) != "" && InnerRun(Step(s, ToolOpen), es)
    ensures SafeRun(s, CallEvents(es, i, name)) && SafeRun(s, CallEvents(es, 0, name))
    ensures Run(s, CallEvents(es, i, name)) == Run(s, CallEvents(es, 0, name))
  {
    CallRun(s, es, i, name);
    CallRun(s, es, 0, name);
  }

  lemma CallRun(s: State, es: seq<Event>, i: nat, name: string)
    requires Valid(s) && i <= |es| && TrimTrailing(name) != "" && InnerRun(Step(s, ToolOpen), es)
    ensures var o := Step(s, ToolOpen); var n := ToolName(name);
            && SafeRun(Step(o, n), es) && Run(Step(o, n), es).current.LastCall?
            && SafeRun(s, CallEvents(es, i, name))
            && Run(s, CallEvents(es, i, name)) == Step(Run(Step(o, n), es), ToolClose)
  {
    var o, n := Step(s, ToolOpen), ToolName(name);
    var body := es[..i] + ([n] + es[i..]);
    NameAt(o, es, i, name);
    RunOne(s, ToolOpen);
    RunConcat(s, [ToolOpen], body);
    RunOne(Run(o, body), ToolClose);
    RunConcat(s, [ToolOpen] + body, [ToolClose]);
  }
}
