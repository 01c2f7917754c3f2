/** The mapper object: the fields that map updates in place for each visited node. */
module ChatMapperObject {
  import Quotes
  import opened ChatMapper

  predicate IsBlank(s: string) { forall i :: 0 <= i < |s| ==> s[i] == ' ' || s[i] == '\n' || s[i] == '\r' || s[i] == '\t' }

  lemma BlankIff(s: string)
    ensures IsBlank(s) <==> forall c :: c in s ==> c in " \n\r\t"
  {
    if IsBlank(s) {
      forall c | c in s
        ensures c in " \n\r\t"
      {
        var i :| 0 <= i < |s| && s[i] == c;
      }
    }
    if forall c :: c in s ==> c in " \n\r\t" {
      forall i | 0 <= i < |s|
        ensures s[i] == ' ' || s[i] == '\n' || s[i] == '\r' || s[i] == '\t'
      {
        assert s[i] in s;
      }
    }
  }

  class Mapper {
    // the message
    var content: string
    var reasoning: string
    var calls: seq<ToolCall>
    // tool call handling
    var pending: Option<ToolCall>
    var current: Current
    var argCount: nat
    var closing: bool
    var buffer: string

    ghost function Abs(): State
      reads this
    {
      State(content, reasoning, calls, pending, current, argCount, closing, buffer)
    }

    constructor ()
      ensures Abs() == Fresh
    {
      content, reasoning, calls := "", "", [];
      pending, current, argCount, closing, buffer := None, NoTool, 0, false, "";
    }

    function Target(): string
      requires Valid(Abs()) && HasTool(Abs())
      reads this
      ensures Target() == ChatMapper.Target(Abs())
    {
      var c := if current.PendingTool? then pending.value else calls[|calls| - 1];
      if c.name != "" then c.arguments else buffer
    }

    // Writes through current_tool.
    method Put(c: ToolCall)
      requires Valid(Abs()) && HasTool(Abs())
      modifies this`pending, this`calls
      ensures Abs() == SetTool(old(Abs()), c)
    {
      if current.PendingTool? { pending := Some(c); } else { calls := calls[|calls| - 1 := c]; }
    }

    method Get() returns (c: ToolCall)
      requires Valid(Abs()) && HasTool(Abs())
      ensures c == Tool(Abs())
    {
      c := if current.PendingTool? then pending.value else calls[|calls| - 1];
    }

    // Appends to args_target().
    method Append(t: string)
      requires Valid(Abs()) && HasTool(Abs())
      modifies this`pending, this`calls, this`buffer
      ensures Abs() == SetTarget(old(Abs()), ChatMapper.Target(old(Abs())) + t)
    {
      var c := Get();
      if c.name != "" { Put(c.(arguments := c.arguments + t)); } else { buffer := buffer + t; }
    }

    method MapName(text: string)
      requires Valid(Abs()) && HasTool(Abs())
      modifies this
      ensures Abs() == OnName(old(Abs()), text)
    {
      var c := Get();
      c := c.(name := TrimTrailing(text));
      if buffer != "" {
        c := c.(arguments := buffer);
        buffer := "";
      } else if c.arguments == "" {
        c := c.(arguments := "{");
      }
      if pending.Some? {
        calls := calls + [c];
        pending := None;
        current := LastCall;
      } else {
        Put(c);
      }
    }

    method MapArgName(text: string)
      requires Valid(Abs()) && HasTool(Abs())
      modifies this
      ensures Abs() == OnTool(old(Abs()), ArgName(text))
    {
      var entry := if argCount > 0 then "," else "";
      entry := entry + (Dump(TrimKey(text)) + ":");
      argCount := argCount + 1;
      if Target() == "" { entry := "{" + entry; }
      assert "" + entry == entry;
      Append(entry);
    }

    method MapClose()
      requires Valid(Abs()) && HasTool(Abs())
      modifies this
      ensures Abs() == OnClose(old(Abs()))
    {
      var c := Get();
      if c.name == "" && buffer != "" {
        c := c.(arguments := buffer);
        buffer := "";
      }
      ghost var before := c.arguments;
      if closing { c := c.(arguments := c.arguments + "\""); }
      assert c.arguments == before + if closing then "\"" else "" by { assert before + "" == before; }
      ghost var a := c.arguments;
      closing := false;
      var d := Quotes.JsonBraceDepth(c.arguments);
      ghost var depth := d;
      while d > 0
        invariant c.name == old(Tool(Abs())).name && c.id == old(Tool(Abs())).id
        invariant c.arguments + Braces(d) == a + Braces(depth)
        decreases d
      {
        assert (c.arguments + "}") + Braces(d - 1) == c.arguments + ("}" + Braces(d - 1));
        c := c.(arguments := c.arguments + "}");
        d := d - 1;
      }
      assert Braces(d) == "" && c.arguments + "" == c.arguments;
      if pending.Some? {
        if c.name != "" { calls := calls + [c]; }
        pending := None;
        current := Dangling;
      } else {
        Put(c);
      }
    }

    /** map */
    method Map(e: Event)
      requires Valid(Abs()) && Safe(Abs(), e)
      modifies this
      ensures Abs() == Step(old(Abs()), e)
    {
      match e {
        case Reasoning(t) => reasoning := reasoning + t;
        case Content(t) => content := content + t;
        case Other =>
        case ToolOpen =>
          pending, current := Some(ToolCall("", "", "")), PendingTool;
          argCount, buffer, closing := 0, "", false;
        case ArgOpen => closing := false;
        case _ =>
          if current.PendingTool? || current.LastCall? { MapTool(e); }
      }
    }

    method ValueToAdd(e: Event) returns (t: string)
      requires e.ArgValue? || e.ArgStringValue?
      ensures t == ValueText(Abs(), e)
    {
      var v := TrimValue(e.text);
      t := "";
      if v == "" && e.ArgStringValue? {
        t := "\"";
      } else if v != "" && e.ArgStringValue? {
        if !closing { t := "\""; }
        t := t + EscapeInner(v);
        assert "" + EscapeInner(v) == EscapeInner(v);
      } else if v != "" {
        if v[0] == '[' || v[0] == '{' { v := Quotes.NormalizeQuotesToJson(v); }
        t := v;
      }
    }

    method MapTool(e: Event)
      requires Valid(Abs()) && HasTool(Abs()) && UsesTool(e)
      modifies this
      ensures Abs() == OnTool(old(Abs()), e)
    {
      match e {
        case ToolId(t) =>
          var c := Get();
          Put(c.(id := Unquote(TrimTrailing(t))));
        case ToolName(t) => MapName(t);
        case ToolArgs(t) =>
          var text := TrimTrailing(t);
          if text != "" && text[0] == '{' {
            var c := Get();
            if c.name != "" { Put(c.(arguments := text)); } else { buffer := text; }
          }
        case ArgName(t) => MapArgName(t);
        case ArgValue(_) =>
          var v := ValueToAdd(e);
          Append(v);
        case ArgStringValue(_) =>
          var v := ValueToAdd(e);
          Append(v);
          closing := true;
        case ArgClose =>
          if closing {
            Append("\"");
            closing := false;
          }
        case ToolClose => MapClose();
      }
    }

    /** from_ast: maps the events in order; then a named call that is still pending would be
        flushed, and reasoning that is only white space is dropped. */
    method FromAst(events: seq<Event>)
      requires Valid(Abs()) && Unnamed(Abs()) && SafeRun(Abs(), events)
      modifies this
      ensures var end := Run(old(Abs()), events);
              Abs() == if forall c :: c in end.reasoning ==> c in " \n\r\t" then end.(reasoning := "") else end
    {
      ghost var start := Abs();
      var i := 0;
      assert events[0..] == events;
      while i < |events|
        invariant 0 <= i <= |events|
        invariant Valid(Abs()) && SafeRun(Abs(), events[i..]) && Run(Abs(), events[i..]) == Run(start, events)
      {
        assert events[i..][0] == events[i] && events[i..][1..] == events[i + 1..];
        Map(events[i]);
        i := i + 1;
      }
      RunUnnamed(start, events);
      if pending.Some? && pending.value.name != "" {
        assert false;
      }
      BlankIff(reasoning);
      if IsBlank(reasoning) { reasoning := ""; }
    }
  }
}
