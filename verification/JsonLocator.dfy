/** The SAX handler of common/json-partial.cpp that remembers what is still open
    when parsing stops, driven over a text by the recogniser. */
module JsonLocator {
  import opened Json

  datatype Element = ObjectEl | KeyEl | ArrayEl

  datatype Event = ScalarEv | StartObjectEv | EndObjectEv | KeyEv | StartArrayEv | EndArrayEv

  // ----- what the stack should look like -----

  // Inside an object a pending key lies on it from the end of the key to the end of its value.
  predicate HoldsKey(ctl: Ctl) {
    match ctl
    case Value => true
    case Colon => true
    case Str(k) => !k
    case Esc(k) => !k
    case Hex(k, _, _, _) => !k
    case HighDone(k) => !k
    case HighEsc(k) => !k
    case Lit(_, _) => true
    case Num(_) => true
    case _ => false
  }

  function Outer(stack: seq<Container>): seq<Element> {
    if stack == [] then []
    else Outer(stack[..|stack| - 1]) + if Top(stack).Obj? then [ObjectEl, KeyEl] else [ArrayEl]
  }

  // The elements open in recogniser state s: every enclosing object carries its key,
  // the innermost one only while that key's value is unfinished.
  function Mirror(s: State): seq<Element> {
    if s.stack == [] then []
    else
      var inner := if Top(s.stack).Arr? then [ArrayEl]
                   else if HoldsKey(s.ctl) then [ObjectEl, KeyEl]
                   else [ObjectEl];
      Outer(s.stack[..|s.stack| - 1]) + inner
  }

  // The end of the input completes a number.
  function AtEnd(s: State): State {
    if s.ctl.Num? && IsComplete(s.ctl.phase) then s.(ctl := After) else s
  }

  // ----- the events that reading one character reports -----

  function BracketEvents(c: char): seq<Event> {
    if c == '{' then [StartObjectEv]
    else if c == '[' then [StartArrayEv]
    else if c == '}' then [EndObjectEv]
    else if c == ']' then [EndArrayEv]
    else []
  }

  // The events for character c in state s, when c is accepted there.
  function Events(s: State, c: char): seq<Event> {
    if IsStr(s.ctl) then
      if s.ctl.Str? && c == '"' then if s.ctl.isKey then [KeyEv] else [ScalarEv] else []
    else match s.ctl
      case Lit(w, n) => if n + 1 == |Spell(w)| then [ScalarEv] else []
      case Num(p) => if NextPhase(p, c).0 then [] else [ScalarEv] + BracketEvents(c)
      case _ => BracketEvents(c)
  }

  function Popped(stack: seq<Element>): seq<Element> {
    if stack != [] && stack[|stack| - 1].KeyEl? then stack[..|stack| - 1] else stack
  }

  // The assertions in the end_object and end_array callbacks.
  predicate Asserts(stack: seq<Element>, e: Event) {
    && (e.EndObjectEv? ==> stack != [] && stack[|stack| - 1].ObjectEl?)
    && (e.EndArrayEv? ==> stack != [] && stack[|stack| - 1].ArrayEl?)
  }

  function OnEvent(stack: seq<Element>, e: Event): seq<Element>
    requires Asserts(stack, e)
  {
    match e
    case ScalarEv => Popped(stack)
    case StartObjectEv => stack + [ObjectEl]
    case StartArrayEv => stack + [ArrayEl]
    case KeyEv => stack + [KeyEl]
    case EndObjectEv => Popped(stack[..|stack| - 1])
    case EndArrayEv => Popped(stack[..|stack| - 1])
  }

  predicate AllAssert(stack: seq<Element>, es: seq<Event>)
    decreases |es|
  {
    es == [] || (Asserts(stack, es[0]) && AllAssert(OnEvent(stack, es[0]), es[1..]))
  }

  function OnEvents(stack: seq<Element>, es: seq<Event>): seq<Element>
    requires AllAssert(stack, es)
    decreases |es|
  {
    if es == [] then stack else OnEvents(OnEvent(stack, es[0]), es[1..])
  }

  // ----- the stack mirrors the text -----

  lemma PopMirrors(stack: seq<Container>)
    requires stack != []
    ensures var init := stack[..|stack| - 1];
            Popped(Outer(init)) == Mirror(State(After, init))
  {
  }

  // The end of a container pops its element and the key that waited for it.
  lemma EndMirrors(s: State, c: char)
    requires WellFormed(s) && s.stack != [] && !HoldsKey(s.ctl)
    requires c == Closer(Top(s.stack)) && Step(s, c) == Pop(s.stack)
    ensures AllAssert(Mirror(s), BracketEvents(c))
    ensures OnEvents(Mirror(s), BracketEvents(c)) == Mirror(Step(s, c))
  {
    var e := if c == '}' then EndObjectEv else EndArrayEv;
    TopOfMirror(s);
    PopMirrors(s.stack);
    OneEvent(Mirror(s), e);
  }

  lemma TopOfMirror(s: State)
    requires s.stack != [] && !HoldsKey(s.ctl)
    ensures var m := Mirror(s); m != [] && m[..|m| - 1] == Outer(s.stack[..|s.stack| - 1])
    ensures var m := Mirror(s); m[|m| - 1] == if Top(s.stack).Arr? then ArrayEl else ObjectEl
  {
  }

  // A scalar finishes the pending key, if there is one.
  lemma ScalarMirrors(s: State)
    requires HoldsKey(s.ctl) || (s.stack != [] ==> Top(s.stack).Arr?)
    ensures Popped(Mirror(s)) == Mirror(s.(ctl := After))
  {
    if s.stack == [] {
    } else if Top(s.stack).Obj? {
      var m := Mirror(s);
      assert m[..|m| - 1] == Mirror(s.(ctl := After));
    }
  }

  lemma OneEvent(stack: seq<Element>, e: Event)
    requires Asserts(stack, e)
    ensures AllAssert(stack, [e]) && OnEvents(stack, [e]) == OnEvent(stack, e)
  {
    assert [e][1..] == [];
  }

  lemma TwoEvents(stack: seq<Element>, e: Event, es: seq<Event>)
    requires Asserts(stack, e) && AllAssert(OnEvent(stack, e), es)
    ensures AllAssert(stack, [e] + es)
    ensures OnEvents(stack, [e] + es) == OnEvents(OnEvent(stack, e), es)
  {
    assert ([e] + es)[1..] == es;
  }

  // Starting a container.
  lemma StartMirrors(s: State, c: char)
    requires WellFormed(s) && (s.ctl.Value? || s.ctl.ValueOrEnd?) && (c == '{' || c == '[')
    ensures AllAssert(Mirror(s), BracketEvents(c))
    ensures OnEvents(Mirror(s), BracketEvents(c)) == Mirror(Step(s, c))
  {
    var next := Step(s, c);
    assert next.stack[..|next.stack| - 1] == s.stack;
    assert Mirror(s) == Outer(s.stack);
    OneEvent(Mirror(s), BracketEvents(c)[0]);
  }

  lemma AfterMirrors(s: State, c: char)
    requires s.ctl.After? && !Step(s, c).ctl.Err?
    ensures AllAssert(Mirror(s), BracketEvents(c))
    ensures OnEvents(Mirror(s), BracketEvents(c)) == Mirror(Step(s, c))
  {
    if IsCloser(c) { EndMirrors(s, c); }
  }

  lemma StringMirrors(s: State, c: char)
    requires IsStr(s.ctl) && WellFormed(s) && !Step(s, c).ctl.Err?
    ensures AllAssert(Mirror(s), Events(s, c))
    ensures OnEvents(Mirror(s), Events(s, c)) == Mirror(Step(s, c))
  {
    if s.ctl.Str? && c == '"' {
      if s.ctl.isKey {
        OneEvent(Mirror(s), KeyEv);
        assert Mirror(s) + [KeyEl] == Mirror(Step(s, c));
      } else {
        OneEvent(Mirror(s), ScalarEv);
        ScalarMirrors(s);
      }
    } else {
      assert HoldsKey(Step(s, c).ctl) == HoldsKey(s.ctl) && Step(s, c).stack == s.stack;
    }
  }

  lemma LiteralMirrors(s: State, c: char)
    requires (s.ctl.Lit? || s.ctl.Num?) && WellFormed(s) && !Step(s, c).ctl.Err?
    ensures AllAssert(Mirror(s), Events(s, c))
    ensures OnEvents(Mirror(s), Events(s, c)) == Mirror(Step(s, c))
  {
    ScalarMirrors(s);
    if s.ctl.Lit? {
      OneEvent(Mirror(s), ScalarEv);
    } else if !NextPhase(s.ctl.phase, c).0 {
      AfterMirrors(s.(ctl := After), c);
      TwoEvents(Mirror(s), ScalarEv, BracketEvents(c));
    }
  }

  lemma QuietMirrors(s: State, c: char)
    requires s.ctl.Value? || s.ctl.ValueOrEnd? || s.ctl.KeyOrEnd? || s.ctl.Key? || s.ctl.Colon?
    requires WellFormed(s) && !Step(s, c).ctl.Err? && BracketEvents(c) == []
    ensures Mirror(s) == Mirror(Step(s, c))
  {
    assert Step(s, c).stack == s.stack;
  }

  // Reading one accepted character: no assertion fires and the stack follows the text.
  lemma StepMirrors(s: State, c: char)
    requires WellFormed(s) && !Step(s, c).ctl.Err?
    ensures AllAssert(Mirror(s), Events(s, c))
    ensures OnEvents(Mirror(s), Events(s, c)) == Mirror(Step(s, c))
  {
    if IsStr(s.ctl) {
      StringMirrors(s, c);
    } else if s.ctl.Lit? || s.ctl.Num? {
      LiteralMirrors(s, c);
    } else if s.ctl.After? {
      AfterMirrors(s, c);
    } else if IsCloser(c) {
      EndMirrors(s, c);
    } else if c == '{' || c == '[' {
      StartMirrors(s, c);
    } else {
      QuietMirrors(s, c);
    }
  }

  // ----- shape of the stack -----

  predicate KeysOnObjects(stack: seq<Element>) {
    forall i :: 0 <= i < |stack| && stack[i].KeyEl? ==> i > 0 && stack[i - 1].ObjectEl?
  }

  lemma {:induction false} OuterKeysOnObjects(stack: seq<Container>)
    ensures KeysOnObjects(Outer(stack))
  {
    if stack != [] { OuterKeysOnObjects(stack[..|stack| - 1]); }
  }

  // In every reachable state each key lies directly on an object.
  lemma MirrorKeysOnObjects(s: State)
    ensures KeysOnObjects(Mirror(s))
  {
    if s.stack != [] { OuterKeysOnObjects(s.stack[..|s.stack| - 1]); }
  }

  // The closing text read off the stack of elements, innermost first.
  function ClosingOf(stack: seq<Element>): string {
    if stack == [] then []
    else
      var el := stack[|stack| - 1];
      (if el.ObjectEl? then "}" else if el.ArrayEl? then "]" else "") + ClosingOf(stack[..|stack| - 1])
  }

  lemma ClosingOne(stack: seq<Element>, el: Element)
    ensures ClosingOf(stack + [el]) == (if el.ObjectEl? then "}" else if el.ArrayEl? then "]" else "") + ClosingOf(stack)
  {
    assert (stack + [el])[..|stack|] == stack;
  }

  // An object with its key.
  lemma ClosingKey(stack: seq<Element>)
    ensures ClosingOf(stack + [ObjectEl, KeyEl]) == "}" + ClosingOf(stack)
  {
    assert stack + [ObjectEl, KeyEl] == (stack + [ObjectEl]) + [KeyEl];
    ClosingOne(stack + [ObjectEl], KeyEl);
    ClosingOne(stack, ObjectEl);
    assert "" + ClosingOf(stack + [ObjectEl]) == ClosingOf(stack + [ObjectEl]);
  }

  lemma {:induction false} OuterClosing(stack: seq<Container>)
    ensures ClosingOf(Outer(stack)) == Closers(stack)
  {
    if stack != [] {
      var init := stack[..|stack| - 1];
      OuterClosing(init);
      if Top(stack).Obj? { ClosingKey(Outer(init)); } else { ClosingOne(Outer(init), ArrayEl); }
    }
  }

  // The closing text closes exactly the containers that the text has open.
  lemma MirrorClosing(s: State)
    ensures ClosingOf(Mirror(s)) == Closers(s.stack)
  {
    if s.stack != [] {
      var outer := Outer(s.stack[..|s.stack| - 1]);
      OuterClosing(s.stack[..|s.stack| - 1]);
      ClosingKey(outer);
      ClosingOne(outer, ArrayEl);
      ClosingOne(outer, ObjectEl);
    }
  }

  // A text that fails at some character is no JSON text.
  lemma FailsAt(input: string, i: nat)
    requires i < |input| && Run(Init, input[..i + 1]).ctl.Err?
    ensures Run(Init, input).ctl.Err? && !Valid(input)
  {
    assert input == input[..i + 1] + input[i + 1..];
    RunConcat(Init, input[..i + 1], input[i + 1..]);
    RunFailed(Run(Init, input[..i + 1]), input[i + 1..]);
  }

  lemma ReadOne(input: string, i: nat)
    requires i < |input|
    ensures Run(Init, input[..i + 1]) == Step(Run(Init, input[..i]), input[i])
  {
    assert input[..i + 1] == input[..i] + [input[i]];
    RunSnoc(Init, input[..i], input[i]);
  }

  // ----- the handler -----

  class JsonErrorLocator {
    var position: nat
    var foundError: bool
    var stack: seq<Element>

    constructor ()
      ensures position == 0 && !foundError && stack == []
    {
      position, foundError, stack := 0, false, [];
    }

    method CloseValue()
      modifies this`stack
      ensures stack == Popped(old(stack))
    {
      if stack != [] && stack[|stack| - 1].KeyEl? {
        stack := stack[..|stack| - 1];
      }
    }

    // The null, boolean, number, string and binary callbacks.
    method Scalar()
      modifies this`stack
      ensures stack == Popped(old(stack))
    {
      CloseValue();
    }

    method StartObject()
      modifies this`stack
      ensures stack == old(stack) + [ObjectEl]
    {
      stack := stack + [ObjectEl];
    }

    method StartArray()
      modifies this`stack
      ensures stack == old(stack) + [ArrayEl]
    {
      stack := stack + [ArrayEl];
    }

    method KeyRead()
      modifies this`stack
      ensures stack == old(stack) + [KeyEl]
    {
      stack := stack + [KeyEl];
    }

    // The precondition is the assertion in the source.
    method EndObject()
      requires stack != [] && stack[|stack| - 1].ObjectEl?
      modifies this`stack
      ensures stack == Popped(old(stack)[..|old(stack)| - 1])
    {
      stack := stack[..|stack| - 1];
      CloseValue();
    }

    method EndArray()
      requires stack != [] && stack[|stack| - 1].ArrayEl?
      modifies this`stack
      ensures stack == Popped(old(stack)[..|old(stack)| - 1])
    {
      stack := stack[..|stack| - 1];
      CloseValue();
    }

    method Deliver(es: seq<Event>)
      requires AllAssert(stack, es)
      modifies this`stack
      ensures stack == OnEvents(old(stack), es)
    {
      var i := 0;
      while i < |es|
        invariant 0 <= i <= |es|
        invariant AllAssert(stack, es[i..])
        invariant OnEvents(stack, es[i..]) == OnEvents(old(stack), es)
      {
        assert es[i..][0] == es[i] && es[i..][1..] == es[i + 1..];
        match es[i] {
          case ScalarEv => Scalar();
          case StartObjectEv => StartObject();
          case StartArrayEv => StartArray();
          case KeyEv => KeyRead();
          case EndObjectEv => EndObject();
          case EndArrayEv => EndArray();
        }
        i := i + 1;
      }
    }

    method ParseError(at: nat)
      modifies this
      ensures position == at && foundError && stack == old(stack)
    {
      position, foundError := at, true;
    }

    /** Reads the whole text. An error is found exactly when the text is not JSON, and then
        the stack holds what is open in the text before the error. */
    method SaxParse(input: string)
      requires stack == [] && !foundError
      modifies this
      ensures foundError <==> !Valid(input)
      ensures foundError ==> position <= |input| && !Run(Init, input[..position]).ctl.Err?
      ensures foundError ==> position == |input| || Run(Init, input[..position + 1]).ctl.Err?
      ensures foundError ==> stack == Mirror(AtEnd(Run(Init, input[..position])))
    {
      var s := Init;
      var i := 0;
      while i < |input|
        invariant 0 <= i <= |input|
        invariant s == Run(Init, input[..i]) && WellFormed(s) && !s.ctl.Err?
        invariant stack == Mirror(s) && !foundError
      {
        var next := Step(s, input[i]);
        ReadOne(input, i);
        if next.ctl.Err? {
          Flush(s);
          ParseError(i);
          FailsAt(input, i);
          return;
        }
        StepMirrors(s, input[i]);
        StepWellFormed(s, input[i]);
        Deliver(Events(s, input[i]));
        s := next;
        i := i + 1;
      }
      assert input[..i] == input;
      Flush(s);
      if !Accepting(s) { ParseError(|input|); }
    }

    // A number is reported when the character after it, or the end, is seen.
    method Flush(s: State)
      requires stack == Mirror(s)
      modifies this`stack
      ensures stack == Mirror(AtEnd(s))
    {
      if s.ctl.Num? && IsComplete(s.ctl.phase) {
        Scalar();
        ScalarMirrors(s);
      }
    }

    // The loop that reads the closing brackets off the stack.
    method Closing() returns (closing: string)
      ensures closing == ClosingOf(stack)
    {
      closing := "";
      var i := |stack|;
      assert stack[..i] == stack;
      while i > 0
        invariant 0 <= i <= |stack|
        invariant closing + ClosingOf(stack[..i]) == ClosingOf(stack)
      {
        var el := stack[i - 1];
        ghost var rest := ClosingOf(stack[..i - 1]);
        assert stack[..i][..i - 1] == stack[..i - 1];
        var bracket := match el case ObjectEl => "}" case ArrayEl => "]" case KeyEl => "";
        assert ClosingOf(stack[..i]) == bracket + rest;
        assert closing + (bracket + rest) == closing + bracket + rest;
        closing := closing + bracket;
        i := i - 1;
      }
      assert closing + ClosingOf(stack[..0]) == closing;
    }
  }
}
