/** Truncated texts that are not healed. */
module JsonHealExamples {
  import opened Json
  import opened JsonLocator
  import opened JsonGuards
  import opened JsonHeal
  import opened JsonHealLimits

  // An escaped backslash followed by the plain text ud800 is taken for a high surrogate, the padding
  // becomes a lone low surrogate, and the last colon lies inside the string.

  // The text  {"a":"x:\\ud800\u  , character by character.
  predicate IsStopped(t: string) {
    && |t| == 17
    && t[0] == '{' && t[1] == '"' && t[2] == 'a' && t[3] == '"' && t[4] == ':' && t[5] == '"'
    && t[6] == 'x' && t[7] == ':' && t[8] == '\\' && t[9] == '\\'
    && t[10] == 'u' && t[11] == 'd' && t[12] == '8' && t[13] == '0' && t[14] == '0'
    && t[15] == '\\' && t[16] == 'u'
  }

  lemma ReadNext(t: string, k: nat)
    requires k < |t|
    ensures Reached(t[..k + 1]) == Step(Reached(t[..k]), t[k])
  {
    assert t[..k + 1] == t[..k] + [t[k]];
    RunSnoc(Init, t[..k], t[k]);
  }

  lemma ReadOpening(t: string)
    requires IsStopped(t)
    ensures Reached(t[..8]) == State(Str(false), [Obj])
  {
    assert t[..0] == [];
    ReadNext(t, 0);
    assert Reached(t[..1]) == State(KeyOrEnd, [Obj]);
    ReadNext(t, 1); ReadNext(t, 2); ReadNext(t, 3);
    assert Reached(t[..4]) == State(Colon, [Obj]);
    ReadNext(t, 4); ReadNext(t, 5);
    assert Reached(t[..6]) == State(Str(false), [Obj]);
    ReadNext(t, 6); ReadNext(t, 7);
  }

  lemma ReadStopped(t: string)
    requires IsStopped(t)
    ensures Reached(t) == State(Hex(false, false, 0, Plain), [Obj])
  {
    ReadOpening(t);
    ReadNext(t, 8); ReadNext(t, 9);
    assert Reached(t[..10]) == State(Str(false), [Obj]);
    ReadNext(t, 10); ReadNext(t, 11); ReadNext(t, 12);
    assert Reached(t[..13]) == State(Str(false), [Obj]);
    ReadNext(t, 13); ReadNext(t, 14); ReadNext(t, 15); ReadNext(t, 16);
    assert t[..17] == t;
  }

  lemma StoppedIsTruncated(t: string)
    requires IsStopped(t)
    ensures Truncated(t)
  {
    ReadStopped(t);
    var s := Reached(t);
    ReadZeros(s, 4);
    RunConcat(Init, t, Zeros(4));
    var t1 := t + Zeros(4);
    RunSnoc(Init, t1, '"');
    RunSnoc(Init, t1 + ['"'], '}');
    assert t1 + ['"'] + ['}'] == t + (Zeros(4) + ['"', '}']);
    assert Valid(t + (Zeros(4) + ['"', '}']));
  }

  lemma StoppedLooksHigh(t: string)
    requires IsStopped(t)
    ensures FalseHighSurrogate(t) && PartialLen(t) == 2
  {
    ReadStopped(t);
    EscapeLength(t, 2);
    EscapeLength(t[..15], 6);
  }

  // No completion is accepted, and cutting back to the last colon is no JSON text either.
  lemma StoppedCannotHeal(t: string)
    requires IsStopped(t)
    ensures Truncated(t) && !CanHeal(t) && !SomeGuard(t, Mirror(Reached(t)))
  {
    StoppedIsTruncated(t);
    StoppedLooksHigh(t);
    ReadStopped(t);
    ReadOpening(t);
    FalseHighMeetsNoGuard(t, Mirror(Reached(t)));
    assert FindLastOf(t, ":") == 7;
  }

  // A bare string that stops in a unicode escape is not healed either:  "\u
  lemma BareCannotHeal(t: string)
    requires |t| == 3 && t[0] == '"' && t[1] == '\\' && t[2] == 'u'
    ensures Truncated(t) && !CanHeal(t)
  {
    assert t[..0] == [] && t[..3] == t;
    ReadNext(t, 0); ReadNext(t, 1); ReadNext(t, 2);
    var s := Reached(t);
    ReadZeros(s, 4);
    RunConcat(Init, t, Zeros(4));
    RunSnoc(Init, t + Zeros(4), '"');
    assert t + Zeros(4) + ['"'] == t + (Zeros(4) + ['"']);
    assert Valid(t + (Zeros(4) + ['"']));
  }
}
