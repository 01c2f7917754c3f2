/** The conversion of Python-style quoted strings to JSON strings, and the brace counter that
    skips strings (common/chat-peg-parser.cpp). JSON strings are section 7 of RFC 8259. */
module Quotes {

  datatype Mode = Out | Single | Double

  // ----- normalize_quotes_to_json -----

  // What an escape in a single-quoted string becomes.
  function Requote(next: char): string {
    if next == '\'' then "'" else if next == '"' then "\\\"" else ['\\', next]
  }

  // The character c, not an escape: what is written for it, and the mode after it.
  function Write(c: char, m: Mode): (string, Mode) {
    if c == '"' then
      if m.Single? then ("\\\"", m) else ("\"", if m.Double? then Out else Double)
    else if c == '\'' then
      match m
      case Double => ("'", m)
      case Single => ("\"", Out)
      case Out => ("\"", Single)
    else ([c], m)
  }

  function Normalize(s: string, m: Mode): string
    decreases |s|
  {
    if s == [] then []
    else if s[0] == '\\' && |s| > 1 && !m.Out? then
      (if m.Single? then Requote(s[1]) else s[..2]) + Normalize(s[2..], m)
    else
      var (w, m') := Write(s[0], m);
      w + Normalize(s[1..], m')
  }

  // The normal form of the input from position i on.
  function Remaining(s: string, i: nat, m: Mode): string
    requires i <= |s|
  {
    Normalize(s[i..], m)
  }

  lemma RemainingEscape(s: string, i: nat, m: Mode)
    requires i + 1 < |s| && s[i] == '\\' && !m.Out?
    ensures Remaining(s, i, m) == (if m.Single? then Requote(s[i + 1]) else [s[i], s[i + 1]]) + Remaining(s, i + 2, m)
  {
    var t := s[i..];
    assert t[2..] == s[i + 2..] && t[..2] == [s[i], s[i + 1]];
  }

  lemma RemainingChar(s: string, i: nat, m: Mode)
    requires i < |s| && (s[i] == '\\' && i + 1 < |s| ==> m.Out?)
    ensures Remaining(s, i, m) == Write(s[i], m).0 + Remaining(s, i + 1, Write(s[i], m).1)
  {
    assert s[i..][1..] == s[i + 1..];
  }

  lemma Appended(a: string, b: string, c: string)
    ensures (a + b) + c == a + (b + c)
  {
  }

  method NormalizeQuotesToJson(input: string) returns (result: string)
    ensures result == Normalize(input, Out)
  {
    result := "";
    var inSingle, inDouble := false, false;
    var i := 0;
    ghost var m := Out;
    assert input[0..] == input;
    while i < |input|
      invariant i <= |input| && inSingle == m.Single? && inDouble == m.Double?
      invariant result + Remaining(input, i, m) == Remaining(input, 0, Out)
    {
      var c := input[i];
      var piece := [c];
      if c == '\\' && i + 1 < |input| && (inSingle || inDouble) {
        // an escape inside a string
        RemainingEscape(input, i, m);
        piece := if inSingle then Requote(input[i + 1]) else [c, input[i + 1]];
        i := i + 1;
      } else {
        RemainingChar(input, i, m);
        if c == '"' {
          if inSingle { piece := "\\\""; } else { inDouble := !inDouble; }
        } else if c == '\'' && !inDouble {
          piece := "\"";
          inSingle := !inSingle;
        }
        m := Write(c, m).1;
      }
      i := i + 1;
      Appended(result, piece, Remaining(input, i, m));
      result := result + piece;
    }
    assert input[i..] == [];
  }

  // ----- reading strings -----

  // What a reader of quoted text sees: characters outside strings, and the contents of the
  // strings, with escaped quotes read as quotes.
  datatype Token = Outside(c: char) | Open | Char(c: char) | Escape(c: char) | Dangling | Close

  // An escape in a string that began with the given quote.
  function Meaning(m: Mode, next: char): Token {
    if next == '"' || (next == '\'' && m.Single?) then Char(next) else Escape(next)
  }

  function Quote(m: Mode): char { if m.Single? then '\'' else '"' }

  // Reading with both kinds of quotes.
  function LexBoth(s: string, m: Mode): seq<Token>
    decreases |s|
  {
    if s == [] then []
    else if m.Out? then
      if s[0] == '"' then [Open] + LexBoth(s[1..], Double)
      else if s[0] == '\'' then [Open] + LexBoth(s[1..], Single)
      else [Outside(s[0])] + LexBoth(s[1..], Out)
    else if s[0] == Quote(m) then [Close] + LexBoth(s[1..], Out)
    else if s[0] == '\\' then
      if |s| == 1 then [Dangling] else [Meaning(m, s[1])] + LexBoth(s[2..], m)
    else [Char(s[0])] + LexBoth(s[1..], m)
  }

  // Reading as JSON does, with double quotes only.
  function LexJson(s: string, inString: bool): seq<Token>
    decreases |s|
  {
    if s == [] then []
    else if s[0] == '"' then [if inString then Close else Open] + LexJson(s[1..], !inString)
    else if !inString then [Outside(s[0])] + LexJson(s[1..], false)
    else if s[0] == '\\' then
      if |s| == 1 then [Dangling] else [Meaning(Double, s[1])] + LexJson(s[2..], true)
    else [Char(s[0])] + LexJson(s[1..], true)
  }

  lemma JsonOne(c: char, t: string, inString: bool)
    requires !(inString && c == '\\')
    ensures LexJson([c] + t, inString) ==
              (if c == '"' then [if inString then Close else Open] else if inString then [Char(c)] else [Outside(c)]) +
              LexJson(t, inString != (c == '"'))
  {
    assert ([c] + t)[1..] == t;
  }

  lemma JsonTwo(next: char, t: string)
    ensures LexJson(['\\', next] + t, true) == [Meaning(Double, next)] + LexJson(t, true)
  {
    assert (['\\', next] + t)[2..] == t;
  }

  /** Normalising changes how strings are written and not what they say: JSON reads from the
      result what a reader of both kinds of quotes reads from the input. */
  lemma {:induction false} NormalizePreserves(s: string, m: Mode)
    ensures LexJson(Normalize(s, m), !m.Out?) == LexBoth(s, m)
    decreases |s|
  {
    if s == [] {
    } else if s[0] == '\\' && |s| > 1 && !m.Out? {
      NormalizePreserves(s[2..], m);
      EscapePreserved(s, m);
    } else {
      var (w, m') := Write(s[0], m);
      NormalizePreserves(s[1..], m');
      CharPreserved(s, m);
    }
  }

  lemma EscapePreserved(s: string, m: Mode)
    requires |s| > 1 && s[0] == '\\' && !m.Out?
    requires LexJson(Normalize(s[2..], m), true) == LexBoth(s[2..], m)
    ensures LexJson(Normalize(s, m), true) == LexBoth(s, m)
  {
    var t := Normalize(s[2..], m);
    var written := if m.Single? then Requote(s[1]) else s[..2];
    if m.Single? && s[1] == '\'' {
      JsonOne('\'', t, true);
      assert "'" + t == ['\''] + t;
    } else {
      JsonTwo(s[1], t);
      assert written + t == ['\\', s[1]] + t;
    }
  }

  lemma CharPreserved(s: string, m: Mode)
    requires s != [] && !(s[0] == '\\' && |s| > 1 && !m.Out?)
    requires var m' := Write(s[0], m).1; LexJson(Normalize(s[1..], m'), !m'.Out?) == LexBoth(s[1..], m')
    ensures LexJson(Normalize(s, m), !m.Out?) == LexBoth(s, m)
  {
    var (w, m') := Write(s[0], m);
    var t := Normalize(s[1..], m');
    if s[0] == '"' && m.Single? {
      JsonTwo('"', t);
      assert "\\\"" + t == ['\\', '"'] + t;
    } else if s[0] == '\\' && !m.Out? {
      assert s[1..] == [] && t == [] && [s[0]] + t == [s[0]];
    } else {
      assert w == [w[0]] && w + t == [w[0]] + t;
      JsonOne(w[0], t, !m.Out?);
    }
  }

  // ----- when normalising changes nothing -----

  predicate SingleOutside(s: string, inString: bool) { Outside('\'') in LexJson(s, inString) }

  /** The identity exactly on the texts that have no single quote outside double quotes. */
  lemma {:induction false} NormalizeIsIdentityIff(s: string, m: Mode)
    requires !m.Single?
    ensures Normalize(s, m) == s <==> !SingleOutside(s, m.Double?)
    decreases |s|
  {
    if s == [] {
    } else if s[0] == '\\' && |s| > 1 && m.Double? {
      NormalizeIsIdentityIff(s[2..], m);
      var t := Normalize(s[2..], m);
      assert Normalize(s, m) == s[..2] + t && (s[..2] + t)[2..] == t && s == s[..2] + s[2..];
    } else if s[0] == '\'' && m.Out? {
      assert Normalize(s, m)[0] == '"';
    } else {
      var (w, m') := Write(s[0], m);
      NormalizeIsIdentityIff(s[1..], m');
      var t := Normalize(s[1..], m');
      assert Normalize(s, m) == [s[0]] + t && ([s[0]] + t)[1..] == t && s == [s[0]] + s[1..];
    }
  }

  lemma {:induction false} NoSingleFromBoth(s: string, m: Mode)
    ensures Outside('\'') !in LexBoth(s, m)
    decreases |s|
  {
    if s != [] {
      var (w, m') := Write(s[0], m);
      NoSingleFromBoth(s[1..], Out);
      NoSingleFromBoth(s[1..], Single);
      NoSingleFromBoth(s[1..], Double);
      if |s| > 1 { NoSingleFromBoth(s[2..], m); }
    }
  }

  lemma NormalizeIsIdempotent(s: string)
    ensures Normalize(Normalize(s, Out), Out) == Normalize(s, Out)
  {
    NormalizePreserves(s, Out);
    NoSingleFromBoth(s, Out);
    NormalizeIsIdentityIff(Normalize(s, Out), Out);
  }

  // ----- json_brace_depth -----

  function Depth(s: string, inString: bool, escaped: bool): int {
    if s == [] then 0
    else if escaped then Depth(s[1..], inString, false)
    else if s[0] == '\\' && inString then Depth(s[1..], inString, true)
    else if s[0] == '"' then Depth(s[1..], !inString, false)
    else (if inString then 0 else if s[0] == '{' then 1 else if s[0] == '}' then -1 else 0) + Depth(s[1..], inString, false)
  }

  function DepthFrom(s: string, i: nat, inString: bool, escaped: bool): int
    requires i <= |s|
  {
    Depth(s[i..], inString, escaped)
  }

  method JsonBraceDepth(s: string) returns (depth: int)
    ensures depth == Depth(s, false, false)
  {
    depth := 0;
    var inString, escaped := false, false;
    assert s[0..] == s;
    for i := 0 to |s|
      invariant depth + DepthFrom(s, i, inString, escaped) == DepthFrom(s, 0, false, false)
    {
      var c := s[i];
      assert s[i..][1..] == s[i + 1..];
      if escaped {
        escaped := false;
      } else if c == '\\' && inString {
        escaped := true;
      } else if c == '"' {
        inString := !inString;
      } else if !inString {
        if c == '{' { depth := depth + 1; } else if c == '}' { depth := depth - 1; }
      }
    }
    assert s[|s|..] == [];
  }

  // The braces outside strings.
  function Braces(ts: seq<Token>): int {
    if ts == [] then 0
    else (if ts[0] == Outside('{') then 1 else if ts[0] == Outside('}') then -1 else 0) + Braces(ts[1..])
  }

  lemma BracesCons(t: Token, ts: seq<Token>)
    ensures Braces([t] + ts) == (if t == Outside('{') then 1 else if t == Outside('}') then -1 else 0) + Braces(ts)
  {
    assert ([t] + ts)[1..] == ts;
  }

  lemma {:induction false} DepthCountsBraces(s: string, inString: bool)
    ensures Depth(s, inString, false) == Braces(LexJson(s, inString))
    decreases |s|
  {
    if s == [] {
    } else if s[0] == '\\' && inString && |s| > 1 {
      DepthCountsBraces(s[2..], true);
      assert s[1..][1..] == s[2..];
      BracesCons(Meaning(Double, s[1]), LexJson(s[2..], true));
    } else if s[0] == '\\' && inString {
      assert s[1..] == [];
    } else {
      var t := if s[0] == '"' then if inString then Close else Open else if inString then Char(s[0]) else Outside(s[0]);
      DepthCountsBraces(s[1..], inString != (s[0] == '"'));
      BracesCons(t, LexJson(s[1..], inString != (s[0] == '"')));
    }
  }

  /** The two agree on what is inside a string: the depth of a normalised text counts exactly
      the braces outside either kind of quotes. */
  lemma DepthOfNormalized(s: string)
    ensures Depth(Normalize(s, Out), false, false) == Braces(LexBoth(s, Out))
  {
    NormalizePreserves(s, Out);
    DepthCountsBraces(Normalize(s, Out), false);
  }
}
