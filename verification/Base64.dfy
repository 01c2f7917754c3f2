/** The Base64 codec of common/base64.hpp (sections 4 and 5 of RFC 4648), on bytes. */
module Base64 {

  type byte = bv8

  datatype Alphabet = Auto | Standard | UrlSafe

  datatype Behavior = Moderate | Loose

  const Pad: byte := 0x3d   // '='

  // ----- the alphabets -----

  function Symbol(a: Alphabet, v: byte): byte {
    if v < 26 then v + 0x41           // A-Z
    else if v < 52 then v - 26 + 0x61 // a-z
    else if v < 62 then v - 52 + 0x30 // 0-9
    else if a.UrlSafe? then if v == 62 then 0x2d else 0x5f  // - _
    else if v == 62 then 0x2b else 0x2f                     // + /
  }

  datatype Option<T> = None | Some(value: T)

  // The value of a symbol, and the alphabet after it: detecting one settles it.
  function SymbolValue(a: Alphabet, c: byte): Option<(byte, Alphabet)> {
    if 0x41 <= c <= 0x5a then Some((c - 0x41, a))
    else if 0x61 <= c <= 0x7a then Some((c - 0x61 + 26, a))
    else if 0x30 <= c <= 0x39 then Some((c - 0x30 + 52, a))
    else match a
      case Standard => if c == 0x2b then Some((62, a)) else if c == 0x2f then Some((63, a)) else None
      case UrlSafe => if c == 0x2d then Some((62, a)) else if c == 0x5f then Some((63, a)) else None
      case Auto =>
        if c == 0x2b then Some((62, Standard)) else if c == 0x2f then Some((63, Standard))
        else if c == 0x2d then Some((62, UrlSafe)) else if c == 0x5f then Some((63, UrlSafe))
        else None
  }

  // ----- encoding -----

  // The four sextets of three bytes; missing bytes count as zero.
  function Sextet0(i0: byte): byte { (i0 >> 2) & 0x3f }
  function Sextet1(i0: byte, i1: byte): byte { ((i0 & 0x3) << 4) | ((i1 >> 4) & 0x0f) }
  function Sextet2(i1: byte, i2: byte): byte { ((i1 & 0xf) << 2) | ((i2 >> 6) & 0x03) }
  function Sextet3(i2: byte): byte { i2 & 0x3f }

  // The group that a non-empty input starts with.
  function Group(s: seq<byte>, a: Alphabet): (g: seq<byte>)
    requires s != []
    ensures |g| == 4
  {
    [Symbol(a, Sextet0(s[0])),
     Symbol(a, Sextet1(s[0], if |s| > 1 then s[1] else 0)),
     if |s| > 1 then Symbol(a, Sextet2(s[1], if |s| > 2 then s[2] else 0)) else Pad,
     if |s| > 2 then Symbol(a, Sextet3(s[2])) else Pad]
  }

  function Encode(s: seq<byte>, a: Alphabet): seq<byte> {
    if s == [] then []
    else Group(s, a) + if |s| <= 3 then [] else Encode(s[3..], a)
  }

  // What is encoded from position i on.
  function EncodeFrom(s: seq<byte>, i: nat, a: Alphabet): seq<byte>
    requires i <= |s|
  {
    Encode(s[i..], a)
  }

  lemma EncodeStep(s: seq<byte>, i: nat, a: Alphabet, out: seq<byte>)
    requires i < |s|
    ensures var next := if i + 3 < |s| then i + 3 else |s|;
            out + EncodeFrom(s, i, a) == (out + Group(s[i..], a)) + EncodeFrom(s, next, a)
  {
    var rest := s[i..];
    if i + 3 < |s| {
      assert rest[3..] == s[i + 3..];
      assert out + (Group(rest, a) + Encode(rest[3..], a)) == (out + Group(rest, a)) + Encode(rest[3..], a);
    } else {
      assert s[|s|..] == [];
      assert Group(rest, a) + [] == Group(rest, a) && (out + Group(rest, a)) + [] == out + Group(rest, a);
    }
  }

  function RequiredEncodeSize(n: nat): nat { (n / 3 + if n % 3 != 0 then 1 else 0) * 4 }

  function MaxDecodeSize(n: nat): nat { (n / 4 + if n % 4 != 0 then 1 else 0) * 3 }

  method EncodeBytes(s: seq<byte>, a: Alphabet) returns (out: seq<byte>)
    ensures out == Encode(s, a)
  {
    out := [];
    var i := 0;
    assert s[0..] == s;
    while i < |s|
      invariant 0 <= i <= |s|
      invariant out + EncodeFrom(s, i, a) == EncodeFrom(s, 0, a)
    {
      ghost var before, from := out, i;
      EncodeStep(s, i, a, out);
      var i0, i1, i2 := s[i], 0 as byte, 0 as byte;
      i := i + 1;
      out := out + [Symbol(a, Sextet0(i0))];
      if i == |s| {
        out := out + [Symbol(a, Sextet1(i0, 0))] + [Pad] + [Pad];
        assert out == before + Group(s[from..], a);
        break;
      }
      i1 := s[i];
      i := i + 1;
      out := out + [Symbol(a, Sextet1(i0, i1))];
      if i == |s| {
        out := out + [Symbol(a, Sextet2(i1, 0))] + [Pad];
        assert out == before + Group(s[from..], a);
        break;
      }
      i2 := s[i];
      i := i + 1;
      out := out + [Symbol(a, Sextet2(i1, i2))];
      out := out + [Symbol(a, Sextet3(i2))];
      assert out == before + Group(s[from..], a);
    }
    assert s[|s|..] == [] && out + [] == out;
  }

  lemma {:induction false} EncodedLength(s: seq<byte>, a: Alphabet)
    ensures |Encode(s, a)| == RequiredEncodeSize(|s|)
  {
    if |s| > 3 { EncodedLength(s[3..], a); }
  }

  // ----- decoding -----

  // The decoder's variables: the last value read, the bits of it not yet written, and the
  // alphabet, which detection may settle.
  datatype Dec = Dec(last: byte, bits: nat, a: Alphabet)

  predicate ValidBits(d: Dec) { d.bits == 0 || d.bits == 2 || d.bits == 4 || d.bits == 6 }

  // The byte completed by a value, when there are enough bits: what was left of the last
  // value, and the first bits of this one.
  function Combine(d: Dec, part: byte): byte
    requires d.bits == 2 || d.bits == 4 || d.bits == 6
  {
    // (last << (8 - bits)) | (part >> (bits - 2))
    if d.bits == 2 then (d.last << 6) | part
    else if d.bits == 4 then (d.last << 4) | (part >> 2)
    else (d.last << 2) | (part >> 4)
  }

  function After(d: Dec, v: (byte, Alphabet)): Dec {
    Dec(v.0, if d.bits + 6 >= 8 then d.bits - 2 else d.bits + 6, v.1)
  }

  function Written(d: Dec, part: byte): seq<byte>
    requires ValidBits(d)
  {
    if d.bits + 6 >= 8 then [Combine(d, part)] else []
  }

  // The bytes written, and whether the input was accepted; on an error the bytes written
  // before it remain.
  datatype Result = Result(out: seq<byte>, ok: bool)

  // After the first padding character only padding may follow, unless decoding is loose.
  predicate AllPad(s: seq<byte>) { forall i :: 0 <= i < |s| ==> s[i] == Pad }

  function Decode(s: seq<byte>, d: Dec, b: Behavior): Result
    requires ValidBits(d)
  {
    if s == [] then Result([], true)
    else if s[0] == Pad then Result([], b.Loose? || AllPad(s[1..]))
    else
      match SymbolValue(d.a, s[0])
      case None => Result([], false)
      case Some(v) =>
        var r := Decode(s[1..], After(d, v), b);
        Result(Written(d, v.0) + r.out, r.ok)
  }

  function Begin(a: Alphabet): Dec { Dec(0, 0, a) }

  function DecodeFrom(s: seq<byte>, i: nat, d: Dec, b: Behavior): Result
    requires i <= |s| && ValidBits(d)
  {
    Decode(s[i..], d, b)
  }

  function Onto(out: seq<byte>, r: Result): Result { Result(out + r.out, r.ok) }

  lemma OntoTwice(out: seq<byte>, more: seq<byte>, r: Result)
    ensures Onto(out, Result(more + r.out, r.ok)) == Onto(out + more, r)
  {
    assert out + (more + r.out) == (out + more) + r.out;
  }

  lemma DecodeStep(s: seq<byte>, i: nat, d: Dec, b: Behavior)
    requires i < |s| && ValidBits(d)
    ensures DecodeFrom(s, i, d, b) ==
              if s[i] == Pad then Result([], b.Loose? || AllPad(s[i + 1..]))
              else match SymbolValue(d.a, s[i])
                case None => Result([], false)
                case Some(v) => Onto(Written(d, v.0), DecodeFrom(s, i + 1, After(d, v), b))
  {
    assert s[i..][1..] == s[i + 1..];
  }

  // One symbol's effect on the output and the variables.
  method Push(out: seq<byte>, d: Dec, v: (byte, Alphabet), ghost rest: Result) returns (out': seq<byte>, d': Dec)
    requires ValidBits(d)
    ensures out' == out + Written(d, v.0) && d' == After(d, v)
    ensures Onto(out', rest) == Onto(out, Onto(Written(d, v.0), rest))
  {
    OntoTwice(out, Written(d, v.0), rest);
    if d.bits + 6 >= 8 {
      out' := out + [Combine(d, v.0)];
      d' := Dec(v.0, d.bits - 2, v.1);
    } else {
      assert out + [] == out;
      out' := out;
      d' := Dec(v.0, d.bits + 6, v.1);
    }
  }

  method DecodeBytes(s: seq<byte>, alphabet: Alphabet, b: Behavior) returns (out: seq<byte>, ok: bool)
    ensures Result(out, ok) == Decode(s, Begin(alphabet), b)
  {
    out := [];
    var d := Begin(alphabet);
    var i := 0;
    assert s[0..] == s;
    while i < |s|
      invariant 0 <= i <= |s| && ValidBits(d)
      invariant Onto(out, DecodeFrom(s, i, d, b)) == DecodeFrom(s, 0, Begin(alphabet), b)
    {
      DecodeStep(s, i, d, b);
      var c := s[i];
      i := i + 1;
      if c == Pad {
        ok := CheckPadding(s, i, b);
        assert out + [] == out;
        return;
      }
      var v := SymbolValue(d.a, c);
      if v.None? {
        assert out + [] == out;
        return out, false;
      }
      out, d := Push(out, d, v.value, DecodeFrom(s, i, After(d, v.value), b));
    }
    assert s[|s|..] == [] && out + [] == out;
    ok := true;
  }

  method CheckPadding(s: seq<byte>, from: nat, b: Behavior) returns (ok: bool)
    requires from <= |s|
    ensures ok == (b.Loose? || AllPad(s[from..]))
  {
    if b.Loose? { return true; }
    var i := from;
    while i < |s|
      invariant from <= i <= |s| && forall j :: from <= j < i ==> s[j] == Pad
    {
      if s[i] != Pad {
        assert s[from..][i - from] != Pad;
        return false;
      }
      i := i + 1;
    }
    ok := true;
  }

  // ----- decoding in place -----

  // The bytes before out are written, those from i on are still unread, and every write lies
  // before the next unread one: of the 6 * i bits read, 8 * out are written.
  ghost predicate Gap(out: nat, i: nat, bits: nat) { 8 * out + bits == 6 * i }

  // The part of the buffer that is still to be read, or was never written.
  twostate predicate Untouched(buf: array<byte>, from: nat)
    reads buf
  {
    forall j :: from <= j < buf.Length ==> buf[j] == old(buf[j])
  }

  /** decode_inplace: the output overwrites the input, and nothing that is still to be read. */
  method DecodeInPlace(buf: array<byte>, alphabet: Alphabet, b: Behavior) returns (len: nat, ok: bool)
    modifies buf
    ensures len <= buf.Length && Result(buf[..len], ok) == Decode(old(buf[..]), Begin(alphabet), b)
    ensures Untouched(buf, len)
  {
    ghost var s := buf[..];
    var d := Begin(alphabet);
    var i := 0;
    len := 0;
    assert s[0..] == s;
    while i < buf.Length
      invariant 0 <= len <= i <= buf.Length && ValidBits(d) && Gap(len, i, d.bits)
      invariant Untouched(buf, len)
      invariant Onto(buf[..len], DecodeFrom(s, i, d, b)) == DecodeFrom(s, 0, Begin(alphabet), b)
    {
      DecodeStep(s, i, d, b);
      var c := buf[i];
      i := i + 1;
      var v := if c == Pad then None else SymbolValue(d.a, c);
      if v.None? {
        ok := EndIn(buf, i, c, b, s);
        OntoEmpty(buf[..len], ok);
        return;
      }
      len, d := PushIn(buf, len, d, v.value, DecodeFrom(s, i, After(d, v.value), b));
    }
    assert s[|s|..] == [];
    OntoEmpty(buf[..len], true);
    ok := true;
  }

  // The end of decoding at a character that is not a symbol: padding, or an error.
  method EndIn(buf: array<byte>, i: nat, c: byte, b: Behavior, ghost s: seq<byte>) returns (ok: bool)
    requires i <= buf.Length == |s| && forall j :: i <= j < buf.Length ==> buf[j] == s[j]
    ensures ok == (c == Pad && (b.Loose? || AllPad(s[i..])))
  {
    if c != Pad { return false; }
    ok := CheckPaddingIn(buf, i, b);
    assert buf[i..] == s[i..];
  }

  lemma OntoEmpty(out: seq<byte>, ok: bool)
    ensures Onto(out, Result([], ok)) == Result(out, ok)
  {
  }

  method PushIn(buf: array<byte>, len: nat, d: Dec, v: (byte, Alphabet), ghost rest: Result) returns (len': nat, d': Dec)
    requires ValidBits(d) && len < buf.Length
    modifies buf
    ensures d' == After(d, v) && len' == len + |Written(d, v.0)| <= buf.Length
    ensures Untouched(buf, len')
    ensures Onto(buf[..len'], rest) == Onto(old(buf[..len]), Onto(Written(d, v.0), rest))
  {
    ghost var before := buf[..len];
    OntoTwice(before, Written(d, v.0), rest);
    if d.bits + 6 >= 8 {
      buf[len] := Combine(d, v.0);
      len' := len + 1;
      d' := Dec(v.0, d.bits - 2, v.1);
      assert buf[..len'] == before + [Combine(d, v.0)];
    } else {
      len' := len;
      d' := Dec(v.0, d.bits + 6, v.1);
      assert before + [] == before;
    }
  }

  method CheckPaddingIn(buf: array<byte>, from: nat, b: Behavior) returns (ok: bool)
    requires from <= buf.Length
    ensures ok == (b.Loose? || AllPad(buf[from..]))
  {
    if b.Loose? { return true; }
    var i := from;
    while i < buf.Length
      invariant from <= i <= buf.Length && forall j :: from <= j < i ==> buf[j] == Pad
    {
      if buf[i] != Pad {
        assert buf[from..][i - from] != Pad;
        return false;
      }
      i := i + 1;
    }
    ok := true;
  }

  // ----- decoding undoes encoding -----

  // The value of a symbol, and the alphabet that reading it settles.
  lemma SymbolRoundTrip(a: Alphabet, v: byte, from: Alphabet)
    requires v < 64 && (from.Auto? || from == if a.UrlSafe? then UrlSafe else Standard)
    ensures Symbol(a, v) != Pad
    ensures var r := SymbolValue(from, Symbol(a, v));
            r.Some? && r.value.0 == v && (r.value.1.Auto? || r.value.1 == if a.UrlSafe? then UrlSafe else Standard)
  {
  }

  // An alphabet that reads what is written in alphabet a.
  predicate Reads(from: Alphabet, a: Alphabet) { from.Auto? || from == if a.UrlSafe? then UrlSafe else Standard }

  lemma SextetsInRange(i0: byte, i1: byte, i2: byte)
    ensures Sextet0(i0) < 64 && Sextet1(i0, i1) < 64 && Sextet2(i1, i2) < 64 && Sextet3(i2) < 64
  {
  }

  lemma SextetsCombine(i0: byte, i1: byte, i2: byte)
    ensures (Sextet0(i0) << 2) | (Sextet1(i0, i1) >> 4) == i0
    ensures (Sextet1(i0, i1) << 4) | (Sextet2(i1, i2) >> 2) == i1
    ensures (Sextet2(i1, i2) << 6) | Sextet3(i2) == i2
  {
  }

  lemma Cut2(x: byte)
    ensures x as nat == 4 * ((x >> 2) & 0x3f) as nat + (x & 0x3) as nat
  {
  }

  lemma Cut4(x: byte)
    ensures x as nat == 16 * ((x >> 4) & 0x0f) as nat + (x & 0xf) as nat
  {
  }

  lemma Cut6(x: byte)
    ensures x as nat == 64 * ((x >> 6) & 0x03) as nat + (x & 0x3f) as nat
  {
  }

  lemma Paste4(x: byte, y: byte)
    requires x < 4 && y < 16
    ensures ((x << 4) | y) as nat == 16 * x as nat + y as nat
  {
  }

  lemma Paste2(x: byte, y: byte)
    requires x < 16 && y < 4
    ensures ((x << 2) | y) as nat == 4 * x as nat + y as nat
  {
  }

  /** Three bytes and their four values are the same number, the first byte and value counting most. */
  lemma GroupIsNumber(i0: byte, i1: byte, i2: byte)
    ensures 0x10000 * i0 as nat + 0x100 * i1 as nat + i2 as nat ==
              0x40000 * Sextet0(i0) as nat + 0x1000 * Sextet1(i0, i1) as nat + 0x40 * Sextet2(i1, i2) as nat + Sextet3(i2) as nat
  {
    MiddleValues(i0, i1, i2);
    Cut2(i0); Cut4(i1); Cut6(i2);
    GroupSum(i0 as nat, i1 as nat, i2 as nat, Sextet0(i0) as nat, (i0 & 0x3) as nat, ((i1 >> 4) & 0x0f) as nat,
             (i1 & 0xf) as nat, ((i2 >> 6) & 0x03) as nat, Sextet3(i2) as nat);
  }

  lemma MiddleValues(i0: byte, i1: byte, i2: byte)
    ensures Sextet1(i0, i1) as nat == 16 * (i0 & 0x3) as nat + ((i1 >> 4) & 0x0f) as nat
    ensures Sextet2(i1, i2) as nat == 4 * (i1 & 0xf) as nat + ((i2 >> 6) & 0x03) as nat
  {
    Paste4(i0 & 0x3, (i1 >> 4) & 0x0f);
    Paste2(i1 & 0xf, (i2 >> 6) & 0x03);
  }

  lemma GroupSum(b0: nat, b1: nat, b2: nat, v0: nat, x: nat, y: nat, z: nat, w: nat, v3: nat)
    requires b0 == 4 * v0 + x && b1 == 16 * y + z && b2 == 64 * w + v3
    ensures 0x10000 * b0 + 0x100 * b1 + b2 == 0x40000 * v0 + 0x1000 * (16 * x + y) + 0x40 * (4 * z + w) + v3
  {
  }

  lemma DecodeCons(c: byte, t: seq<byte>, d: Dec, b: Behavior, v: (byte, Alphabet))
    requires ValidBits(d) && c != Pad && SymbolValue(d.a, c) == Some(v)
    ensures Decode([c] + t, d, b) == Onto(Written(d, v.0), Decode(t, After(d, v), b))
  {
    assert ([c] + t)[1..] == t;
  }

  lemma DecodePad(n: nat, d: Dec, b: Behavior)
    requires ValidBits(d) && (n == 1 || n == 2)
    ensures Decode(if n == 1 then [Pad] else [Pad, Pad], d, b) == Result([], true)
  {
  }

  lemma ReadSymbol(a: Alphabet, v: byte, t: seq<byte>, d: Dec, b: Behavior) returns (d': Dec)
    requires v < 64 && ValidBits(d) && Reads(d.a, a)
    ensures d' == Dec(v, if d.bits + 6 >= 8 then d.bits - 2 else d.bits + 6, d'.a) && Reads(d'.a, a)
    ensures Decode([Symbol(a, v)] + t, d, b) == Onto(Written(d, v), Decode(t, d', b))
  {
    SymbolRoundTrip(a, v, d.a);
    var r := SymbolValue(d.a, Symbol(a, v)).value;
    d' := After(d, r);
    DecodeCons(Symbol(a, v), t, d, b, r);
  }

  lemma OntoNothing(r: Result)
    ensures Onto([], r) == r
  {
  }

  // Two symbols give one byte.
  lemma ReadTwo(a: Alphabet, v0: byte, v1: byte, t: seq<byte>, d: Dec, b: Behavior) returns (d': Dec)
    requires v0 < 64 && v1 < 64 && d.bits == 0 && Reads(d.a, a)
    ensures d' == Dec(v1, 4, d'.a) && Reads(d'.a, a)
    ensures Decode([Symbol(a, v0)] + ([Symbol(a, v1)] + t), d, b) == Onto([(v0 << 2) | (v1 >> 4)], Decode(t, d', b))
  {
    var d1 := ReadSymbol(a, v0, [Symbol(a, v1)] + t, d, b);
    d' := ReadSymbol(a, v1, t, d1, b);
    OntoNothing(Decode([Symbol(a, v1)] + t, d1, b));
  }

  // Reading the first four symbols of a whole group gives its three bytes back.
  lemma DecodeGroup(s: seq<byte>, a: Alphabet, t: seq<byte>, d: Dec, b: Behavior) returns (d': Dec)
    requires |s| >= 3 && d.bits == 0 && Reads(d.a, a)
    ensures d'.bits == 0 && Reads(d'.a, a)
    ensures Decode(Group(s, a) + t, d, b) == Onto(s[..3], Decode(t, d', b))
  {
    var v0, v1, v2, v3 := Sextet0(s[0]), Sextet1(s[0], s[1]), Sextet2(s[1], s[2]), Sextet3(s[2]);
    SextetsInRange(s[0], s[1], s[2]);
    SextetsCombine(s[0], s[1], s[2]);
    var t3 := [Symbol(a, v3)] + t;
    var d2 := ReadTwo(a, v0, v1, [Symbol(a, v2)] + t3, d, b);
    var d3 := ReadSymbol(a, v2, t3, d2, b);
    d' := ReadSymbol(a, v3, t, d3, b);
    GroupSymbols(s, a, t);
    ThreeBytes(s, Decode(t, d', b));
  }

  lemma GroupSymbols(s: seq<byte>, a: Alphabet, t: seq<byte>)
    requires |s| >= 3
    ensures Group(s, a) + t ==
              [Symbol(a, Sextet0(s[0]))] + ([Symbol(a, Sextet1(s[0], s[1]))] +
              ([Symbol(a, Sextet2(s[1], s[2]))] + ([Symbol(a, Sextet3(s[2]))] + t)))
  {
  }

  lemma ThreeBytes(s: seq<byte>, r: Result)
    requires |s| >= 3
    ensures Onto([s[0]], Onto([s[1]], Onto([s[2]], r))) == Onto(s[..3], r)
  {
    assert s[..3] + r.out == [s[0]] + ([s[1]] + ([s[2]] + r.out));
  }

  lemma ReadThree(a: Alphabet, v0: byte, v1: byte, v2: byte, t: seq<byte>, d: Dec, b: Behavior) returns (d': Dec)
    requires v0 < 64 && v1 < 64 && v2 < 64 && d.bits == 0 && Reads(d.a, a)
    ensures ValidBits(d') && Reads(d'.a, a)
    ensures Decode([Symbol(a, v0)] + ([Symbol(a, v1)] + ([Symbol(a, v2)] + t)), d, b) ==
              Onto([(v0 << 2) | (v1 >> 4)], Onto([(v1 << 4) | (v2 >> 2)], Decode(t, d', b)))
  {
    var d2 := ReadTwo(a, v0, v1, [Symbol(a, v2)] + t, d, b);
    d' := ReadSymbol(a, v2, t, d2, b);
  }

  // ... and those of the last group give back its one or two bytes.
  lemma DecodeOne(s: seq<byte>, a: Alphabet, d: Dec, b: Behavior, pads: seq<byte>)
    requires |s| == 1 && d.bits == 0 && Reads(d.a, a) && pads == [Pad, Pad]
    ensures Decode(Group(s, a), d, b) == Result(s, true)
  {
    SextetsInRange(s[0], 0, 0);
    SextetsCombine(s[0], 0, 0);
    var d' := ReadTwo(a, Sextet0(s[0]), Sextet1(s[0], 0), pads, d, b);
    DecodePad(2, d', b);
    assert Group(s, a) == [Symbol(a, Sextet0(s[0]))] + ([Symbol(a, Sextet1(s[0], 0))] + pads);
    assert Onto([s[0]], Result([], true)).out == s;
  }

  lemma DecodeTwo(s: seq<byte>, a: Alphabet, d: Dec, b: Behavior, pads: seq<byte>)
    requires |s| == 2 && d.bits == 0 && Reads(d.a, a) && pads == [Pad]
    ensures Decode(Group(s, a), d, b) == Result(s, true)
  {
    var v0, v1, v2 := Sextet0(s[0]), Sextet1(s[0], s[1]), Sextet2(s[1], 0);
    SextetsInRange(s[0], s[1], 0);
    SextetsCombine(s[0], s[1], 0);
    var d' := ReadThree(a, v0, v1, v2, pads, d, b);
    DecodePad(1, d', b);
    LastGroup(s, a, pads);
    TwoBytes(s);
  }

  lemma TwoBytes(s: seq<byte>)
    requires |s| == 2
    ensures Onto([s[0]], Onto([s[1]], Result([], true))) == Result(s, true)
  {
  }

  lemma LastGroup(s: seq<byte>, a: Alphabet, pads: seq<byte>)
    requires |s| == 2 && pads == [Pad]
    ensures Group(s, a) ==
              [Symbol(a, Sextet0(s[0]))] + ([Symbol(a, Sextet1(s[0], s[1]))] + ([Symbol(a, Sextet2(s[1], 0))] + pads))
  {
  }

  /** decode(encode(x)) == x, for the alphabet used and for automatic detection. */
  lemma {:induction false} RoundTrip(s: seq<byte>, a: Alphabet, d: Dec, b: Behavior)
    requires d.bits == 0 && Reads(d.a, a)
    ensures Decode(Encode(s, a), d, b) == Result(s, true)
    decreases |s|
  {
    if s == [] {
    } else if |s| < 3 {
      if |s| == 1 { DecodeOne(s, a, d, b, [Pad, Pad]); } else { DecodeTwo(s, a, d, b, [Pad]); }
      assert Group(s, a) + [] == Group(s, a);
    } else {
      var t := if |s| == 3 then [] else Encode(s[3..], a);
      var d' := DecodeGroup(s, a, t, d, b);
      RoundTrip(s[3..], a, d', b);
      assert s == s[..3] + s[3..];
    }
  }

  lemma DecodeEncode(s: seq<byte>, a: Alphabet, from: Alphabet, b: Behavior)
    requires Reads(from, a)
    ensures Decode(Encode(s, a), Begin(from), b) == Result(s, true)
  {
    RoundTrip(s, a, Begin(from), b);
  }

  // ----- lengths -----

  // The number of symbols before the first padding character.
  function SymbolCount(s: seq<byte>): (n: nat)
    ensures n <= |s|
  {
    if s == [] || s[0] == Pad then 0 else 1 + SymbolCount(s[1..])
  }

  lemma {:induction false} DecodedBits(s: seq<byte>, d: Dec, b: Behavior)
    requires ValidBits(d)
    ensures var r := Decode(s, d, b); var n := SymbolCount(s);
            && 8 * |r.out| <= 6 * n + d.bits
            && (r.ok ==> 6 * n + d.bits < 8 * |r.out| + 8)
    decreases |s|
  {
    if s != [] && s[0] != Pad {
      var v := SymbolValue(d.a, s[0]);
      if v.Some? { DecodedBits(s[1..], After(d, v.value), b); }
    }
  }

  lemma DecodedLength(s: seq<byte>, a: Alphabet, b: Behavior)
    ensures var r := Decode(s, Begin(a), b);
            && (r.ok ==> |r.out| == 6 * SymbolCount(s) / 8)
            && |r.out| <= MaxDecodeSize(|s|)
  {
    DecodedBits(s, Begin(a), b);
  }

  // ----- automatic detection -----

  // What the alphabets make of one character.
  lemma AutoSymbol(c: byte)
    ensures var auto := SymbolValue(Auto, c); var std := SymbolValue(Standard, c); var url := SymbolValue(UrlSafe, c);
            match auto
            case None => std.None? && url.None?
            case Some((v, a)) =>
              && (std == if a.UrlSafe? then None else Some((v, Standard)))
              && (url == if a.Standard? then None else Some((v, UrlSafe)))
  {
  }

  // One symbol, under detection and under the alphabet a.
  lemma AutoReads(s: seq<byte>, d: Dec, b: Behavior, a: Alphabet) returns (v: byte, settled: bool)
    requires ValidBits(d) && d.a.Auto? && !a.Auto? && s != [] && s[0] != Pad && SymbolValue(a, s[0]).Some?
    ensures Decode(s, d.(a := a), b) == Onto(Written(d, v), Decode(s[1..], After(d, (v, a)), b))
    ensures Decode(s, d, b) == Onto(Written(d, v), Decode(s[1..], After(d, (v, if settled then a else Auto)), b))
  {
    var auto := DetectedIn(s[0], a);
    v, settled := auto.0, !auto.1.Auto?;
    DecodeHead(s, d, b, auto);
    DecodeHead(s, d.(a := a), b, (v, a));
  }

  lemma DetectedIn(c: byte, a: Alphabet) returns (v: (byte, Alphabet))
    requires !a.Auto? && SymbolValue(a, c).Some?
    ensures SymbolValue(Auto, c) == Some(v) && SymbolValue(a, c) == Some((v.0, a)) && (v.1.Auto? || v.1 == a)
  {
    v := SymbolValue(Auto, c).value;
  }

  lemma DecodeHead(s: seq<byte>, d: Dec, b: Behavior, v: (byte, Alphabet))
    requires ValidBits(d) && s != [] && s[0] != Pad && SymbolValue(d.a, s[0]) == Some(v)
    ensures Decode(s, d, b) == Onto(Written(d, v.0), Decode(s[1..], After(d, v), b))
  {
  }

  // Detection against one alphabet: if that one accepts, so does detection, with the same result.
  lemma {:induction false} AutoFollows(s: seq<byte>, d: Dec, b: Behavior, a: Alphabet)
    requires ValidBits(d) && d.a.Auto? && !a.Auto?
    ensures Decode(s, d.(a := a), b).ok ==> Decode(s, d, b) == Decode(s, d.(a := a), b)
    decreases |s|
  {
    if s == [] || s[0] == Pad || SymbolValue(a, s[0]).None? {
    } else {
      var v, settled := AutoReads(s, d, b, a);
      if !settled {
        var next := After(d, (v, Auto));
        AutoFollows(s[1..], next, b, a);
        assert next.(a := a) == After(d, (v, a));
      }
    }
  }

  // What detection accepts, the alphabet that it settles on accepts, and either does if none is settled.
  lemma {:induction false} AutoSettles(s: seq<byte>, d: Dec, b: Behavior) returns (a: Alphabet)
    requires ValidBits(d) && d.a.Auto?
    ensures !a.Auto? && (Decode(s, d, b).ok ==> Decode(s, d.(a := a), b).ok)
    decreases |s|
  {
    a := Standard;
    if s != [] && s[0] != Pad {
      AutoSymbol(s[0]);
      var r := SymbolValue(Auto, s[0]);
      if r.Some? {
        if r.value.1.Auto? {
          a := AutoSettles(s[1..], After(d, r.value), b);
        } else {
          a := r.value.1;
        }
      }
    }
  }

  /** Detection accepts exactly what one of the two alphabets accepts, with the same result. */
  lemma AutoAcceptsEither(s: seq<byte>, d: Dec, b: Behavior)
    requires ValidBits(d) && d.a.Auto?
    ensures var auto, std, url := Decode(s, d, b), Decode(s, d.(a := Standard), b), Decode(s, d.(a := UrlSafe), b);
            (auto.ok <==> std.ok || url.ok) && (std.ok ==> auto == std) && (url.ok ==> auto == url)
  {
    AutoFollows(s, d, b, Standard);
    AutoFollows(s, d, b, UrlSafe);
    var a := AutoSettles(s, d, b);
  }

  // ----- the alphabets and the padding, character by character -----

  // The symbols of section 4 of RFC 4648, one by one, and the two that section 5 has instead.
  lemma SymbolsAtoM(a: Alphabet)
    ensures [Symbol(a, 0) as char, Symbol(a, 1) as char, Symbol(a, 2) as char, Symbol(a, 3) as char, Symbol(a, 4) as char] == "ABCDE"
    ensures [Symbol(a, 5) as char, Symbol(a, 6) as char, Symbol(a, 7) as char, Symbol(a, 8) as char, Symbol(a, 9) as char] == "FGHIJ"
    ensures [Symbol(a, 10) as char, Symbol(a, 11) as char, Symbol(a, 12) as char] == "KLM"
  {
  }

  lemma SymbolsNtoZ(a: Alphabet)
    ensures [Symbol(a, 13) as char, Symbol(a, 14) as char, Symbol(a, 15) as char, Symbol(a, 16) as char, Symbol(a, 17) as char] == "NOPQR"
    ensures [Symbol(a, 18) as char, Symbol(a, 19) as char, Symbol(a, 20) as char, Symbol(a, 21) as char, Symbol(a, 22) as char] == "STUVW"
    ensures [Symbol(a, 23) as char, Symbol(a, 24) as char, Symbol(a, 25) as char] == "XYZ"
  {
  }

  lemma SymbolsSmallAtoM(a: Alphabet)
    ensures [Symbol(a, 26) as char, Symbol(a, 27) as char, Symbol(a, 28) as char, Symbol(a, 29) as char, Symbol(a, 30) as char] == "abcde"
    ensures [Symbol(a, 31) as char, Symbol(a, 32) as char, Symbol(a, 33) as char, Symbol(a, 34) as char, Symbol(a, 35) as char] == "fghij"
    ensures [Symbol(a, 36) as char, Symbol(a, 37) as char, Symbol(a, 38) as char] == "klm"
  {
  }

  lemma SymbolsSmallNtoZ(a: Alphabet)
    ensures [Symbol(a, 39) as char, Symbol(a, 40) as char, Symbol(a, 41) as char, Symbol(a, 42) as char, Symbol(a, 43) as char] == "nopqr"
    ensures [Symbol(a, 44) as char, Symbol(a, 45) as char, Symbol(a, 46) as char, Symbol(a, 47) as char, Symbol(a, 48) as char] == "stuvw"
    ensures [Symbol(a, 49) as char, Symbol(a, 50) as char, Symbol(a, 51) as char] == "xyz"
  {
  }

  lemma SymbolsDigits(a: Alphabet)
    ensures [Symbol(a, 52) as char, Symbol(a, 53) as char, Symbol(a, 54) as char, Symbol(a, 55) as char, Symbol(a, 56) as char] == "01234"
    ensures [Symbol(a, 57) as char, Symbol(a, 58) as char, Symbol(a, 59) as char, Symbol(a, 60) as char, Symbol(a, 61) as char] == "56789"
  {
  }

  lemma SymbolsLastTwo()
    ensures [Symbol(Standard, 62) as char, Symbol(Standard, 63) as char] == "+/"
    ensures [Symbol(UrlSafe, 62) as char, Symbol(UrlSafe, 63) as char] == "-_"
    ensures [Symbol(Auto, 62) as char, Symbol(Auto, 63) as char] == "+/"
    ensures Pad as char == '='
  {
  }

  /** A group that one or two bytes are left for ends in two or one padding characters, and no other does. */
  lemma {:induction false} Padded(s: seq<byte>, a: Alphabet)
    requires s != []
    ensures var e := Encode(s, a);
            && |e| >= 4
            && (|s| % 3 == 1 ==> e[|e| - 2] == 0x3d && e[|e| - 1] == 0x3d)
            && (|s| % 3 == 2 ==> e[|e| - 2] != 0x3d && e[|e| - 1] == 0x3d)
            && (|s| % 3 == 0 ==> e[|e| - 2] != 0x3d && e[|e| - 1] != 0x3d)
  {
    if |s| > 3 {
      Padded(s[3..], a);
    } else {
      LastSymbols(s, a);
      assert Group(s, a) + [] == Group(s, a);
    }
  }

  lemma LastSymbols(s: seq<byte>, a: Alphabet)
    requires 1 <= |s| <= 3
    ensures var g := Group(s, a);
            && (|s| == 1 ==> g[2] == 0x3d && g[3] == 0x3d)
            && (|s| == 2 ==> g[2] != 0x3d && g[3] == 0x3d)
            && (|s| == 3 ==> g[2] != 0x3d && g[3] != 0x3d)
  {
  }

  // ----- what is accepted -----

  // A symbol of the alphabet.
  ghost predicate InAlphabet(a: Alphabet, c: byte) { exists v: byte :: v < 64 && Symbol(a, v) == c }

  lemma ValueIff(a: Alphabet, c: byte, v: byte)
    requires !a.Auto?
    ensures SymbolValue(a, c) == Some((v, a)) <==> v < 64 && Symbol(a, v) == c
  {
  }

  lemma ReadsAlphabet(a: Alphabet, c: byte)
    requires !a.Auto?
    ensures SymbolValue(a, c).Some? <==> InAlphabet(a, c)
    ensures SymbolValue(a, c).Some? ==> SymbolValue(a, c).value.1 == a
  {
    if SymbolValue(a, c).Some? {
      ValueIff(a, c, SymbolValue(a, c).value.0);
    }
    if InAlphabet(a, c) {
      var v: byte :| v < 64 && Symbol(a, v) == c;
      ValueIff(a, c, v);
    }
  }

  /** A text is accepted exactly when everything before its first padding character is in the alphabet
      and, unless decoding is loose, everything after it is padding. */
  lemma {:induction false} AcceptsIff(s: seq<byte>, d: Dec, b: Behavior)
    requires ValidBits(d) && !d.a.Auto?
    ensures Decode(s, d, b).ok <==>
              && (forall i :: 0 <= i < SymbolCount(s) ==> InAlphabet(d.a, s[i]))
              && (b.Loose? || forall i :: SymbolCount(s) <= i < |s| ==> s[i] == Pad)
    decreases |s|
  {
    if s == [] {
    } else if s[0] == Pad {
      assert forall i :: 0 <= i < |s| - 1 ==> s[1..][i] == s[i + 1];
      assert (forall i :: 0 <= i < |s| ==> s[i] == Pad) <==> AllPad(s[1..]) by { PadTail(s); }
    } else {
      ReadsAlphabet(d.a, s[0]);
      var v := SymbolValue(d.a, s[0]);
      if v.Some? {
        AcceptsIff(s[1..], After(d, v.value), b);
        TailAccepts(s, d.a, SymbolCount(s[1..]));
      }
    }
  }

  lemma PadTail(s: seq<byte>)
    requires s != [] && s[0] == Pad
    ensures (forall i :: 0 <= i < |s| ==> s[i] == Pad) <==> AllPad(s[1..])
  {
    if AllPad(s[1..]) {
      forall i | 0 <= i < |s|
        ensures s[i] == Pad
      {
        if i > 0 { assert s[1..][i - 1] == Pad; }
      }
    }
  }

  // The conditions on a text, from those on its tail.
  lemma TailAccepts(s: seq<byte>, a: Alphabet, n: nat)
    requires s != [] && n <= |s| - 1
    ensures (forall i :: 0 <= i < n + 1 ==> InAlphabet(a, s[i])) <==>
              InAlphabet(a, s[0]) && forall i :: 0 <= i < n ==> InAlphabet(a, s[1..][i])
    ensures (forall i :: n + 1 <= i < |s| ==> s[i] == Pad) <==> forall i :: n <= i < |s| - 1 ==> s[1..][i] == Pad
  {
    var t := s[1..];
    assert forall i :: 0 <= i < |t| ==> t[i] == s[i + 1];
    assert forall i :: 1 <= i < |s| ==> s[i] == t[i - 1];
  }

  /** The bound is the least multiple of three bytes that has room, and whole groups reach it. */
  lemma MaxDecodeIsTight(s: seq<byte>, a: Alphabet, b: Behavior)
    ensures var m := MaxDecodeSize(|s|); m % 3 == 0 && 4 * m >= 3 * |s| && (s != [] ==> 4 * (m - 3) < 3 * |s|)
    ensures var r := Decode(s, Begin(a), b);
            r.ok && SymbolCount(s) == |s| && |s| % 4 == 0 ==> |r.out| == MaxDecodeSize(|s|)
  {
    DecodedLength(s, a, b);
  }
}
