/** The repacking of MXFP4 blocks (convert_hf_to_gguf.py:5819-5840): 32 four-bit values with a
    scale byte, from pairs of neighbours to halves of a block. */
module Mxfp4 {

  type byte = bv8

  datatype Option<T> = None | Some(value: T)

  function Low(x: byte): byte { x & 0x0f }

  function High(x: byte): byte { (x >> 4) & 0x0f }

  function Both(low: byte, high: byte): byte { low | (high << 4) }

  // ----- one block -----

  // Value i of a source block: neighbours share a byte.
  function SourceValue(src: seq<byte>, i: nat): byte
    requires |src| == 16 && i < 32
  {
    if i % 2 == 0 then Low(src[i / 2]) else High(src[i / 2])
  }

  // Value i of a packed block: a value of the first half shares a byte with one of the second.
  function PackedValue(block: seq<byte>, i: nat): byte
    requires |block| == 17 && i < 32
  {
    if i < 16 then Low(block[1 + i]) else High(block[1 + i - 16])
  }

  function Values(src: seq<byte>): (v: seq<byte>)
    requires |src| == 16
    ensures |v| == 32 && forall i :: 0 <= i < 32 ==> v[i] == SourceValue(src, i)
  {
    seq(32, i requires 0 <= i < 32 => SourceValue(src, i))
  }

  function PackBlock(scale: byte, src: seq<byte>): (block: seq<byte>)
    requires |src| == 16
    ensures |block| == 17
  {
    var v := Values(src);
    [scale] + seq(16, j requires 0 <= j < 16 => Both(v[j], v[16 + j]))
  }

  lemma Nibbles(x: byte, y: byte)
    requires Low(x) == x && Low(y) == y
    ensures Low(Both(x, y)) == x && High(Both(x, y)) == y
  {
  }

  lemma ValueIsNibble(src: seq<byte>, i: nat)
    requires |src| == 16 && i < 32
    ensures Low(SourceValue(src, i)) == SourceValue(src, i)
  {
  }

  /** Every value keeps its place, and the scale is kept. */
  lemma BlockKeeps(scale: byte, src: seq<byte>)
    requires |src| == 16
    ensures PackBlock(scale, src)[0] == scale
    ensures forall i: nat :: i < 32 ==> PackedValue(PackBlock(scale, src), i) == SourceValue(src, i)
  {
    forall i: nat | i < 32
      ensures PackedValue(PackBlock(scale, src), i) == SourceValue(src, i)
    {
      var j := i % 16;
      ValueIsNibble(src, j);
      ValueIsNibble(src, 16 + j);
      Nibbles(SourceValue(src, j), SourceValue(src, 16 + j));
    }
  }

  lemma ByteOfNibbles(x: byte, y: byte)
    requires Low(x) == Low(y) && High(x) == High(y)
    ensures x == y
  {
  }

  lemma SameValues(s: seq<byte>, t: seq<byte>)
    requires |s| == |t| == 16 && forall i: nat :: i < 32 ==> SourceValue(s, i) == SourceValue(t, i)
    ensures s == t
  {
    forall k | 0 <= k < 16
      ensures s[k] == t[k]
    {
      assert SourceValue(s, 2 * k) == SourceValue(t, 2 * k);
      assert SourceValue(s, 2 * k + 1) == SourceValue(t, 2 * k + 1);
      ByteOfNibbles(s[k], t[k]);
    }
  }

  // ----- the values as digits -----

  // Bytes as a number, the lowest first.
  function Number(s: seq<byte>): nat {
    if s == [] then 0 else s[0] as nat + 256 * Number(s[1..])
  }

  // Values as the digits of a number in base 16, the lowest first.
  function FromDigits(v: seq<byte>): nat {
    if v == [] then 0 else v[0] as nat + 16 * FromDigits(v[1..])
  }

  lemma ByteIsTwoDigits(x: byte)
    ensures x as nat == Low(x) as nat + 16 * (High(x) as nat)
  {
  }

  function DigitsOf(s: seq<byte>): (v: seq<byte>)
    ensures |v| == 2 * |s|
  {
    if s == [] then [] else [Low(s[0]), High(s[0])] + DigitsOf(s[1..])
  }

  lemma TwoDigitsFirst(x: byte, y: byte, v: seq<byte>)
    ensures FromDigits([x, y] + v) == x as nat + 16 * (y as nat + 16 * FromDigits(v))
  {
    assert ([x, y] + v)[1..] == [y] + v && ([y] + v)[1..] == v;
    assert FromDigits([y] + v) == y as nat + 16 * FromDigits(v);
  }

  lemma {:induction false} NumberOfDigits(s: seq<byte>)
    ensures Number(s) == FromDigits(DigitsOf(s))
  {
    if s != [] {
      NumberOfDigits(s[1..]);
      ByteIsTwoDigits(s[0]);
      TwoDigitsFirst(Low(s[0]), High(s[0]), DigitsOf(s[1..]));
    }
  }

  lemma {:induction false} DigitAt(s: seq<byte>, i: nat)
    requires i < 2 * |s|
    ensures DigitsOf(s)[i] == if i % 2 == 0 then Low(s[i / 2]) else High(s[i / 2])
  {
    if i >= 2 {
      DigitAt(s[1..], i - 2);
      assert s[1..][(i - 2) / 2] == s[i / 2];
    }
  }

  /** A source block, read as a number with its lowest byte first, has the values as its digits in base
      16, lowest first; of a packed block the digits alternate between the two halves of the values. */
  lemma BlocksAreNumbers(scale: byte, src: seq<byte>)
    requires |src| == 16
    ensures Number(src) == FromDigits(Values(src))
    ensures var v := Values(src);
            Number(PackBlock(scale, src)[1..]) ==
              FromDigits(seq(32, i requires 0 <= i < 32 => if i % 2 == 0 then v[i / 2] else v[16 + i / 2]))
  {
    var v, q := Values(src), PackBlock(scale, src)[1..];
    NumberOfDigits(src);
    forall i: nat | i < 32
      ensures DigitsOf(src)[i] == v[i]
    {
      DigitAt(src, i);
    }
    assert DigitsOf(src) == v;
    var w := seq(32, i requires 0 <= i < 32 => if i % 2 == 0 then v[i / 2] else v[16 + i / 2]);
    NumberOfDigits(q);
    forall i: nat | i < 32
      ensures DigitsOf(q)[i] == w[i]
    {
      PackedDigit(scale, src, i);
    }
    assert DigitsOf(q) == w;
  }

  lemma PackedDigit(scale: byte, src: seq<byte>, i: nat)
    requires |src| == 16 && i < 32
    ensures DigitsOf(PackBlock(scale, src)[1..])[i] == Values(src)[if i % 2 == 0 then i / 2 else 16 + i / 2]
  {
    var j, block := i / 2, PackBlock(scale, src);
    DigitAt(block[1..], i);
    assert block[1..][j] == block[1 + j];
    BlockKeeps(scale, src);
    assert PackedValue(block, j) == SourceValue(src, j) && PackedValue(block, 16 + j) == SourceValue(src, 16 + j);
  }

  // ----- rows of blocks -----

  function BlockOf(row: seq<byte>, b: nat, size: nat): seq<byte>
    requires (b + 1) * size <= |row|
  {
    assert b * size + size == (b + 1) * size;
    row[b * size..b * size + size]
  }

  function PackRow(scales: seq<byte>, row: seq<byte>): (r: seq<byte>)
    requires |row| == 16 * |scales|
    ensures |r| == 17 * |scales|
  {
    if scales == [] then []
    else PackBlock(scales[0], row[..16]) + PackRow(scales[1..], row[16..])
  }

  // The first block of a row, and a later one.
  lemma FirstBlock(block: seq<byte>, rest: seq<byte>, size: nat)
    requires |block| == size
    ensures BlockOf(block + rest, 0, size) == block
  {
  }

  lemma LaterBlock(block: seq<byte>, rest: seq<byte>, b: nat, size: nat)
    requires |block| == size && b > 0 && b * size <= |rest|
    ensures (b - 1 + 1) * size <= |rest| && (b + 1) * size <= |block + rest|
    ensures BlockOf(block + rest, b, size) == BlockOf(rest, b - 1, size)
  {
    var from := (b - 1) * size;
    assert b * size == from + size && (b + 1) * size == from + size + size;
    assert (block + rest)[from + size..from + size + size] == rest[from..from + size];
  }

  lemma {:induction false} PackedBlock(scales: seq<byte>, row: seq<byte>, b: nat)
    requires |row| == 16 * |scales| && b < |scales|
    ensures BlockOf(PackRow(scales, row), b, 17) == PackBlock(scales[b], BlockOf(row, b, 16))
  {
    var block, rest := PackBlock(scales[0], row[..16]), PackRow(scales[1..], row[16..]);
    assert row == row[..16] + row[16..];
    if b == 0 {
      FirstBlock(block, rest, 17);
      FirstBlock(row[..16], row[16..], 16);
    } else {
      PackedBlock(scales[1..], row[16..], b - 1);
      LaterBlock(block, rest, b, 17);
      LaterBlock(row[..16], row[16..], b, 16);
    }
  }

  // ----- the whole tensor -----

  datatype Matrix = Matrix(rows: seq<seq<byte>>, columns: nat)

  predicate Rectangular(m: Matrix) { forall r :: 0 <= r < |m.rows| ==> |m.rows[r]| == m.columns }

  function Pack(weight: Matrix, scale: Matrix): (r: Option<Matrix>)
    requires Rectangular(weight) && Rectangular(scale)
    ensures r.Some? ==> Rectangular(r.value)
  {
    var columns := weight.columns * 2;
    if columns % 32 != 0 then None
    else
      var blocks := columns / 32;
      if |scale.rows| != |weight.rows| || scale.columns != blocks then None
      else Some(Matrix(seq(|weight.rows|, r requires 0 <= r < |weight.rows| => PackRow(scale.rows[r], weight.rows[r])), 17 * blocks))
  }

  /** Value i of block b of row r, and the block's scale, are where the packed form has them; and
      packing fails exactly for rows that are not whole blocks or scales that do not match. */
  lemma PackKeeps(weight: Matrix, scale: Matrix)
    requires Rectangular(weight) && Rectangular(scale)
    ensures var p := Pack(weight, scale);
            && (p.Some? <==> weight.columns == 16 * scale.columns && |weight.rows| == |scale.rows|)
            && (p.Some? ==> p.value.columns == 17 * scale.columns && |p.value.rows| == |weight.rows|)
    ensures var p := Pack(weight, scale);
            p.Some? ==> forall r: nat, b: nat :: r < |weight.rows| && b < scale.columns ==>
              BlockKept(p.value.rows[r], weight.rows[r], scale.rows[r], b)
  {
    var p := Pack(weight, scale);
    if p.Some? {
      forall r: nat, b: nat | r < |weight.rows| && b < scale.columns
        ensures BlockKept(p.value.rows[r], weight.rows[r], scale.rows[r], b)
      {
        PackedBlock(scale.rows[r], weight.rows[r], b);
        BlockKeeps(scale.rows[r][b], BlockOf(weight.rows[r], b, 16));
      }
    }
  }

  predicate BlockKept(packed: seq<byte>, row: seq<byte>, scales: seq<byte>, b: nat)
    requires b < |scales| && |row| == 16 * |scales| && |packed| == 17 * |scales|
  {
    && BlockOf(packed, b, 17)[0] == scales[b]
    && forall i: nat :: i < 32 ==> PackedValue(BlockOf(packed, b, 17), i) == SourceValue(BlockOf(row, b, 16), i)
  }

  lemma {:induction false} RowInjective(scales: seq<byte>, row: seq<byte>, scales': seq<byte>, row': seq<byte>)
    requires |row| == 16 * |scales| && |row'| == 16 * |scales'| && PackRow(scales, row) == PackRow(scales', row')
    ensures scales == scales' && row == row'
    decreases |scales|
  {
    assert |scales| == |scales'|;
    if scales != [] {
      var x, y := PackRow(scales, row), PackRow(scales', row');
      assert x[..17] == PackBlock(scales[0], row[..16]) && y[..17] == PackBlock(scales'[0], row'[..16]);
      assert x[17..] == PackRow(scales[1..], row[16..]) && y[17..] == PackRow(scales'[1..], row'[16..]);
      BlockKeeps(scales[0], row[..16]);
      BlockKeeps(scales'[0], row'[..16]);
      BlockInjective(scales[0], row[..16], scales'[0], row'[..16]);
      RowInjective(scales[1..], row[16..], scales'[1..], row'[16..]);
      assert row == row[..16] + row[16..] && row' == row'[..16] + row'[16..];
      assert scales == [scales[0]] + scales[1..] && scales' == [scales'[0]] + scales'[1..];
    }
  }

  lemma BlockInjective(scale: byte, src: seq<byte>, scale': byte, src': seq<byte>)
    requires |src| == |src'| == 16 && PackBlock(scale, src) == PackBlock(scale', src')
    ensures scale == scale' && src == src'
  {
    BlockKeeps(scale, src);
    BlockKeeps(scale', src');
    forall i: nat | i < 32
      ensures SourceValue(src, i) == SourceValue(src', i)
    {
      assert PackedValue(PackBlock(scale, src), i) == SourceValue(src, i);
      assert PackedValue(PackBlock(scale', src'), i) == SourceValue(src', i);
    }
    SameValues(src, src');
  }

  /** Different weights or scales are packed differently. */
  lemma PackInjective(weight: Matrix, scale: Matrix, weight': Matrix, scale': Matrix)
    requires Rectangular(weight) && Rectangular(scale) && Rectangular(weight') && Rectangular(scale')
    requires Pack(weight, scale).Some? && Pack(weight, scale) == Pack(weight', scale')
    ensures weight == weight' && scale == scale'
  {
    var p := Pack(weight, scale).value;
    forall r | 0 <= r < |weight.rows|
      ensures weight.rows[r] == weight'.rows[r] && scale.rows[r] == scale'.rows[r]
    {
      assert p.rows[r] == PackRow(scale.rows[r], weight.rows[r]) == PackRow(scale'.rows[r], weight'.rows[r]);
      RowInjective(scale.rows[r], weight.rows[r], scale'.rows[r], weight'.rows[r]);
    }
  }
}
