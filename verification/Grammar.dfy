/** SECS-II items byte by byte, in literal numbers and without the codec: section 9 of SEMI E5 as
    src/secsgem/secs2/codec.cpp and src/secsgem/secs2/item.cpp have it. */
module Secs2Table {
  import opened Bytes
  import opened Secs2Items

  /** The format code, the bytes per element and whether they are in two's complement. */
  datatype Shape = Shape(code: nat, width: nat, signed: bool)

  function ShapeOf(f: Format): Shape {
    match f
    case ListFormat => Shape(0, 0, false)
    case Binary => Shape(0x08, 1, false)
    case Boolean => Shape(0x09, 1, false)
    case Ascii => Shape(0x10, 1, false)
    case Jis8 => Shape(0x11, 1, false)
    case I8 => Shape(0x18, 8, true)
    case I1 => Shape(0x19, 1, true)
    case I2 => Shape(0x1A, 2, true)
    case I4 => Shape(0x1C, 4, true)
    case F8 => Shape(0x20, 8, false)
    case F4 => Shape(0x24, 4, false)
    case U8 => Shape(0x28, 8, false)
    case U1 => Shape(0x29, 1, false)
    case U2 => Shape(0x2A, 2, false)
    case U4 => Shape(0x2C, 4, false)
  }

  function Power(i: nat): (p: nat)
    ensures p > 0
  {
    match i
    case 0 => 1
    case 1 => 0x100
    case 2 => 0x1_0000
    case 3 => 0x100_0000
    case 4 => 0x1_0000_0000
    case 5 => 0x100_0000_0000
    case 6 => 0x1_0000_0000_0000
    case 7 => 0x100_0000_0000_0000
    case _ => 0x1_0000_0000_0000_0000
  }

  /** Byte i of v from the low end, in two's complement for a negative v. */
  function ByteOf(v: int, i: nat): Byte {
    v / Power(i) % 256
  }

  predicate IsValue(f: Format, v: int) {
    var p := Power(ShapeOf(f).width);
    if ShapeOf(f).signed then -(p / 2) <= v < p / 2 else 0 <= v < p
  }

  /** The first w bytes are v, high byte first. */
  predicate IsElement(bytes: seq<Byte>, w: nat, v: int) {
    w <= |bytes| && forall i :: 0 <= i < w ==> bytes[i] == ByteOf(v, w - 1 - i)
  }

  /** bytes are the values, one element after the other. */
  predicate AreElements(f: Format, bytes: seq<Byte>, values: seq<int>) {
    var w := ShapeOf(f).width;
    if values == [] then bytes == []
    else
      && IsValue(f, values[0]) && IsElement(bytes, w, values[0])
      && AreElements(f, bytes[w..], values[1..])
  }

  /** The number in the first n bytes, high byte first. */
  function Number(bytes: seq<Byte>, n: nat): int
    requires n <= |bytes| && n <= 3
  {
    match n
    case 0 => 0
    case 1 => bytes[0]
    case 2 => 0x100 * (bytes[0] as int) + bytes[1]
    case 3 => 0x1_0000 * (bytes[0] as int) + 0x100 * (bytes[1] as int) + bytes[2]
  }

  /** A format byte with code and n length bytes, and a length field of that value. */
  predicate IsHeader(bytes: seq<Byte>, code: nat, n: nat, length: int) {
    1 <= n <= 3 && 1 + n <= |bytes| && bytes[0] == 4 * code + n && Number(bytes[1..], n) == length
  }

  /** A header with n length bytes, then the elements. */
  predicate IsArrayAt(f: Format, values: seq<int>, bytes: seq<Byte>, n: nat) {
    && IsHeader(bytes, ShapeOf(f).code, n, |bytes| - 1 - n)
    && AreElements(f, bytes[1 + n..], values)
  }

  ghost predicate IsArray(f: Format, values: seq<int>, bytes: seq<Byte>) {
    f != ListFormat && f != Jis8 && exists n: nat :: IsArrayAt(f, values, bytes, n)
  }

  ghost predicate AreItems(items: seq<Item>, bytes: seq<Byte>, depth: nat)
    decreases items, 0
  {
    if items == [] then bytes == []
    else exists k: nat {:trigger bytes[k..]} ::
      k <= |bytes| && IsItem(items[0], bytes[..k], depth) && AreItems(items[1..], bytes[k..], depth)
  }

  /** bytes are the item x, inside depth lists; at most 32 lists are nested. */
  ghost predicate IsItem(x: Item, bytes: seq<Byte>, depth: nat)
    decreases x, 1
  {
    match x
    case List(items) =>
      depth < 32 && exists n: nat :: IsHeader(bytes, 0, n, |items|) && AreItems(items, bytes[1 + n..], depth + 1)
    case Array(f, values) => IsArray(f, values, bytes)
  }
}

/** The table and the codec's own functions. */
module Secs2TableProofs {
  import opened Common
  import opened Bytes
  import opened Secs2Items
  import opened Secs2Codec
  import opened Secs2Table

  lemma TableIsCodec(f: Format)
    ensures ShapeOf(f).code == FormatCode(f) && ShapeOf(f).width == ElementSize(f)
    ensures ShapeOf(f).signed == Signed(f) && ElementSize(f) <= 8
  {
  }

  lemma PowerIsSpan(i: nat)
    requires i <= 8
    ensures Power(i) == Span(i)
  {
    assert Span(0) == 1;
    if i > 0 {
      PowerIsSpan(i - 1);
      assert Span(i) == 256 * Span(i - 1);
    }
  }

  lemma ValuesAreInRange(f: Format, v: int)
    ensures IsValue(f, v) <==> InRange(f, v)
  {
    TableIsCodec(f);
    PowerIsSpan(ElementSize(f));
  }

  lemma {:induction false} SpanSplit(a: nat, b: nat)
    ensures Span(a + b) == Span(a) * Span(b)
    decreases a
  {
    if a > 0 {
      SpanSplit(a - 1, b);
      assert Span(a + b) == 256 * Span(a - 1 + b);
      assert 256 * (Span(a - 1) * Span(b)) == (256 * Span(a - 1)) * Span(b);
    }
  }

  lemma FloorShift(v: int, p: nat, k: int)
    requires p > 0
    ensures (v + k * p) / p == v / p + k
  {
    var q, r := v / p, v % p;
    assert v + k * p == p * (q + k) + r;
    FloorUnique(v + k * p, p, q + k, r);
  }

  lemma FloorUnique(v: int, p: nat, q: int, r: nat)
    requires p > 0 && v == p * q + r && r < p
    ensures v / p == q
  {
    var k := v / p - q;
    assert p * k == r - v % p;
    MultipleBounds(p, k);
  }

  /** A negative value and the word with the same bits have the same bytes. */
  lemma SameBytes(v: int, w: nat, i: nat)
    requires i < w <= 8
    ensures ByteOf(v + Span(w), i) == ByteOf(v, i)
  {
    PowerIsSpan(i);
    SpanSplit(w - i, i);
    var k := Span(w - 1 - i);
    assert Span(w - i) == 256 * k;
    FloorShift(v, Power(i), 256 * k);
    assert v + Span(w) == v + 256 * k * Power(i);
    ModShift(v / Power(i), k);
  }

  lemma ModShift(x: int, k: int)
    ensures (x + 256 * k) % 256 == x % 256
  {
  }

  lemma WordBytes(f: Format, v: int, i: nat)
    requires InRange(f, v) && i < ElementSize(f)
    ensures ToBE(ToWord(f, v), ElementSize(f))[ElementSize(f) - 1 - i] == ByteOf(v, i)
  {
    var w := ElementSize(f);
    TableIsCodec(f);
    DigitOfToBE(ToWord(f, v), w, i);
    PowerIsSpan(i);
    if v < 0 {
      SameBytes(v, w, i);
    }
  }

  /** The bytes of an element are those of the word the codec makes of it. */
  lemma ElementIsWord(f: Format, v: int, bytes: seq<Byte>)
    requires InRange(f, v) && |bytes| == ElementSize(f)
    ensures IsElement(bytes, ElementSize(f), v) <==> bytes == ToBE(ToWord(f, v), ElementSize(f))
  {
    var w, word := ElementSize(f), ToBE(ToWord(f, v), ElementSize(f));
    forall i | 0 <= i < w
      ensures word[i] == ByteOf(v, w - 1 - i)
    {
      WordBytes(f, v, w - 1 - i);
    }
  }

  lemma ElementReads(f: Format, v: int, bytes: seq<Byte>)
    requires f != ListFormat && InRange(f, v) && |bytes| == ElementSize(f) && IsElement(bytes, ElementSize(f), v)
    ensures FromWord(f, FromBE(bytes)) == v
  {
    ElementIsWord(f, v, bytes);
    ReadBack(ToWord(f, v), ElementSize(f));
    WordsAreValues(f, v, ToWord(f, v));
  }

  lemma ElementWrites(f: Format, bytes: seq<Byte>)
    requires f != ListFormat && |bytes| == ElementSize(f)
    ensures var v := FromWord(f, FromBE(bytes));
            InRange(f, v) && IsElement(bytes, ElementSize(f), v)
  {
    var v := FromWord(f, FromBE(bytes));
    FromBEBound(bytes);
    assert InRange(f, 0);
    WordsAreValues(f, 0, FromBE(bytes));
    WriteBack(bytes);
    ElementIsWord(f, v, bytes);
  }
}
