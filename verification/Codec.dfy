/** include/ssim/secsgem/secs2/item.hpp: SECS-II items. */
module Secs2Items {
  import opened Common
  import opened Bytes

  datatype Format =
    ListFormat | Binary | Boolean | Ascii | Jis8 | I8 | I1 | I2 | I4 | F8 | F4 | U8 | U1 | U2 | U4

  /** An array holds integers; for F4 and F8 they are the bit patterns. */
  datatype Item = List(items: seq<Item>) | Array(format: Format, values: seq<int>)

  function FormatCode(f: Format): (c: nat)
    ensures c < 64
  {
    match f
    case ListFormat => 0x00
    case Binary => 0x08
    case Boolean => 0x09
    case Ascii => 0x10
    case Jis8 => 0x11
    case I8 => 0x18
    case I1 => 0x19
    case I2 => 0x1A
    case I4 => 0x1C
    case F8 => 0x20
    case F4 => 0x24
    case U8 => 0x28
    case U1 => 0x29
    case U2 => 0x2A
    case U4 => 0x2C
  }

  /** parse_format: JIS-8 and unknown codes are refused. */
  function ParseFormat(code: nat): Option<Format> {
    match code
    case 0x00 => Some(ListFormat)
    case 0x08 => Some(Binary)
    case 0x09 => Some(Boolean)
    case 0x10 => Some(Ascii)
    case 0x18 => Some(I8)
    case 0x19 => Some(I1)
    case 0x1A => Some(I2)
    case 0x1C => Some(I4)
    case 0x20 => Some(F8)
    case 0x24 => Some(F4)
    case 0x28 => Some(U8)
    case 0x29 => Some(U1)
    case 0x2A => Some(U2)
    case 0x2C => Some(U4)
    case _ => None
  }

  /** The format codes that are accepted are exactly those of the formats that can be encoded. */
  lemma FormatRoundTrip(code: nat, f: Format)
    ensures ParseFormat(code) == Some(f) <==> f != Jis8 && code == FormatCode(f)
  {
  }

  function ElementSize(f: Format): nat {
    match f
    case ListFormat => 0
    case I2 | U2 => 2
    case I4 | U4 | F4 => 4
    case I8 | U8 | F8 => 8
    case _ => 1
  }

  predicate Signed(f: Format) {
    f == I1 || f == I2 || f == I4 || f == I8
  }

  /** v is a value of an element of format f. */
  predicate InRange(f: Format, v: int) {
    var span := Span(ElementSize(f));
    if Signed(f) then -(span / 2) <= v < span / 2 else 0 <= v < span
  }

  predicate ValidItem(x: Item)
    decreases x
  {
    match x
    case List(items) => forall i :: 0 <= i < |items| ==> ValidItem(items[i])
    case Array(f, values) => f != ListFormat && forall i :: 0 <= i < |values| ==> InRange(f, values[i])
  }

  /** The unsigned word with the same bits. */
  function ToWord(f: Format, v: int): (w: nat)
    requires InRange(f, v)
    ensures w < Span(ElementSize(f))
  {
    if v < 0 then v + Span(ElementSize(f)) else v
  }

  /** The value of a word of the width of f. */
  function FromWord(f: Format, w: nat): int {
    if Signed(f) && w >= Span(ElementSize(f)) / 2 then w - Span(ElementSize(f)) else w
  }

  lemma SpanIsEven(f: Format)
    ensures Signed(f) ==> Span(ElementSize(f)) % 2 == 0
  {
    assert Signed(f) ==> Span(ElementSize(f)) == 256 * Span(ElementSize(f) - 1);
  }

  lemma WordsAreValues(f: Format, v: int, w: nat)
    requires InRange(f, v) && w < Span(ElementSize(f))
    ensures FromWord(f, ToWord(f, v)) == v
    ensures InRange(f, FromWord(f, w)) && ToWord(f, FromWord(f, w)) == w
  {
    SpanIsEven(f);
  }

  /** A boolean element is sent as 0 or 1. */
  function NormValue(f: Format, v: int): (n: int)
    requires InRange(f, v)
    ensures InRange(f, n)
  {
    assert Span(1) == 256 * Span(0);
    if f == Boolean && v != 0 then 1 else v
  }

  function NormValues(f: Format, values: seq<int>): (r: seq<int>)
    requires forall i :: 0 <= i < |values| ==> InRange(f, values[i])
    ensures |r| == |values|
  {
    if values == [] then [] else [NormValue(f, values[0])] + NormValues(f, values[1..])
  }

  function NormItems(items: seq<Item>): (r: seq<Item>)
    requires forall i :: 0 <= i < |items| ==> ValidItem(items[i])
    ensures |r| == |items|
    decreases items, 0
  {
    if items == [] then [] else [Norm(items[0])] + NormItems(items[1..])
  }

  /** The item that comes out of encoding and decoding x. */
  function Norm(x: Item): Item
    requires ValidItem(x)
    decreases x, 1
  {
    match x
    case List(items) => List(NormItems(items))
    case Array(f, values) => Array(f, NormValues(f, values))
  }
}

/** src/secsgem/secs2/codec.cpp: what encode and decode compute. */
module Secs2Codec {
  import opened Common
  import opened Bytes
  import opened Secs2Items

  const ERR_TRUNCATED := 300
  const ERR_BAD_LENGTH_BYTES := 301
  const ERR_UNSUPPORTED_FORMAT := 302
  const ERR_BAD_LENGTH := 303
  const ERR_LIST_COUNT_TOO_LARGE := 304
  const ERR_TOO_DEEP := 305
  const ERR_TRAILING_BYTES := 306
  const ERR_TOO_LONG := 307

  const MAX_NESTING_DEPTH := 32
  const MAX_ITEM_LENGTH := 0xFF_FFFF

  // ---- encoding -------------------------------------------------------------------------------

  function LengthBytes(length: nat): nat {
    if length > 0xFFFF then 3 else if length > 0xFF then 2 else 1
  }

  /** The length field: one to three bytes, high byte first. */
  function LengthField(length: nat): (s: seq<Byte>)
    ensures |s| == LengthBytes(length)
  {
    var low := length % 256;
    if length > 0xFFFF then [length / 0x1_0000 % 256, length / 256 % 256, low]
    else if length > 0xFF then [length / 256 % 256, low]
    else [low]
  }

  function ItemHeader(f: Format, length: nat): (s: seq<Byte>)
    ensures |s| == 1 + LengthBytes(length)
  {
    [FormatCode(f) * 4 + LengthBytes(length)] + LengthField(length)
  }

  function ElementBytes(f: Format, v: int): (s: seq<Byte>)
    requires InRange(f, v)
    ensures |s| == ElementSize(f)
  {
    ToBE(ToWord(f, NormValue(f, v)), ElementSize(f))
  }

  function ArrayBytes(f: Format, values: seq<int>): seq<Byte>
    requires forall i :: 0 <= i < |values| ==> InRange(f, values[i])
  {
    if values == [] then [] else ElementBytes(f, values[0]) + ArrayBytes(f, values[1..])
  }

  function EncodedArray(f: Format, values: seq<int>): Result<seq<Byte>>
    requires forall i :: 0 <= i < |values| ==> InRange(f, values[i])
  {
    if f == Jis8 then Err(ERR_UNSUPPORTED_FORMAT)
    else if |values| * ElementSize(f) > MAX_ITEM_LENGTH then Err(ERR_TOO_LONG)
    else Ok(ItemHeader(f, |values| * ElementSize(f)) + ArrayBytes(f, values))
  }

  function EncodeAll(items: seq<Item>, depth: nat): Result<seq<Byte>>
    requires forall i :: 0 <= i < |items| ==> ValidItem(items[i])
    decreases items, 0
  {
    if items == [] then Ok([])
    else match Encode(items[0], depth)
      case Err(code) => Err(code)
      case Ok(first) =>
        match EncodeAll(items[1..], depth)
        case Err(code) => Err(code)
        case Ok(others) => Ok(first + others)
  }

  function Encode(x: Item, depth: nat): Result<seq<Byte>>
    requires ValidItem(x)
    decreases x, 1
  {
    match x
    case List(items) =>
      if depth >= MAX_NESTING_DEPTH then Err(ERR_TOO_DEEP)
      else if |items| > MAX_ITEM_LENGTH then Err(ERR_TOO_LONG)
      else
        (match EncodeAll(items, depth + 1)
         case Err(code) => Err(code)
         case Ok(bytes) => Ok(ItemHeader(ListFormat, |items|) + bytes))
    case Array(f, values) => EncodedArray(f, values)
  }

  // ---- decoding -------------------------------------------------------------------------------

  /** An item header: its format, its length field and the position after it. */
  datatype Head = Head(format: Format, length: nat, next: nat)

  function LengthAt(s: seq<Byte>, pos: nat, lengthBytes: nat): nat
    requires 1 <= lengthBytes <= 3 && pos + lengthBytes <= |s|
  {
    var high: nat := s[pos];
    if lengthBytes == 1 then high
    else if lengthBytes == 2 then 256 * high + s[pos + 1]
    else 256 * (256 * high + s[pos + 1]) + s[pos + 2]
  }

  function ReadHead(s: seq<Byte>, pos: nat): (r: Result<Head>)
    requires pos <= |s|
    ensures r.Ok? ==> pos + 2 <= r.value.next <= |s|
  {
    if |s| - pos < 1 then Err(ERR_TRUNCATED)
    else
      var lengthBytes := s[pos] % 4;
      if lengthBytes == 0 then Err(ERR_BAD_LENGTH_BYTES)
      else match ParseFormat(s[pos] / 4)
        case None => Err(ERR_UNSUPPORTED_FORMAT)
        case Some(f) =>
          if |s| - pos - 1 < lengthBytes then Err(ERR_TRUNCATED)
          else Ok(Head(f, LengthAt(s, pos + 1, lengthBytes), pos + 1 + lengthBytes))
  }

  /** A length of n bytes is a whole number of elements. */
  predicate Whole(f: Format, n: nat) {
    match ElementSize(f)
    case 2 => n % 2 == 0
    case 4 => n % 4 == 0
    case 8 => n % 8 == 0
    case _ => true
  }

  lemma WholeMeansMultiple(f: Format, n: nat)
    requires f != ListFormat
    ensures Whole(f, n) <==> n % ElementSize(f) == 0
  {
  }

  /** The elements packed into the bytes of an array. */
  function Elements(f: Format, s: seq<Byte>): seq<int>
    requires f != ListFormat
    decreases |s|
  {
    var w := ElementSize(f);
    if |s| < w then []
    else [FromWord(f, FromBE(s[..w]))] + Elements(f, s[w..])
  }

  /** An item or several, and the position after them. */
  datatype Decoded<+T> = Decoded(value: T, next: nat)

  function DecodeAll(s: seq<Byte>, pos: nat, count: nat, depth: nat): (r: Result<Decoded<seq<Item>>>)
    requires pos <= |s|
    ensures r.Ok? ==> pos + 2 * count <= r.value.next <= |s| && |r.value.value| == count
    decreases |s| - pos, 1, count
  {
    if count == 0 then Ok(Decoded([], pos))
    else match Decode(s, pos, depth)
      case Err(code) => Err(code)
      case Ok(first) =>
        match DecodeAll(s, first.next, count - 1, depth)
        case Err(code) => Err(code)
        case Ok(others) => Ok(Decoded([first.value] + others.value, others.next))
  }

  /** decode_at_depth: the item that starts at pos. */
  function Decode(s: seq<Byte>, pos: nat, depth: nat): (r: Result<Decoded<Item>>)
    requires pos <= |s|
    ensures r.Ok? ==> pos + 2 <= r.value.next <= |s|
    decreases |s| - pos, 0
  {
    match ReadHead(s, pos)
    case Err(code) => Err(code)
    case Ok(head) =>
      if head.format == ListFormat then DecodeListAt(s, head, depth) else DecodedArray(s, head)
  }

  /** The array whose header is head and whose bytes follow it. */
  function DecodedArray(s: seq<Byte>, head: Head): (r: Result<Decoded<Item>>)
    requires head.next <= |s| && head.format != ListFormat
    ensures r.Ok? ==> head.next <= r.value.next <= |s|
  {
    if head.length > |s| - head.next then Err(ERR_TRUNCATED)
    else if !Whole(head.format, head.length) then Err(ERR_BAD_LENGTH)
    else
      var next := head.next + head.length;
      Ok(Decoded(Array(head.format, Elements(head.format, s[head.next..next])), next))
  }

  function DecodeListAt(s: seq<Byte>, head: Head, depth: nat): (r: Result<Decoded<Item>>)
    requires head.next <= |s|
    ensures r.Ok? ==> head.next <= r.value.next <= |s|
    decreases |s| - head.next, 2
  {
    if depth >= MAX_NESTING_DEPTH then Err(ERR_TOO_DEEP)
    else if head.length > (|s| - head.next) / 2 then Err(ERR_LIST_COUNT_TOO_LARGE)
    else match DecodeAll(s, head.next, head.length, depth + 1)
      case Err(code) => Err(code)
      case Ok(items) => Ok(Decoded(List(items.value), items.next))
  }

  /** decode_item: the first item and the bytes it used. */
  function DecodeItem(s: seq<Byte>): Result<Decoded<Item>> {
    Decode(s, 0, 0)
  }

  function DecodeBody(s: seq<Byte>): Result<Item> {
    match DecodeItem(s)
    case Err(code) => Err(code)
    case Ok(d) => if d.next != |s| then Err(ERR_TRAILING_BYTES) else Ok(d.value)
  }
}
