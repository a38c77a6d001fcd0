/** What the encoder writes, in the table's terms. */
module Secs2Writing {
  import opened Common
  import opened Bytes
  import opened Secs2Items
  import opened Secs2Codec
  import opened Secs2Proofs
  import opened Secs2Laws
  import opened Secs2Table
  import opened Secs2TableProofs
  import opened Secs2Grammar

  // ---- which items are items of the table, and which of them can be sent ---------------------------

  predicate TableItem(x: Item)
    decreases x
  {
    match x
    case List(items) => forall i :: 0 <= i < |items| ==> TableItem(items[i])
    case Array(f, values) => f != ListFormat && forall i :: 0 <= i < |values| ==> IsValue(f, values[i])
  }

  /** At most 32 nested lists, no JIS-8, at most 0xFFFFFF items in a list or bytes in an array. */
  predicate Sendable(x: Item, depth: nat)
    decreases x
  {
    match x
    case List(items) =>
      && depth < 32 && |items| <= 0xFF_FFFF
      && forall i :: 0 <= i < |items| ==> Sendable(items[i], depth + 1)
    case Array(f, values) => f != Jis8 && |values| * ShapeOf(f).width <= 0xFF_FFFF
  }

  /** y is x with every boolean element that is not 0 as 1. */
  predicate SentAs(x: Item, y: Item)
    decreases x
  {
    match x
    case List(items) =>
      && y.List? && |y.items| == |items|
      && forall i :: 0 <= i < |items| ==> SentAs(items[i], y.items[i])
    case Array(f, values) =>
      && y.Array? && y.format == f && |y.values| == |values|
      && forall i :: 0 <= i < |values| ==> y.values[i] == if f == Boolean && values[i] != 0 then 1 else values[i]
  }

  lemma {:induction false} TableItemsAreValid(x: Item)
    ensures TableItem(x) <==> ValidItem(x)
    decreases x
  {
    match x
    case List(items) =>
      forall i | 0 <= i < |items|
        ensures TableItem(items[i]) <==> ValidItem(items[i])
      {
        TableItemsAreValid(items[i]);
      }
    case Array(f, values) =>
      forall i | 0 <= i < |values|
        ensures IsValue(f, values[i]) <==> InRange(f, values[i])
      {
        ValuesAreInRange(f, values[i]);
      }
  }

  lemma {:induction false} DepthsBound(items: seq<Item>, m: nat)
    ensures ListDepths(items) <= m <==> forall i :: 0 <= i < |items| ==> ListDepth(items[i]) <= m
  {
    if items != [] {
      DepthsBound(items[1..], m);
      assert items == [items[0]] + items[1..];
    }
  }

  lemma {:induction false} SendableMeans(x: Item, depth: nat)
    requires depth <= 32
    ensures Sendable(x, depth) <==> depth + ListDepth(x) <= MAX_NESTING_DEPTH && LengthsFit(x)
    decreases x
  {
    match x
    case List(items) =>
      if depth < 32 {
        DepthsBound(items, 31 - depth);
        forall i | 0 <= i < |items|
          ensures Sendable(items[i], depth + 1) <==>
                    ListDepth(items[i]) <= 31 - depth && LengthsFit(items[i])
        {
          SendableMeans(items[i], depth + 1);
        }
      }
    case Array(f, _) => TableIsCodec(f);
  }

  lemma {:induction false} NormValuesAt(f: Format, values: seq<int>, i: nat)
    requires i < |values| && forall k :: 0 <= k < |values| ==> InRange(f, values[k])
    ensures NormValues(f, values)[i] == NormValue(f, values[i])
    decreases values
  {
    if i > 0 {
      NormValuesAt(f, values[1..], i - 1);
    }
  }

  lemma {:induction false} NormItemsAt(items: seq<Item>, i: nat)
    requires i < |items| && forall k :: 0 <= k < |items| ==> ValidItem(items[k])
    ensures NormItems(items)[i] == Norm(items[i])
    decreases items
  {
    if i > 0 {
      NormItemsAt(items[1..], i - 1);
    }
  }

  lemma {:induction false} NormIsSent(x: Item)
    requires ValidItem(x)
    ensures SentAs(x, Norm(x))
    decreases x
  {
    match x
    case List(items) =>
      forall i | 0 <= i < |items|
        ensures SentAs(items[i], NormItems(items)[i])
      {
        NormIsSent(items[i]);
        NormItemsAt(items, i);
      }
    case Array(f, values) =>
      forall i | 0 <= i < |values|
        ensures NormValues(f, values)[i] == if f == Boolean && values[i] != 0 then 1 else values[i]
      {
        NormValuesAt(f, values, i);
      }
  }

  lemma {:induction false} SentAsIsUnique(x: Item, y: Item, z: Item)
    requires SentAs(x, y) && SentAs(x, z)
    ensures y == z
    decreases x
  {
    match x
    case List(items) =>
      forall i | 0 <= i < |items|
        ensures y.items[i] == z.items[i]
      {
        SentAsIsUnique(items[i], y.items[i], z.items[i]);
      }
      assert y.items == z.items;
    case Array(f, values) => assert y.values == z.values;
  }

  // ---- the encoder -----------------------------------------------------------------------------------

  /** encode succeeds exactly for the items that can be sent. */
  lemma EncodesIff(x: Item)
    requires TableItem(x)
    ensures ValidItem(x) && (Encode(x, 0).Ok? <==> Sendable(x, 0))
  {
    TableItemsAreValid(x);
    EncodeSucceedsIff(x, 0);
    SendableMeans(x, 0);
  }

  /** What encode writes for x is, by the table, the item x is sent as, and no shorter bytes are. */
  lemma EncodesByTheTable(x: Item, y: Item, bytes: seq<Byte>, other: seq<Byte>)
    requires ValidItem(x) && Encode(x, 0) == Ok(bytes) && SentAs(x, y)
    ensures IsItem(y, bytes, 0)
    ensures IsItem(y, other, 0) ==> |bytes| <= |other|
  {
    NormIsSent(x);
    SentAsIsUnique(x, y, Norm(x));
    RoundTrip(x, bytes);
    DecodesExactlyTheTable(bytes, y);
    if IsItem(y, other, 0) {
      DecodesExactlyTheTable(other, y);
      ReencodingIsFixed(other, y);
      NormEncodesAlike(x, 0);
    }
  }

  // ---- arrays by position ------------------------------------------------------------------------------

  lemma OneMoreWidth(n: nat, w: nat)
    ensures (n + 1) * w == w + n * w && n * w >= 0
  {
  }

  /** Element k stands at byte k times the width. */
  lemma {:induction false} ElementStandsAt(f: Format, bytes: seq<Byte>, values: seq<int>, k: nat)
    requires AreElements(f, bytes, values) && k < |values|
    ensures 0 <= k * ShapeOf(f).width <= |bytes| && IsValue(f, values[k])
    ensures IsElement(bytes[k * ShapeOf(f).width..], ShapeOf(f).width, values[k])
    decreases k
  {
    var w := ShapeOf(f).width;
    if k > 0 {
      ElementStandsAt(f, bytes[w..], values[1..], k - 1);
      OneMoreWidth(k - 1, w);
      assert bytes[w..][(k - 1) * w..] == bytes[k * w..];
    } else {
      assert bytes[0 * w..] == bytes;
    }
  }

  lemma {:induction false} ElementsSize(f: Format, bytes: seq<Byte>, values: seq<int>)
    requires AreElements(f, bytes, values)
    ensures |bytes| == |values| * ShapeOf(f).width
    decreases |values|
  {
    if values != [] {
      ElementsSize(f, bytes[ShapeOf(f).width..], values[1..]);
      OneMoreWidth(|values| - 1, ShapeOf(f).width);
    }
  }

  lemma BytesOfArray(f: Format, values: seq<int>, bytes: seq<Byte>, n: nat, k: nat, i: nat)
    requires IsArrayAt(f, values, bytes, n)
    ensures var w := ShapeOf(f).width;
            && |bytes| == 1 + n + |values| * w
            && (k < |values| && i < w ==>
                  && 0 <= 1 + n + k * w + i < |bytes|
                  && bytes[1 + n + k * w + i] == ByteOf(values[k], w - 1 - i))
  {
    var w, body := ShapeOf(f).width, bytes[1 + n..];
    ElementsSize(f, body, values);
    if k < |values| && i < w {
      ElementStandsAt(f, body, values, k);
      assert body[k * w..][i] == bytes[1 + n + k * w + i];
    }
  }

  lemma EncodedArraySize(f: Format, values: seq<int>, bytes: seq<Byte>)
    requires ValidItem(Array(f, values)) && Encode(Array(f, values), 0) == Ok(bytes)
    ensures var size := |values| * ShapeOf(f).width;
            |bytes| == 1 + LengthBytes(size) + size
  {
    TableIsCodec(f);
    ArraySize(f, values);
  }

  /** The format byte, the shortest length field, then byte i of element k, counted from the high end,
      at i bytes after k times the width. */
  lemma ArrayByPosition(f: Format, values: seq<int>, bytes: seq<Byte>, k: nat, i: nat)
    requires ValidItem(Array(f, values)) && Encode(Array(f, values), 0) == Ok(bytes)
    ensures var w := ShapeOf(f).width;
            var size := |values| * w;
            var n := if size > 0xFFFF then 3 else if size > 0xFF then 2 else 1;
            && IsHeader(bytes, ShapeOf(f).code, n, size) && |bytes| == 1 + n + size
            && (k < |values| && i < w ==>
                  var v := if f == Boolean && values[k] != 0 then 1 else values[k];
                  && 0 <= 1 + n + k * w + i < |bytes|
                  && bytes[1 + n + k * w + i] == ByteOf(v, w - 1 - i))
  {
    var x := Array(f, values);
    NormIsSent(x);
    var y := Norm(x);
    EncodesByTheTable(x, y, bytes, bytes);
    assert IsArray(f, y.values, bytes);
    var n: nat :| IsArrayAt(f, y.values, bytes, n);
    BytesOfArray(f, y.values, bytes, n, k, i);
    EncodedArraySize(f, values, bytes);
  }
}
