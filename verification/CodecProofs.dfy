/** Round trips, stability and bounds of the SECS-II codec. */
module Secs2Proofs {
  import opened Common
  import opened Bytes
  import opened Secs2Items
  import opened Secs2Codec

  // ---- headers and elements -------------------------------------------------------------------

  /** The bytes stand in s from pos on. */
  ghost predicate Occurs(s: seq<Byte>, pos: nat, bytes: seq<Byte>) {
    pos + |bytes| <= |s| && forall i {:trigger bytes[i]} :: 0 <= i < |bytes| ==> s[pos + i] == bytes[i]
  }

  lemma OccursInTwo(s: seq<Byte>, pos: nat, a: seq<Byte>, b: seq<Byte>)
    requires Occurs(s, pos, a + b)
    ensures Occurs(s, pos, a) && Occurs(s, pos + |a|, b)
  {
    forall i | 0 <= i < |a|
      ensures s[pos + i] == a[i]
    {
      assert (a + b)[i] == a[i];
    }
    forall i | 0 <= i < |b|
      ensures s[pos + |a| + i] == b[i]
    {
      assert (a + b)[|a| + i] == b[i];
    }
  }

  lemma OccursAsSlice(s: seq<Byte>, pos: nat, bytes: seq<Byte>)
    requires Occurs(s, pos, bytes)
    ensures s[pos..pos + |bytes|] == bytes
  {
  }

  lemma TwoDigits(v: nat)
    requires v <= 0xFFFF
    ensures v / 256 % 256 == v / 256 && 256 * (v / 256) + v % 256 == v
  {
  }

  lemma ThreeDigits(v: nat)
    requires v <= MAX_ITEM_LENGTH
    ensures v / 0x1_0000 % 256 == v / 0x1_0000
    ensures 256 * (256 * (v / 0x1_0000) + v / 256 % 256) + v % 256 == v
  {
    var u := v / 256;
    assert v / 0x1_0000 == u / 256 && u <= 0xFFFF;
    assert 256 * (u / 256) + u % 256 == u && 256 * u + v % 256 == v;
  }

  lemma LengthReadsBack(length: nat, s: seq<Byte>, pos: nat)
    requires length <= MAX_ITEM_LENGTH && Occurs(s, pos, LengthField(length))
    ensures LengthAt(s, pos, LengthBytes(length)) == length
  {
    var field := LengthField(length);
    assert s[pos + 0] == field[0];
    if length > 0xFFFF {
      ThreeDigits(length);
      assert s[pos + 1] == field[1] && s[pos + 2] == field[2];
    } else if length > 0xFF {
      TwoDigits(length);
      assert s[pos + 1] == field[1];
    }
  }

  lemma FormatByteParts(code: nat, n: nat)
    requires n < 4
    ensures (code * 4 + n) % 4 == n && (code * 4 + n) / 4 == code
  {
  }

  lemma ReadHeadIs(s: seq<Byte>, pos: nat, f: Format, n: nat)
    requires 1 <= n <= 3 && pos + 1 + n <= |s|
    requires s[pos] % 4 == n && ParseFormat(s[pos] / 4) == Some(f)
    ensures ReadHead(s, pos) == Ok(Head(f, LengthAt(s, pos + 1, n), pos + 1 + n))
  {
  }

  lemma HeadReadsBack(f: Format, length: nat, s: seq<Byte>, pos: nat)
    requires f != Jis8 && length <= MAX_ITEM_LENGTH && Occurs(s, pos, ItemHeader(f, length))
    ensures ReadHead(s, pos) == Ok(Head(f, length, pos + 1 + LengthBytes(length)))
  {
    var n := LengthBytes(length);
    var first: seq<Byte> := [FormatCode(f) * 4 + n];
    OccursInTwo(s, pos, first, LengthField(length));
    assert s[pos + 0] == first[0];
    LengthReadsBack(length, s, pos + 1);
    assert s[pos] % 4 == n && ParseFormat(s[pos] / 4) == Some(f) by {
      FormatByteParts(FormatCode(f), n);
      FormatRoundTrip(FormatCode(f), f);
    }
    ReadHeadIs(s, pos, f, n);
  }

  /** A header that was read is written again in no more bytes. */
  lemma HeadShrinks(s: seq<Byte>, pos: nat)
    requires pos <= |s| && ReadHead(s, pos).Ok?
    ensures var h := ReadHead(s, pos).value;
            && h.format != Jis8 && h.length <= MAX_ITEM_LENGTH
            && 1 + LengthBytes(h.length) <= h.next - pos
  {
    FormatRoundTrip(s[pos] / 4, ReadHead(s, pos).value.format);
  }

  lemma HeadIsStable(s: seq<Byte>, pos: nat, t: seq<Byte>)
    requires pos <= |s| && ReadHead(s, pos).Ok?
    ensures ReadHead(s + t, pos) == ReadHead(s, pos)
  {
  }

  lemma ElementReadsBack(f: Format, v: int, t: seq<Byte>)
    requires f != ListFormat && InRange(f, v)
    ensures Elements(f, ElementBytes(f, v) + t) == [NormValue(f, v)] + Elements(f, t)
  {
    var w := ElementSize(f);
    var s := ElementBytes(f, v) + t;
    var word := ToWord(f, NormValue(f, v));
    ReadBack(word, w);
    WordsAreValues(f, NormValue(f, v), word);
    assert s[..w] == ElementBytes(f, v) && s[w..] == t;
  }

  lemma {:induction false} ArraySize(f: Format, values: seq<int>)
    requires forall i :: 0 <= i < |values| ==> InRange(f, values[i])
    ensures |ArrayBytes(f, values)| == |values| * ElementSize(f)
    decreases |values|
  {
    if values != [] {
      var n, w := |values|, ElementSize(f);
      ArraySize(f, values[1..]);
      assert |ArrayBytes(f, values)| == w + (n - 1) * w;
      assert w + (n - 1) * w == n * w;
    }
  }

  lemma WholeStep(f: Format, n: nat)
    ensures Whole(f, 0) && (Whole(f, n) <==> Whole(f, ElementSize(f) + n))
    ensures f != ListFormat && Whole(f, n) ==> n == 0 || n >= ElementSize(f)
  {
    match ElementSize(f)
    case 2 => StepByTwo(n);
    case 4 => StepByFour(n);
    case 8 => StepByEight(n);
    case _ =>
  }

  lemma StepByTwo(n: nat)
    ensures (2 + n) % 2 == n % 2 && (n % 2 == 0 ==> n == 0 || n >= 2)
  {
  }

  lemma StepByFour(n: nat)
    ensures (4 + n) % 4 == n % 4 && (n % 4 == 0 ==> n == 0 || n >= 4)
  {
  }

  lemma StepByEight(n: nat)
    ensures (8 + n) % 8 == n % 8 && (n % 8 == 0 ==> n == 0 || n >= 8)
  {
  }

  lemma ArrayBytesSize(f: Format, values: seq<int>)
    requires values != [] && forall i :: 0 <= i < |values| ==> InRange(f, values[i])
    ensures |ArrayBytes(f, values)| == ElementSize(f) + |ArrayBytes(f, values[1..])|
  {
  }

  lemma {:induction false} ArrayIsWhole(f: Format, values: seq<int>)
    requires forall i :: 0 <= i < |values| ==> InRange(f, values[i])
    ensures Whole(f, |ArrayBytes(f, values)|)
    decreases |values|
  {
    WholeStep(f, 0);
    if values != [] {
      ArrayIsWhole(f, values[1..]);
      WholeStep(f, |ArrayBytes(f, values[1..])|);
      ArrayBytesSize(f, values);
    }
  }

  lemma {:induction false} ArrayReadsBack(f: Format, values: seq<int>)
    requires f != ListFormat
    requires forall i :: 0 <= i < |values| ==> InRange(f, values[i])
    ensures Elements(f, ArrayBytes(f, values)) == NormValues(f, values)
    decreases |values|
  {
    if values != [] {
      ArrayReadsBack(f, values[1..]);
      ElementReadsBack(f, values[0], ArrayBytes(f, values[1..]));
    }
  }

  // ---- when encoding succeeds -------------------------------------------------------------------

  function ListDepths(items: seq<Item>): nat
    decreases items, 0
  {
    if items == [] then 0
    else
      var first, others := ListDepth(items[0]), ListDepths(items[1..]);
      if first > others then first else others
  }

  /** How many lists are nested in one another. */
  function ListDepth(x: Item): nat
    decreases x, 1
  {
    match x
    case List(items) => 1 + ListDepths(items)
    case Array(_, _) => 0
  }

  /** Every length fits three length bytes and no array is JIS-8. */
  predicate LengthsFit(x: Item)
    decreases x
  {
    match x
    case List(items) =>
      |items| <= MAX_ITEM_LENGTH && forall i :: 0 <= i < |items| ==> LengthsFit(items[i])
    case Array(f, values) => f != Jis8 && |values| * ElementSize(f) <= MAX_ITEM_LENGTH
  }

  lemma {:induction false} EncodeAllSucceedsIff(items: seq<Item>, depth: nat)
    requires forall i :: 0 <= i < |items| ==> ValidItem(items[i])
    requires depth <= MAX_NESTING_DEPTH
    ensures EncodeAll(items, depth).Ok? <==>
              depth + ListDepths(items) <= MAX_NESTING_DEPTH
              && forall i :: 0 <= i < |items| ==> LengthsFit(items[i])
    decreases items, 0
  {
    if items != [] {
      EncodeSucceedsIff(items[0], depth);
      EncodeAllSucceedsIff(items[1..], depth);
      assert items == [items[0]] + items[1..];
    }
  }

  /** encode succeeds exactly for at most 32 nested lists whose lengths all fit. */
  lemma {:induction false} EncodeSucceedsIff(x: Item, depth: nat)
    requires ValidItem(x) && depth <= MAX_NESTING_DEPTH
    ensures Encode(x, depth).Ok? <==> depth + ListDepth(x) <= MAX_NESTING_DEPTH && LengthsFit(x)
    decreases x, 1
  {
    match x
    case List(items) =>
      if depth < MAX_NESTING_DEPTH {
        EncodeAllSucceedsIff(items, depth + 1);
      }
    case Array(_, _) =>
  }

  // ---- decoding what was encoded ------------------------------------------------------------------

  /** Decoding at pos gives x and ends at end. */
  ghost predicate Gives(s: seq<Byte>, pos: nat, depth: nat, x: Item, end: nat) {
    pos <= |s| && Decode(s, pos, depth) == Ok(Decoded(x, end))
  }

  ghost predicate GivesAll(s: seq<Byte>, pos: nat, depth: nat, items: seq<Item>, end: nat) {
    pos <= |s| && DecodeAll(s, pos, |items|, depth) == Ok(Decoded(items, end))
  }

  /** Wherever bytes stand, decoding there gives x and ends after them. */
  ghost predicate ReadsBack(bytes: seq<Byte>, depth: nat, x: Item) {
    && |bytes| >= 2
    && forall s: seq<Byte>, pos: nat {:trigger Occurs(s, pos, bytes)} ::
         Occurs(s, pos, bytes) ==> Gives(s, pos, depth, x, pos + |bytes|)
  }

  ghost predicate AllReadBack(bytes: seq<Byte>, depth: nat, items: seq<Item>) {
    && |bytes| >= 2 * |items|
    && forall s: seq<Byte>, pos: nat {:trigger Occurs(s, pos, bytes)} ::
         Occurs(s, pos, bytes) ==> GivesAll(s, pos, depth, items, pos + |bytes|)
  }

  lemma DecodeAllSteps(s: seq<Byte>, pos: nat, depth: nat, first: Decoded<Item>, others: Decoded<seq<Item>>)
    requires pos <= first.next <= |s|
    requires Decode(s, pos, depth) == Ok(first)
    requires DecodeAll(s, first.next, |others.value|, depth) == Ok(others)
    ensures DecodeAll(s, pos, 1 + |others.value|, depth) == Ok(Decoded([first.value] + others.value, others.next))
  {
  }

  lemma DecodeListSteps(s: seq<Byte>, pos: nat, head: Head, depth: nat, items: Decoded<seq<Item>>)
    requires pos <= |s| && ReadHead(s, pos) == Ok(head) && head.format == ListFormat
    requires depth < MAX_NESTING_DEPTH && 2 * head.length <= |s| - head.next
    requires DecodeAll(s, head.next, head.length, depth + 1) == Ok(items)
    ensures Decode(s, pos, depth) == Ok(Decoded(List(items.value), items.next))
  {
  }

  lemma GivesOneMore(s: seq<Byte>, pos: nat, depth: nat, x: Item, mid: nat, items: seq<Item>, end: nat)
    requires pos <= mid && Gives(s, pos, depth, x, mid) && GivesAll(s, mid, depth, items, end)
    ensures GivesAll(s, pos, depth, [x] + items, end)
  {
    DecodeAllSteps(s, pos, depth, Decoded(x, mid), Decoded(items, end));
  }

  lemma OneMoreReadsBack(first: seq<Byte>, x: Item, others: seq<Byte>, items: seq<Item>, depth: nat)
    requires ReadsBack(first, depth, x) && AllReadBack(others, depth, items)
    ensures AllReadBack(first + others, depth, [x] + items)
  {
    var bytes := first + others;
    forall s: seq<Byte>, pos: nat | Occurs(s, pos, bytes)
      ensures GivesAll(s, pos, depth, [x] + items, pos + |bytes|)
    {
      OccursInTwo(s, pos, first, others);
      assert GivesAll(s, pos + |first|, depth, items, pos + |bytes|) by {
        assert pos + |first| + |others| == pos + |bytes|;
      }
      GivesOneMore(s, pos, depth, x, pos + |first|, items, pos + |bytes|);
    }
  }

  lemma GivesList(s: seq<Byte>, pos: nat, depth: nat, items: seq<Item>, next: nat, end: nat)
    requires pos <= |s| && ReadHead(s, pos) == Ok(Head(ListFormat, |items|, next))
    requires depth < MAX_NESTING_DEPTH && 2 * |items| <= |s| - next
    requires GivesAll(s, next, depth + 1, items, end)
    ensures Gives(s, pos, depth, List(items), end)
  {
    DecodeListSteps(s, pos, Head(ListFormat, |items|, next), depth, Decoded(items, end));
  }

  lemma ListReadsBack(body: seq<Byte>, items: seq<Item>, depth: nat)
    requires depth < MAX_NESTING_DEPTH && |items| <= MAX_ITEM_LENGTH && AllReadBack(body, depth + 1, items)
    ensures ReadsBack(ItemHeader(ListFormat, |items|) + body, depth, List(items))
  {
    var header := ItemHeader(ListFormat, |items|);
    var bytes := header + body;
    forall s: seq<Byte>, pos: nat | Occurs(s, pos, bytes)
      ensures Gives(s, pos, depth, List(items), pos + |bytes|)
    {
      OccursInTwo(s, pos, header, body);
      HeadReadsBack(ListFormat, |items|, s, pos);
      assert GivesAll(s, pos + |header|, depth + 1, items, pos + |bytes|) by {
        assert pos + |header| + |body| == pos + |bytes|;
      }
      GivesList(s, pos, depth, items, pos + |header|, pos + |bytes|);
    }
  }

  ghost predicate Stands(s: seq<Byte>, pos: nat, head: Head, body: seq<Byte>) {
    && pos <= |s| && ReadHead(s, pos) == Ok(head)
    && |body| == head.length <= |s| - head.next && s[head.next..head.next + head.length] == body
  }

  lemma BodyStands(f: Format, body: seq<Byte>, s: seq<Byte>, pos: nat)
    requires f != Jis8 && |body| <= MAX_ITEM_LENGTH
    requires Occurs(s, pos, ItemHeader(f, |body|) + body)
    ensures Stands(s, pos, Head(f, |body|, pos + 1 + LengthBytes(|body|)), body)
  {
    OccursInTwo(s, pos, ItemHeader(f, |body|), body);
    OccursAsSlice(s, pos + 1 + LengthBytes(|body|), body);
    HeadReadsBack(f, |body|, s, pos);
  }

  lemma DecodeByHead(s: seq<Byte>, pos: nat, depth: nat, head: Head)
    requires pos <= |s| && ReadHead(s, pos) == Ok(head) && head.format != ListFormat && head.next <= |s|
    ensures Decode(s, pos, depth) == DecodedArray(s, head)
  {
  }

  lemma ArrayByHead(s: seq<Byte>, head: Head, body: seq<Byte>)
    requires head.format != ListFormat && Whole(head.format, head.length)
    requires head.next + head.length <= |s| && s[head.next..head.next + head.length] == body
    ensures DecodedArray(s, head)
            == Ok(Decoded(Array(head.format, Elements(head.format, body)), head.next + head.length))
  {
  }

  lemma DecodeStanding(s: seq<Byte>, pos: nat, head: Head, body: seq<Byte>, depth: nat)
    requires Stands(s, pos, head, body) && head.format != ListFormat
    requires Whole(head.format, |body|)
    ensures Decode(s, pos, depth)
            == Ok(Decoded(Array(head.format, Elements(head.format, body)), head.next + head.length))
  {
    DecodeByHead(s, pos, depth, head);
    ArrayByHead(s, head, body);
  }

  /** Wherever body stands behind its header, decoding at the header gives x. */
  ghost predicate BodyDecodes(f: Format, body: seq<Byte>, depth: nat, x: Item) {
    forall s: seq<Byte>, pos: nat, next: nat {:trigger Stands(s, pos, Head(f, |body|, next), body)} ::
      Stands(s, pos, Head(f, |body|, next), body) ==> Gives(s, pos, depth, x, next + |body|)
  }

  /** Wherever body stands behind a header of format f, the array decoded there is x. */
  ghost predicate ArrayIs(f: Format, body: seq<Byte>, x: Item)
    requires f != ListFormat
  {
    forall s: seq<Byte>, next: nat {:trigger DecodedArray(s, Head(f, |body|, next))} ::
      next + |body| <= |s| && s[next..next + |body|] == body ==>
        DecodedArray(s, Head(f, |body|, next)) == Ok(Decoded(x, next + |body|))
  }

  lemma ElementsDecode(f: Format, body: seq<Byte>)
    requires f != ListFormat && Whole(f, |body|)
    ensures ArrayIs(f, body, Array(f, Elements(f, body)))
  {
    forall s: seq<Byte>, next: nat | next + |body| <= |s| && s[next..next + |body|] == body
      ensures DecodedArray(s, Head(f, |body|, next)) == Ok(Decoded(Array(f, Elements(f, body)), next + |body|))
    {
      ArrayByHead(s, Head(f, |body|, next), body);
    }
  }

  lemma ArrayDecodes(f: Format, body: seq<Byte>, depth: nat, x: Item)
    requires f != ListFormat && ArrayIs(f, body, x)
    ensures BodyDecodes(f, body, depth, x)
  {
    forall s: seq<Byte>, pos: nat, next: nat | Stands(s, pos, Head(f, |body|, next), body)
      ensures Gives(s, pos, depth, x, next + |body|)
    {
      DecodeByHead(s, pos, depth, Head(f, |body|, next));
    }
  }

  /** Wherever bytes stand, a header of format f and behind it body stand. */
  ghost predicate Holds(bytes: seq<Byte>, f: Format, body: seq<Byte>) {
    && |bytes| >= |body| + 2
    && forall s: seq<Byte>, pos: nat {:trigger Occurs(s, pos, bytes)} ::
         Occurs(s, pos, bytes) ==> Stands(s, pos, Head(f, |body|, pos + (|bytes| - |body|)), body)
  }

  lemma HeaderHolds(f: Format, body: seq<Byte>)
    requires f != Jis8 && |body| <= MAX_ITEM_LENGTH
    ensures Holds(ItemHeader(f, |body|) + body, f, body)
  {
    var bytes := ItemHeader(f, |body|) + body;
    forall s: seq<Byte>, pos: nat | Occurs(s, pos, bytes)
      ensures Stands(s, pos, Head(f, |body|, pos + (|bytes| - |body|)), body)
    {
      BodyStands(f, body, s, pos);
    }
  }

  lemma BodyReadsBack(bytes: seq<Byte>, f: Format, body: seq<Byte>, depth: nat, x: Item)
    requires Holds(bytes, f, body) && BodyDecodes(f, body, depth, x)
    ensures ReadsBack(bytes, depth, x)
  {
    forall s: seq<Byte>, pos: nat | Occurs(s, pos, bytes)
      ensures Gives(s, pos, depth, x, pos + |bytes|)
    {
      var next := pos + (|bytes| - |body|);
      assert Stands(s, pos, Head(f, |body|, next), body);
      assert next + |body| == pos + |bytes|;
    }
  }

  lemma {:induction false} EncodedAllReadBack(items: seq<Item>, depth: nat)
    requires forall i :: 0 <= i < |items| ==> ValidItem(items[i])
    requires EncodeAll(items, depth).Ok?
    ensures AllReadBack(EncodeAll(items, depth).value, depth, NormItems(items))
    decreases items, 0
  {
    if items != [] {
      EncodedReadsBack(items[0], depth);
      EncodedAllReadBack(items[1..], depth);
      OneMoreReadsBack(Encode(items[0], depth).value, Norm(items[0]),
                       EncodeAll(items[1..], depth).value, NormItems(items[1..]), depth);
    }
  }

  /** Wherever an encoding stands, decoding there gives the normalised item and ends after it. */
  lemma {:induction false} EncodedReadsBack(x: Item, depth: nat)
    requires ValidItem(x) && Encode(x, depth).Ok?
    ensures ReadsBack(Encode(x, depth).value, depth, Norm(x))
    decreases x, 1
  {
    match x
    case List(items) =>
      EncodedAllReadBack(items, depth + 1);
      ListReadsBack(EncodeAll(items, depth + 1).value, NormItems(items), depth);
    case Array(f, values) =>
      ArraySize(f, values);
      ArrayIsWhole(f, values);
      ArrayReadsBack(f, values);
      ElementsDecode(f, ArrayBytes(f, values));
      ArrayDecodes(f, ArrayBytes(f, values), depth, Norm(x));
      HeaderHolds(f, ArrayBytes(f, values));
      BodyReadsBack(Encode(x, depth).value, f, ArrayBytes(f, values), depth, Norm(x));
  }

  /** decode_body undoes encode up to the normalisation of booleans. */
  lemma RoundTrip(x: Item, bytes: seq<Byte>)
    requires ValidItem(x) && Encode(x, 0) == Ok(bytes)
    ensures DecodeBody(bytes) == Ok(Norm(x))
  {
    EncodedReadsBack(x, 0);
    assert Occurs(bytes, 0, bytes);
    assert Gives(bytes, 0, 0, Norm(x), 0 + |bytes|);
  }
}
