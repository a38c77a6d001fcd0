/** The codec accepts exactly the bytes of the table, and writes the shortest of them. */
module Secs2Grammar {
  import opened Common
  import opened Bytes
  import opened Secs2Items
  import opened Secs2Codec
  import opened Secs2Proofs
  import opened Secs2Laws
  import opened Secs2Table
  import opened Secs2TableProofs

  // ---- what the table allows is decoded -------------------------------------------------------------

  lemma LengthIsNumber(bytes: seq<Byte>, n: nat, s: seq<Byte>, pos: nat)
    requires 1 <= n <= 3 && 1 + n <= |bytes| && Occurs(s, pos, bytes)
    ensures LengthAt(s, pos + 1, n) == Number(bytes[1..], n)
  {
    assert s[pos + 1] == bytes[1];
    assert n > 1 ==> s[pos + 2] == bytes[2];
    assert n > 2 ==> s[pos + 3] == bytes[3];
  }

  lemma HeaderReads(bytes: seq<Byte>, f: Format, n: nat, length: int, s: seq<Byte>, pos: nat)
    requires f != Jis8 && IsHeader(bytes, ShapeOf(f).code, n, length) && Occurs(s, pos, bytes)
    ensures length >= 0 && ReadHead(s, pos) == Ok(Head(f, length, pos + 1 + n))
  {
    TableIsCodec(f);
    LengthIsNumber(bytes, n, s, pos);
    assert s[pos + 0] == bytes[0];
    assert s[pos] % 4 == n && ParseFormat(s[pos] / 4) == Some(f) by {
      FormatByteParts(FormatCode(f), n);
      FormatRoundTrip(FormatCode(f), f);
    }
    ReadHeadIs(s, pos, f, n);
  }

  lemma FirstReads(f: Format, bytes: seq<Byte>, v: int)
    requires f != ListFormat && IsValue(f, v) && IsElement(bytes, ShapeOf(f).width, v)
    ensures ElementSize(f) <= |bytes| && FromWord(f, FromBE(bytes[..ElementSize(f)])) == v
  {
    TableIsCodec(f);
    ValuesAreInRange(f, v);
    FirstIsElement(bytes, ElementSize(f), v);
    ElementReads(f, v, bytes[..ElementSize(f)]);
  }

  lemma {:induction false} ElementsRead(f: Format, bytes: seq<Byte>, values: seq<int>)
    requires f != ListFormat && AreElements(f, bytes, values)
    ensures Whole(f, |bytes|) && Elements(f, bytes) == values
    decreases |values|
  {
    TableIsCodec(f);
    WholeStep(f, 0);
    if values != [] {
      var w := ElementSize(f);
      FirstReads(f, bytes, values[0]);
      ElementsRead(f, bytes[w..], values[1..]);
      WholeStep(f, |bytes[w..]|);
    }
  }

  lemma RestOccurs(s: seq<Byte>, pos: nat, bytes: seq<Byte>, k: nat)
    requires Occurs(s, pos, bytes) && k <= |bytes|
    ensures Occurs(s, pos, bytes[..k]) && Occurs(s, pos + k, bytes[k..])
  {
    assert bytes == bytes[..k] + bytes[k..];
    OccursInTwo(s, pos, bytes[..k], bytes[k..]);
  }

  lemma ArrayHolds(f: Format, n: nat, bytes: seq<Byte>)
    requires f != Jis8 && IsHeader(bytes, ShapeOf(f).code, n, |bytes| - 1 - n)
    ensures Holds(bytes, f, bytes[1 + n..])
  {
    var body := bytes[1 + n..];
    forall s: seq<Byte>, pos: nat | Occurs(s, pos, bytes)
      ensures Stands(s, pos, Head(f, |body|, pos + (|bytes| - |body|)), body)
    {
      HeaderReads(bytes, f, n, |body|, s, pos);
      RestOccurs(s, pos, bytes, 1 + n);
      OccursAsSlice(s, pos + 1 + n, body);
    }
  }

  lemma ArrayIsRead(f: Format, values: seq<int>, bytes: seq<Byte>, depth: nat)
    requires IsArray(f, values, bytes)
    ensures ReadsBack(bytes, depth, Array(f, values))
  {
    var n: nat :| IsArrayAt(f, values, bytes, n);
    var body := bytes[1 + n..];
    ArrayHolds(f, n, bytes);
    ElementsRead(f, body, values);
    ElementsDecode(f, body);
    ArrayDecodes(f, body, depth, Array(f, values));
    BodyReadsBack(bytes, f, body, depth, Array(f, values));
  }

  lemma ListIsRead(items: seq<Item>, n: nat, bytes: seq<Byte>, depth: nat)
    requires depth < MAX_NESTING_DEPTH && IsHeader(bytes, 0, n, |items|)
    requires AllReadBack(bytes[1 + n..], depth + 1, items)
    ensures ReadsBack(bytes, depth, List(items))
  {
    var body := bytes[1 + n..];
    forall s: seq<Byte>, pos: nat | Occurs(s, pos, bytes)
      ensures Gives(s, pos, depth, List(items), pos + |bytes|)
    {
      HeaderReads(bytes, ListFormat, n, |items|, s, pos);
      RestOccurs(s, pos, bytes, 1 + n);
      assert GivesAll(s, pos + 1 + n, depth + 1, items, pos + |bytes|) by {
        assert pos + 1 + n + |body| == pos + |bytes|;
      }
      GivesList(s, pos, depth, items, pos + 1 + n, pos + |bytes|);
    }
  }

  lemma {:induction false} ItemsAreRead(items: seq<Item>, bytes: seq<Byte>, depth: nat)
    requires AreItems(items, bytes, depth)
    ensures AllReadBack(bytes, depth, items)
    decreases items, 0
  {
    if items != [] {
      var k: nat :| k <= |bytes| && IsItem(items[0], bytes[..k], depth) && AreItems(items[1..], bytes[k..], depth);
      ItemIsRead(items[0], bytes[..k], depth);
      ItemsAreRead(items[1..], bytes[k..], depth);
      OneMoreReadsBack(bytes[..k], items[0], bytes[k..], items[1..], depth);
      assert bytes[..k] + bytes[k..] == bytes && [items[0]] + items[1..] == items;
    }
  }

  /** Wherever the bytes of an item stand, decoding there gives the item and ends after them. */
  lemma {:induction false} ItemIsRead(x: Item, bytes: seq<Byte>, depth: nat)
    requires IsItem(x, bytes, depth)
    ensures ReadsBack(bytes, depth, x)
    decreases x, 1
  {
    match x
    case List(items) =>
      var n: nat :| IsHeader(bytes, 0, n, |items|) && AreItems(items, bytes[1 + n..], depth + 1);
      ItemsAreRead(items, bytes[1 + n..], depth + 1);
      ListIsRead(items, n, bytes, depth);
    case Array(f, values) => ArrayIsRead(f, values, bytes, depth);
  }

  // ---- what is decoded the table allows ---------------------------------------------------------------

  lemma HeadIsHeader(s: seq<Byte>, pos: nat, end: nat)
    requires pos <= |s| && ReadHead(s, pos).Ok? && ReadHead(s, pos).value.next <= end <= |s|
    ensures var h := ReadHead(s, pos).value;
            h.format != Jis8 && IsHeader(s[pos..end], ShapeOf(h.format).code, h.next - pos - 1, h.length)
  {
    var h := ReadHead(s, pos).value;
    var bytes := s[pos..end];
    FormatRoundTrip(s[pos] / 4, h.format);
    TableIsCodec(h.format);
    assert bytes[0] == s[pos] && s[pos] == 4 * (s[pos] / 4) + s[pos] % 4;
    assert Occurs(s, pos, bytes);
    LengthIsNumber(bytes, h.next - pos - 1, s, pos);
  }

  lemma FirstIsElement(bytes: seq<Byte>, w: nat, v: int)
    requires w <= |bytes|
    ensures IsElement(bytes[..w], w, v) <==> IsElement(bytes, w, v)
  {
  }

  lemma OneMoreWritten(f: Format, body: seq<Byte>, rest: seq<int>)
    requires f != ListFormat && ElementSize(f) <= |body|
    requires AreElements(f, body[ElementSize(f)..], rest)
    ensures AreElements(f, body, [FromWord(f, FromBE(body[..ElementSize(f)]))] + rest)
  {
    var w := ElementSize(f);
    var v := FromWord(f, FromBE(body[..w]));
    TableIsCodec(f);
    ElementWrites(f, body[..w]);
    ValuesAreInRange(f, v);
    FirstIsElement(body, w, v);
    assert ([v] + rest)[1..] == rest;
  }

  lemma {:induction false} ElementsAreWritten(f: Format, body: seq<Byte>)
    requires f != ListFormat && Whole(f, |body|)
    ensures AreElements(f, body, Elements(f, body))
    decreases |body|
  {
    TableIsCodec(f);
    WholeStep(f, |body|);
    if body != [] {
      var w := ElementSize(f);
      WholeStep(f, |body| - w);
      ElementsAreWritten(f, body[w..]);
      OneMoreWritten(f, body, Elements(f, body[w..]));
    }
  }

  lemma MakeArray(f: Format, values: seq<int>, bytes: seq<Byte>, n: nat, body: seq<Byte>)
    requires f != ListFormat && f != Jis8 && IsHeader(bytes, ShapeOf(f).code, n, |body|)
    requires bytes[1 + n..] == body && AreElements(f, body, values)
    ensures IsArray(f, values, bytes)
  {
    assert IsArrayAt(f, values, bytes, n);
  }

  lemma ArrayIsWritten(s: seq<Byte>, pos: nat, head: Head, body: seq<Byte>, values: seq<int>)
    requires Stands(s, pos, head, body) && head.format != ListFormat && pos + 2 <= head.next
    requires AreElements(head.format, body, values)
    ensures IsArray(head.format, values, s[pos..head.next + head.length])
  {
    var end := head.next + head.length;
    var bytes, n := s[pos..end], head.next - pos - 1;
    HeadIsHeader(s, pos, end);
    assert bytes[1 + n..] == body;
    MakeArray(head.format, values, bytes, n, body);
  }

  lemma StandingIsWritten(s: seq<Byte>, pos: nat, head: Head, body: seq<Byte>, depth: nat)
    requires Stands(s, pos, head, body) && head.format != ListFormat && Whole(head.format, |body|)
    requires pos + 2 <= head.next
    ensures IsItem(Array(head.format, Elements(head.format, body)), s[pos..head.next + head.length], depth)
  {
    ElementsAreWritten(head.format, body);
    ArrayIsWritten(s, pos, head, body, Elements(head.format, body));
  }

  lemma ArrayItemIsWritten(s: seq<Byte>, pos: nat, depth: nat)
    requires pos <= |s| && Decode(s, pos, depth).Ok? && Decode(s, pos, depth).value.value.Array?
    ensures var d := Decode(s, pos, depth).value;
            IsItem(d.value, s[pos..d.next], depth)
  {
    var head, body := DecodeArrayParts(s, pos, depth);
    StandingIsWritten(s, pos, head, body, depth);
  }

  lemma {:induction false} ItemsAreWritten(s: seq<Byte>, pos: nat, count: nat, depth: nat)
    requires pos <= |s| && DecodeAll(s, pos, count, depth).Ok?
    ensures var d := DecodeAll(s, pos, count, depth).value;
            pos <= d.next && AreItems(d.value, s[pos..d.next], depth)
    decreases |s| - pos, 1, count
  {
    if count > 0 {
      var first, others := DecodeAllParts(s, pos, count, depth);
      ItemIsWritten(s, pos, depth);
      ItemsAreWritten(s, first.next, count - 1, depth);
      JoinItems(s, pos, first.next, others.next, first.value, others.value, depth);
    }
  }

  lemma JoinItems(s: seq<Byte>, pos: nat, mid: nat, end: nat, x: Item, items: seq<Item>, depth: nat)
    requires pos <= mid <= end <= |s| && IsItem(x, s[pos..mid], depth) && AreItems(items, s[mid..end], depth)
    ensures AreItems([x] + items, s[pos..end], depth)
  {
    var bytes, k := s[pos..end], mid - pos;
    assert bytes[..k] == s[pos..mid] && bytes[k..] == s[mid..end];
    var all := [x] + items;
    assert all[0] == x && all[1..] == items;
  }

  /** What decode accepts, and where it ends, is as the table says. */
  lemma {:induction false} ItemIsWritten(s: seq<Byte>, pos: nat, depth: nat)
    requires pos <= |s| && Decode(s, pos, depth).Ok?
    ensures var d := Decode(s, pos, depth).value;
            pos <= d.next && IsItem(d.value, s[pos..d.next], depth)
    decreases |s| - pos, 0
  {
    if Decode(s, pos, depth).value.value.List? {
      var head, items := DecodeListParts(s, pos, depth);
      ItemsAreWritten(s, head.next, head.length, depth + 1);
      ListIsWritten(s, pos, head, items.value, items.next, depth);
    } else {
      ArrayItemIsWritten(s, pos, depth);
    }
  }

  lemma ListIsWritten(s: seq<Byte>, pos: nat, head: Head, items: seq<Item>, end: nat, depth: nat)
    requires pos <= |s| && ReadHead(s, pos) == Ok(head) && head.format == ListFormat && head.length == |items|
    requires pos + 2 <= head.next <= end <= |s| && depth < MAX_NESTING_DEPTH
    requires AreItems(items, s[head.next..end], depth + 1)
    ensures IsItem(List(items), s[pos..end], depth)
  {
    var n := head.next - pos - 1;
    HeadIsHeader(s, pos, end);
    assert s[pos..end][1 + n..] == s[head.next..end];
  }

  // ---- both ---------------------------------------------------------------------------------------------

  /** decode_body accepts exactly the bytes of an item of the table, as that item. */
  lemma DecodesExactlyTheTable(s: seq<Byte>, x: Item)
    ensures DecodeBody(s) == Ok(x) <==> IsItem(x, s, 0)
  {
    if DecodeBody(s) == Ok(x) {
      ItemIsWritten(s, 0, 0);
      assert s[0..|s|] == s;
    }
    if IsItem(x, s, 0) {
      ItemIsRead(x, s, 0);
      assert Occurs(s, 0, s);
      assert Gives(s, 0, 0, x, 0 + |s|);
    }
  }
}
