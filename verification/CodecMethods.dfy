/** src/secsgem/secs2/codec.cpp: the reader, the recursion that advances it and the byte vector the
    encoder appends to, proved against Secs2Codec. */
module Secs2Methods {
  import opened Common
  import opened Bytes
  import opened Secs2Items
  import opened Secs2Codec
  import opened Secs2Proofs

  // ---- encoding -------------------------------------------------------------------------------

  /** The result of appending to bytes what comes after them. */
  function Appended(bytes: seq<Byte>, rest: Result<seq<Byte>>): Result<seq<Byte>> {
    match rest
    case Err(code) => Err(code)
    case Ok(more) => Ok(bytes + more)
  }

  lemma LengthFieldIsWord(length: nat)
    requires length <= MAX_ITEM_LENGTH
    ensures LengthField(length) == ToBE(length, LengthBytes(length))
  {
    assert ToBE(length, 1) == ToBE(length / 256, 0) + [length % 256];
    assert ToBE(length, 2) == ToBE(length / 256, 1) + [length % 256];
    assert ToBE(length / 256, 1) == ToBE(length / 256 / 256, 0) + [length / 256 % 256];
    assert ToBE(length, 3) == ToBE(length / 256, 2) + [length % 256];
    assert ToBE(length / 256, 2) == ToBE(length / 256 / 256, 1) + [length / 256 % 256];
    assert ToBE(length / 256 / 256, 1) == ToBE(length / 256 / 256 / 256, 0) + [length / 256 / 256 % 256];
    assert length / 256 / 256 == length / 0x1_0000;
  }

  method EncodeHeader(f: Format, length: nat, out0: seq<Byte>) returns (r: Result<bool>, out: seq<Byte>)
    ensures length > MAX_ITEM_LENGTH ==> r == Err(ERR_TOO_LONG)
    ensures length <= MAX_ITEM_LENGTH ==> r == Ok(true) && out == out0 + ItemHeader(f, length)
  {
    out := out0;
    if length > MAX_ITEM_LENGTH {
      return Err(ERR_TOO_LONG), out;
    }
    var lengthBytes := if length > 0xFFFF then 3 else if length > 0xFF then 2 else 1;
    var field := StoreLength(length, lengthBytes);
    out := out + ([FormatCode(f) * 4 + lengthBytes] + field);
    r := Ok(true);
  }

  method StoreLength(length: nat, lengthBytes: nat) returns (field: seq<Byte>)
    requires length <= MAX_ITEM_LENGTH && lengthBytes == LengthBytes(length)
    ensures field == LengthField(length)
  {
    LengthFieldIsWord(length);
    field := StoreBe(length, lengthBytes);
  }

  /** element_to_bytes; a boolean is written as 0 or 1. */
  method ElementToBytes(f: Format, v: int) returns (s: seq<Byte>)
    requires InRange(f, v)
    ensures s == ElementBytes(f, v)
  {
    if f == Boolean {
      var bit: nat := if v != 0 then 1 else 0;
      s := StoreBe(bit, ElementSize(f));
    } else {
      s := StoreBe(ToWord(f, v), ElementSize(f));
    }
  }

  method AppendArray(f: Format, values: seq<int>, out0: seq<Byte>) returns (out: seq<Byte>)
    requires forall i :: 0 <= i < |values| ==> InRange(f, values[i])
    ensures out == out0 + ArrayBytes(f, values)
  {
    out := out0;
    for i := 0 to |values|
      invariant out + ArrayBytes(f, values[i..]) == out0 + ArrayBytes(f, values)
    {
      ArrayBytesStep(f, values, i, out);
      var element := ElementToBytes(f, values[i]);
      out := out + element;
    }
  }

  lemma ArrayBytesStep(f: Format, values: seq<int>, i: nat, out: seq<Byte>)
    requires i < |values| && forall i :: 0 <= i < |values| ==> InRange(f, values[i])
    ensures out + ArrayBytes(f, values[i..])
            == out + ElementBytes(f, values[i]) + ArrayBytes(f, values[i + 1..])
  {
    assert values[i..][1..] == values[i + 1..];
  }

  /** r and out are what an encoder leaves that had to append spec to out0. */
  ghost predicate Wrote(r: Result<bool>, out: seq<Byte>, out0: seq<Byte>, spec: Result<seq<Byte>>) {
    if spec.Err? then r == Err(spec.code) else r == Ok(true) && out == out0 + spec.value
  }

  lemma EncodeAllStep(items: seq<Item>, k: nat, depth: nat, done: seq<Byte>)
    requires k < |items| && forall i :: 0 <= i < |items| ==> ValidItem(items[i])
    ensures Encode(items[k], depth).Err? ==> EncodeAll(items[k..], depth) == Err(Encode(items[k], depth).code)
    ensures Encode(items[k], depth).Ok? ==>
              Appended(done, EncodeAll(items[k..], depth))
              == Appended(done + Encode(items[k], depth).value, EncodeAll(items[k + 1..], depth))
  {
    assert items[k..][1..] == items[k + 1..];
    var first, others := Encode(items[k], depth), EncodeAll(items[k + 1..], depth);
    if first.Ok? && others.Ok? {
      assert done + (first.value + others.value) == done + first.value + others.value;
    }
  }

  method EncodeChildren(items: seq<Item>, depth: nat, out0: seq<Byte>) returns (r: Result<bool>, out: seq<Byte>)
    requires forall i :: 0 <= i < |items| ==> ValidItem(items[i])
    ensures Wrote(r, out, out0, EncodeAll(items, depth))
    decreases items, 0
  {
    r, out := Ok(true), out0;
    for k := 0 to |items|
      invariant r == Ok(true)
      invariant Appended(out, EncodeAll(items[k..], depth)) == Appended(out0, EncodeAll(items, depth))
    {
      EncodeAllStep(items, k, depth, out);
      r, out := EncodeAtDepth(items[k], depth, out);
      if r.Err? {
        return;
      }
    }
  }

  method EncodeAtDepth(x: Item, depth: nat, out0: seq<Byte>) returns (r: Result<bool>, out: seq<Byte>)
    requires ValidItem(x)
    ensures Wrote(r, out, out0, Encode(x, depth))
    decreases x, 1
  {
    if x.List? {
      if depth >= MAX_NESTING_DEPTH {
        return Err(ERR_TOO_DEEP), out0;
      }
      r, out := EncodeHeader(ListFormat, |x.items|, out0);
      if r.Ok? {
        r, out := EncodeChildren(x.items, depth + 1, out);
      }
      return;
    }
    r, out := EncodeArrayAt(x.format, x.values, out0);
  }

  method EncodeArrayAt(f: Format, values: seq<int>, out0: seq<Byte>) returns (r: Result<bool>, out: seq<Byte>)
    requires forall i :: 0 <= i < |values| ==> InRange(f, values[i])
    ensures Wrote(r, out, out0, EncodedArray(f, values))
  {
    if f == Jis8 {
      return Err(ERR_UNSUPPORTED_FORMAT), out0;
    }
    var length := |values| * ElementSize(f);
    r, out := EncodeHeader(f, length, out0);
    if r.Ok? {
      AppendTwice(out0, ItemHeader(f, length), ArrayBytes(f, values));
      out := AppendArray(f, values, out);
    }
  }

  lemma AppendTwice(a: seq<Byte>, b: seq<Byte>, c: seq<Byte>)
    ensures a + b + c == a + (b + c)
  {
  }

  method EncodeItem(x: Item) returns (r: Result<seq<Byte>>)
    requires ValidItem(x)
    ensures r == Encode(x, 0)
  {
    var ok, out := EncodeAtDepth(x, 0, []);
    assert forall s: seq<Byte> :: [] + s == s;
    r := if ok.Ok? then Ok(out) else Err(ok.code);
  }

  // ---- decoding -------------------------------------------------------------------------------

  class Reader {
    const bytes: seq<Byte>
    var pos: nat

    constructor (bytes: seq<Byte>)
      ensures this.bytes == bytes && pos == 0
    {
      this.bytes, pos := bytes, 0;
    }

    ghost predicate Valid()
      reads this
    {
      pos <= |bytes|
    }

    function Remaining(): (n: nat)
      requires Valid()
      reads this
      ensures pos + n == |bytes|
    {
      |bytes| - pos
    }

    /** The next n bytes, or nothing and no advance if fewer remain. */
    method Take(n: nat) returns (p: Option<seq<Byte>>)
      requires Valid()
      modifies this
      ensures Valid()
      ensures old(pos) + n > |bytes| ==> p == None && pos == old(pos)
      ensures old(pos) + n <= |bytes| ==> p == Some(bytes[old(pos)..old(pos) + n]) && pos == old(pos) + n
    {
      if n > Remaining() {
        return None;
      }
      p := Some(bytes[pos..pos + n]);
      pos := pos + n;
    }
  }

  /** element_from_bytes: the first element and what follows it. */
  method ElementFromBytes(f: Format, p: seq<Byte>) returns (v: int, rest: seq<Byte>)
    requires f != ListFormat && |p| >= ElementSize(f)
    ensures |rest| < |p| && Elements(f, p) == [v] + Elements(f, rest)
  {
    var w := ElementSize(f);
    var word := LoadBe(p[..w]);
    v, rest := FromWord(f, word), p[w..];
  }

  /** build_array: one element per step, p advancing. */
  method BuildArray(f: Format, data: seq<Byte>) returns (x: Item)
    requires f != ListFormat && Whole(f, |data|)
    ensures x == Array(f, Elements(f, data))
  {
    var values: seq<int> := [];
    var p := data;
    while |p| >= ElementSize(f)
      invariant values + Elements(f, p) == Elements(f, data)
      decreases |p|
    {
      var v, rest := ElementFromBytes(f, p);
      AppendIsAssociative(values, v, Elements(f, rest));
      values, p := values + [v], rest;
    }
    assert Elements(f, p) == [];
    x := Array(f, values);
  }

  lemma AppendIsAssociative<T>(a: seq<T>, x: T, b: seq<T>)
    ensures a + ([x] + b) == a + [x] + b
  {
  }

  /** The result of items decoded before what comes after them. */
  function Collected(items: seq<Item>, rest: Result<Decoded<seq<Item>>>): Result<Decoded<seq<Item>>> {
    match rest
    case Err(code) => Err(code)
    case Ok(more) => Ok(Decoded(items + more.value, more.next))
  }

  lemma CollectedNothing(rest: Result<Decoded<seq<Item>>>)
    ensures Collected([], rest) == rest
  {
    assert rest.Ok? ==> [] + rest.value.value == rest.value.value;
  }

  lemma DecodeAllStep(s: seq<Byte>, pos: nat, count: nat, depth: nat, done: seq<Item>)
    requires pos <= |s| && count > 0
    ensures var first := Decode(s, pos, depth);
            && (first.Err? ==> DecodeAll(s, pos, count, depth) == Err(first.code))
            && (first.Ok? ==>
                  Collected(done, DecodeAll(s, pos, count, depth))
                  == Collected(done + [first.value.value], DecodeAll(s, first.value.next, count - 1, depth)))
  {
    var first := Decode(s, pos, depth);
    if first.Ok? && DecodeAll(s, first.value.next, count - 1, depth).Ok? {
      var others := DecodeAll(s, first.value.next, count - 1, depth).value;
      assert done + ([first.value.value] + others.value) == done + [first.value.value] + others.value;
    }
  }

  lemma LengthAtIsWord(s: seq<Byte>, pos: nat, n: nat)
    requires 1 <= n <= 3 && pos + n <= |s|
    ensures LengthAt(s, pos, n) == FromBE(s[pos..pos + n])
  {
    assert s[pos..pos + 1][..0] == [];
    assert FromBE(s[pos..pos + 1]) == s[pos];
    if n > 1 {
      assert s[pos..pos + 2][..1] == s[pos..pos + 1];
      assert FromBE(s[pos..pos + 2]) == 256 * FromBE(s[pos..pos + 1]) + s[pos + 1];
    }
    if n > 2 {
      assert s[pos..pos + 3][..2] == s[pos..pos + 2];
    }
  }

  method ReadHeader(reader: Reader) returns (r: Result<Head>)
    requires reader.Valid()
    modifies reader
    ensures reader.Valid() && r == ReadHead(reader.bytes, old(reader.pos))
    ensures r.Ok? ==> reader.pos == r.value.next
  {
    var header := reader.Take(1);
    if header.None? {
      return Err(ERR_TRUNCATED);
    }
    var formatByte := header.value[0];
    var lengthBytes := formatByte % 4;
    if lengthBytes == 0 {
      return Err(ERR_BAD_LENGTH_BYTES);
    }
    var format := ParseFormat(formatByte / 4);
    if format.None? {
      return Err(ERR_UNSUPPORTED_FORMAT);
    }
    var field := reader.Take(lengthBytes);
    if field.None? {
      return Err(ERR_TRUNCATED);
    }
    var length := LoadBe(field.value);
    LengthAtIsWord(reader.bytes, old(reader.pos) + 1, lengthBytes);
    r := Ok(Head(format.value, length, reader.pos));
  }

  ghost predicate Reads(r: Result<Item>, next: nat, d: Result<Decoded<Item>>) {
    if d.Err? then r == Err(d.code) else r == Ok(d.value.value) && next == d.value.next
  }

  ghost predicate ReadsAll(r: Result<seq<Item>>, next: nat, d: Result<Decoded<seq<Item>>>) {
    if d.Err? then r == Err(d.code) else r == Ok(d.value.value) && next == d.value.next
  }

  method DecodeArrayAt(reader: Reader, head: Head) returns (r: Result<Item>)
    requires reader.Valid() && reader.pos == head.next
    requires head.format != ListFormat
    modifies reader
    ensures reader.Valid()
    ensures Reads(r, reader.pos, DecodedArray(reader.bytes, head))
  {
    if head.length > reader.Remaining() {
      return Err(ERR_TRUNCATED);
    }
    if !Whole(head.format, head.length) {
      return Err(ERR_BAD_LENGTH);
    }
    var data := reader.Take(head.length);
    var x := BuildArray(head.format, data.value);
    r := Ok(x);
  }

  method DecodeChildren(reader: Reader, count: nat, depth: nat) returns (r: Result<seq<Item>>)
    requires reader.Valid()
    modifies reader
    ensures reader.Valid()
    ensures ReadsAll(r, reader.pos, DecodeAll(reader.bytes, old(reader.pos), count, depth))
    decreases |reader.bytes| - reader.pos, 1
  {
    var items: seq<Item> := [];
    CollectedNothing(DecodeAll(reader.bytes, reader.pos, count, depth));
    for i := 0 to count
      invariant reader.Valid() && reader.pos >= old(reader.pos)
      invariant Collected(items, DecodeAll(reader.bytes, reader.pos, count - i, depth))
                == DecodeAll(reader.bytes, old(reader.pos), count, depth)
    {
      DecodeAllStep(reader.bytes, reader.pos, count - i, depth, items);
      var child := DecodeAtDepth(reader, depth);
      if child.Err? {
        return Err(child.code);
      }
      items := items + [child.value];
    }
    assert items + [] == items;
    r := Ok(items);
  }

  method DecodeAtDepth(reader: Reader, depth: nat) returns (r: Result<Item>)
    requires reader.Valid()
    modifies reader
    ensures reader.Valid()
    ensures Reads(r, reader.pos, Decode(reader.bytes, old(reader.pos), depth))
    decreases |reader.bytes| - reader.pos, 0
  {
    var h := ReadHeader(reader);
    if h.Err? {
      return Err(h.code);
    }
    var head := h.value;
    if head.format != ListFormat {
      r := DecodeArrayAt(reader, head);
      return;
    }
    if depth >= MAX_NESTING_DEPTH {
      return Err(ERR_TOO_DEEP);
    }
    if head.length > reader.Remaining() / 2 {
      return Err(ERR_LIST_COUNT_TOO_LARGE);
    }
    var items := DecodeChildren(reader, head.length, depth + 1);
    r := if items.Ok? then Ok(List(items.value)) else Err(items.code);
  }

  method DecodeWholeBody(s: seq<Byte>) returns (r: Result<Item>)
    ensures r == DecodeBody(s)
  {
    var reader := new Reader(s);
    r := DecodeAtDepth(reader, 0);
    if r.Ok? && reader.pos != |s| {
      r := Err(ERR_TRAILING_BYTES);
    }
  }
}
