/** What the SECS-II decoder promises about every input, not only about encodings. */
module Secs2Laws {
  import opened Common
  import opened Bytes
  import opened Secs2Items
  import opened Secs2Codec
  import opened Secs2Proofs

  // ---- stability ------------------------------------------------------------------------------

  lemma DecodeAllParts(s: seq<Byte>, pos: nat, count: nat, depth: nat)
    returns (first: Decoded<Item>, others: Decoded<seq<Item>>)
    requires pos <= |s| && count > 0 && DecodeAll(s, pos, count, depth).Ok?
    ensures pos + 2 <= first.next <= |s| && Decode(s, pos, depth) == Ok(first)
    ensures |others.value| == count - 1 && DecodeAll(s, first.next, count - 1, depth) == Ok(others)
    ensures DecodeAll(s, pos, count, depth) == Ok(Decoded([first.value] + others.value, others.next))
  {
    first := Decode(s, pos, depth).value;
    others := DecodeAll(s, first.next, count - 1, depth).value;
  }

  lemma DecodeListParts(s: seq<Byte>, pos: nat, depth: nat)
    returns (head: Head, items: Decoded<seq<Item>>)
    requires pos <= |s| && Decode(s, pos, depth).Ok? && Decode(s, pos, depth).value.value.List?
    ensures pos + 2 <= head.next <= |s| && ReadHead(s, pos) == Ok(head) && head.format == ListFormat
    ensures depth < MAX_NESTING_DEPTH && 2 * head.length <= |s| - head.next
    ensures DecodeAll(s, head.next, head.length, depth + 1) == Ok(items)
    ensures Decode(s, pos, depth) == Ok(Decoded(List(items.value), items.next))
  {
    head := ReadHead(s, pos).value;
    items := DecodeAll(s, head.next, head.length, depth + 1).value;
  }

  lemma DecodeArrayParts(s: seq<Byte>, pos: nat, depth: nat) returns (head: Head, body: seq<Byte>)
    requires pos <= |s| && Decode(s, pos, depth).Ok? && Decode(s, pos, depth).value.value.Array?
    ensures Stands(s, pos, head, body) && head.format != ListFormat && pos + 2 <= head.next
    ensures Whole(head.format, |body|)
    ensures Decode(s, pos, depth)
            == Ok(Decoded(Array(head.format, Elements(head.format, body)), head.next + head.length))
  {
    head := ReadHead(s, pos).value;
    body := s[head.next..head.next + head.length];
  }

  lemma StandsIsStable(s: seq<Byte>, pos: nat, head: Head, body: seq<Byte>, t: seq<Byte>)
    requires Stands(s, pos, head, body)
    ensures Stands(s + t, pos, head, body)
  {
    HeadIsStable(s, pos, t);
    assert (s + t)[head.next..head.next + head.length] == body;
  }

  lemma {:induction false} DecodeAllIsStable(s: seq<Byte>, pos: nat, count: nat, depth: nat, t: seq<Byte>)
    requires pos <= |s| && DecodeAll(s, pos, count, depth).Ok?
    ensures DecodeAll(s + t, pos, count, depth) == DecodeAll(s, pos, count, depth)
    decreases |s| - pos, 1, count
  {
    if count > 0 {
      var first, others := DecodeAllParts(s, pos, count, depth);
      DecodeIsStable(s, pos, depth, t);
      DecodeAllIsStable(s, first.next, count - 1, depth, t);
      DecodeAllSteps(s + t, pos, depth, first, others);
    }
  }

  /** Bytes that follow never change an accepted item or where it ends. */
  lemma {:induction false} DecodeIsStable(s: seq<Byte>, pos: nat, depth: nat, t: seq<Byte>)
    requires pos <= |s| && Decode(s, pos, depth).Ok?
    ensures Decode(s + t, pos, depth) == Decode(s, pos, depth)
    decreases |s| - pos, 0
  {
    if Decode(s, pos, depth).value.value.List? {
      var head, items := DecodeListParts(s, pos, depth);
      HeadIsStable(s, pos, t);
      DecodeAllIsStable(s, head.next, head.length, depth + 1, t);
      DecodeListSteps(s + t, pos, head, depth, items);
    } else {
      var head, body := DecodeArrayParts(s, pos, depth);
      StandsIsStable(s, pos, head, body, t);
      DecodeStanding(s + t, pos, head, body, depth);
    }
  }

  /** No strict prefix of a body that decodes exactly holds an item. */
  lemma StrictPrefixIsRejected(s: seq<Byte>, k: nat)
    requires DecodeBody(s).Ok? && k < |s|
    ensures DecodeItem(s[..k]).Err? && DecodeBody(s[..k]).Err?
  {
    assert s[..k] + s[k..] == s;
    if DecodeItem(s[..k]).Ok? {
      DecodeIsStable(s[..k], 0, 0, s[k..]);
    }
  }

  // ---- what an accepted item is ---------------------------------------------------------------

  function NodesOf(items: seq<Item>): nat
    decreases items, 0
  {
    if items == [] then 0 else Nodes(items[0]) + NodesOf(items[1..])
  }

  /** The number of items in x, itself included. */
  function Nodes(x: Item): nat
    decreases x, 1
  {
    match x
    case List(items) => 1 + NodesOf(items)
    case Array(_, _) => 1
  }

  /** x can be encoded again in at most n bytes and has at most n / 2 items. */
  ghost predicate Shrinks(x: Item, depth: nat, n: int) {
    && ValidItem(x) && Encode(x, depth).Ok? && |Encode(x, depth).value| <= n
    && 2 * Nodes(x) <= n
  }

  ghost predicate AllShrink(items: seq<Item>, depth: nat, n: int) {
    && (forall i :: 0 <= i < |items| ==> ValidItem(items[i]))
    && EncodeAll(items, depth).Ok? && |EncodeAll(items, depth).value| <= n
    && 2 * NodesOf(items) <= n
  }

  lemma OneMoreShrinks(x: Item, items: seq<Item>, depth: nat, n: int, m: int)
    requires Shrinks(x, depth, n) && AllShrink(items, depth, m)
    ensures AllShrink([x] + items, depth, n + m)
  {
    var all := [x] + items;
    assert all[0] == x && all[1..] == items;
  }

  lemma OneMoreElement(n: nat, w: nat)
    ensures (n + 1) * w == w + n * w
  {
  }

  lemma {:induction false} ElementsFill(f: Format, s: seq<Byte>)
    requires f != ListFormat && Whole(f, |s|)
    ensures |Elements(f, s)| * ElementSize(f) == |s|
    decreases |s|
  {
    WholeStep(f, |s|);
    if s != [] {
      var w := ElementSize(f);
      WholeStep(f, |s| - w);
      ElementsFill(f, s[w..]);
      OneMoreElement(|Elements(f, s[w..])|, w);
    }
  }

  lemma {:induction false} ElementsAreValid(f: Format, s: seq<Byte>)
    requires f != ListFormat
    ensures forall i :: 0 <= i < |Elements(f, s)| ==> InRange(f, Elements(f, s)[i])
    decreases |s|
  {
    var w := ElementSize(f);
    if |s| >= w {
      FromBEBound(s[..w]);
      WordsAreValues(f, 0, FromBE(s[..w]));
      ElementsAreValid(f, s[w..]);
    }
  }

  lemma ArrayShrinks(f: Format, body: seq<Byte>, depth: nat)
    requires f != ListFormat && f != Jis8 && |body| <= MAX_ITEM_LENGTH
    requires Whole(f, |body|)
    ensures Shrinks(Array(f, Elements(f, body)), depth, 1 + LengthBytes(|body|) + |body|)
  {
    ElementsAreValid(f, body);
    ElementsFill(f, body);
    ArraySize(f, Elements(f, body));
  }

  lemma {:induction false} AcceptedAllShrink(s: seq<Byte>, pos: nat, count: nat, depth: nat)
    requires pos <= |s| && DecodeAll(s, pos, count, depth).Ok?
    ensures var d := DecodeAll(s, pos, count, depth).value;
            AllShrink(d.value, depth, d.next - pos)
    decreases |s| - pos, 1, count
  {
    if count > 0 {
      var first, others := DecodeAllParts(s, pos, count, depth);
      AcceptedShrinks(s, pos, depth);
      AcceptedAllShrink(s, first.next, count - 1, depth);
      OneMoreShrinks(first.value, others.value, depth, first.next - pos, others.next - first.next);
    }
  }

  /** Every accepted item is valid, encodes again to no more bytes than were read and has at most
      half as many nodes. */
  lemma {:induction false} AcceptedShrinks(s: seq<Byte>, pos: nat, depth: nat)
    requires pos <= |s| && Decode(s, pos, depth).Ok?
    ensures var d := Decode(s, pos, depth).value;
            Shrinks(d.value, depth, d.next - pos)
    decreases |s| - pos, 0
  {
    HeadShrinksHere(s, pos, depth);
    if Decode(s, pos, depth).value.value.List? {
      var head, items := DecodeListParts(s, pos, depth);
      AcceptedAllShrink(s, head.next, head.length, depth + 1);
      ListShrinks(items.value, depth, items.next - head.next);
    } else {
      var head, body := DecodeArrayParts(s, pos, depth);
      ArrayShrinks(head.format, body, depth);
    }
  }

  lemma HeadShrinksHere(s: seq<Byte>, pos: nat, depth: nat)
    requires pos <= |s| && Decode(s, pos, depth).Ok?
    ensures ReadHead(s, pos).Ok?
    ensures var h := ReadHead(s, pos).value;
            && h.format != Jis8 && h.length <= MAX_ITEM_LENGTH
            && 1 + LengthBytes(h.length) <= h.next - pos
  {
    HeadShrinks(s, pos);
  }

  lemma ListShrinks(items: seq<Item>, depth: nat, n: int)
    requires depth < MAX_NESTING_DEPTH && |items| <= MAX_ITEM_LENGTH && AllShrink(items, depth + 1, n)
    ensures Shrinks(List(items), depth, 1 + LengthBytes(|items|) + n)
  {
  }

  // ---- normal forms ---------------------------------------------------------------------------

  lemma {:induction false} NormValuesEncodeAlike(f: Format, values: seq<int>)
    requires forall i :: 0 <= i < |values| ==> InRange(f, values[i])
    ensures forall i :: 0 <= i < |values| ==> InRange(f, NormValues(f, values)[i])
    ensures ArrayBytes(f, NormValues(f, values)) == ArrayBytes(f, values)
    decreases |values|
  {
    if values != [] {
      NormValuesEncodeAlike(f, values[1..]);
      assert NormValues(f, values)[1..] == NormValues(f, values[1..]);
    }
  }

  lemma {:induction false} NormItemsEncodeAlike(items: seq<Item>, depth: nat)
    requires forall i :: 0 <= i < |items| ==> ValidItem(items[i])
    ensures forall i :: 0 <= i < |items| ==> ValidItem(NormItems(items)[i])
    ensures EncodeAll(NormItems(items), depth) == EncodeAll(items, depth)
    decreases items, 0
  {
    if items != [] {
      NormEncodesAlike(items[0], depth);
      NormItemsEncodeAlike(items[1..], depth);
      assert NormItems(items)[1..] == NormItems(items[1..]);
    }
  }

  /** An item and its normal form have the same encoding. */
  lemma {:induction false} NormEncodesAlike(x: Item, depth: nat)
    requires ValidItem(x)
    ensures ValidItem(Norm(x)) && Encode(Norm(x), depth) == Encode(x, depth)
    decreases x, 1
  {
    match x
    case List(items) => NormItemsEncodeAlike(items, depth + 1);
    case Array(f, values) => NormValuesEncodeAlike(f, values);
  }

  /** Encoding an accepted body gives a body of no more bytes, and from there encoding and decoding
      change nothing. */
  lemma ReencodingIsFixed(s: seq<Byte>, x: Item)
    requires DecodeBody(s) == Ok(x)
    ensures ValidItem(x) && Encode(x, 0).Ok? && |Encode(x, 0).value| <= |s| && 2 * Nodes(x) <= |s|
    ensures DecodeBody(Encode(x, 0).value) == Ok(Norm(x))
    ensures ValidItem(Norm(x)) && Encode(Norm(x), 0) == Encode(x, 0)
  {
    AcceptedShrinks(s, 0, 0);
    RoundTrip(x, Encode(x, 0).value);
    NormEncodesAlike(x, 0);
  }
}
