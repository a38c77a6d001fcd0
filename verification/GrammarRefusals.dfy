/** The error code of every body that is refused, in the table's terms. */
module Secs2Refusals {
  import opened Common
  import opened Bytes
  import opened Secs2Items
  import opened Secs2Codec
  import opened Secs2Proofs
  import opened Secs2Laws
  import opened Secs2Table
  import opened Secs2TableProofs
  import opened Secs2Grammar

  /** The bytes per element of a format code, 0 for a list. */
  function WidthOfCode(code: nat): Option<nat> {
    if code == 0 then Some(0)
    else if code in {0x08, 0x09, 0x10, 0x19, 0x29} then Some(1)
    else if code in {0x1A, 0x2A} then Some(2)
    else if code in {0x1C, 0x24, 0x2C} then Some(4)
    else if code in {0x18, 0x20, 0x28} then Some(8)
    else None
  }

  /** No header starts the bytes: nothing there, no length bytes, an unknown format, a length cut short. */
  predicate HeaderRefused(bytes: seq<Byte>, e: int) {
    if bytes == [] then e == 300
    else if bytes[0] % 4 == 0 then e == 301
    else if WidthOfCode(bytes[0] / 4) == None then e == 302
    else |bytes| < 1 + bytes[0] % 4 && e == 300
  }

  predicate HeaderStands(bytes: seq<Byte>) {
    bytes != [] && bytes[0] % 4 != 0 && WidthOfCode(bytes[0] / 4).Some? && 1 + bytes[0] % 4 <= |bytes|
  }

  /** An array that is cut short, or whose length is no multiple of the width. */
  predicate ArrayRefused(rest: seq<Byte>, length: int, w: nat, e: int) {
    if length > |rest| then e == 300 else w > 0 && length % w != 0 && e == 303
  }

  /** Of count items one is refused: the first, or the first is an item and one of the others is refused. */
  ghost predicate OneIsRefused(rest: seq<Byte>, count: int, depth: nat, e: int)
    decreases |rest|, 1
  {
    && count > 0
    && (|| Refused(rest, depth, e)
        || exists x: Item, j: nat {:trigger IsItem(x, rest[..j], depth)} ::
             0 < j <= |rest| && IsItem(x, rest[..j], depth) && OneIsRefused(rest[j..], count - 1, depth, e))
  }

  /** The item these bytes should start with is refused with code e. */
  ghost predicate Refused(bytes: seq<Byte>, depth: nat, e: int)
    decreases |bytes|, 0
  {
    if !HeaderStands(bytes) then HeaderRefused(bytes, e)
    else
      var n := bytes[0] % 4;
      var length, rest := Number(bytes[1..], n), bytes[1 + n..];
      if bytes[0] / 4 != 0 then ArrayRefused(rest, length, WidthOfCode(bytes[0] / 4).value, e)
      else if depth >= 32 then e == 305
      else if length > |rest| / 2 then e == 304
      else OneIsRefused(rest, length, depth + 1, e)
  }

  // ---- the header -----------------------------------------------------------------------------------

  lemma CodesAreFormats(code: nat)
    ensures WidthOfCode(code).Some? <==> ParseFormat(code).Some?
    ensures ParseFormat(code).Some? ==>
              && WidthOfCode(code) == Some(ElementSize(ParseFormat(code).value))
              && (code == 0 <==> ParseFormat(code).value == ListFormat)
  {
  }

  lemma HeaderRefusedIff(s: seq<Byte>, pos: nat, e: int)
    requires pos <= |s|
    ensures ReadHead(s, pos).Ok? <==> HeaderStands(s[pos..])
    ensures ReadHead(s, pos) == Err(e) <==> HeaderRefused(s[pos..], e)
  {
    if pos < |s| {
      CodesAreFormats(s[pos] / 4);
      assert s[pos..][0] == s[pos];
    }
  }

  lemma HeaderIs(s: seq<Byte>, pos: nat, head: Head)
    requires pos <= |s| && ReadHead(s, pos) == Ok(head)
    ensures var bytes := s[pos..];
            && HeaderStands(bytes) && head.next == pos + 1 + bytes[0] % 4
            && head.length == Number(bytes[1..], bytes[0] % 4)
            && (bytes[0] / 4 == 0 <==> head.format == ListFormat)
            && WidthOfCode(bytes[0] / 4) == Some(ElementSize(head.format))
            && bytes[1 + bytes[0] % 4..] == s[head.next..]
  {
    var bytes := s[pos..];
    HeaderRefusedIff(s, pos, 0);
    CodesAreFormats(s[pos] / 4);
    assert Occurs(s, pos, bytes);
    LengthIsNumber(bytes, s[pos] % 4, s, pos);
  }

  // ---- arrays and lists -------------------------------------------------------------------------------

  lemma ArrayRefusedIff(s: seq<Byte>, head: Head, e: int)
    requires head.next <= |s| && head.format != ListFormat
    ensures DecodedArray(s, head) == Err(e) <==>
              ArrayRefused(s[head.next..], head.length, ElementSize(head.format), e)
  {
    WholeMeansMultiple(head.format, head.length);
  }

  lemma ItemStands(x: Item, bytes: seq<Byte>, s: seq<Byte>, pos: nat, end: nat, depth: nat)
    requires pos <= end <= |s| && end == pos + |bytes| && bytes == s[pos..][..|bytes|] && IsItem(x, bytes, depth)
    ensures |bytes| >= 2 && Gives(s, pos, depth, x, end)
  {
    ItemIsRead(x, bytes, depth);
    assert Occurs(s, pos, bytes);
  }

  lemma LaterHere(s: seq<Byte>, pos: nat, end: nat, count: nat, depth: nat, e: int)
    requires pos <= |s| && count > 0 && Decode(s, pos, depth).Ok? && Decode(s, pos, depth).value.next == end
    requires OneIsRefused(s[end..], count - 1, depth, e)
    ensures OneIsRefused(s[pos..], count, depth, e)
  {
    ItemIsWritten(s, pos, depth);
    LaterIsRefused(s[pos..], Decode(s, pos, depth).value.value, end - pos, s[pos..end], s[end..], count, depth, e);
  }

  lemma LaterIsRefused(
    rest: seq<Byte>, x: Item, j: nat, first: seq<Byte>, others: seq<Byte>, count: nat, depth: nat, e: int
  )
    requires 0 < j <= |rest| && rest[..j] == first && rest[j..] == others && count > 0
    requires IsItem(x, first, depth) && OneIsRefused(others, count - 1, depth, e)
    ensures OneIsRefused(rest, count, depth, e)
  {
  }

  lemma DecodeAllFails(s: seq<Byte>, pos: nat, count: nat, depth: nat, e: int)
    requires pos <= |s| && count > 0
    ensures DecodeAll(s, pos, count, depth) == Err(e) <==>
              var d := Decode(s, pos, depth);
              if d.Err? then d == Err(e) else DecodeAll(s, d.value.next, count - 1, depth) == Err(e)
  {
  }

  lemma RefusedParts(rest: seq<Byte>, count: nat, depth: nat, e: int)
    returns (x: Item, first: seq<Byte>, others: seq<Byte>)
    requires OneIsRefused(rest, count, depth, e) && !Refused(rest, depth, e)
    ensures rest == first + others && IsItem(x, first, depth)
    ensures count > 0 && OneIsRefused(others, count - 1, depth, e)
  {
    var j: nat;
    x, j :| 0 < j <= |rest| && IsItem(x, rest[..j], depth) && OneIsRefused(rest[j..], count - 1, depth, e);
    first, others := rest[..j], rest[j..];
  }

  lemma SplitHere(s: seq<Byte>, pos: nat, first: seq<Byte>, others: seq<Byte>)
    requires pos <= |s| && s[pos..] == first + others
    ensures pos + |first| <= |s| && s[pos..][..|first|] == first && s[pos + |first|..] == others
  {
    assert s[pos..][|first|..] == others;
  }

  lemma RefusedLater(s: seq<Byte>, pos: nat, rest: seq<Byte>, count: nat, depth: nat, e: int)
    returns (x: Item, end: nat, others: seq<Byte>)
    requires pos <= |s| && rest == s[pos..] && OneIsRefused(rest, count, depth, e) && !Refused(rest, depth, e)
    ensures pos + 2 <= end <= |s| && others == s[end..] && Gives(s, pos, depth, x, end)
    ensures count > 0 && OneIsRefused(others, count - 1, depth, e)
  {
    var first: seq<Byte>;
    x, first, others := RefusedParts(rest, count, depth, e);
    SplitHere(s, pos, first, others);
    end := pos + |first|;
    ItemStands(x, first, s, pos, end, depth);
  }

  lemma {:induction false} FailsIfOneIsRefused(
    s: seq<Byte>, pos: nat, rest: seq<Byte>, count: nat, depth: nat, e: int
  )
    requires pos <= |s| && rest == s[pos..] && OneIsRefused(rest, count, depth, e)
    ensures DecodeAll(s, pos, count, depth) == Err(e)
    decreases |s| - pos, 1, count
  {
    RefusedIff(s, pos, depth, e);
    if !Refused(rest, depth, e) {
      var x, end, others := RefusedLater(s, pos, rest, count, depth, e);
      FailsIfOneIsRefused(s, end, others, count - 1, depth, e);
    }
    DecodeAllFails(s, pos, count, depth, e);
  }

  lemma FirstIsRefused(rest: seq<Byte>, count: nat, depth: nat, e: int)
    requires count > 0 && Refused(rest, depth, e)
    ensures OneIsRefused(rest, count, depth, e)
  {
  }

  lemma FailsHere(s: seq<Byte>, pos: nat, count: nat, depth: nat, e: int) returns (end: nat)
    requires pos <= |s| && DecodeAll(s, pos, count, depth) == Err(e)
    ensures count > 0
    ensures Decode(s, pos, depth).Err? ==> Decode(s, pos, depth) == Err(e)
    ensures Decode(s, pos, depth).Ok? ==>
              && pos < end <= |s| && end == Decode(s, pos, depth).value.next
              && DecodeAll(s, end, count - 1, depth) == Err(e)
  {
    end := if Decode(s, pos, depth).Ok? then Decode(s, pos, depth).value.next else pos;
  }

  lemma {:induction false} OneIsRefusedIfFails(s: seq<Byte>, pos: nat, count: nat, depth: nat, e: int)
    requires pos <= |s| && DecodeAll(s, pos, count, depth) == Err(e)
    ensures OneIsRefused(s[pos..], count, depth, e)
    decreases |s| - pos, 1, count
  {
    var end := FailsHere(s, pos, count, depth, e);
    if Decode(s, pos, depth).Ok? {
      OneIsRefusedIfFails(s, end, count - 1, depth, e);
      LaterHere(s, pos, end, count, depth, e);
    } else {
      RefusedIff(s, pos, depth, e);
      FirstIsRefused(s[pos..], count, depth, e);
    }
  }

  lemma OneIsRefusedIff(s: seq<Byte>, pos: nat, count: nat, depth: nat, e: int)
    requires pos <= |s|
    ensures DecodeAll(s, pos, count, depth) == Err(e) <==> OneIsRefused(s[pos..], count, depth, e)
    decreases |s| - pos, 2
  {
    if OneIsRefused(s[pos..], count, depth, e) {
      FailsIfOneIsRefused(s, pos, s[pos..], count, depth, e);
    }
    if DecodeAll(s, pos, count, depth) == Err(e) {
      OneIsRefusedIfFails(s, pos, count, depth, e);
    }
  }

  lemma ListRefusedIff(s: seq<Byte>, head: Head, depth: nat, e: int)
    requires head.next <= |s|
    requires depth < 32 && head.length <= (|s| - head.next) / 2 ==>
               (DecodeAll(s, head.next, head.length, depth + 1) == Err(e) <==>
                OneIsRefused(s[head.next..], head.length, depth + 1, e))
    ensures DecodeListAt(s, head, depth) == Err(e) <==>
              if depth >= 32 then e == 305
              else if head.length > |s[head.next..]| / 2 then e == 304
              else OneIsRefused(s[head.next..], head.length, depth + 1, e)
  {
  }

  /** What stands at pos is refused, and with code e, exactly as the table says. */
  lemma {:induction false} RefusedIff(s: seq<Byte>, pos: nat, depth: nat, e: int)
    requires pos <= |s|
    ensures Decode(s, pos, depth) == Err(e) <==> Refused(s[pos..], depth, e)
    decreases |s| - pos, 0
  {
    HeaderRefusedIff(s, pos, e);
    if ReadHead(s, pos).Ok? {
      var head := ReadHead(s, pos).value;
      HeaderIs(s, pos, head);
      if head.format == ListFormat {
        OneIsRefusedIff(s, head.next, head.length, depth + 1, e);
        ListRefusedIff(s, head, depth, e);
      } else {
        ArrayRefusedIff(s, head, e);
      }
    }
  }

  /** Bytes that start with an item and go on after it. */
  ghost predicate HasTrailingBytes(s: seq<Byte>) {
    exists k: nat, x: Item :: k < |s| && IsItem(x, s[..k], 0)
  }

  /** decode_body refuses a body with code e exactly if its item is refused with e, or e is 306 and bytes
      follow the item. */
  lemma BodyRefusedIff(s: seq<Byte>, e: int)
    ensures DecodeBody(s) == Err(e) <==> Refused(s, 0, e) || (e == 306 && HasTrailingBytes(s))
  {
    RefusedIff(s, 0, 0, e);
    assert s[0..] == s;
    if Decode(s, 0, 0).Ok? {
      ItemIsWritten(s, 0, 0);
      var d := Decode(s, 0, 0).value;
      assert s[0..d.next] == s[..d.next];
      if d.next < |s| {
        assert IsItem(d.value, s[..d.next], 0);
      }
    }
    if HasTrailingBytes(s) {
      var k: nat, x: Item :| k < |s| && IsItem(x, s[..k], 0);
      ItemStands(x, s[..k], s, 0, k, 0);
    }
  }
}
