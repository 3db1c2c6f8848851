/**
 * BSON object identifiers as the booking repository uses them: `str(oid)`
 * renders the 12 bytes of an ObjectId as 24 lower-case hexadecimal digits,
 * and `ObjectId(text)` parses such a string back (either case), failing on
 * anything else.
 */
module Bson {
  import opened Wrappers

  newtype byte = x: int | 0 <= x < 256

  /** An ObjectId is exactly 12 bytes. */
  type ObjectId = b: seq<byte> | |b| == 12 witness [0, 0, 0, 0, 0, 0, 0, 0, 0, 0, 0, 0]

  /** The lower-case digit for a nibble. */
  function HexChar(n: int): (c: char)
    requires 0 <= n < 16
  {
    if n < 10 then ('0' as int + n) as char else ('a' as int + n - 10) as char
  }

  predicate IsLowerHexChar(c: char) {
    ('0' <= c <= '9') || ('a' <= c <= 'f')
  }

  predicate IsHexChar(c: char) {
    ('0' <= c <= '9') || ('a' <= c <= 'f') || ('A' <= c <= 'F')
  }

  /** The value of a hexadecimal digit of either case; None for any other character. */
  function HexValue(c: char): (r: Option<int>)
    ensures r.Some? <==> IsHexChar(c)
    ensures r.Some? ==> 0 <= r.value < 16
  {
    if '0' <= c <= '9' then Some(c as int - '0' as int)
    else if 'a' <= c <= 'f' then Some(c as int - 'a' as int + 10)
    else if 'A' <= c <= 'F' then Some(c as int - 'A' as int + 10)
    else None
  }

  lemma HexValueOfHexChar(n: int)
    requires 0 <= n < 16
    ensures HexValue(HexChar(n)) == Some(n)
  {
  }

  /** An upper-case hex digit in lower case; every other character unchanged. */
  function LowerHexChar(c: char): char {
    if 'A' <= c <= 'F' then (c as int - 'A' as int + 'a' as int) as char else c
  }

  function ToLowerHex(s: string): (r: string)
    ensures |r| == |s|
  {
    seq(|s|, i requires 0 <= i < |s| => LowerHexChar(s[i]))
  }

  lemma HexCharOfHexValue(c: char)
    requires IsHexChar(c)
    ensures HexChar(HexValue(c).value) == LowerHexChar(c)
  {
  }

  /** Two lower-case hex digits per byte, high nibble first. */
  function Hex(bs: seq<byte>): (s: string)
    ensures |s| == 2 * |bs|
    ensures forall i :: 0 <= i < |s| ==> IsLowerHexChar(s[i])
  {
    if bs == [] then ""
    else [HexChar(bs[0] as int / 16), HexChar(bs[0] as int % 16)] + Hex(bs[1..])
  }

  /** Decodes pairs of hex digits into bytes; None on an odd length or a non-hex character. */
  function Unhex(s: string): (r: Option<seq<byte>>)
    ensures r.Some? ==> 2 * |r.value| == |s|
    decreases |s|
  {
    if s == "" then Some([])
    else if |s| == 1 then None
    else
      match (HexValue(s[0]), HexValue(s[1]), Unhex(s[2..]))
      case (Some(hi), Some(lo), Some(rest)) => Some([(hi * 16 + lo) as byte] + rest)
      case _ => None
  }

  /** `str(oid)`. */
  function IdToString(id: ObjectId): (s: string)
    ensures |s| == 24
  {
    Hex(id)
  }

  /** `ObjectId(text)`: exactly 24 hex digits, or the InvalidId failure (None). */
  function ParseObjectId(s: string): (r: Option<ObjectId>)
    ensures r.Some? ==> |s| == 24
  {
    if |s| != 24 then None
    else
      match Unhex(s)
      case Some(bs) => Some(bs)
      case None => None
  }

  lemma HexCons(bs: seq<byte>)
    requires bs != []
    ensures Hex(bs)[0] == HexChar(bs[0] as int / 16)
    ensures Hex(bs)[1] == HexChar(bs[0] as int % 16)
    ensures Hex(bs)[2..] == Hex(bs[1..])
  {
  }

  lemma UnhexCons(s: string, hi: int, lo: int)
    requires |s| >= 2 && HexValue(s[0]) == Some(hi) && HexValue(s[1]) == Some(lo)
    ensures Unhex(s) == (match Unhex(s[2..])
                         case Some(rest) => Some([(hi * 16 + lo) as byte] + rest)
                         case None => None)
  {
  }

  /** One step of decoding: the first two digits of `Hex(bs)` give back `bs[0]`. */
  lemma UnhexStep(bs: seq<byte>)
    requires bs != []
    ensures Unhex(Hex(bs)) == (match Unhex(Hex(bs[1..]))
                               case Some(rest) => Some([bs[0]] + rest)
                               case None => None)
  {
    var hi, lo := bs[0] as int / 16, bs[0] as int % 16;
    HexCons(bs);
    HexValueOfHexChar(hi);
    HexValueOfHexChar(lo);
    assert (hi * 16 + lo) as byte == bs[0];
    UnhexCons(Hex(bs), hi, lo);
  }

  lemma {:induction false} UnhexHex(bs: seq<byte>)
    ensures Unhex(Hex(bs)) == Some(bs)
  {
    if bs != [] {
      UnhexStep(bs);
      UnhexHex(bs[1..]);
      assert [bs[0]] + bs[1..] == bs;
    }
  }

  lemma {:induction false} UnhexAccepts(s: string)
    ensures Unhex(s).Some? <==> |s| % 2 == 0 && forall i :: 0 <= i < |s| ==> IsHexChar(s[i])
    decreases |s|
  {
    if |s| >= 2 {
      UnhexAccepts(s[2..]);
      assert forall i :: 2 <= i < |s| ==> s[i] == s[2..][i - 2];
    }
  }

  /** Re-encoding decoded digits gives the input with its hex letters in lower case. */
  lemma {:induction false} HexUnhex(s: string)
    requires Unhex(s).Some?
    ensures Hex(Unhex(s).value) == ToLowerHex(s)
    decreases |s|
  {
    if s != "" {
      var hi, lo := HexValue(s[0]).value, HexValue(s[1]).value;
      var rest := Unhex(s[2..]).value;
      var b := (hi * 16 + lo) as byte;
      assert Unhex(s).value == [b] + rest;
      assert b as int / 16 == hi && b as int % 16 == lo;
      HexCharOfHexValue(s[0]);
      HexCharOfHexValue(s[1]);
      HexUnhex(s[2..]);
      HexCons([b] + rest);
      assert ([b] + rest)[1..] == rest;
      var h := Hex([b] + rest);
      assert h == h[..2] + h[2..];
      assert ToLowerHex(s) == ToLowerHex(s[..2]) + ToLowerHex(s[2..]);
    }
  }

  /** Parsing undoes `str`: `ObjectId(str(oid)) == oid`. */
  lemma ParseIdToString(id: ObjectId)
    ensures ParseObjectId(IdToString(id)) == Some(id)
  {
    UnhexHex(id);
  }

  /** `str` is injective on ObjectIds. */
  lemma IdToStringInjective(a: ObjectId, b: ObjectId)
    ensures IdToString(a) == IdToString(b) ==> a == b
  {
    ParseIdToString(a);
    ParseIdToString(b);
  }

  /** `str(ObjectId(text))` is `text` with its hex letters in lower case. */
  lemma IdToStringOfParse(s: string)
    requires ParseObjectId(s).Some?
    ensures IdToString(ParseObjectId(s).value) == ToLowerHex(s)
  {
    HexUnhex(s);
  }

  /** The parser accepts exactly the strings of 24 hexadecimal digits of either case. */
  lemma ParseAccepts(s: string)
    ensures ParseObjectId(s).Some? <==> |s| == 24 && forall i :: 0 <= i < |s| ==> IsHexChar(s[i])
  {
    UnhexAccepts(s);
  }
}
