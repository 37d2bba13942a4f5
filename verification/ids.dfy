/**
 * Object identifiers: twelve bytes, written as 24 hexadecimal digits.
 * Casting a string to an identifier accepts either letter case.
 */
module Ids {
  import opened Wrappers
  import opened Text

  function Pow16(n: nat): (r: nat)
    ensures r >= 1
  {
    if n == 0 then 1 else 16 * Pow16(n - 1)
  }

  /** Number of hexadecimal digits of an identifier. */
  const IdDigits := 24

  /** 16^24 = 2^96: one more than the largest identifier. */
  const IdBound := 0x1_0000_0000_0000_0000_0000_0000

  lemma IdBoundIsPow16()
    ensures Pow16(IdDigits) == IdBound
  {
    assert Pow16(4) == 0x1_0000;
    assert Pow16(8) == 0x1_0000_0000 by {
      assert Pow16(8) == 16 * 16 * 16 * 16 * Pow16(4);
    }
    assert Pow16(12) == 0x1_0000_0000_0000 by {
      assert Pow16(12) == 16 * 16 * 16 * 16 * Pow16(8);
    }
    assert Pow16(16) == 0x1_0000_0000_0000_0000 by {
      assert Pow16(16) == 16 * 16 * 16 * 16 * Pow16(12);
    }
    assert Pow16(20) == 0x1_0000_0000_0000_0000_0000 by {
      assert Pow16(20) == 16 * 16 * 16 * 16 * Pow16(16);
    }
    assert Pow16(24) == 16 * 16 * 16 * 16 * Pow16(20);
  }

  /** An identifier is a number below 2^96. */
  type Id = n: nat | n < IdBound

  /** The pattern `^[0-9a-fA-F]{24}$`. */
  predicate IsObjectIdHex(s: string) {
    |s| == IdDigits && forall i :: 0 <= i < |s| ==> IsHexDigit(s[i])
  }

  function HexValue(c: char): (d: nat)
    requires IsHexDigit(c)
    ensures d < 16
  {
    if '0' <= c <= '9' then c as int - '0' as int
    else if 'a' <= c <= 'f' then c as int - 'a' as int + 10
    else c as int - 'A' as int + 10
  }

  function HexChar(d: nat): (c: char)
    requires d < 16
    ensures IsHexDigit(c) && !IsUpper(c) && HexValue(c) == d
  {
    if d < 10 then ('0' as int + d) as char else ('a' as int + d - 10) as char
  }

  /** Big-endian value of a string of hexadecimal digits. */
  function ParseHex(s: string): (n: nat)
    requires forall i :: 0 <= i < |s| ==> IsHexDigit(s[i])
    ensures n < Pow16(|s|)
  {
    if s == [] then 0
    else
      var m := ParseHex(s[..|s| - 1]);
      assert m <= Pow16(|s| - 1) - 1;
      m * 16 + HexValue(s[|s| - 1])
  }

  /** The `w` lowest hexadecimal digits of `n`, lower case, most significant first. */
  function FormatHex(n: nat, w: nat): (s: string)
    ensures |s| == w
    ensures forall i :: 0 <= i < |s| ==> IsHexDigit(s[i]) && !IsUpper(s[i])
  {
    if w == 0 then [] else FormatHex(n / 16, w - 1) + [HexChar(n % 16)]
  }

  /** Casting a string to an identifier: defined exactly on the 24-digit hexadecimal strings. */
  function ParseObjectId(s: string): (r: Option<Id>)
    ensures r.Some? <==> IsObjectIdHex(s)
  {
    if IsObjectIdHex(s) then IdBoundIsPow16(); Some(ParseHex(s)) else None
  }

  /** The canonical (lower-case) 24-digit spelling of an identifier. */
  function FormatObjectId(id: Id): (s: string)
    ensures IsObjectIdHex(s) && IsLower(s)
  {
    FormatHex(id, IdDigits)
  }

  lemma {:induction false} ParseFormatHex(n: nat, w: nat)
    requires n < Pow16(w)
    ensures ParseHex(FormatHex(n, w)) == n
  {
    if w > 0 {
      var s := FormatHex(n, w);
      assert s[..w - 1] == FormatHex(n / 16, w - 1);
      assert n / 16 < Pow16(w - 1);
      ParseFormatHex(n / 16, w - 1);
    }
  }

  /** Printing an identifier and casting it back gives the same identifier. */
  lemma ObjectIdRoundTrip(id: Id)
    ensures ParseObjectId(FormatObjectId(id)) == Some(id)
  {
    IdBoundIsPow16();
    ParseFormatHex(id, IdDigits);
  }

  lemma {:induction false} ParseHexLower(s: string)
    requires forall i :: 0 <= i < |s| ==> IsHexDigit(s[i])
    ensures forall i :: 0 <= i < |s| ==> IsHexDigit(Lower(s)[i])
    ensures ParseHex(Lower(s)) == ParseHex(s)
  {
    if s != [] {
      assert Lower(s)[..|s| - 1] == Lower(s[..|s| - 1]);
      ParseHexLower(s[..|s| - 1]);
    }
  }

  /** Upper- and lower-case spellings of the same digits denote the same identifier. */
  lemma ParseObjectIdIgnoresCase(s: string)
    ensures ParseObjectId(Lower(s)) == ParseObjectId(s)
  {
    if IsObjectIdHex(s) {
      ParseHexLower(s);
    }
  }
}
