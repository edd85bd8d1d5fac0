/** BSON ObjectIds: twelve bytes, written as 24 hexadecimal digits. */
module ObjectIds {
  import opened PyStrings

  /** 16^24 = 2^96: the number of distinct twelve-byte identifiers. */
  const IdSpace: nat := 0x1_0000_0000_0000_0000_0000_0000

  type ObjectId = n: nat | n < IdSpace

  function Pow16(n: nat): (p: nat)
    ensures p > 0
  {
    if n == 0 then 1 else 16 * Pow16(n - 1)
  }

  lemma IdSpaceIsPow16()
    ensures Pow16(24) == IdSpace
  {
    assert Pow16(1) == 16;
    assert Pow16(2) == 256;
    assert Pow16(3) == 4096;
    assert Pow16(4) == 65536;
    assert Pow16(5) == 1048576;
    assert Pow16(6) == 16777216;
    assert Pow16(7) == 268435456;
    assert Pow16(8) == 4294967296;
    assert Pow16(9) == 68719476736;
    assert Pow16(10) == 1099511627776;
    assert Pow16(11) == 17592186044416;
    assert Pow16(12) == 281474976710656;
    assert Pow16(13) == 4503599627370496;
    assert Pow16(14) == 72057594037927936;
    assert Pow16(15) == 1152921504606846976;
    assert Pow16(16) == 18446744073709551616;
    assert Pow16(17) == 295147905179352825856;
    assert Pow16(18) == 4722366482869645213696;
    assert Pow16(19) == 75557863725914323419136;
    assert Pow16(20) == 1208925819614629174706176;
    assert Pow16(21) == 19342813113834066795298816;
    assert Pow16(22) == 309485009821345068724781056;
    assert Pow16(23) == 4951760157141521099596496896;
    assert Pow16(24) == 79228162514264337593543950336;
  }

  predicate IsHexDigit(c: char) {
    '0' <= c <= '9' || 'a' <= c <= 'f' || 'A' <= c <= 'F'
  }

  function DigitValue(c: char): (d: nat)
    requires IsHexDigit(c)
    ensures d < 16
  {
    if '0' <= c <= '9' then c as int - '0' as int
    else if 'a' <= c <= 'f' then c as int - 'a' as int + 10
    else c as int - 'A' as int + 10
  }

  function HexChar(d: nat): (c: char)
    requires d < 16
    ensures IsHexDigit(c) && DigitValue(c) == d
  {
    "0123456789abcdef"[d]
  }

  predicate AllHex(s: string) {
    forall i :: 0 <= i < |s| ==> IsHexDigit(s[i])
  }

  /** `ObjectId.is_valid(s)` for a string argument: exactly 24 hexadecimal digits,
      in either case. */
  predicate IsValidObjectId(s: string) {
    |s| == 24 && AllHex(s)
  }

  /** The number a string of hexadecimal digits denotes, most significant first. */
  function HexToNat(s: string): (n: nat)
    requires AllHex(s)
    ensures n < Pow16(|s|)
  {
    if s == [] then 0
    else
      var init := s[..|s| - 1];
      assert AllHex(init);
      var m := HexToNat(init);
      assert m * 16 <= (Pow16(|s| - 1) - 1) * 16;
      m * 16 + DigitValue(s[|s| - 1])
  }

  /** `n` written with exactly `width` lower-case hexadecimal digits. */
  function Hex(n: nat, width: nat): (s: string)
    requires n < Pow16(width)
    ensures |s| == width && AllHex(s)
    ensures forall i :: 0 <= i < |s| ==> !('A' <= s[i] <= 'Z')
  {
    if width == 0 then []
    else
      var h := Hex(n / 16, width - 1);
      h + [HexChar(n % 16)]
  }

  /** `ObjectId(s)` for a valid string: the identifier it spells. */
  function ParseObjectId(s: string): (id: ObjectId)
    requires IsValidObjectId(s)
    ensures id == HexToNat(s)
  {
    IdSpaceIsPow16();
    HexToNat(s)
  }

  /** `str(oid)`: the identifier as 24 lower-case hexadecimal digits. */
  function IdString(id: ObjectId): (s: string)
    ensures IsValidObjectId(s)
    ensures ParseObjectId(s) == id
  {
    IdSpaceIsPow16();
    HexRoundTrip(id, 24);
    Hex(id, 24)
  }

  lemma {:induction false} HexRoundTrip(n: nat, width: nat)
    requires n < Pow16(width)
    ensures HexToNat(Hex(n, width)) == n
  {
    if width > 0 {
      var h := Hex(n / 16, width - 1);
      var s := h + [HexChar(n % 16)];
      assert s[..|s| - 1] == h;
      HexRoundTrip(n / 16, width - 1);
    }
  }

  /** Rendering a parsed string gives back the string, lower-cased: parsing
      ignores case and rendering always uses lower case. */
  lemma {:induction false} RenderParsed(s: string)
    requires AllHex(s)
    ensures Hex(HexToNat(s), |s|) == Lower(s)
  {
    if s != [] {
      var init := s[..|s| - 1];
      var c := s[|s| - 1];
      var m := HexToNat(init);
      var n := HexToNat(s);
      assert n / 16 == m && n % 16 == DigitValue(c);
      RenderParsed(init);
      HexCharOfDigit(c);
      LowerLast(s);
    }
  }

  /** Rendering a digit's value gives the digit in lower case. */
  lemma HexCharOfDigit(c: char)
    requires IsHexDigit(c)
    ensures HexChar(DigitValue(c)) == LowerChar(c)
  {
  }

  lemma LowerLast(s: string)
    requires s != []
    ensures Lower(s) == Lower(s[..|s| - 1]) + [LowerChar(s[|s| - 1])]
  {
  }

  /** `str(ObjectId(s))` is `s` in lower case. */
  lemma IdStringOfParsed(s: string)
    requires IsValidObjectId(s)
    ensures IdString(ParseObjectId(s)) == Lower(s)
  {
    RenderParsed(s);
  }

  /** Two valid strings name the same identifier exactly when they agree up to
      the case of their letters. */
  lemma SameIdIffSameLower(s: string, t: string)
    requires IsValidObjectId(s) && IsValidObjectId(t)
    ensures ParseObjectId(s) == ParseObjectId(t) <==> Lower(s) == Lower(t)
  {
    RenderParsed(s);
    RenderParsed(t);
    if Lower(s) == Lower(t) {
      var t' := Lower(s);
      assert AllHex(t');
    }
    if ParseObjectId(s) != ParseObjectId(t) {
      HexRoundTrip(HexToNat(s), 24);
      HexRoundTrip(HexToNat(t), 24);
    }
  }
}
