/** ObjectId text as the bookstore handlers meet it: the `isMongoId` rule of
    express-validator (validator.js 13), the cast that `findById` and the schemas'
    ObjectId paths apply to request text, and the text `toString()` gives back. An
    ObjectId is a 96-bit value; its text is 24 hexadecimal digits, most significant
    first. The cast reads the digits in either case, while `toString()` always writes
    them in lower case. The rule accepts slightly more than the cast: 24 characters of
    `isHexadecimal` text, which may start with a `0x` or `0h` prefix. */
module ObjectIds {
  import opened Common

  const MongoIdLength := 24

  function Pow16(w: nat): (r: nat)
    ensures r >= 1 && (w > 0 ==> r >= 16)
  {
    if w == 0 then 1 else 16 * Pow16(w - 1)
  }

  /** The number of ObjectId values, 16^24 = 2^96. */
  const ObjectIdBound := Pow16(MongoIdLength)

  predicate IsHexDigit(c: char) { '0' <= c <= '9' || 'a' <= c <= 'f' || 'A' <= c <= 'F' }

  predicate IsLowerHexDigit(c: char) { '0' <= c <= '9' || 'a' <= c <= 'f' }

  predicate AllHex(s: string) {
    forall i :: 0 <= i < |s| ==> IsHexDigit(s[i])
  }

  predicate AllLowerHex(s: string)
    ensures AllLowerHex(s) ==> AllHex(s)
  {
    forall i :: 0 <= i < |s| ==> IsLowerHexDigit(s[i])
  }

  /** What the ObjectId cast reads: 24 hexadecimal digits, in either case. */
  predicate IsObjectIdHex(s: string) {
    |s| == MongoIdLength && AllHex(s)
  }

  /** A `0x` or `0h` prefix, in either case. */
  predicate HasHexPrefix(s: string) {
    |s| >= 2 && s[0] == '0' && (s[1] == 'x' || s[1] == 'X' || s[1] == 'h' || s[1] == 'H')
  }

  /** `isHexadecimal`, the pattern `^(0x|0h)?[0-9a-f]+$` ignoring case. As neither 'x'
      nor 'h' is a hexadecimal digit, text that starts with a prefix matches only with
      the prefix taken. */
  predicate IsHexadecimal(s: string) {
    if HasHexPrefix(s) then |s| > 2 && AllHex(s[2..]) else |s| > 0 && AllHex(s)
  }

  /** `isMongoId`: `isHexadecimal` text of length 24. */
  predicate IsMongoId(s: string) {
    IsHexadecimal(s) && |s| == MongoIdLength
  }

  /** Text as `toString()` writes it: 24 lower-case hexadecimal digits. */
  predicate IsObjectIdText(s: string)
    ensures IsObjectIdText(s) ==> IsObjectIdHex(s)
  {
    |s| == MongoIdLength && AllLowerHex(s)
  }

  function HexValue(c: char): (d: nat)
    requires IsHexDigit(c)
    ensures d < 16
  {
    if '0' <= c <= '9' then c as int - '0' as int
    else if 'a' <= c <= 'f' then c as int - 'a' as int + 10
    else c as int - 'A' as int + 10
  }

  function HexChar(d: nat): (c: char)
    requires d < 16
    ensures IsLowerHexDigit(c) && HexValue(c) == d
  {
    if d < 10 then ('0' as int + d) as char else ('a' as int + d - 10) as char
  }

  lemma {:induction false} HexCharOfValue(c: char)
    requires IsLowerHexDigit(c)
    ensures HexChar(HexValue(c)) == c
  {
  }

  /** Hexadecimal text, in either case, read as a number. */
  function ParseHex(s: string): (r: nat)
    requires AllHex(s)
    ensures r < Pow16(|s|)
  {
    if s == [] then 0
    else
      var p := ParseHex(s[..|s| - 1]);
      p * 16 + HexValue(s[|s| - 1])
  }

  /** The `width` low hexadecimal digits of `n`, in lower case. */
  function RenderHex(n: nat, width: nat): (r: string)
    ensures |r| == width && AllLowerHex(r)
  {
    if width == 0 then [] else RenderHex(n / 16, width - 1) + [HexChar(n % 16)]
  }

  /** `toString()` of an ObjectId. */
  function IdText(id: BookId): (r: string)
    ensures IsObjectIdText(r) && IsObjectIdHex(r)
  {
    RenderHex(id, MongoIdLength)
  }

  /** The cast of request text to an ObjectId: 24 hexadecimal digits in either case
      cast to their value; any other text does not cast. */
  function CastObjectId(s: string): (r: Option<BookId>)
    ensures r.Some? <==> IsObjectIdHex(s)
    ensures r.Some? ==> r.value < ObjectIdBound
  {
    if IsObjectIdHex(s) then Some(ParseHex(s)) else None
  }

  /** Every text the cast reads passes `isMongoId`. */
  lemma {:induction false} CastableIsMongoId(s: string)
    requires CastObjectId(s).Some?
    ensures IsMongoId(s)
  {
  }

  /** `0x` followed by 22 zeros passes `isMongoId` but does not cast, so `findById`
      throws on it. */
  lemma {:induction false} PrefixedIdDoesNotCast()
    ensures var s := "0x" + Zeros(MongoIdLength - 2);
      IsMongoId(s) && CastObjectId(s).None?
  {
    var s := "0x" + Zeros(MongoIdLength - 2);
    assert HasHexPrefix(s);
    assert s[2..] == Zeros(MongoIdLength - 2);
    assert !IsHexDigit(s[1]);
  }

  /** Reading back the digits of a number that fits them gives the number. */
  lemma {:induction false} ParseRender(n: nat, w: nat)
    requires n < Pow16(w)
    ensures ParseHex(RenderHex(n, w)) == n
  {
    if w > 0 {
      var r := RenderHex(n, w);
      assert n / 16 < Pow16(w - 1);
      ParseRender(n / 16, w - 1);
      assert r[..w - 1] == RenderHex(n / 16, w - 1);
    }
  }

  /** Writing out the value of lower-case digits gives the digits back. */
  lemma {:induction false} RenderParse(s: string)
    requires AllLowerHex(s)
    ensures RenderHex(ParseHex(s), |s|) == s
  {
    if s != [] {
      var w := |s|;
      var p, d := ParseHex(s[..w - 1]), HexValue(s[w - 1]);
      DigitDivMod(p, d);
      RenderParse(s[..w - 1]);
      HexCharOfValue(s[w - 1]);
      assert s == s[..w - 1] + [s[w - 1]];
    }
  }

  lemma {:induction false} DigitDivMod(p: nat, d: nat)
    requires d < 16
    ensures (p * 16 + d) / 16 == p && (p * 16 + d) % 16 == d
  {
  }

  /** A stored id's text is the one spelling of it that equals its text: request text
      equals `toString()` of an id exactly when it is in lower case and casts to
      that id. */
  lemma {:induction false} TextMatchesId(id: BookId, s: string)
    requires id < ObjectIdBound
    ensures IdText(id) == s <==> IsObjectIdText(s) && CastObjectId(s) == Some(id)
  {
    if IdText(id) == s {
      ParseRender(id, MongoIdLength);
    }
    if IsObjectIdText(s) && CastObjectId(s) == Some(id) {
      RenderParse(s);
    }
  }

  function Zeros(w: nat): (r: string)
    ensures |r| == w && forall i :: 0 <= i < w ==> r[i] == '0'
  {
    seq(w, _ => '0')
  }

  lemma {:induction false} ParseZeros(w: nat)
    ensures ParseHex(Zeros(w)) == 0
  {
    if w > 0 {
      assert Zeros(w)[..w - 1] == Zeros(w - 1);
      ParseZeros(w - 1);
    }
  }

  lemma {:induction false} RenderZero(w: nat)
    ensures RenderHex(0, w) == Zeros(w)
  {
    if w > 0 {
      RenderZero(w - 1);
    }
  }
}
