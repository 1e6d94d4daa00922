/** The creation time both playlist cards derive from a MongoDB ObjectId:
    `parseInt(id.slice(0, 8), 16) * 1000`. An ObjectId is 12 bytes whose
    first 4 are the creation time in Unix seconds, big-endian; its string
    form is 24 lower-case hexadecimal digits. */
module ObjectIdTime {
  import opened Basics
  import Strings

  predicate IsHexDigit(c: char)
  {
    ('0' <= c <= '9') || ('a' <= c <= 'f') || ('A' <= c <= 'F')
  }

  function HexDigitValue(c: char): (v: nat)
    requires IsHexDigit(c)
    ensures v < 16
  {
    if '0' <= c <= '9' then c as int - '0' as int
    else if 'a' <= c <= 'f' then c as int - 'a' as int + 10
    else c as int - 'A' as int + 10
  }

  /** Length of the run of hexadecimal digits at the front of `s`. */
  function HexRun(s: string): (n: nat)
    ensures n <= |s|
    ensures forall i :: 0 <= i < n ==> IsHexDigit(s[i])
    ensures n < |s| ==> !IsHexDigit(s[n])
  {
    if |s| > 0 && IsHexDigit(s[0]) then 1 + HexRun(s[1..]) else 0
  }

  /** The number a string of hexadecimal digits denotes, most significant first. */
  function HexValue(ds: string): nat
    requires forall i :: 0 <= i < |ds| ==> IsHexDigit(ds[i])
  {
    if |ds| == 0 then 0
    else HexValue(ds[..|ds| - 1]) * 16 + HexDigitValue(ds[|ds| - 1])
  }

  /** `parseInt(s, 16)`: leading whitespace is skipped, then an optional sign,
      then an optional `0x`/`0X`, then the longest run of hexadecimal digits.
      `None` stands for `NaN` (no digit at all). */
  function ParseIntHex(s: string): Option<int>
  {
    var t := Strings.TrimStart(s);
    var negative := |t| > 0 && t[0] == '-';
    var u := if |t| > 0 && (t[0] == '-' || t[0] == '+') then t[1..] else t;
    var v := if |u| >= 2 && u[0] == '0' && (u[1] == 'x' || u[1] == 'X') then u[2..] else u;
    var n := HexRun(v);
    if n == 0 then None
    else
      var magnitude: int := HexValue(v[..n]);
      Some(if negative then -magnitude else magnitude)
  }

  /** `parseInt(id.slice(0, 8), 16) * 1000`, `None` when that is `NaN`. */
  function CreationMillis(id: string): Option<int>
  {
    var prefix := if |id| <= 8 then id else id[..8];
    match ParseIntHex(prefix)
    case None => None
    case Some(seconds) => Some(seconds * 1000)
  }

  // ---------------------------------------------------------------------
  // The ObjectId side: bytes, their hexadecimal form, the timestamp field

  type Byte = b: int | 0 <= b < 256

  function HexChar(d: nat): (c: char)
    requires d < 16
    ensures IsHexDigit(c) && HexDigitValue(c) == d
  {
    "0123456789abcdef"[d]
  }

  /** The hexadecimal string form of an ObjectId (`toString()`): two lower-case digits per byte. */
  function ToHex(bytes: seq<Byte>): (s: string)
    ensures |s| == 2 * |bytes|
    ensures forall i :: 0 <= i < |s| ==> IsHexDigit(s[i]) && s[i] != 'x' && s[i] != 'X'
  {
    if |bytes| == 0 then ""
    else
      var b := bytes[|bytes| - 1];
      ToHex(bytes[..|bytes| - 1]) + [HexChar(b / 16), HexChar(b % 16)]
  }

  /** A byte string read as a big-endian unsigned number. */
  function BigEndian(bytes: seq<Byte>): nat
  {
    if |bytes| == 0 then 0 else BigEndian(bytes[..|bytes| - 1]) * 256 + bytes[|bytes| - 1]
  }

  /** The seconds field of an ObjectId: four big-endian bytes. */
  function SecondsBytes(t: nat): (bytes: seq<Byte>)
    requires t < 0x1_0000_0000
    ensures |bytes| == 4
  {
    var q1 := t / 256;
    var q2 := q1 / 256;
    assert q2 / 256 < 256;
    [q2 / 256, q2 % 256, q1 % 256, t % 256]
  }

  /** Appending a digit shifts the value one hexadecimal place. */
  lemma HexValueSnoc(h: string, c: char)
    requires forall i :: 0 <= i < |h| ==> IsHexDigit(h[i])
    requires IsHexDigit(c)
    ensures HexValue(h + [c]) == HexValue(h) * 16 + HexDigitValue(c)
  {
    assert (h + [c])[..|h|] == h;
  }

  lemma ByteDigits(a: nat, b: Byte)
    ensures (a * 16 + b / 16) * 16 + b % 16 == a * 256 + b
  {
  }

  lemma {:induction false} HexValueOfToHex(bytes: seq<Byte>)
    ensures HexValue(ToHex(bytes)) == BigEndian(bytes)
  {
    if |bytes| > 0 {
      var init := bytes[..|bytes| - 1];
      var b := bytes[|bytes| - 1];
      HexValueOfToHex(init);
      var h := ToHex(init);
      var hi, lo := HexChar(b / 16), HexChar(b % 16);
      assert ToHex(bytes) == (h + [hi]) + [lo];
      HexValueSnoc(h, hi);
      HexValueSnoc(h + [hi], lo);
      ByteDigits(BigEndian(init), b);
    }
  }

  lemma {:induction false} ToHexPrefix(bytes: seq<Byte>, k: nat)
    requires k <= |bytes|
    ensures ToHex(bytes)[..2 * k] == ToHex(bytes[..k])
  {
    if k < |bytes| {
      var init := bytes[..|bytes| - 1];
      ToHexPrefix(init, k);
      assert init[..k] == bytes[..k];
    } else {
      assert bytes[..k] == bytes;
    }
  }

  lemma {:induction false} HexRunOfDigits(s: string)
    requires forall i :: 0 <= i < |s| ==> IsHexDigit(s[i])
    ensures HexRun(s) == |s|
  {
    if |s| > 0 {
      HexRunOfDigits(s[1..]);
    }
  }

  lemma TrimStartOfNonSpace(s: string)
    requires |s| > 0 && !Strings.IsSpace(s[0])
    ensures Strings.TrimStart(s) == s
  {
    assert Strings.LeadingSpaces(s) == 0;
  }

  lemma HexDigitNotSpace(c: char)
    requires IsHexDigit(c)
    ensures !Strings.IsSpace(c)
  {
  }

  /** A string made only of hexadecimal digits (none of them an `x`) parses to the number it denotes. */
  lemma ParseIntHexOfDigits(s: string)
    requires |s| > 0
    requires forall i :: 0 <= i < |s| ==> IsHexDigit(s[i]) && s[i] != 'x' && s[i] != 'X'
    ensures ParseIntHex(s) == Some(HexValue(s))
  {
    HexDigitNotSpace(s[0]);
    TrimStartOfNonSpace(s);
    HexRunOfDigits(s);
    assert s[..|s|] == s;
  }

  /** The creation time read from an ObjectId's string form is its leading
      four bytes, big-endian, in milliseconds. */
  lemma CreationMillisOfObjectId(oid: seq<Byte>)
    requires |oid| == 12
    ensures CreationMillis(ToHex(oid)) == Some(BigEndian(oid[..4]) * 1000)
  {
    var s := ToHex(oid);
    ToHexPrefix(oid, 4);
    ParseIntHexOfDigits(s[..8]);
    HexValueOfToHex(oid[..4]);
  }

  /** Round trip: an ObjectId generated at second `t` reads back as `t * 1000`. */
  lemma CreationMillisRoundTrip(t: nat, rest: seq<Byte>)
    requires t < 0x1_0000_0000
    requires |rest| == 8
    ensures CreationMillis(ToHex(SecondsBytes(t) + rest)) == Some(t * 1000)
  {
    var oid := SecondsBytes(t) + rest;
    assert oid[..4] == SecondsBytes(t);
    CreationMillisOfObjectId(oid);
    SecondsBytesValue(t);
  }

  lemma SecondsBytesValue(t: nat)
    requires t < 0x1_0000_0000
    ensures BigEndian(SecondsBytes(t)) == t
  {
    var q1 := t / 256;
    var q2 := q1 / 256;
    BigEndian4(q2 / 256, q2 % 256, q1 % 256, t % 256);
    assert q2 == (q2 / 256) * 256 + q2 % 256;
    assert q1 == q2 * 256 + q1 % 256;
    assert t == q1 * 256 + t % 256;
  }

  lemma BigEndian4(a: Byte, b: Byte, c: Byte, d: Byte)
    ensures BigEndian([a, b, c, d]) == ((a * 256 + b) * 256 + c) * 256 + d
  {
    assert [a][..0] == [];
    assert BigEndian([a]) == a;
    assert [a, b][..1] == [a];
    assert BigEndian([a, b]) == a * 256 + b;
    assert [a, b, c][..2] == [a, b];
    assert BigEndian([a, b, c]) == (a * 256 + b) * 256 + c;
    assert [a, b, c, d][..3] == [a, b, c];
  }
}
