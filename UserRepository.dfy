/**
 * The pure parts of the user repository (server/src/repos/user.ts): the
 * session lifetime constant and the session-secret encoder `generateSecret`.
 * The random bytes it draws are a parameter here.
 */
module UserRepository {
  import opened Wrappers

  /** An element of a `Uint8Array`. */
  newtype byte = x: int | 0 <= x < 256

  /** `JWT_EXP`: the session lifetime in milliseconds. */
  const JwtExp: int := 60 * 60 * 24 * 30 * 1000

  /** How many random bytes `generateSecret` draws. */
  const SecretBytes: nat := 32

  lemma JwtExpIsThirtyDays()
    ensures JwtExp == 30 * 86400000 == 2592000000
  {
  }

  const HexDigits: string := "0123456789abcdef"

  /** The lower-case digit that `Number.prototype.toString(16)` writes for `d`. */
  function HexDigit(d: int): char
    requires 0 <= d < 16
  {
    HexDigits[d]
  }

  /** A lower-case hexadecimal digit, `0-9a-f`. */
  predicate IsLowerHex(c: char)
  {
    '0' <= c <= '9' || 'a' <= c <= 'f'
  }

  lemma HexDigitIsLowerHex(d: int)
    requires 0 <= d < 16
    ensures IsLowerHex(HexDigit(d))
  {
  }

  /** `b.toString(16)`: the fewest lower-case hexadecimal digits, so one digit below 16. */
  function ToHex(b: byte): (r: string)
    ensures 1 <= |r| <= 2 && (|r| == 1 <==> b < 16)
    ensures forall k :: 0 <= k < |r| ==> IsLowerHex(r[k])
  {
    HexDigitIsLowerHex(b as int / 16);
    HexDigitIsLowerHex(b as int % 16);
    if b < 16 then [HexDigit(b as int)]
    else [HexDigit(b as int / 16), HexDigit(b as int % 16)]
  }

  /** `s.padStart(2, "0")`. */
  function PadStart2(s: string): (r: string)
    ensures |r| == if |s| >= 2 then |s| else 2
    ensures r[|r| - |s|..] == s
    ensures forall k :: 0 <= k < |r| - |s| ==> r[k] == '0'
  {
    if |s| >= 2 then s else seq(2 - |s|, _ => '0') + s
  }

  /** One byte as written by `generateSecret`'s map callback. */
  function ByteHex(b: byte): (r: string)
    ensures |r| == 2
    ensures forall k :: 0 <= k < |r| ==> IsLowerHex(r[k])
  {
    PadStart2(ToHex(b))
  }

  /** The callback writes two digits, high nibble first, whichever branch `toString` took. */
  lemma ByteHexDigits(b: byte)
    ensures ByteHex(b) == [HexDigit(b as int / 16), HexDigit(b as int % 16)]
  {
  }

  /** `Array.from(bytes).map(ByteHex).join("")`. */
  function HexEncode(bytes: seq<byte>): (r: string)
    ensures |r| == 2 * |bytes|
    ensures forall k :: 0 <= k < |r| ==> IsLowerHex(r[k])
  {
    if bytes == [] then ""
    else
      ByteHexDigits(bytes[0]);
      HexDigitIsLowerHex(bytes[0] as int / 16);
      HexDigitIsLowerHex(bytes[0] as int % 16);
      ByteHex(bytes[0]) + HexEncode(bytes[1..])
  }

  /** `generateSecret()`, given the 32 bytes it draws from `crypto.getRandomValues`. */
  function GenerateSecret(random: seq<byte>): (r: string)
    requires |random| == SecretBytes
    ensures |r| == 64
    ensures forall k :: 0 <= k < |r| ==> IsLowerHex(r[k])
  {
    HexEncode(random)
  }

  /** The secret of a non-empty byte array starts with the two digits of its first byte. */
  lemma HexEncodeCons(bytes: seq<byte>)
    requires |bytes| > 0
    ensures HexEncode(bytes) ==
            [HexDigit(bytes[0] as int / 16), HexDigit(bytes[0] as int % 16)] + HexEncode(bytes[1..])
  {
    ByteHexDigits(bytes[0]);
  }

  /** Characters 2i and 2i+1 of the secret are the two digits of byte i: byte order is kept. */
  lemma {:induction false} HexEncodeAt(bytes: seq<byte>, i: nat)
    requires i < |bytes|
    ensures HexEncode(bytes)[2 * i] == HexDigit(bytes[i] as int / 16)
    ensures HexEncode(bytes)[2 * i + 1] == HexDigit(bytes[i] as int % 16)
  {
    HexEncodeCons(bytes);
    if i > 0 {
      var tail := HexEncode(bytes[1..]);
      HexEncodeAt(bytes[1..], i - 1);
      assert bytes[1..][i - 1] == bytes[i];
      assert HexEncode(bytes)[2 * i] == tail[2 * (i - 1)];
      assert HexEncode(bytes)[2 * i + 1] == tail[2 * (i - 1) + 1];
    }
  }

  /** The value of a lower-case hexadecimal digit; `None` for any other character. */
  function DigitValue(c: char): (r: Option<int>)
    ensures r.Some? ==> 0 <= r.value < 16 && HexDigit(r.value) == c
  {
    if '0' <= c <= '9' then Some(c as int - '0' as int)
    else if 'a' <= c <= 'f' then Some(c as int - 'a' as int + 10)
    else None
  }

  /** `DigitValue` inverts `HexDigit`. */
  lemma DigitValueOfHexDigit(d: int)
    requires 0 <= d < 16
    ensures DigitValue(HexDigit(d)) == Some(d)
  {
  }

  /** Reads a secret back into bytes, two digits per byte. */
  function HexDecode(s: string): Option<seq<byte>>
  {
    if |s| < 2 then (if s == [] then Some([]) else None)
    else
      var hi, lo, rest := DigitValue(s[0]), DigitValue(s[1]), HexDecode(s[2..]);
      if hi.Some? && lo.Some? && rest.Some? then Some([(hi.value * 16 + lo.value) as byte] + rest.value)
      else None
  }

  /** Decoding two digits followed by more text. */
  lemma HexDecodeCons(hi: int, lo: int, rest: string)
    requires 0 <= hi < 16 && 0 <= lo < 16
    ensures HexDecode([HexDigit(hi), HexDigit(lo)] + rest) ==
            if HexDecode(rest).Some? then Some([(hi * 16 + lo) as byte] + HexDecode(rest).value) else None
  {
    var s := [HexDigit(hi), HexDigit(lo)] + rest;
    assert s[0] == HexDigit(hi) && s[1] == HexDigit(lo) && s[2..] == rest;
    DigitValueOfHexDigit(hi);
    DigitValueOfHexDigit(lo);
  }

  /** Decoding a secret gives back the bytes it was made from. */
  lemma {:induction false} HexRoundTrip(bytes: seq<byte>)
    ensures HexDecode(HexEncode(bytes)) == Some(bytes)
  {
    if bytes != [] {
      var b := bytes[0];
      var hi, lo := b as int / 16, b as int % 16;
      HexEncodeCons(bytes);
      HexRoundTrip(bytes[1..]);
      HexDecodeCons(hi, lo, HexEncode(bytes[1..]));
      assert (hi * 16 + lo) as byte == b;
      assert [b] + bytes[1..] == bytes;
    }
  }

  /** Distinct random draws give distinct secrets. */
  lemma HexEncodeInjective(a: seq<byte>, b: seq<byte>)
    requires HexEncode(a) == HexEncode(b)
    ensures a == b
  {
    HexRoundTrip(a);
    HexRoundTrip(b);
  }
}
