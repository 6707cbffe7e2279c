/**
 * The token codec of src/lib/tokens.ts: the token length, the two expiry offsets, the hex
 * encoding of random bytes and the expiry timestamp. `crypto.randomBytes` becomes the byte
 * sequence the caller passes in, `Date.now()` the explicit `now`, and SHA-256 (`hashToken`)
 * an opaque function supplied with the store's platform (see CredentialStore.Platform).
 */
module Tokens {
  import opened Common

  type Byte = x: int | 0 <= x < 256

  /** Milliseconds since the Unix epoch, as `Date.now()` and `Date.getTime()` give them. */
  type Time = int

  const TokenByteLength: nat := 32
  const VerificationExpiryMinutes: int := 60 * 24
  const PasswordResetExpiryMinutes: int := 60

  predicate IsLowerHex(c: char) {
    ('0' <= c <= '9') || ('a' <= c <= 'f')
  }

  function HexDigit(d: int): (c: char)
    requires 0 <= d < 16
    ensures IsLowerHex(c)
  {
    if d < 10 then ('0' as int + d) as char else ('a' as int + d - 10) as char
  }

  function HexValue(c: char): (d: int)
    requires IsLowerHex(c)
    ensures 0 <= d < 16 && HexDigit(d) == c
  {
    if c <= '9' then c as int - '0' as int else c as int - 'a' as int + 10
  }

  /** `Buffer.toString("hex")`: two lower-case hex digits per byte, high nibble first. */
  function HexEncode(bytes: seq<Byte>): (s: string)
    ensures |s| == 2 * |bytes|
    ensures forall i :: 0 <= i < |s| ==> IsLowerHex(s[i])
  {
    if bytes == [] then "" else [HexDigit(bytes[0] / 16), HexDigit(bytes[0] % 16)] + HexEncode(bytes[1..])
  }

  /** The strict inverse of `HexEncode`: an even number of lower-case hex digits, or nothing. */
  function HexDecode(s: string): (r: Option<seq<Byte>>)
    ensures r.Some? ==> 2 * |r.value| == |s|
  {
    if s == [] then Some([])
    else if |s| == 1 || !IsLowerHex(s[0]) || !IsLowerHex(s[1]) then None
    else
      match HexDecode(s[2..])
      case None => None
      case Some(rest) => Some([HexValue(s[0]) * 16 + HexValue(s[1])] + rest)
  }

  lemma ByteDigits(b: Byte)
    ensures 0 <= b / 16 < 16 && 0 <= b % 16 < 16 && (b / 16) * 16 + b % 16 == b
  {
  }

  /** Decoding an encoding gives back the bytes. */
  lemma {:induction false} HexRoundTrip(bytes: seq<Byte>)
    ensures HexDecode(HexEncode(bytes)) == Some(bytes)
  {
    if bytes != [] {
      var b := bytes[0];
      ByteDigits(b);
      var hi, lo := HexDigit(b / 16), HexDigit(b % 16);
      var s := HexEncode(bytes);
      assert s == [hi, lo] + HexEncode(bytes[1..]);
      assert s[0] == hi && s[1] == lo && s[2..] == HexEncode(bytes[1..]);
      HexRoundTrip(bytes[1..]);
      assert HexValue(hi) * 16 + HexValue(lo) == b;
      assert [b] + bytes[1..] == bytes;
    }
  }

  /** `generateToken()`: the hex text of the random bytes `crypto.randomBytes(n)` returned. */
  function GenerateToken(random: seq<Byte>): (token: string)
    ensures HexDecode(token) == Some(random)
  {
    HexRoundTrip(random);
    HexEncode(random)
  }

  /** With the default 32 random bytes the token is 64 lower-case hex digits. */
  lemma GeneratedTokenShape(random: seq<Byte>)
    requires |random| == TokenByteLength
    ensures |GenerateToken(random)| == 64
    ensures forall i :: 0 <= i < 64 ==> IsLowerHex(GenerateToken(random)[i])
  {
  }

  /** Different random bytes never give the same token. */
  lemma GenerateTokenInjective(a: seq<Byte>, b: seq<Byte>)
    requires GenerateToken(a) == GenerateToken(b)
    ensures a == b
  {
    assert Some(a) == HexDecode(GenerateToken(a)) == HexDecode(GenerateToken(b)) == Some(b);
  }

  /** `addMinutesToNow(minutes)` with the clock reading `now` passed in. */
  function AddMinutesToNow(now: Time, minutes: int): (t: Time)
    ensures minutes >= 0 ==> t >= now
  {
    now + minutes * 60 * 1000
  }

  /** Later offsets give later timestamps; in particular a reset token expires before a
      verification token issued at the same instant. */
  lemma AddMinutesMonotone(now: Time, m1: int, m2: int)
    requires m1 < m2
    ensures AddMinutesToNow(now, m1) < AddMinutesToNow(now, m2)
  {
  }

  lemma ExpiryOffsets(now: Time)
    ensures AddMinutesToNow(now, VerificationExpiryMinutes) == now + 86_400_000
    ensures AddMinutesToNow(now, PasswordResetExpiryMinutes) == now + 3_600_000
    ensures AddMinutesToNow(now, PasswordResetExpiryMinutes) < AddMinutesToNow(now, VerificationExpiryMinutes)
  {
  }
}
