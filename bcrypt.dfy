/**
 * What bcryptjs reads of a password. `bcrypt.hash` and `bcrypt.compare` encode the password in
 * UTF-8, append a NUL byte (salt versions 2a and 2b), and let the key schedule read those bytes
 * round and round until 72 bytes are taken. Two passwords with the same 72 key bytes are the
 * same password to bcrypt. The routes bound a password to 72 characters, which is 72 bytes only
 * for ASCII text, and they let a password contain U+0000.
 */
module Bcrypt {
  import opened Tokens

  const KeyBytes: nat := 72

  predicate IsAscii(s: string) {
    forall i :: 0 <= i < |s| ==> s[i] as int < 0x80
  }

  predicate NulFree(s: string) {
    forall i :: 0 <= i < |s| ==> s[i] != '\0'
  }

  /** The UTF-8 encoding of one Unicode scalar value: one byte below U+0080, else two to four. */
  function Utf8Char(c: char): (b: seq<Byte>)
    ensures 1 <= |b| <= 4
    ensures |b| == 1 <==> c as int < 0x80
    ensures |b| == 1 ==> b[0] == c as int
    ensures 0x80 <= c as int < 0x800 ==> |b| == 2
  {
    var n := c as int;
    if n < 0x80 then [n]
    else if n < 0x800 then [0xC0 + n / 64, 0x80 + n % 64]
    else if n < 0x1_0000 then [0xE0 + n / 4096, 0x80 + (n / 64) % 64, 0x80 + n % 64]
    else [0xF0 + n / 262144, 0x80 + (n / 4096) % 64, 0x80 + (n / 64) % 64, 0x80 + n % 64]
  }

  /** A string's UTF-8 bytes, character by character. */
  function Utf8(s: string): (b: seq<Byte>)
    ensures |b| >= |s|
  {
    if s == [] then [] else Utf8Char(s[0]) + Utf8(s[1..])
  }

  /** `n` bytes read from `b` round and round, as bcrypt's `streamtoword` reads its key. */
  function Cycle(b: seq<Byte>, n: nat): (r: seq<Byte>)
    requires b != []
    ensures |r| == n
    ensures n <= |b| ==> r == b[..n]
    ensures n >= |b| ==> r[..|b|] == b
    decreases n
  {
    if n <= |b| then b[..n] else b + Cycle(b, n - |b|)
  }

  /**
   * The 72 bytes bcrypt's key schedule takes from a password: its UTF-8 bytes and a NUL, read
   * cyclically. A long password is cut after 72 bytes; a short one is followed by the NUL and
   * then by itself again.
   */
  function Key(pw: string): (k: seq<Byte>)
    ensures |k| == KeyBytes
    ensures |Utf8(pw)| >= KeyBytes ==> k == Utf8(pw)[..KeyBytes]
    ensures |Utf8(pw)| < KeyBytes ==> k[..|Utf8(pw)| + 1] == Utf8(pw) + [0]
  {
    var b := Utf8(pw) + [0];
    assert |Utf8(pw)| >= KeyBytes ==> b[..KeyBytes] == Utf8(pw)[..KeyBytes];
    Cycle(b, KeyBytes)
  }

  /** Reading a doubled sequence round and round gives the same bytes as reading it once. */
  lemma {:induction false} CycleTwice(w: seq<Byte>, n: nat)
    requires w != []
    ensures Cycle(w + w, n) == Cycle(w, n)
    decreases n
  {
    if n <= |w| {
      assert (w + w)[..n] == w[..n];
    } else if n <= 2 * |w| {
      assert Cycle(w, n) == w + w[..n - |w|];
      assert (w + w)[..n] == w + w[..n - |w|];
    } else {
      CycleTwice(w, n - 2 * |w|);
      var rest := Cycle(w, n - 2 * |w|);
      assert Cycle(w, n - |w|) == w + rest;
      assert Cycle(w, n) == (w + w) + rest;
    }
  }

  /** Encoding a concatenation concatenates the encodings. */
  lemma {:induction false} Utf8Append(a: string, b: string)
    ensures Utf8(a + b) == Utf8(a) + Utf8(b)
  {
    if a != [] {
      assert (a + b)[0] == a[0] && (a + b)[1..] == a[1..] + b;
      Utf8Append(a[1..], b);
    } else {
      assert a + b == b;
    }
  }

  /** ASCII text is its own UTF-8 encoding, one byte per character. */
  lemma {:induction false} AsciiUtf8(s: string)
    requires IsAscii(s)
    ensures |Utf8(s)| == |s|
    ensures forall i :: 0 <= i < |s| ==> Utf8(s)[i] == s[i] as int
  {
    if s != [] {
      assert IsAscii(s[1..]) by {
        assert forall i :: 0 <= i < |s[1..]| ==> s[1..][i] == s[i + 1];
      }
      AsciiUtf8(s[1..]);
      assert Utf8(s) == [s[0] as int] + Utf8(s[1..]);
    }
  }

  /** The key of a NUL-free ASCII password of at most 72 characters: its characters, then a NUL if there is room. */
  lemma AsciiKey(s: string)
    requires IsAscii(s) && NulFree(s) && |s| <= KeyBytes
    ensures forall i :: 0 <= i < |s| ==> Key(s)[i] == s[i] as int && Key(s)[i] != 0
    ensures |s| < KeyBytes ==> Key(s)[|s|] == 0
  {
    AsciiUtf8(s);
    if |s| < KeyBytes {
      assert forall i :: 0 <= i <= |s| ==> Key(s)[i] == (Utf8(s) + [0])[i];
    }
  }

  /**
   * Two NUL-free ASCII passwords of at most 72 characters are told apart by bcrypt exactly when
   * they differ.
   */
  lemma AsciiKeyInjective(a: string, b: string)
    requires IsAscii(a) && IsAscii(b) && NulFree(a) && NulFree(b) && |a| <= KeyBytes && |b| <= KeyBytes
    ensures Key(a) == Key(b) <==> a == b
  {
    if Key(a) == Key(b) {
      AsciiKey(a);
      AsciiKey(b);
      if |a| < KeyBytes { assert Key(b)[|a|] == 0; }
      if |b| < KeyBytes { assert Key(a)[|b|] == 0; }
      assert |a| == |b|;
      forall i | 0 <= i < |a|
        ensures a[i] == b[i]
      {
        assert Key(a)[i] == a[i] as int && Key(b)[i] == b[i] as int;
      }
    }
  }

  /**
   * Two distinct passwords within the routes' 8..72 bound that bcrypt cannot tell apart: the
   * NUL bcrypt appends to "abcdefgh" makes its cyclic key that of "abcdefgh", NUL, "abcdefgh".
   */
  lemma NulKeysCollide()
    ensures var a := "abcdefgh";
      var b := "abcdefgh" + "\0" + "abcdefgh";
      && |a| == 8 && |b| == 17 && a != b
      && Key(a) == Key(b)
  {
    var a := "abcdefgh";
    var b := a + "\0" + a;
    Utf8Append(a + "\0", a);
    Utf8Append(a, "\0");
    assert Utf8("\0") == [0];
    var w := Utf8(a) + [0];
    assert Utf8(b) + [0] == w + w;
    CycleTwice(w, KeyBytes);
    assert |a| != |b|;
  }

  function Repeat(c: char, n: nat): (r: string)
    ensures |r| == n && forall i :: 0 <= i < n ==> r[i] == c
  {
    if n == 0 then [] else [c] + Repeat(c, n - 1)
  }

  lemma {:induction false} Utf8RepeatLength(c: char, n: nat)
    ensures |Utf8(Repeat(c, n))| == n * |Utf8Char(c)|
  {
    if n > 0 {
      Utf8RepeatLength(c, n - 1);
      assert Utf8(Repeat(c, n)) == Utf8Char(c) + Utf8(Repeat(c, n - 1));
    }
  }

  /**
   * Two distinct passwords of 37 characters, within the routes' 8..72 bound, that bcrypt cannot
   * tell apart: thirty-six "é" fill the 72 key bytes, so the last character is never read.
   */
  lemma MultibyteKeysCollide()
    ensures var a := Repeat('é', 36) + "a";
      var b := Repeat('é', 36) + "b";
      && |a| == 37 && |b| == 37 && a != b
      && Key(a) == Key(b)
  {
    var x := Repeat('é', 36);
    Utf8RepeatLength('é', 36);
    assert |Utf8(x)| == KeyBytes;
    Utf8Append(x, "a");
    Utf8Append(x, "b");
    assert Key(x + "a") == Utf8(x) by { assert Utf8(x + "a")[..KeyBytes] == Utf8(x); }
    assert Key(x + "b") == Utf8(x) by { assert Utf8(x + "b")[..KeyBytes] == Utf8(x); }
    assert (x + "a")[36] != (x + "b")[36];
  }
}
