/**
 The client-side identifier generators of the landing page and the dashboard. Both fill
 a 15-byte array from `crypto.getRandomValues` and map each byte `v` to
 `alphabet[v % alphabet.length]`. The random bytes are an input here.
 */
module RandomIds {

  type Byte = x: int | 0 <= x < 256

  /** The length both pages request. */
  const IdLength := 15

  /** The bytes `crypto.getRandomValues` writes into a `new Uint8Array(15)`. */
  type RandomBlock = s: seq<Byte> | |s| == IdLength witness seq(15, i => 0)

  /** The `n` consecutive characters starting at `first`. */
  function Span(first: char, n: nat): (r: string)
    requires first as int + n <= 0xD800
    ensures |r| == n
    ensures forall i :: 0 <= i < n ==> r[i] as int == first as int + i
  {
    seq(n, i requires 0 <= i < n => (first as int + i) as char)
  }

  /** `generateRandomId`'s alphabet: the upper-case letters, the lower-case letters,
      then the digits, 62 characters in all. */
  const IdAlphabet: string := Span('A', 26) + Span('a', 26) + Span('0', 10)

  /** `generateRandomDigits`' alphabet, `0` to `9`. */
  const Digits: string := Span('0', 10)

  predicate IsAsciiDigit(c: char)
  {
    '0' <= c <= '9'
  }

  predicate IsAsciiAlphanumeric(c: char)
  {
    'A' <= c <= 'Z' || 'a' <= c <= 'z' || IsAsciiDigit(c)
  }

  /** Where an ASCII letter or digit sits in `IdAlphabet`, from its code alone. */
  function AlphabetIndex(c: char): nat
    requires IsAsciiAlphanumeric(c)
  {
    if 'A' <= c <= 'Z' then c as int - 'A' as int
    else if 'a' <= c <= 'z' then 26 + c as int - 'a' as int
    else 52 + c as int - '0' as int
  }

  /** The value of an ASCII digit. */
  function DigitValue(c: char): nat
    requires IsAsciiDigit(c)
  {
    c as int - '0' as int
  }

  /** `IdAlphabet` lists every ASCII letter and digit exactly once: position `k` holds
      the character whose `AlphabetIndex` is `k`. */
  lemma AlphabetLayout(k: nat)
    requires k < |IdAlphabet|
    ensures IsAsciiAlphanumeric(IdAlphabet[k]) && AlphabetIndex(IdAlphabet[k]) == k
  {
    var upper, lower, digits := Span('A', 26), Span('a', 26), Span('0', 10);
    if k < 26 {
      assert IdAlphabet[k] == upper[k];
    } else if k < 52 {
      assert IdAlphabet[k] == lower[k - 26];
    } else {
      assert IdAlphabet[k] == digits[k - 52];
    }
  }

  lemma AlphabetLayoutAll()
    ensures forall k :: 0 <= k < |IdAlphabet| ==>
              IsAsciiAlphanumeric(IdAlphabet[k]) && AlphabetIndex(IdAlphabet[k]) == k
  {
    forall k | 0 <= k < |IdAlphabet|
      ensures IsAsciiAlphanumeric(IdAlphabet[k]) && AlphabetIndex(IdAlphabet[k]) == k
    {
      AlphabetLayout(k);
    }
  }

  /** Every ASCII letter or digit occurs in `IdAlphabet`. */
  lemma AlphabetComplete(c: char)
    requires IsAsciiAlphanumeric(c)
    ensures AlphabetIndex(c) < |IdAlphabet| && IdAlphabet[AlphabetIndex(c)] == c
  {
    var k := AlphabetIndex(c);
    AlphabetLayout(k);
  }

  /** `generateRandomId(len)` with the random array given: character `i` is
      `IdAlphabet[bytes[i] % 62]`. */
  function RandomId(bytes: seq<Byte>): (id: string)
    ensures |id| == |bytes|
    ensures forall i :: 0 <= i < |id| ==> IsAsciiAlphanumeric(id[i]) && AlphabetIndex(id[i]) == bytes[i] % 62
  {
    AlphabetLayoutAll();
    assert |IdAlphabet| == 62;
    seq(|bytes|, i requires 0 <= i < |bytes| => IdAlphabet[bytes[i] % |IdAlphabet|])
  }

  /** `generateRandomDigits(len)` with the random array given: character `i` is the
      digit `bytes[i] % 10`. */
  function RandomDigits(bytes: seq<Byte>): (digits: string)
    ensures |digits| == |bytes|
    ensures forall i :: 0 <= i < |digits| ==> IsAsciiDigit(digits[i]) && DigitValue(digits[i]) == bytes[i] % 10
  {
    assert |Digits| == 10;
    seq(|bytes|, i requires 0 <= i < |bytes| => Digits[bytes[i] % |Digits|])
  }

  /** An identifier pins down its bytes modulo 62, and nothing more: two byte arrays of
      the same length give the same identifier exactly when they agree modulo 62. */
  lemma RandomIdDeterminesResidues(a: seq<Byte>, b: seq<Byte>)
    requires |a| == |b|
    ensures RandomId(a) == RandomId(b) <==> forall i :: 0 <= i < |a| ==> a[i] % 62 == b[i] % 62
  {
    var x, y := RandomId(a), RandomId(b);
    if forall i :: 0 <= i < |a| ==> a[i] % 62 == b[i] % 62 {
      forall i | 0 <= i < |a|
        ensures x[i] == y[i]
      {
        AlphabetComplete(x[i]);
        AlphabetComplete(y[i]);
      }
    }
  }

  /** Every character of the 62-letter alphabet is produced by some byte (bytes 0 to 61
      cover the alphabet), so the identifier alphabet is exactly `[A-Za-z0-9]`. */
  lemma RandomIdReachesEveryCharacter(c: char)
    requires IsAsciiAlphanumeric(c)
    ensures exists v: Byte :: RandomId([v]) == [c]
  {
    var v: Byte := AlphabetIndex(c);
    AlphabetComplete(c);
    assert RandomId([v])[0] == c;
  }

  /** A digit string pins down its bytes modulo 10. */
  lemma RandomDigitsDetermineResidues(a: seq<Byte>, b: seq<Byte>)
    requires |a| == |b|
    ensures RandomDigits(a) == RandomDigits(b) <==> forall i :: 0 <= i < |a| ==> a[i] % 10 == b[i] % 10
  {
    var x, y := RandomDigits(a), RandomDigits(b);
    if RandomDigits(a) == RandomDigits(b) {
      forall i | 0 <= i < |a|
        ensures a[i] % 10 == b[i] % 10
      {
        assert DigitValue(x[i]) == DigitValue(y[i]);
      }
    }
  }
}
