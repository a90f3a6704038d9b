/**
  The built-in schema fragments of the order filter, read as what they
  accept: the `pattern` regular expressions of `/address`, `/wholeNumber`
  and `/hex`, the required-field lists of `/order` and `/signedOrder`, and
  the ASCII lower-casing that builds the second exchange-address pattern.
*/
module Patterns {
  import Fmt

  predicate IsHexDigit(c: char) {
    ('0' <= c <= '9') || ('a' <= c <= 'f') || ('A' <= c <= 'F')
  }

  predicate AllHexDigits(s: string) {
    forall i :: 0 <= i < |s| ==> IsHexDigit(s[i])
  }

  /** `^0x[0-9a-fA-F]{40}$`: the `/address` pattern. */
  predicate IsAddress(s: string) {
    |s| == 42 && s[0] == '0' && s[1] == 'x' && AllHexDigits(s[2..])
  }

  /** `([0-9a-fA-F][0-9a-fA-F])*`, written the way the regular expression reads: pair after pair. */
  predicate HexPairs(s: string) {
    s == [] || (|s| >= 2 && IsHexDigit(s[0]) && IsHexDigit(s[1]) && HexPairs(s[2..]))
  }

  /** `^0x(([0-9a-fA-F][0-9a-fA-F])+)?$`: the `/hex` pattern. */
  predicate IsHex(s: string) {
    |s| >= 2 && s[0] == '0' && s[1] == 'x' && HexPairs(s[2..])
  }

  /** `^\d+$`: the string form of `/wholeNumber` (RE2's `\d` is ASCII). */
  predicate IsWholeNumberString(s: string) {
    |s| > 0 && Fmt.AllDigits(s)
  }

  predicate IsUpper(c: char) {
    'A' <= c <= 'Z'
  }

  /** The lower-case letters, in the order of the upper-case ones. */
  const LowerLetters: string := "abcdefghijklmnopqrstuvwxyz"

  function LowerChar(c: char): (l: char)
    ensures !IsUpper(l)
    ensures IsUpper(c) ==> l == LowerLetters[c as int - 'A' as int]
    ensures !IsUpper(c) ==> l == c
  {
    if IsUpper(c) then (c as int - 'A' as int + 'a' as int) as char else c
  }

  /**
    `strings.ToLower` on the ASCII text of an address: each upper-case
    letter becomes its lower-case letter, every other character stays.
  */
  function ToLower(s: string): (r: string)
    ensures |r| == |s|
    ensures forall i :: 0 <= i < |s| ==> r[i] == LowerChar(s[i])
  {
    if s == [] then [] else [LowerChar(s[0])] + ToLower(s[1..])
  }

  /** The order fields that `/order` lists under `required`, in source order. */
  const OrderRequiredFields: seq<string> := [
    "makerAddress", "takerAddress", "makerFee", "takerFee", "senderAddress",
    "makerAssetAmount", "takerAssetAmount", "makerAssetData", "takerAssetData",
    "salt", "exchangeAddress", "feeRecipientAddress", "expirationTimeSeconds"
  ]

  /** `/signedOrder` requires what `/order` does and a `signature`. */
  const SignedOrderRequiredFields: seq<string> := OrderRequiredFields + ["signature"]

  // ---------------------------------------------------------------- lemmas

  /** The pair-by-pair reading of the hex pattern is "an even number of hex digits". */
  lemma {:induction false} HexPairsIsEvenHex(s: string)
    ensures HexPairs(s) <==> |s| % 2 == 0 && AllHexDigits(s)
  {
    if |s| >= 2 {
      HexPairsIsEvenHex(s[2..]);
      assert AllHexDigits(s) <==> IsHexDigit(s[0]) && IsHexDigit(s[1]) && AllHexDigits(s[2..]) by {
        if IsHexDigit(s[0]) && IsHexDigit(s[1]) && AllHexDigits(s[2..]) {
          forall i | 0 <= i < |s| ensures IsHexDigit(s[i]) {
            if i >= 2 { assert s[i] == s[2..][i - 2]; }
          }
        }
      }
    }
  }

  /** Every address is a `/hex` string of exactly 20 bytes. */
  lemma AddressIsTwentyByteHex(s: string)
    requires IsAddress(s)
    ensures IsHex(s) && (|s| - 2) / 2 == 20
  {
    HexPairsIsEvenHex(s[2..]);
  }

  /** The hex pattern accepts `0x` alone, the empty byte string. */
  lemma EmptyHexAccepted()
    ensures IsHex("0x")
  {
    assert "0x"[2..] == [];
  }

  /** Lower-casing twice is lower-casing once. */
  lemma {:induction false} ToLowerIdempotent(s: string)
    ensures ToLower(ToLower(s)) == ToLower(s)
  {
    if s != [] {
      ToLowerIdempotent(s[1..]);
      assert ToLower(s)[1..] == ToLower(s[1..]);
    }
  }

  /** Lower-casing leaves a string alone exactly when it has no upper-case letter. */
  lemma ToLowerFixedIffNoUpper(s: string)
    ensures ToLower(s) == s <==> forall i :: 0 <= i < |s| ==> !IsUpper(s[i])
  {
    if ToLower(s) == s {
      forall i | 0 <= i < |s| ensures !IsUpper(s[i]) {
        assert ToLower(s)[i] == LowerChar(s[i]);
      }
    }
  }

  /** The lower-case form of an address is an address with no upper-case letter. */
  lemma ToLowerKeepsAddress(s: string)
    requires IsAddress(s)
    ensures IsAddress(ToLower(s))
    ensures forall i :: 0 <= i < |s| ==> !IsUpper(ToLower(s)[i])
  {
    var l := ToLower(s);
    assert l[0] == LowerChar(s[0]) && l[1] == LowerChar(s[1]);
    forall i | 0 <= i < 40 ensures IsHexDigit(l[2..][i]) {
      assert l[2..][i] == LowerChar(s[i + 2]);
      assert s[i + 2] == s[2..][i];
    }
  }

  /** Every formatted natural number is accepted by the whole-number pattern. */
  lemma DigitsAreWholeNumbers(n: nat)
    ensures IsWholeNumberString(Fmt.Digits(n))
  {
  }

  /** The required-field lists: thirteen distinct order fields, and `signature` added once. */
  lemma RequiredFields()
    ensures |OrderRequiredFields| == 13
    ensures forall i, j :: 0 <= i < j < |OrderRequiredFields| ==> OrderRequiredFields[i] != OrderRequiredFields[j]
    ensures "signature" !in OrderRequiredFields
    ensures SignedOrderRequiredFields[..13] == OrderRequiredFields && SignedOrderRequiredFields[13] == "signature"
  {
  }
}
