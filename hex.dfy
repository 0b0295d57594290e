/** `bytes.hex()` and `bytes.fromhex(s)`, the encoding the audit signer stores signatures and keys in. */
module Hex {
  import opened Wrappers
  import opened Bytes

  const Digits: string := "0123456789abcdef"

  predicate IsLowerHexDigit(c: char) {
    ('0' <= c <= '9') || ('a' <= c <= 'f')
  }

  /** Value of one hexadecimal digit in either case, as `bytes.fromhex` accepts it. */
  function DigitValue(c: char): (v: Option<nat>)
    ensures v.Some? ==> v.value < 16
    ensures v.Some? <==> ('0' <= c <= '9') || ('a' <= c <= 'f') || ('A' <= c <= 'F')
  {
    if '0' <= c <= '9' then Some(c as int - '0' as int)
    else if 'a' <= c <= 'f' then Some(c as int - 'a' as int + 10)
    else if 'A' <= c <= 'F' then Some(c as int - 'A' as int + 10)
    else None
  }

  /** ASCII whitespace, which `bytes.fromhex` skips between byte pairs. */
  predicate IsSpace(c: char) {
    c == ' ' || c == '\t' || c == '\n' || c == '\r' || c as int == 11 || c as int == 12
  }

  /** `b.hex()`: two lower-case digits per byte, high nibble first. */
  function ToHex(b: seq<byte>): (s: string)
    ensures |s| == 2 * |b|
    ensures forall i :: 0 <= i < |s| ==> IsLowerHexDigit(s[i])
  {
    if b == [] then ""
    else [Digits[b[0] / 16], Digits[b[0] % 16]] + ToHex(b[1..])
  }

  /** `bytes.fromhex(s)`: None where Python raises ValueError (an odd digit out, or a non-hex character). */
  function FromHex(s: string): (r: Option<seq<byte>>)
    ensures r.Some? ==> |r.value| <= |s| / 2
  {
    if s == [] then Some([])
    else if IsSpace(s[0]) then FromHex(s[1..])
    else if |s| < 2 then None
    else
      match (DigitValue(s[0]), DigitValue(s[1]))
      case (Some(hi), Some(lo)) =>
        (match FromHex(s[2..])
         case Some(rest) => Some([(hi * 16 + lo) as byte] + rest)
         case None => None)
      case _ => None
  }

  lemma DigitRoundTrip(v: nat)
    requires v < 16
    ensures DigitValue(Digits[v]) == Some(v)
  {
  }

  /** Decoding the encoding gives back the bytes: `bytes.fromhex(b.hex()) == b`. */
  lemma {:induction false} FromHexToHex(b: seq<byte>)
    ensures FromHex(ToHex(b)) == Some(b)
  {
    if b != [] {
      var s := ToHex(b);
      var hi, lo := b[0] / 16, b[0] % 16;
      assert s == [Digits[hi], Digits[lo]] + ToHex(b[1..]);
      DigitRoundTrip(hi);
      DigitRoundTrip(lo);
      assert !IsSpace(s[0]);
      assert s[2..] == ToHex(b[1..]);
      FromHexToHex(b[1..]);
      assert hi * 16 + lo == b[0];
      assert [b[0]] + b[1..] == b;
    }
  }
}
