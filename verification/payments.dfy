/** The mobile-money phone normaliser of the payments service (`validatePhoneNumber`):
    keep the digits, turn a leading trunk `0` into the country code, and put the country
    code in front of anything that does not already start with it. */
module Payments {
  import opened Seqs
  import opened Text

  /** Kenya's country calling code. */
  const CountryCode: string := "254"

  /** `phone.replace(/\D/g, "")`: the decimal digits of `phone`, in order. */
  function StripNonDigits(phone: string): (r: string)
    ensures AllDigits(r)
    ensures |r| <= |phone|
  {
    Filter(phone, IsDigit)
  }

  /** The canonical international form of a user-entered phone number. */
  function NormalizePhone(phone: string): (r: string)
    ensures AllDigits(r)
    ensures StartsWith(r, CountryCode)
    ensures var d := StripNonDigits(phone);
      StartsWith(d, "0") ==> r == CountryCode + d[1..]
    ensures var d := StripNonDigits(phone);
      !StartsWith(d, "0") && !StartsWith(d, CountryCode) ==> r == CountryCode + d
    ensures var d := StripNonDigits(phone);
      StartsWith(d, CountryCode) ==> r == d
  {
    var digits := StripNonDigits(phone);
    assert StartsWith(digits, CountryCode) ==> digits[0] == CountryCode[0];
    var local := if StartsWith(digits, "0") then CountryCode + digits[1..] else digits;
    if StartsWith(local, CountryCode) then local else CountryCode + local
  }

  /** A string of digits is its own digit string. */
  lemma StripDigitsIsIdentity(s: string)
    requires AllDigits(s)
    ensures StripNonDigits(s) == s
  {
    FilterAllMatch(s, IsDigit);
  }

  /** Normalising is idempotent: a normalised number normalises to itself. */
  lemma NormalizeIdempotent(phone: string)
    ensures NormalizePhone(NormalizePhone(phone)) == NormalizePhone(phone)
  {
    var r := NormalizePhone(phone);
    StripDigitsIsIdentity(r);
    assert r[..1] == CountryCode[..1];
  }

  /** Input with no digits at all normalises to the bare country code. */
  lemma NoDigitsGivesCountryCode(phone: string)
    requires forall i :: 0 <= i < |phone| ==> !IsDigit(phone[i])
    ensures NormalizePhone(phone) == CountryCode
  {
    FilterNoneMatch(phone, IsDigit);
  }

  /** Characters that are not digits are discarded wherever they appear. */
  lemma {:induction false} NonDigitsIgnored(a: string, c: char, b: string)
    requires !IsDigit(c)
    ensures NormalizePhone(a + [c] + b) == NormalizePhone(a + b)
  {
    var left := Filter(a, IsDigit);
    var right := Filter(b, IsDigit);
    FilterConcat(a, [c], IsDigit);
    assert Filter([c], IsDigit) == [];
    FilterConcat(a + [c], b, IsDigit);
    FilterConcat(a, b, IsDigit);
    assert StripNonDigits(a + [c] + b) == left + right;
  }
}
