/** The payment page: its order summary (subtotal, flat shipping, 8% tax), the form rules
    it checks before submitting, and the payment request it builds from the form. */
module PaymentPage {
  import opened Base
  import opened Seqs
  import opened Text
  import opened CartSlice
  import opened CartPage
  import opened Payments

  // ---------------------------------------------------------------------------
  // order summary
  // ---------------------------------------------------------------------------

  /** Tax rate applied to the subtotal. */
  const TaxRate: real := 0.08

  /** Subtotal + shipping + 8% of the subtotal, in cents. Tax makes the figure fractional,
      so it is a `real`; it is both the request's `amount` and the "Pay" figure. */
  function PaymentTotal(cart: Cart): (r: real)
    ensures cart == [] ==> r == Shipping as real
    ensures PositiveQuantities(cart) ==> r >= CartTotal(cart) as real
  {
    var subtotal := TotalAmount(cart) as real;
    subtotal + Shipping as real + subtotal * TaxRate
  }

  /** The payment page charges the checkout total of the cart page plus 8% of the
      subtotal; for a cart of positive quantities that is never less, and the empty cart
      pays the shipping charge alone. */
  lemma PaymentTotalAddsTax(cart: Cart)
    ensures PaymentTotal(cart) == CartTotal(cart) as real + TaxRate * TotalAmount(cart) as real
    ensures PositiveQuantities(cart) ==> PaymentTotal(cart) >= CartTotal(cart) as real
    ensures cart == [] ==> PaymentTotal(cart) == Shipping as real
  {
  }

  // ---------------------------------------------------------------------------
  // phone pattern  /^(?:254|\+254|0)([7][0-9]|[1][0-1])[0-9]{7}$/
  // ---------------------------------------------------------------------------

  /** The part after the prefix: `7` and a digit, or `10`, or `11`, then seven digits. */
  predicate SubscriberNumber(s: string)
  {
    && |s| == 9
    && ((s[0] == '7' && IsDigit(s[1])) || (s[0] == '1' && (s[1] == '0' || s[1] == '1')))
    && AllDigits(s[2..])
  }

  /** The phone rule's pattern: one of the prefixes `254`, `+254` or `0`, then a subscriber
      number, and nothing else. The prefixes begin with different characters, so at most
      one alternative can apply. */
  function MatchesPhonePattern(s: string): (r: bool)
    ensures r ==> |s| == 10 || |s| == 12 || |s| == 13
    ensures r ==> |s| >= 9 && SubscriberNumber(s[|s| - 9..])
  {
    || (StartsWith(s, "254") && SubscriberNumber(s[3..]))
    || (StartsWith(s, "+254") && SubscriberNumber(s[4..]))
    || (StartsWith(s, "0") && SubscriberNumber(s[1..]))
  }

  /** Accepted numbers have 10, 12 or 13 characters, and their last nine form the
      subscriber number. */
  lemma PhonePatternShape(s: string)
    requires MatchesPhonePattern(s)
    ensures |s| == 10 || |s| == 12 || |s| == 13
    ensures |s| >= 9 && SubscriberNumber(s[|s| - 9..])
    ensures |s| == 10 <==> s[0] == '0'
    ensures |s| == 13 <==> s[0] == '+'
  {
  }

  /** A subscriber number is all digits. */
  lemma SubscriberNumberIsDigits(s: string)
    requires SubscriberNumber(s)
    ensures AllDigits(s)
  {
    assert forall i :: 2 <= i < 9 ==> s[i] == s[2..][i - 2];
  }

  /** Every number the pattern accepts normalises to the country code followed by its nine
      subscriber digits. */
  lemma AcceptedPhoneNormalizes(s: string)
    requires MatchesPhonePattern(s)
    ensures |NormalizePhone(s)| == 12
    ensures AllDigits(NormalizePhone(s))
    ensures NormalizePhone(s) == CountryCode + s[|s| - 9..]
  {
    var body := s[|s| - 9..];
    PhonePatternShape(s);
    SubscriberNumberIsDigits(body);
    if s[0] == '+' {
      assert s == ['+'] + (s[1..4] + body);
      assert s[1..4] == CountryCode;
      FilterAllMatch(CountryCode + body, IsDigit);
      FilterConcat(['+'], CountryCode + body, IsDigit);
      assert StripNonDigits(s) == CountryCode + body;
    } else {
      assert s == s[..|s| - 9] + body;
      assert AllDigits(s);
      StripDigitsIsIdentity(s);
    }
  }

  // ---------------------------------------------------------------------------
  // form and request
  // ---------------------------------------------------------------------------

  /** The form's fields. `paymentMethod` holds the key of the selected tab. */
  datatype PaymentForm = PaymentForm(
    phoneNumber: string,
    firstname: string,
    lastname: string,
    email: string,
    paymentMethod: string)

  datatype BillingAddress = BillingAddress(firstname: string, lastname: string, email: string)

  datatype PaymentRequest = PaymentRequest(
    paymentMethod: string,
    phoneNo: Option<string>,
    amount: real,
    billingAddress: BillingAddress)

  const Mpesa: string := "mpesa"

  /** A required string field is one that is not empty. */
  predicate Required(s: string)
  {
    |s| > 0
  }

  /** The phone rule: checked only for the mobile-money method, where the number is
      required and must match the pattern. */
  predicate PhoneFieldValid(form: PaymentForm)
  {
    form.paymentMethod == Mpesa ==> Required(form.phoneNumber) && MatchesPhonePattern(form.phoneNumber)
  }

  /** The whole validation schema (the email format rule is not modelled). */
  function FormValid(form: PaymentForm): (r: bool)
    ensures r && form.paymentMethod == Mpesa ==>
      |NormalizePhone(form.phoneNumber)| == 12 && AllDigits(NormalizePhone(form.phoneNumber))
  {
    var ok := PhoneFieldValid(form) && Required(form.firstname) && Required(form.lastname) && Required(form.email);
    if ok && form.paymentMethod == Mpesa then
      AcceptedPhoneNormalizes(form.phoneNumber);
      ok
    else ok
  }

  /** The request built on submit. */
  function BuildPaymentRequest(form: PaymentForm, cart: Cart): (r: PaymentRequest)
    ensures r.paymentMethod == form.paymentMethod
    ensures r.phoneNo.Some? <==> form.paymentMethod == Mpesa
    ensures r.phoneNo.Some? ==> r.phoneNo.value == NormalizePhone(form.phoneNumber)
    ensures r.amount == PaymentTotal(cart)
    ensures r.billingAddress == BillingAddress(form.firstname, form.lastname, form.email)
  {
    PaymentRequest(
      form.paymentMethod,
      if form.paymentMethod == Mpesa then Some(NormalizePhone(form.phoneNumber)) else None,
      PaymentTotal(cart),
      BillingAddress(form.firstname, form.lastname, form.email))
  }

  /** Submitting: the handler runs only on a form that passes validation. */
  function Submit(form: PaymentForm, cart: Cart): (r: Option<PaymentRequest>)
    ensures r.Some? <==> FormValid(form)
    ensures r.Some? ==> r.value == BuildPaymentRequest(form, cart)
  {
    if FormValid(form) then Some(BuildPaymentRequest(form, cart)) else None
  }

  /** Any mobile-money request that gets sent carries a 12-digit number: the country code
      followed by the last nine characters the user typed. */
  lemma SubmittedPhoneIsCanonical(form: PaymentForm, cart: Cart)
    requires Submit(form, cart).Some?
    requires form.paymentMethod == Mpesa
    ensures var p := Submit(form, cart).value.phoneNo;
      && p.Some?
      && |p.value| == 12
      && AllDigits(p.value)
      && StartsWith(p.value, CountryCode)
      && p.value[3..] == form.phoneNumber[|form.phoneNumber| - 9..]
  {
    AcceptedPhoneNormalizes(form.phoneNumber);
  }

  /** A request for any other method (card, PayPal, or another tab's key) carries no phone
      number, whatever the phone field holds. */
  lemma OtherMethodsSendNoPhone(form: PaymentForm, cart: Cart)
    requires form.paymentMethod != Mpesa
    ensures BuildPaymentRequest(form, cart).phoneNo.None?
    ensures FormValid(form) <==>
      Required(form.firstname) && Required(form.lastname) && Required(form.email)
  {
  }
}
