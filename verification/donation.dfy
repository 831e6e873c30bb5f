/** The three-step donation wizard (`DonationForm`): choose a one-time or monthly gift and
    its amount, enter the donor's details, then pick a payment method. */
module Donation {
  import opened Text
  import opened Amounts

  datatype DonationType = Once | Monthly

  /** `'paypal'`, `'venmo'`, `'cashapp'`, `'apple'` and `'bank'`. */
  datatype PaymentMethod = PayPal | Venmo | CashApp | ApplePay | BankTransfer

  /** `donationStatus`: `'success'` or `'error'`. */
  datatype Status = Succeeded | Failed

  datatype DonorField = NameField | EmailField | MessageField

  datatype DonorInfo = DonorInfo(name: string, email: string, message: string)

  const TotalSteps := 3
  const PresetAmounts: seq<nat> := [50, 100, 150, 200]
  const DefaultAmount := 100
  const NoDonor := DonorInfo([], [], [])

  /** What "Other Amount" puts in the custom field, so that the input shows (empty). */
  const OpenCustomText := " "

  /** The payment buttons step 3 shows: PayPal alone for a monthly gift, all five methods
      for a one-time gift. */
  function OfferedMethods(t: DonationType): (ms: seq<PaymentMethod>)
    ensures |ms| > 0 && ms[0] == PayPal
  {
    if t == Monthly then [PayPal] else [PayPal, Venmo, CashApp, ApplePay, BankTransfer]
  }

  /** A monthly gift can only be paid with PayPal; a one-time gift with any method. */
  lemma OfferedMethodsByType(t: DonationType, m: PaymentMethod)
    ensures m in OfferedMethods(t) <==> (t == Once || m == PayPal)
  {
    if t == Once {
      match m
      case PayPal => assert OfferedMethods(t)[0] == m;
      case Venmo => assert OfferedMethods(t)[1] == m;
      case CashApp => assert OfferedMethods(t)[2] == m;
      case ApplePay => assert OfferedMethods(t)[3] == m;
      case BankTransfer => assert OfferedMethods(t)[4] == m;
    }
  }

  function FieldOf(info: DonorInfo, f: DonorField): string {
    match f
    case NameField => info.name
    case EmailField => info.email
    case MessageField => info.message
  }

  /** `{ ...prev, [name]: value }` */
  function WithField(info: DonorInfo, f: DonorField, value: string): (r: DonorInfo)
    ensures FieldOf(r, f) == value
    ensures forall g :: g != f ==> FieldOf(r, g) == FieldOf(info, g)
  {
    match f
    case NameField => info.(name := value)
    case EmailField => info.(email := value)
    case MessageField => info.(message := value)
  }

  /** The amount the custom field sets: the number `parseFloat` reads from it, or 0 when the
      field is empty or does not start with a number. */
  function CustomAmount(value: string): (d: Decimal)
    ensures Normal(d)
    ensures ParseFloat(value).None? ==> d == Whole(0)
    ensures ParseFloat(value).Some? ==> d == ParseFloat(value).value
  {
    if value != [] && ParseFloat(value).Some? then ParseFloat(value).value else Whole(0)
  }

  /** Typing the text of an amount into the custom field sets that amount. */
  lemma TypedAmountIsKept(d: Decimal)
    requires Normal(d)
    ensures CustomAmount(AmountText(d)) == d
  {
    AmountTextRoundTrip(d, []);
    assert AmountText(d) + [] == AmountText(d);
  }

  /** Whether the Continue button of a step is enabled; only steps 1 and 2 have one. */
  function ContinueEnabled(step: nat, amount: Decimal, donor: DonorInfo): (ok: bool)
    ensures ok ==> step == 1 || step == 2
    ensures step == 1 ==> (ok <==> Positive(amount))
    ensures step == 2 ==> (ok <==> Trim(donor.name) != [] && Trim(donor.email) != [])
  {
    if step == 1 then amount.units > 0
    else if step == 2 then Trim(donor.name) != [] && Trim(donor.email) != []
    else false
  }

  /** Text of spaces only trims to nothing. */
  lemma BlankTrimsAway(s: string)
    requires forall i :: 0 <= i < |s| ==> IsSpace(s[i])
    ensures Trim(s) == []
  {
  }

  /** A name or an e-mail address made of spaces keeps step 2 closed. */
  lemma BlankDetailsBlockStep2(amount: Decimal, donor: DonorInfo)
    requires (forall i :: 0 <= i < |donor.name| ==> IsSpace(donor.name[i])) ||
             (forall i :: 0 <= i < |donor.email| ==> IsSpace(donor.email[i]))
    ensures !ContinueEnabled(2, amount, donor)
  {
    if forall i :: 0 <= i < |donor.name| ==> IsSpace(donor.name[i]) {
      BlankTrimsAway(donor.name);
    } else {
      BlankTrimsAway(donor.email);
    }
  }

  /** The preset button for `preset` is highlighted: the amount is that preset and the
      custom field is empty. */
  predicate PresetActive(amount: Decimal, customAmount: string, preset: nat) {
    amount == Whole(preset) && customAmount == []
  }

  /** At most one preset button is highlighted. */
  lemma OnePresetActive(amount: Decimal, customAmount: string, p: nat, q: nat)
    requires PresetActive(amount, customAmount, p) && PresetActive(amount, customAmount, q)
    ensures p == q
  {
  }

  /** `createOrder`: the purchase value is `amount.toString()` and the description names the
      donor, or "Anonymous", and whether the gift is monthly. */
  datatype Order = Order(value: string, description: string)

  const OrderHead := "Donation to Vasavi Seattle - "

  function TypeText(t: DonationType): string {
    if t == Monthly then "Monthly" else "One-time"
  }

  /** `donorInfo.name || 'Anonymous'` */
  function DonorName(donor: DonorInfo): (who: string)
    ensures who != []
  {
    if donor.name == [] then "Anonymous" else donor.name
  }

  function PayPalOrder(amount: Decimal, donor: DonorInfo, t: DonationType): (o: Order)
    ensures StartsWithAt(o.description, 0, OrderHead)
    ensures o.description[|o.description| - |TypeText(t)|..] == TypeText(t)
  {
    var tail := " - " + TypeText(t);
    assert (OrderHead + DonorName(donor) + tail)[..|OrderHead|] == OrderHead;
    assert (OrderHead + DonorName(donor) + tail)[|OrderHead + DonorName(donor) + tail| - |TypeText(t)|..] == TypeText(t);
    Order(AmountText(amount), OrderHead + DonorName(donor) + tail)
  }

  /** The order's value reads back as the amount. */
  lemma PayPalOrderCarriesAmount(amount: Decimal, donor: DonorInfo, t: DonationType)
    requires Normal(amount)
    ensures ParseFloat(PayPalOrder(amount, donor, t).value) == Some(amount)
  {
    AmountTextRoundTrip(amount, []);
    assert AmountText(amount) + [] == AmountText(amount);
  }

  /** The order's description names the donor right after its fixed head. */
  lemma PayPalOrderNamesDonor(amount: Decimal, donor: DonorInfo, t: DonationType)
    ensures StartsWithAt(PayPalOrder(amount, donor, t).description, |OrderHead|, DonorName(donor))
  {
    LiteralInside(OrderHead, DonorName(donor), " - " + TypeText(t));
  }

  // ---------------------------------------------------------------------------
  // Venmo and Cash App deep links
  // ---------------------------------------------------------------------------

  const VenmoPlaceholder := "your-venmo-username"
  const CashAppPlaceholder := "your-cashapp-username"
  const VenmoHost := "https://venmo.com/"
  const VenmoNote := "&note=" + "Donation to Vasavi Seattle"
  const CashAppHost := "https://cash.app/$"

  /** `handleVenmoPayment`: nothing opens while the username is missing or still the
      placeholder. */
  function VenmoUrl(username: string, amount: Decimal): (url: Option<string>)
    ensures url.None? <==> username == [] || username == VenmoPlaceholder
  {
    if username == [] || username == VenmoPlaceholder then None
    else Some(VenmoHead(username) + AmountText(amount) + VenmoNote)
  }

  /** Everything of the Venmo link after the recipient's name. */
  function VenmoQuery(username: string): string {
    "?txn=pay&recipients=" + username + "&amount="
  }

  /** Everything of the Venmo link before the amount. */
  function VenmoHead(username: string): string {
    VenmoHost + username + VenmoQuery(username)
  }

  /** The Venmo link names the recipient right after the host. */
  lemma VenmoUrlNamesRecipient(username: string, amount: Decimal)
    requires username != [] && username != VenmoPlaceholder
    ensures StartsWithAt(VenmoUrl(username, amount).value, |VenmoHost|, username)
  {
    var url := VenmoUrl(username, amount).value;
    assert url == VenmoHost + username + (VenmoQuery(username) + AmountText(amount) + VenmoNote);
    LiteralInside(VenmoHost, username, VenmoQuery(username) + AmountText(amount) + VenmoNote);
  }

  /** The Venmo link carries the amount after `amount=`, where it reads back as the amount,
      and ends with the donation note; with the head this fixes the link completely. */
  lemma VenmoUrlCarriesAmount(username: string, amount: Decimal)
    requires username != [] && username != VenmoPlaceholder && Normal(amount)
    ensures StartsWithAt(VenmoUrl(username, amount).value, 0, VenmoHead(username))
    ensures ParseFloat(VenmoUrl(username, amount).value[|VenmoHead(username)|..]) == Some(amount)
    ensures VenmoUrl(username, amount).value[|VenmoHead(username)| + |AmountText(amount)|..] == VenmoNote
  {
    var url := VenmoUrl(username, amount).value;
    var head := VenmoHead(username);
    assert url == head + (AmountText(amount) + VenmoNote);
    assert url[..|head|] == head;
    assert url[|head|..] == AmountText(amount) + VenmoNote;
    assert url[|head| + |AmountText(amount)|..] == VenmoNote;
    assert VenmoNote[0] == '&';
    AmountTextRoundTrip(amount, VenmoNote);
  }

  /** `handleCashAppPayment`: nothing opens while the username is missing or still the
      placeholder. */
  function CashAppUrl(username: string, amount: Decimal): (url: Option<string>)
    ensures url.None? <==> username == [] || username == CashAppPlaceholder
  {
    if username == [] || username == CashAppPlaceholder then None
    else Some(CashAppHost + username + "/" + AmountText(amount))
  }

  /** The Cash App link names the recipient after `$` and ends with the amount, which reads
      back as the amount. */
  lemma CashAppUrlCarriesAmount(username: string, amount: Decimal)
    requires username != [] && username != CashAppPlaceholder && Normal(amount)
    ensures var url := CashAppUrl(username, amount).value;
      && StartsWithAt(url, 0, CashAppHost)
      && StartsWithAt(url, |CashAppHost|, username)
      && url[|CashAppHost| + |username|] == '/'
      && ParseFloat(url[|CashAppHost| + |username| + 1..]) == Some(amount)
  {
    var url := CashAppUrl(username, amount).value;
    var k := |CashAppHost| + |username| + 1;
    assert url == CashAppHost + username + ("/" + AmountText(amount));
    LiteralInside(CashAppHost, username, "/" + AmountText(amount));
    assert url[..|CashAppHost|] == CashAppHost;
    assert url[k..] == AmountText(amount) + [];
    AmountTextRoundTrip(amount, []);
  }

  // ---------------------------------------------------------------------------
  // The form
  // ---------------------------------------------------------------------------

  /** All the form's state at once. */
  datatype FormState = FormState(
    step: nat, donationType: DonationType, amount: Decimal, customAmount: string,
    donor: DonorInfo, payment: Option<PaymentMethod>, status: Option<Status>, showBank: bool)

  class DonationForm {
    var currentStep: nat
    var donationType: DonationType
    var amount: Decimal
    var customAmount: string
    var donorInfo: DonorInfo
    var paymentMethod: Option<PaymentMethod>
    var donationStatus: Option<Status>
    var showBankDetails: bool

    /** The step stays within 1..3 and the amount is kept in lowest terms. */
    ghost predicate Valid()
      reads this
    {
      1 <= currentStep <= TotalSteps && Normal(amount)
    }

    /** The chosen payment method is one that the chosen donation type offers. */
    predicate MethodOffered()
      reads this
    {
      paymentMethod.Some? ==> paymentMethod.value in OfferedMethods(donationType)
    }

    function State(): FormState
      reads this
    {
      FormState(currentStep, donationType, amount, customAmount, donorInfo, paymentMethod,
                donationStatus, showBankDetails)
    }

    constructor()
      ensures Valid() && MethodOffered()
      ensures State() == FormState(1, Once, Whole(DefaultAmount), [], NoDonor, None, None, false)
    {
      currentStep := 1;
      donationType := Once;
      amount := Whole(DefaultAmount);
      customAmount := [];
      donorInfo := NoDonor;
      paymentMethod := None;
      donationStatus := None;
      showBankDetails := false;
    }

    /** `nextStep`: one step on, except at the last step. */
    method NextStep()
      requires Valid()
      modifies this
      ensures Valid()
      ensures State() == old(State()).(step := if old(currentStep) < TotalSteps then old(currentStep) + 1
                                              else old(currentStep))
    {
      if currentStep < TotalSteps {
        currentStep := currentStep + 1;
      }
    }

    /** `prevStep` (the Back button): one step back, except at the first step. */
    method PrevStep()
      requires Valid()
      modifies this
      ensures Valid()
      ensures State() == old(State()).(step := if old(currentStep) > 1 then old(currentStep) - 1
                                              else old(currentStep))
    {
      if currentStep > 1 {
        currentStep := currentStep - 1;
      }
    }

    /** A click on Continue, shown on steps 1 and 2; a disabled button does nothing. */
    method ClickContinue()
      requires Valid() && currentStep < TotalSteps
      modifies this
      ensures Valid()
      ensures State() == if ContinueEnabled(old(currentStep), old(amount), old(donorInfo))
                         then old(State()).(step := old(currentStep) + 1) else old(State())
    {
      if ContinueEnabled(currentStep, amount, donorInfo) {
        NextStep();
      }
    }

    /** `handleAmountChange` from a preset button: only that preset is highlighted after. */
    method HandleAmountChange(preset: nat)
      requires Valid() && preset in PresetAmounts
      modifies this
      ensures Valid()
      ensures State() == old(State()).(amount := Whole(preset), customAmount := [])
      ensures forall p :: PresetActive(amount, customAmount, p) <==> p == preset
    {
      amount := Whole(preset);
      customAmount := [];
    }

    /** `handleCustomAmountChange`: the field keeps the text, and the amount is what it reads
        as, or 0. */
    method HandleCustomAmountChange(value: string)
      requires Valid()
      modifies this
      ensures Valid()
      ensures State() == old(State()).(customAmount := value, amount := CustomAmount(value))
    {
      customAmount := value;
      if value != [] && ParseFloat(value).Some? {
        amount := ParseFloat(value).value;
      } else {
        amount := Whole(0);
      }
    }

    /** The "Other Amount" button: opens the custom field and un-highlights every preset,
        leaving the amount as it was. */
    method OpenCustomAmount()
      requires Valid()
      modifies this
      ensures Valid()
      ensures State() == old(State()).(customAmount := OpenCustomText)
      ensures forall p :: !PresetActive(amount, customAmount, p)
    {
      customAmount := OpenCustomText;
    }

    /** The clear button of the custom field: the field closes, the amount stays. */
    method ClearCustomAmount()
      requires Valid()
      modifies this
      ensures Valid()
      ensures State() == old(State()).(customAmount := [])
    {
      customAmount := [];
    }

    /** The GIVE ONCE / MONTHLY toggle as the form has it: only the type changes, so a
        method chosen for a one-time gift stays chosen for a monthly one. */
    method SetDonationTypeAsWritten(t: DonationType)
      requires Valid()
      modifies this
      ensures Valid()
      ensures State() == old(State()).(donationType := t)
    {
      donationType := t;
    }

    /** The toggle as intended: a chosen method the new type does not offer is dropped, so
        the chosen method is always one offered. */
    method SetDonationType(t: DonationType)
      requires Valid()
      modifies this
      ensures Valid() && MethodOffered()
      ensures var keep := old(paymentMethod).None? || old(paymentMethod).value in OfferedMethods(t);
        State() == if keep then old(State()).(donationType := t)
                   else old(State()).(donationType := t, payment := None, showBank := false)
    {
      donationType := t;
      if paymentMethod.Some? && paymentMethod.value !in OfferedMethods(t) {
        paymentMethod := None;
        showBankDetails := false;
      }
    }

    /** `handleDonorInfoChange`: exactly the named field takes the new text. */
    method HandleDonorInfoChange(field: DonorField, value: string)
      requires Valid()
      modifies this
      ensures Valid()
      ensures State() == old(State()).(donor := WithField(old(donorInfo), field, value))
      ensures FieldOf(donorInfo, field) == value
      ensures forall g :: g != field ==> FieldOf(donorInfo, g) == FieldOf(old(donorInfo), g)
    {
      donorInfo := WithField(donorInfo, field, value);
    }

    /** `handlePaymentMethodSelect`, from one of the buttons step 3 shows: the bank details
        are shown exactly when the bank transfer is chosen. */
    method HandlePaymentMethodSelect(m: PaymentMethod)
      requires Valid() && currentStep == TotalSteps && m in OfferedMethods(donationType)
      modifies this
      ensures Valid() && MethodOffered()
      ensures State() == old(State()).(payment := Some(m), showBank := m == BankTransfer)
    {
      paymentMethod := Some(m);
      showBankDetails := m == BankTransfer;
    }

    /** PayPal's `onApprove`, once the capture is done. */
    method PayPalApproved()
      requires Valid() && paymentMethod == Some(PayPal) && currentStep == TotalSteps
      modifies this
      ensures Valid()
      ensures State() == old(State()).(status := Some(Succeeded))
    {
      donationStatus := Some(Succeeded);
    }

    /** PayPal's `onError`. */
    method PayPalFailed()
      requires Valid() && paymentMethod == Some(PayPal) && currentStep == TotalSteps
      modifies this
      ensures Valid()
      ensures State() == old(State()).(status := Some(Failed))
    {
      donationStatus := Some(Failed);
    }

    /** The reset three seconds after a successful payment: back to the first step and the
        defaults, keeping the donation type (and the bank-details flag, which it does not
        touch). */
    method ResetAfterSuccess()
      requires Valid()
      modifies this
      ensures Valid() && MethodOffered()
      ensures State() == FormState(1, old(donationType), Whole(DefaultAmount), [], NoDonor, None, None,
                                   old(showBankDetails))
    {
      currentStep := 1;
      amount := Whole(DefaultAmount);
      customAmount := [];
      donorInfo := NoDonor;
      paymentMethod := None;
      donationStatus := None;
    }
  }

  /** Continue on step 1 and on step 2, with a positive amount and the donor's details
      filled in, reaches the payment step and changes nothing else. */
  method ContinueTwice(form: DonationForm)
    requires form.Valid() && form.currentStep == 1 && Positive(form.amount)
    requires Trim(form.donorInfo.name) != [] && Trim(form.donorInfo.email) != []
    modifies form
    ensures form.Valid()
    ensures form.State() == old(form.State()).(step := 3)
  {
    form.ClickContinue();
    form.ClickContinue();
  }

  /** A fresh form with the donor's details filled in, clicked through to step 3, on which
      Venmo is picked. */
  method PickVenmo(name: string, email: string) returns (form: DonationForm)
    requires Trim(name) != [] && Trim(email) != []
    ensures fresh(form) && form.Valid()
    ensures form.currentStep == 3 && form.donationType == Once && form.amount == Whole(DefaultAmount)
    ensures form.donorInfo.name == name && form.donorInfo.email == email
    ensures form.paymentMethod == Some(Venmo)
  {
    form := new DonationForm();
    form.HandleDonorInfoChange(NameField, name);
    form.HandleDonorInfoChange(EmailField, email);
    ContinueTwice(form);
    OfferedMethodsByType(Once, Venmo);
    form.HandlePaymentMethodSelect(Venmo);
  }

  /** After Venmo was picked, back to step 1, the monthly type chosen with the toggle as
      written, and on to step 3 again: the monthly step shows the Venmo form although
      monthly gifts offer PayPal alone. */
  method MonthlyKeepsVenmo(name: string, email: string) returns (form: DonationForm)
    requires Trim(name) != [] && Trim(email) != []
    ensures form.currentStep == 3 && form.donationType == Monthly
    ensures form.paymentMethod == Some(Venmo) && !form.MethodOffered()
  {
    form := PickVenmo(name, email);
    form.PrevStep();
    form.PrevStep();
    form.SetDonationTypeAsWritten(Monthly);
    ContinueTwice(form);
    OfferedMethodsByType(Monthly, Venmo);
  }

  /** The same clicks with the toggle as intended end at step 3 with no method chosen, so
      only the PayPal button of the monthly notice is there to pick. */
  method MonthlyDropsVenmo(name: string, email: string) returns (form: DonationForm)
    requires Trim(name) != [] && Trim(email) != []
    ensures form.currentStep == 3 && form.donationType == Monthly
    ensures form.paymentMethod == None && form.MethodOffered()
  {
    form := PickVenmo(name, email);
    form.PrevStep();
    form.PrevStep();
    OfferedMethodsByType(Monthly, Venmo);
    form.SetDonationType(Monthly);
    ContinueTwice(form);
  }
}
