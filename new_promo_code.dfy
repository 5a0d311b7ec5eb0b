/** The "new promo code" form (`app/dashboard/promo-codes/new/page.tsx`):
    a record of input strings that `handleChange` updates one field at a
    time, and the payload `handleSubmit` builds from it for the backend. */
module NewPromoCode {
  import opened Wrappers
  import opened Text

  /** `PromoMode`. */
  datatype PromoMode = Percent | Flat | Bundle

  /** The `form` state: every input holds the text typed into it. */
  datatype PromoForm = PromoForm(
    code: string,
    description: string,
    promoMode: PromoMode,
    value: string,
    maxDiscount: string,
    bundleMinItems: string,
    bundlePrice: string,
    minimumOrder: string,
    expiryDate: string,
    maxUses: string,
    oneTimeUsePerUser: bool,
    active: bool)

  /** The form as the page opens: empty inputs, a flat discount, active. */
  const InitialForm: PromoForm :=
    PromoForm("", "", Flat, "", "", "", "", "", "", "", false, true)

  /** The `name` attribute of each text input. */
  datatype TextField =
    | Code | Description | Value | MaxDiscount | BundleMinItems
    | BundlePrice | MinimumOrder | ExpiryDate | MaxUses

  /** What one change event carries: a text input's name and value, or the
      mode `select`'s chosen option. */
  datatype Change = TextChange(field: TextField, text: string) | ModeChange(mode: PromoMode)

  function FieldText(form: PromoForm, f: TextField): string {
    match f
    case Code => form.code
    case Description => form.description
    case Value => form.value
    case MaxDiscount => form.maxDiscount
    case BundleMinItems => form.bundleMinItems
    case BundlePrice => form.bundlePrice
    case MinimumOrder => form.minimumOrder
    case ExpiryDate => form.expiryDate
    case MaxUses => form.maxUses
  }

  /** `{ ...prev, [name]: value }`: only the field named by the event changes. */
  function Changed(form: PromoForm, change: Change): (r: PromoForm)
    ensures change.TextChange? ==> FieldText(r, change.field) == change.text
    ensures change.TextChange? ==> r.promoMode == form.promoMode
    ensures change.ModeChange? ==> r.promoMode == change.mode
    ensures forall f :: (change.ModeChange? || f != change.field) ==> FieldText(r, f) == FieldText(form, f)
    ensures r.oneTimeUsePerUser == form.oneTimeUsePerUser && r.active == form.active
  {
    match change
    case ModeChange(mode) => form.(promoMode := mode)
    case TextChange(f, text) =>
      match f
      case Code => form.(code := text)
      case Description => form.(description := text)
      case Value => form.(value := text)
      case MaxDiscount => form.(maxDiscount := text)
      case BundleMinItems => form.(bundleMinItems := text)
      case BundlePrice => form.(bundlePrice := text)
      case MinimumOrder => form.(minimumOrder := text)
      case ExpiryDate => form.(expiryDate := text)
      case MaxUses => form.(maxUses := text)
  }

  /** Two changes of different fields can be made in either order. */
  lemma ChangesCommute(form: PromoForm, a: TextField, s: string, b: TextField, t: string)
    requires a != b
    ensures Changed(Changed(form, TextChange(a, s)), TextChange(b, t))
         == Changed(Changed(form, TextChange(b, t)), TextChange(a, s))
  {
  }

  /** A change overrides an earlier change of the same field. */
  lemma LastChangeWins(form: PromoForm, a: TextField, s: string, t: string)
    ensures Changed(Changed(form, TextChange(a, s)), TextChange(a, t)) == Changed(form, TextChange(a, t))
  {
  }

  /** What `Number(text)` gives: a number, or `NaN` for text that does not parse. */
  datatype Num = Number(n: nat) | NaN

  /** `payload.bundle`. */
  datatype BundleDeal = BundleDeal(minItems: Num, bundlePrice: Num)

  /** `payload`; an absent key (or one left `undefined`) is `None`. */
  datatype Payload = Payload(
    code: string,
    description: string,
    promoMode: PromoMode,
    expiryDate: string,
    minimumOrder: Num,
    maxUses: Option<Num>,
    oneTimeUsePerUser: bool,
    active: bool,
    value: Option<Num>,
    maxDiscount: Option<Num>,
    bundle: Option<BundleDeal>)

  /** Every payload carries exactly one of a discount value and a bundle. */
  predicate OneDiscountShape(p: Payload) {
    p.value.Some? != p.bundle.Some?
  }

  /** The state of the page. */
  class NewPromoCodePage {
    var form: PromoForm

    constructor ()
      ensures form == InitialForm
    {
      form := InitialForm;
    }

    /** `handleChange`. */
    method HandleChange(change: Change)
      modifies this
      ensures form == Changed(old(form), change)
    {
      form := Changed(form, change);
    }

    /** The "one use per user" switch. */
    method SetOneTimeUsePerUser(checked: bool)
      modifies this
      ensures form == old(form).(oneTimeUsePerUser := checked)
    {
      form := form.(oneTimeUsePerUser := checked);
    }

    /** The "active" switch. */
    method SetActive(checked: bool)
      modifies this
      ensures form == old(form).(active := checked)
    {
      form := form.(active := checked);
    }

    /** The payload of `handleSubmit`, with `Number` as the parameter
        `toNumber`: the common fields, then the fields of the chosen mode
        assigned one branch at a time. */
    method BuildPayload(toNumber: string -> Num) returns (payload: Payload)
      ensures payload.code == Upper(form.code)
      ensures payload.description == form.description && payload.promoMode == form.promoMode
      ensures payload.expiryDate == form.expiryDate
      ensures payload.oneTimeUsePerUser == form.oneTimeUsePerUser && payload.active == form.active
      ensures payload.minimumOrder == if form.minimumOrder == "" then Number(0) else toNumber(form.minimumOrder)
      ensures payload.maxUses == if form.maxUses == "" then None else Some(toNumber(form.maxUses))
      ensures payload.value.Some? <==> form.promoMode != Bundle
      ensures payload.value.Some? ==> payload.value.value == toNumber(form.value)
      ensures payload.maxDiscount.Some? <==> form.promoMode == Percent && form.maxDiscount != ""
      ensures payload.maxDiscount.Some? ==> payload.maxDiscount.value == toNumber(form.maxDiscount)
      ensures payload.bundle.Some? <==> form.promoMode == Bundle
      ensures payload.bundle.Some? ==>
        payload.bundle.value == BundleDeal(toNumber(form.bundleMinItems), toNumber(form.bundlePrice))
      ensures OneDiscountShape(payload)
    {
      payload := Payload(
        Upper(form.code),
        form.description,
        form.promoMode,
        form.expiryDate,
        if form.minimumOrder != "" then toNumber(form.minimumOrder) else Number(0),
        if form.maxUses != "" then Some(toNumber(form.maxUses)) else None,
        form.oneTimeUsePerUser,
        form.active,
        None, None, None);
      if form.promoMode == Percent {
        payload := payload.(
          value := Some(toNumber(form.value)),
          maxDiscount := if form.maxDiscount != "" then Some(toNumber(form.maxDiscount)) else None);
      }
      if form.promoMode == Flat {
        payload := payload.(value := Some(toNumber(form.value)));
      }
      if form.promoMode == Bundle {
        payload := payload.(bundle := Some(BundleDeal(toNumber(form.bundleMinItems), toNumber(form.bundlePrice))));
      }
    }
  }

  /** The upper-cased code holds no lower-case ASCII letter. */
  lemma UpperCodeHasNoLowerCase(code: string)
    ensures forall i :: 0 <= i < |Upper(code)| ==> !('a' <= Upper(code)[i] <= 'z')
  {
  }
}
