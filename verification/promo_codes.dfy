/**
 * Promo-code validation: the decision `promoCodesService.validate` takes once the
 * code has been looked up, and the discount it grants. The store query becomes a
 * lookup over a table of records; the clock is the parameter `now` (milliseconds).
 *
 * JavaScript truthiness is kept: a `max_discount` or `usage_limit` of `null` or
 * `0` means "no cap" / "no limit".
 */
module PromoCodes {
  import opened Wrappers
  import opened Text
  import Seqs

  datatype DiscountType = Percent | Fixed

  datatype PromoCode = PromoCode(
    id: string,
    code: string,
    kind: DiscountType,
    value: int,
    minOrderAmount: int,
    maxDiscount: Option<int>,
    usageLimit: Option<int>,
    usedCount: int,
    validFrom: int,
    validTo: Option<int>,
    active: bool)

  /** The object `validate` resolves to: `{valid, discount, promoCode?, message?}`. */
  datatype ValidationResult = ValidationResult(
    valid: bool,
    discount: real,
    promoCode: Option<PromoCode>,
    message: Option<string>)

  const InvalidMessage := "Invalid promo code"
  const NotYetActiveMessage := "Promo code not yet active"
  const ExpiredMessage := "Promo code has expired"
  const UsageLimitMessage := "Promo code usage limit reached"

  function MinimumMessage(minimum: int): string {
    "Minimum order amount is " + IntToString(minimum) + " LKR"
  }

  /** A nullable number used as a condition: present and non-zero. */
  predicate Truthy(n: Option<int>) {
    n.Some? && n.value != 0
  }

  function Min(a: real, b: real): real {
    if a <= b then a else b
  }

  function Reject(message: string): ValidationResult {
    ValidationResult(false, 0.0, None, Some(message))
  }

  // ------------------------------------------------------------------ lookup

  /** The rows the query `code = key AND active = true` returns. */
  function Matching(table: seq<PromoCode>, key: string): seq<PromoCode> {
    Seqs.Filter(table, (p: PromoCode) => p.active && p.code == key)
  }

  /**
   * The lookup by upper-cased code among active codes. `maybeSingle` yields the row
   * when exactly one matches; none is "no data" and several are an error, and both
   * end as "not found".
   */
  function Lookup(table: seq<PromoCode>, code: string): (r: Option<PromoCode>)
    ensures r.Some? <==> |Matching(table, Upper(code))| == 1
    ensures r.Some? ==> r.value in table && r.value.active && r.value.code == Upper(code)
  {
    var rows := Matching(table, Upper(code));
    if |rows| == 1 then Some(rows[0]) else None
  }

  /**
   * What `create` stores: the submitted record with its code upper-cased. The insert
   * passes neither `id` nor `used_count`; the draft's values of those two fields stand
   * for the ones the database assigns.
   */
  function Created(draft: PromoCode): (p: PromoCode)
    ensures p.code == Upper(draft.code) && p == draft.(code := p.code)
  {
    draft.(code := Upper(draft.code))
  }

  /** A created, active code that is the only one with its name is found whatever the casing typed. */
  lemma FoundInAnyCase(table: seq<PromoCode>, draft: PromoCode, typed: string)
    requires Matching(table, Created(draft).code) == [Created(draft)]
    requires Upper(typed) == Upper(draft.code)
    ensures Lookup(table, typed) == Some(Created(draft))
  {
  }

  /** The text a customer typed can only match a stored code written in capitals. */
  lemma LookupFindsOnlyUpperCaseCodes(table: seq<PromoCode>, typed: string)
    requires Lookup(table, typed).Some?
    ensures Upper(Lookup(table, typed).value.code) == Lookup(table, typed).value.code
  {
    UpperIdempotent(typed);
  }

  // ------------------------------------------------------------------ decision

  /** `usage_limit && used_count >= usage_limit`. */
  predicate UsageExhausted(p: PromoCode) {
    Truthy(p.usageLimit) && p.usedCount >= p.usageLimit.value
  }

  /** When a looked-up code applies: all four guards pass. */
  predicate Eligible(p: PromoCode, now: int, orderAmount: int)
    ensures Eligible(p, now, orderAmount) <==> FirstFailing(GuardOrder, p, now, orderAmount).None?
  {
    GuardsInOrder(p, now, orderAmount);
    && p.validFrom <= now
    && (p.validTo.None? || now <= p.validTo.value)
    && p.minOrderAmount <= orderAmount
    && !UsageExhausted(p)
  }

  /** The discount before the final clamp: a capped percentage, or the fixed value uncapped. */
  function RawDiscount(p: PromoCode, orderAmount: int): (d: real)
    ensures p.kind == Fixed ==> d == p.value as real
    ensures p.kind == Percent ==> d * 100.0 <= (orderAmount * p.value) as real
    ensures p.kind == Percent && !Truthy(p.maxDiscount) ==> d * 100.0 == (orderAmount * p.value) as real
    ensures p.kind == Percent && Truthy(p.maxDiscount) ==> d <= p.maxDiscount.value as real
  {
    match p.kind
    case Percent =>
      var d := (orderAmount * p.value) as real / 100.0;
      if Truthy(p.maxDiscount) then Min(d, p.maxDiscount.value as real) else d
    case Fixed => p.value as real
  }

  /** `validate` after the lookup: the guards in their fixed order, then the discount. */
  function Validate(found: Option<PromoCode>, now: int, orderAmount: int): (r: ValidationResult)
    ensures !r.valid ==> r.discount == 0.0 && r.promoCode.None? && r.message.Some?
    ensures r.valid <==> found.Some? && Eligible(found.value, now, orderAmount)
    ensures r.valid ==> r.promoCode == found && r.message.None?
    ensures r.valid ==> r.discount <= orderAmount as real
    ensures r.valid ==> r.discount == Min(RawDiscount(found.value, orderAmount), orderAmount as real)
  {
    match found
    case None => Reject(InvalidMessage)
    case Some(p) =>
      if now < p.validFrom then Reject(NotYetActiveMessage)
      else if p.validTo.Some? && now > p.validTo.value then Reject(ExpiredMessage)
      else if orderAmount < p.minOrderAmount then Reject(MinimumMessage(p.minOrderAmount))
      else if UsageExhausted(p) then Reject(UsageLimitMessage)
      else ValidationResult(true, Min(RawDiscount(p, orderAmount), orderAmount as real), found, None)
  }

  /** The whole service call: look the code up, then decide. */
  function ValidateCode(table: seq<PromoCode>, code: string, now: int, orderAmount: int): (r: ValidationResult)
    ensures Lookup(table, code).None? ==> r == Reject(InvalidMessage)
    ensures r.valid ==> r.promoCode.Some? && r.promoCode.value in table && r.promoCode.value.code == Upper(code)
  {
    Validate(Lookup(table, code), now, orderAmount)
  }

  // ------------------------------------------------------------------ guard order

  datatype Guard = StartGuard | ExpiryGuard | MinimumGuard | UsageGuard

  /** The order in which the guards are consulted. */
  const GuardOrder: seq<Guard> := [StartGuard, ExpiryGuard, MinimumGuard, UsageGuard]

  predicate Fails(g: Guard, p: PromoCode, now: int, orderAmount: int) {
    match g
    case StartGuard => now < p.validFrom
    case ExpiryGuard => p.validTo.Some? && now > p.validTo.value
    case MinimumGuard => orderAmount < p.minOrderAmount
    case UsageGuard => UsageExhausted(p)
  }

  function GuardMessage(g: Guard, p: PromoCode): string {
    match g
    case StartGuard => NotYetActiveMessage
    case ExpiryGuard => ExpiredMessage
    case MinimumGuard => MinimumMessage(p.minOrderAmount)
    case UsageGuard => UsageLimitMessage
  }

  /** The first guard in `gs` that fails, if any. */
  function FirstFailing(gs: seq<Guard>, p: PromoCode, now: int, orderAmount: int): Option<Guard> {
    if gs == [] then None
    else if Fails(gs[0], p, now, orderAmount) then Some(gs[0])
    else FirstFailing(gs[1..], p, now, orderAmount)
  }

  /** `FirstFailing` over the fixed order unfolded guard by guard. */
  lemma GuardsInOrder(p: PromoCode, now: int, orderAmount: int)
    ensures FirstFailing(GuardOrder, p, now, orderAmount) ==
      if Fails(StartGuard, p, now, orderAmount) then Some(StartGuard)
      else if Fails(ExpiryGuard, p, now, orderAmount) then Some(ExpiryGuard)
      else if Fails(MinimumGuard, p, now, orderAmount) then Some(MinimumGuard)
      else if Fails(UsageGuard, p, now, orderAmount) then Some(UsageGuard)
      else None
  {
    var g1 := GuardOrder[1..];
    var g2 := g1[1..];
    var g3 := g2[1..];
    assert g1 == [ExpiryGuard, MinimumGuard, UsageGuard];
    assert g2 == [MinimumGuard, UsageGuard];
    assert g3 == [UsageGuard];
    assert g3[1..] == [];
    assert FirstFailing(g3, p, now, orderAmount) ==
      if Fails(UsageGuard, p, now, orderAmount) then Some(UsageGuard) else FirstFailing([], p, now, orderAmount);
    assert FirstFailing(g2, p, now, orderAmount) ==
      if Fails(MinimumGuard, p, now, orderAmount) then Some(MinimumGuard) else FirstFailing(g3, p, now, orderAmount);
    assert FirstFailing(g1, p, now, orderAmount) ==
      if Fails(ExpiryGuard, p, now, orderAmount) then Some(ExpiryGuard) else FirstFailing(g2, p, now, orderAmount);
  }

  /** The first failing guard, in the fixed order, decides the rejection and its message. */
  lemma FirstFailingGuardDecides(p: PromoCode, now: int, orderAmount: int)
    ensures FirstFailing(GuardOrder, p, now, orderAmount).None? ==> Validate(Some(p), now, orderAmount).valid
    ensures FirstFailing(GuardOrder, p, now, orderAmount).Some? ==>
      Validate(Some(p), now, orderAmount) == Reject(GuardMessage(FirstFailing(GuardOrder, p, now, orderAmount).value, p))
  {
    GuardsInOrder(p, now, orderAmount);
  }

  /** The equal boundaries are accepted: from `validFrom`, through `validTo`, from the minimum amount. */
  lemma BoundariesInclusive(p: PromoCode, orderAmount: int)
    requires p.validTo == Some(p.validFrom) && orderAmount == p.minOrderAmount && !UsageExhausted(p)
    ensures Validate(Some(p), p.validFrom, orderAmount).valid
  {
  }

  /** A limit of `null` or `0` never rejects, however often the code was used. */
  lemma NoLimitMeansUnlimited(p: PromoCode, now: int, orderAmount: int, used: int)
    requires !Truthy(p.usageLimit)
    ensures Validate(Some(p.(usedCount := used)), now, orderAmount).valid == Validate(Some(p), now, orderAmount).valid
  {
  }

  /** A set, non-zero limit rejects once `usedCount` reaches it (when the earlier guards pass). */
  lemma LimitReachedRejects(p: PromoCode, now: int, orderAmount: int)
    requires Truthy(p.usageLimit) && p.usedCount >= p.usageLimit.value
    requires p.validFrom <= now && (p.validTo.None? || now <= p.validTo.value) && p.minOrderAmount <= orderAmount
    ensures Validate(Some(p), now, orderAmount) == Reject(UsageLimitMessage)
  {
  }

  // ------------------------------------------------------------------ discount

  /** A percent code grants `min(amount * value / 100, cap, amount)`, the cap only when it is truthy. */
  lemma PercentDiscount(p: PromoCode, now: int, orderAmount: int)
    requires p.kind == Percent && Eligible(p, now, orderAmount)
    ensures var pct := (orderAmount * p.value) as real / 100.0;
            var d := Validate(Some(p), now, orderAmount).discount;
            && d <= pct
            && d <= orderAmount as real
            && (Truthy(p.maxDiscount) ==> d <= p.maxDiscount.value as real)
            && (d == pct || d == orderAmount as real || (Truthy(p.maxDiscount) && d == p.maxDiscount.value as real))
  {
  }

  /** A cap of `0` is no cap at all: the discount is the same as with no cap. */
  lemma ZeroCapIsNoCap(p: PromoCode, now: int, orderAmount: int)
    ensures Validate(Some(p.(maxDiscount := Some(0))), now, orderAmount).discount
         == Validate(Some(p.(maxDiscount := None)), now, orderAmount).discount
  {
  }

  /** A fixed code grants `min(value, amount)`; `max_discount` plays no part. */
  lemma FixedDiscount(p: PromoCode, now: int, orderAmount: int, cap: Option<int>)
    requires p.kind == Fixed && Eligible(p, now, orderAmount)
    ensures Validate(Some(p), now, orderAmount).discount == Min(p.value as real, orderAmount as real)
    ensures Validate(Some(p.(maxDiscount := cap)), now, orderAmount) == Validate(Some(p), now, orderAmount).(promoCode := Some(p.(maxDiscount := cap)))
  {
  }

  /** With a non-negative value, amount and cap, the discount is never negative. */
  lemma DiscountNonNegative(found: Option<PromoCode>, now: int, orderAmount: int)
    requires orderAmount >= 0
    requires found.Some? ==> found.value.value >= 0 && (found.value.maxDiscount.Some? ==> found.value.maxDiscount.value >= 0)
    ensures Validate(found, now, orderAmount).discount >= 0.0
  {
    if found.Some? {
      var p := found.value;
      assert orderAmount * p.value >= 0 by {
        NonNegativeProduct(orderAmount, p.value);
      }
    }
  }

  lemma NonNegativeProduct(a: int, b: int)
    requires a >= 0 && b >= 0
    ensures a * b >= 0
  {
  }

  // ------------------------------------------------------------------ worked cases

  /** `SAVE10`: 10 percent capped at 500 on 6000 gives 500 (the raw 600 is capped). */
  lemma Save10Example(now: int)
    ensures var p := PromoCode("save10", "SAVE10", Percent, 10, 1000, Some(500), None, 0, now, None, true);
            Validate(Some(p), now, 6000) == ValidationResult(true, 500.0, Some(p), None)
  {
  }

  /** `FLAT300`: a fixed 300 on an order of 200 gives 200. */
  lemma Flat300Example(now: int)
    ensures var p := PromoCode("flat300", "FLAT300", Fixed, 300, 0, None, None, 0, now, None, true);
            Validate(Some(p), now, 200) == ValidationResult(true, 200.0, Some(p), None)
  {
  }

  /** Limit 5 with 5 uses is rejected. */
  lemma UsedUpExample(now: int)
    ensures var p := PromoCode("limited", "LIMITED", Fixed, 100, 0, None, Some(5), 5, now, None, true);
            Validate(Some(p), now, 1000) == Reject(UsageLimitMessage)
  {
  }

  /** A code with no active row in the table is invalid. */
  lemma UnknownCodeExample(table: seq<PromoCode>, now: int, orderAmount: int)
    requires forall i :: 0 <= i < |table| ==> table[i].code != "XYZ"
    ensures ValidateCode(table, "xyz", now, orderAmount) == Reject(InvalidMessage)
  {
    assert Upper("xyz") == "XYZ";
  }
}
