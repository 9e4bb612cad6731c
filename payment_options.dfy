/**
 * The payment block of src/components/quotes/payment-options.tsx: four
 * payment methods in a fixed order, whose descriptions depend on the cash
 * discount and the installment count, and a discount banner. The props are
 * optional; `None` is a prop that was not passed. Percentages and
 * installment counts are whole numbers here.
 */
module PaymentOptions {
  import opened Wrappers
  import Numbers

  datatype PaymentOption = PaymentOption(title: string, description: string)

  /** The props after their defaults: no cash discount, and 5% when no percentage is given. */
  datatype Props = Props(showCashDiscount: bool, cashDiscountPercent: int, installmentCount: Option<int>)

  function WithDefaults(showCashDiscount: Option<bool>, cashDiscountPercent: Option<int>,
                        installmentCount: Option<int>): (p: Props)
    ensures p.showCashDiscount <==> showCashDiscount == Some(true)
    ensures cashDiscountPercent.None? ==> p.cashDiscountPercent == 5
    ensures cashDiscountPercent.Some? ==> p.cashDiscountPercent == cashDiscountPercent.value
    ensures p.installmentCount == installmentCount
  {
    Props(showCashDiscount.GetOr(false), cashDiscountPercent.GetOr(5), installmentCount)
  }

  function DiscountText(percent: int): string {
    "À vista com " + Numbers.IntToString(percent) + "% de desconto"
  }

  /** `installmentCount ? ... : ...`: a count is shown only when present and not 0. */
  predicate HasInstallments(installmentCount: Option<int>) {
    installmentCount.Some? && installmentCount.value != 0
  }

  /** The method cards, in their fixed order. */
  function PaymentMethods(p: Props): (ms: seq<PaymentOption>)
    ensures |ms| == 4
    ensures ms[0].title == "PIX" && ms[1].title == "Dinheiro" && ms[2].title == "Cartão" && ms[3].title == "Parcelado"
    ensures p.showCashDiscount ==> ms[0].description == DiscountText(p.cashDiscountPercent) == ms[1].description
    ensures !p.showCashDiscount ==> ms[0].description == "Pagamento instantâneo" &&
                                    ms[1].description == "Pagamento em espécie"
    ensures ms[2].description == "Débito ou crédito"
    ensures HasInstallments(p.installmentCount) ==>
      ms[3].description == "Em até " + Numbers.IntToString(p.installmentCount.value) + "x"
    ensures !HasInstallments(p.installmentCount) ==> ms[3].description == "Condições a combinar"
  {
    [PaymentOption("PIX", if p.showCashDiscount then DiscountText(p.cashDiscountPercent) else "Pagamento instantâneo"),
     PaymentOption("Dinheiro", if p.showCashDiscount then DiscountText(p.cashDiscountPercent) else "Pagamento em espécie"),
     PaymentOption("Cartão", "Débito ou crédito"),
     PaymentOption("Parcelado",
                   if HasInstallments(p.installmentCount)
                   then "Em até " + Numbers.IntToString(p.installmentCount.value) + "x"
                   else "Condições a combinar")]
  }

  /** The banner under the cards, drawn only with the cash discount. */
  function DiscountBanner(p: Props): (b: Option<string>)
    ensures b.Some? <==> p.showCashDiscount
    ensures b.Some? ==> b.value == "💰 " + Numbers.IntToString(p.cashDiscountPercent) +
                                   "% de desconto para pagamento à vista (PIX ou Dinheiro)"
  {
    if p.showCashDiscount
    then Some("💰 " + Numbers.IntToString(p.cashDiscountPercent) + "% de desconto para pagamento à vista (PIX ou Dinheiro)")
    else None
  }

  /** With no props at all: no banner, the fixed texts, and terms to agree. */
  lemma DefaultProps()
    ensures var p := WithDefaults(None, None, None);
      DiscountBanner(p).None? &&
      PaymentMethods(p)[0].description == "Pagamento instantâneo" &&
      PaymentMethods(p)[3].description == "Condições a combinar"
  {
    var p := WithDefaults(None, None, None);
    assert p == Props(false, 5, None);
  }

  /** A discount passed without its percentage reads 5%. */
  lemma DefaultDiscountPercent()
    ensures PaymentMethods(WithDefaults(Some(true), None, None))[0].description == "À vista com 5% de desconto"
  {
    var q := WithDefaults(Some(true), None, None);
    assert q == Props(true, 5, None);
    assert Numbers.IntToString(5) == "5";
    assert DiscountText(5) == "À vista com 5% de desconto";
  }

  /** The discount is shown on a card exactly when the banner is drawn, and the card and
      the banner name the same percentage: a different percentage changes both. */
  lemma DiscountConsistent(p: Props, q: Props)
    ensures PaymentMethods(p)[0].description == DiscountText(p.cashDiscountPercent) <==> DiscountBanner(p).Some?
    ensures p.showCashDiscount && q.showCashDiscount && p.cashDiscountPercent != q.cashDiscountPercent ==>
      PaymentMethods(p)[0].description != PaymentMethods(q)[0].description
  {
    var d := DiscountText(p.cashDiscountPercent);
    assert d[0] == 'À';
    if p.showCashDiscount && q.showCashDiscount && p.cashDiscountPercent != q.cashDiscountPercent {
      var a := Numbers.IntToString(p.cashDiscountPercent);
      var b := Numbers.IntToString(q.cashDiscountPercent);
      if DiscountText(p.cashDiscountPercent) == DiscountText(q.cashDiscountPercent) {
        var pre := "À vista com ";
        var suf := "% de desconto";
        assert |a| == |b|;
        assert a == DiscountText(p.cashDiscountPercent)[|pre|..|pre| + |a|];
        assert b == DiscountText(q.cashDiscountPercent)[|pre|..|pre| + |b|];
        Numbers.IntToStringInjective(p.cashDiscountPercent, q.cashDiscountPercent);
      }
    }
  }

  /** An installment count of 0 reads like a missing one. */
  lemma ZeroInstallments(p: Props)
    requires p.installmentCount == Some(0)
    ensures PaymentMethods(p) == PaymentMethods(p.(installmentCount := None))
  {
  }
}
