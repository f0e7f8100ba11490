/**
 * The SaaS page: subscription prices are stored as display strings in
 * rupees and are read back into a number before conversion.
 */
module SaaSPage {
  import opened Text
  import opened Currency

  datatype SaaSProduct = SaaSProduct(id: string, name: string, description: string, price: string, features: seq<string>)

  /** The two subscriptions on offer. */
  const SaaSProducts: seq<SaaSProduct> := [
    SaaSProduct("1", "AutoContent AI", "Automate your blog SEO and drafting.", "₹1,500/mo",
                ["AI Drafting", "SEO Audit", "Bulk Export"]),
    SaaSProduct("2", "TrackMyFreelance", "Simplified billing for creative individuals.", "₹800/mo",
                ["Invoice Gen", "Time Tracking", "Tax Reports"])
  ]

  /** `parsePrice`: keep the digits `0`-`9` in order and read them as one decimal number; no digits reads as 0. */
  function ParsePrice(priceStr: string): (n: nat)
    ensures KeepDigits(priceStr) == [] ==> n == 0
    ensures n < Pow10(|KeepDigits(priceStr)|)
  {
    NumberOfDigits(KeepDigits(priceStr))
  }

  /** A string of digits alone is read as its decimal value. */
  lemma ParsePriceOfDigits(s: string)
    requires AllDigits(s)
    ensures ParsePrice(s) == DecimalValue(s)
  {
    KeepDigitsOfDigits(s);
  }

  /** A separator such as `,` or `.` is dropped, not interpreted: no fractional part survives. */
  lemma ParsePriceIgnoresSeparator(a: string, c: char, b: string)
    requires !IsDigit(c)
    ensures ParsePrice(a + [c] + b) == ParsePrice(a + b)
  {
    KeepDigitsDropsSeparator(a, c, b);
  }

  /** The digits of a prefix are the leading digits of the number: the string reads positionally. */
  lemma ParsePricePositional(a: string, b: string)
    ensures ParsePrice(a + b) == ParsePrice(a) * Pow10(|KeepDigits(b)|) + ParsePrice(b)
  {
    KeepDigitsAppend(a, b);
    DecimalValueAppend(KeepDigits(a), KeepDigits(b));
  }

  lemma DigitsOfScarfPrice()
    ensures KeepDigits("₹1,500/mo") == "1500"
  {
    calc {
      KeepDigits("₹1,500/mo");
      { assert "₹1,500/mo" == "₹1," + "500/mo"; }
      KeepDigits("₹1," + "500/mo");
      { KeepDigitsAppend("₹1,", "500/mo"); }
      KeepDigits("₹1,") + KeepDigits("500/mo");
      { DigitsOfScarfHead(); DigitsOfScarfTail(); }
      "1" + "500";
    }
  }

  lemma DigitsOfScarfHead()
    ensures KeepDigits("₹1,") == "1"
  {
    assert "₹1," == "₹1" + ",";
    KeepDigitsAppend("₹1", ",");
  }

  lemma DigitsOfScarfTail()
    ensures KeepDigits("500/mo") == "500"
  {
    assert "500/mo" == "500" + "/mo";
    KeepDigitsAppend("500", "/mo");
    KeepDigitsOfDigits("500");
  }

  lemma DigitsOfTrackerPrice()
    ensures KeepDigits("₹800/mo") == "800"
  {
    assert "₹800/mo" == "₹" + "800" + "/mo";
    KeepDigitsAppend("₹" + "800", "/mo");
    KeepDigitsAppend("₹", "800");
    KeepDigitsOfDigits("800");
  }

  lemma ValuesOfCatalogDigits()
    ensures AllDigits("1500") && DecimalValue("1500") == 1500
    ensures AllDigits("800") && DecimalValue("800") == 800
    ensures AllDigits("15") && DecimalValue("15") == 15
  {
    DecimalValueSnoc("1", '5');
    assert "1" + ['5'] == "15";
    DecimalValueSnoc("15", '0');
    assert "15" + ['0'] == "150";
    DecimalValueSnoc("150", '0');
    assert "150" + ['0'] == "1500";
    DecimalValueSnoc("8", '0');
    assert "8" + ['0'] == "80";
    DecimalValueSnoc("80", '0');
    assert "80" + ['0'] == "800";
  }

  /** The catalog's two prices read as 1500 and 800. */
  lemma CatalogPrices()
    ensures ParsePrice(SaaSProducts[0].price) == 1500
    ensures ParsePrice(SaaSProducts[1].price) == 800
  {
    DigitsOfScarfPrice();
    DigitsOfTrackerPrice();
    ValuesOfCatalogDigits();
    ParsePriceOfDigits("1500");
    ParsePriceOfDigits("800");
  }

  /** A decimal point is dropped like any separator: `"1.5"` reads as 15. */
  lemma DecimalPointDropped()
    ensures ParsePrice("1.5") == 15
  {
    ParsePriceIgnoresSeparator("1", '.', "5");
    assert "1" + ['.'] + "5" == "1.5";
    assert "1" + "5" == "15";
    ValuesOfCatalogDigits();
    ParsePriceOfDigits("15");
  }

  /** What the page shows for a subscription: its parsed price, taken as rupees, converted like any other price. */
  function DisplayPrice(product: SaaSProduct, config: CurrencyConfig, language: string): (f: PriceFormat)
    ensures f.amount == ParsePrice(product.price) as real * config.rate
    ensures f.currency == config.code
    ensures f.maxFractionDigits == 0 <==> config.code == BaseCode
  {
    var rupees := ParsePrice(product.price) as real;
    var f := FormatPrice(rupees, config, language);
    assert f.amount == rupees * config.rate;
    f
  }
}
