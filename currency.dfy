/**
 * Currency resolution and price conversion. Every amount is held in Indian
 * rupees (the base currency); the shopper's currency is chosen from the host
 * time zone and language, and amounts are multiplied by that currency's rate
 * only when they are displayed.
 */
module Currency {
  import opened Options
  import opened Text

  /** One row of the rate table: the currency's code and the units of it that one rupee buys. */
  datatype RateEntry = RateEntry(code: string, rate: real)

  /** What the resolver hands to the pages. */
  datatype CurrencyConfig = CurrencyConfig(code: string, symbol: string, rate: real)

  /**
   * What `formatPrice` hands to the host's number formatter: the converted
   * amount, the currency, the locale and the largest number of fraction digits.
   */
  datatype PriceFormat = PriceFormat(amount: real, currency: string, locale: string, maxFractionDigits: nat)

  const BaseCode: string := "INR"

  /** The locale used when the host reports no language. */
  const DefaultLocale: string := "en-IN"

  /** The supported currencies and their rates against the rupee. */
  const CurrencyMap: map<string, RateEntry> := map[
    "INR" := RateEntry("INR", 1.0),
    "USD" := RateEntry("USD", 0.012),
    "GBP" := RateEntry("GBP", 0.0095),
    "JPY" := RateEntry("JPY", 1.87),
    "EUR" := RateEntry("EUR", 0.011),
    "CNY" := RateEntry("CNY", 0.087),
    "BRL" := RateEntry("BRL", 0.062),
    "CAD" := RateEntry("CAD", 0.016),
    "AUD" := RateEntry("AUD", 0.018)
  ]

  /** One table for both time-zone identifiers and whole locale tags. */
  const RegionToCurrency: map<string, string> := map[
    "Asia/Kolkata" := "INR",
    "Asia/Calcutta" := "INR",
    "Europe/London" := "GBP",
    "Europe/Paris" := "EUR",
    "Europe/Berlin" := "EUR",
    "Asia/Tokyo" := "JPY",
    "America/New_York" := "USD",
    "America/Los_Angeles" := "USD",
    "America/Chicago" := "USD",
    "America/Toronto" := "CAD",
    "Australia/Sydney" := "AUD",
    "America/Sao_Paulo" := "BRL",
    "en-IN" := "INR",
    "hi-IN" := "INR",
    "en-GB" := "GBP",
    "ja-JP" := "JPY",
    "zh-CN" := "CNY",
    "fr-FR" := "EUR",
    "de-DE" := "EUR"
  ]

  /** The upper-case second locale segment mapped to a currency (the resolver's inline region table). */
  const RegionMap: map<string, string> := map[
    "IN" := "INR",
    "GB" := "GBP",
    "JP" := "JPY",
    "CN" := "CNY",
    "FR" := "EUR",
    "DE" := "EUR",
    "US" := "USD",
    "CA" := "CAD",
    "AU" := "AUD",
    "BR" := "BRL"
  ]

  /** The symbol literal of the source, as its file stores it: the three characters U+00E2 U+201A U+00B9. */
  const FallbackSymbolAsWritten: string := "â‚¹"

  /** The rupee sign U+20B9, which the literal above is a mis-decoded copy of. */
  const FallbackSymbol: string := "₹"

  /** The tables agree: every code a mapping can yield has a rate entry filed under that code, and every rate is positive. */
  lemma TablesConsistent()
    ensures forall k :: k in RegionToCurrency ==> RegionToCurrency[k] in CurrencyMap
    ensures forall k :: k in RegionMap ==> RegionMap[k] in CurrencyMap
    ensures forall c :: c in CurrencyMap ==> CurrencyMap[c].code == c && CurrencyMap[c].rate > 0.0
    ensures BaseCode in CurrencyMap && CurrencyMap[BaseCode].rate == 1.0
  {
    RegionCodesSupported();
  }

  lemma RegionCodesSupported()
    ensures forall k :: k in RegionToCurrency ==> RegionToCurrency[k] in CurrencyMap
  {
  }

  /** Nine currencies are supported. */
  lemma NineCurrencies()
    ensures |CurrencyMap| == 9
  {
    assert CurrencyMap.Keys == {"INR", "USD", "GBP", "JPY", "EUR", "CNY", "BRL", "CAD", "AUD"};
  }

  /** Every mapped code is a non-empty string, so JavaScript's truthiness test on it is a presence test. */
  lemma MappedCodesAreTruthy()
    ensures forall k :: k in RegionToCurrency ==> RegionToCurrency[k] != ""
    ensures forall k :: k in RegionMap ==> RegionMap[k] != ""
  {
  }

  /** `navigator.language || 'en-IN'`. */
  function EffectiveLocale(language: string): (locale: string)
    ensures locale != ""
    ensures language != "" ==> locale == language
    ensures language == "" ==> locale == DefaultLocale
  {
    if language == "" then DefaultLocale else language
  }

  /** `locale.split('-')[1].toUpperCase()`: the second `-` segment, upper-cased. */
  function RegionSuffix(locale: string): (region: string)
    requires '-' in locale
    ensures |region| == |Split(locale, '-')[1]|
    ensures '-' !in region
  {
    ToUpper(Split(locale, '-')[1])
  }

  /** The `currencyCode` the first three steps of the fallback chain settle on, if any. */
  function ResolveCode(tz: string, locale: string): (code: Option<string>)
    ensures code.Some? ==> code.value in CurrencyMap
    ensures code.Some? <==> tz in RegionToCurrency || locale in RegionToCurrency
                            || ('-' in locale && RegionSuffix(locale) in RegionMap)
  {
    TablesConsistent();
    if tz in RegionToCurrency then Some(RegionToCurrency[tz])
    else if locale in RegionToCurrency then Some(RegionToCurrency[locale])
    else if '-' in locale then
      var region := RegionSuffix(locale);
      if region in RegionMap then Some(RegionMap[region]) else None
    else None
  }

  /**
   * `CURRENCY_MAP[currencyCode || 'INR'] || CURRENCY_MAP['INR']`: the entry for
   * the code, the rupee entry when there is no code or the code has no entry.
   */
  function LookupRate(code: Option<string>): (e: RateEntry)
    ensures e in CurrencyMap.Values
    ensures e.code in CurrencyMap && CurrencyMap[e.code] == e
    ensures e.rate > 0.0
    ensures code.Some? && code.value in CurrencyMap ==> e.code == code.value
    ensures code.None? || code.value !in CurrencyMap ==> e == RateEntry(BaseCode, 1.0)
  {
    TablesConsistent();
    var key := if code.Some? && code.value != "" then code.value else BaseCode;
    if key in CurrencyMap then CurrencyMap[key] else CurrencyMap[BaseCode]
  }

  /** `formatToParts(0).find(part => part.type === 'currency')?.value || '₹'`: the host's symbol, or the rupee sign. */
  function ChooseSymbol(part: Option<string>): (symbol: string)
    ensures symbol != ""
    ensures part.Some? && part.value != "" ==> symbol == part.value
    ensures part.None? || part.value == "" ==> symbol == FallbackSymbol
  {
    if part.Some? && part.value != "" then part.value else FallbackSymbol
  }

  /**
   * `getCurrencyConfig`, with the host signals as parameters: the time zone,
   * `navigator.language`, and the currency part the host formatter yields for
   * a locale and a currency code.
   */
  function GetCurrencyConfig(tz: string, language: string, currencyPart: (string, string) -> Option<string>)
    : (c: CurrencyConfig)
    ensures c.code in CurrencyMap && c.rate == CurrencyMap[c.code].rate
    ensures c.rate > 0.0
    ensures c.code == BaseCode <==> c.rate == 1.0
    ensures c.symbol != ""
    ensures c.symbol == ChooseSymbol(currencyPart(EffectiveLocale(language), c.code))
  {
    TablesConsistent();
    var locale := EffectiveLocale(language);
    var entry := LookupRate(ResolveCode(tz, locale));
    CurrencyConfig(entry.code, ChooseSymbol(currencyPart(locale, entry.code)), entry.rate)
  }

  /** `formatPrice`: convert a rupee amount and fix the fraction-digit bound. */
  function FormatPrice(inrAmount: real, config: CurrencyConfig, language: string): (f: PriceFormat)
    ensures f.amount == inrAmount * config.rate
    ensures f.currency == config.code
    ensures f.locale == EffectiveLocale(language)
    ensures f.maxFractionDigits == 0 <==> config.code == BaseCode
    ensures f.maxFractionDigits == 0 || f.maxFractionDigits == 2
  {
    PriceFormat(inrAmount * config.rate, config.code, EffectiveLocale(language),
                if config.code == BaseCode then 0 else 2)
  }

  // ---- The fallback chain, one step at a time ----

  /** Step 1: a mapped time zone decides the code, whatever the language. */
  lemma TimeZoneDecides(tz: string, language: string, currencyPart: (string, string) -> Option<string>)
    requires tz in RegionToCurrency
    ensures GetCurrencyConfig(tz, language, currencyPart).code == RegionToCurrency[tz]
  {
    TablesConsistent();
  }

  /** Step 2: with an unmapped time zone, a locale that is itself a key of the same table decides. */
  lemma LocaleDecides(tz: string, language: string, currencyPart: (string, string) -> Option<string>)
    requires tz !in RegionToCurrency
    requires EffectiveLocale(language) in RegionToCurrency
    ensures GetCurrencyConfig(tz, language, currencyPart).code == RegionToCurrency[EffectiveLocale(language)]
  {
    TablesConsistent();
  }

  /** Step 3: otherwise the upper-cased second segment of the locale is looked up in the region table. */
  lemma RegionDecides(tz: string, language: string, currencyPart: (string, string) -> Option<string>)
    requires tz !in RegionToCurrency
    requires EffectiveLocale(language) !in RegionToCurrency
    requires '-' in EffectiveLocale(language)
    requires RegionSuffix(EffectiveLocale(language)) in RegionMap
    ensures GetCurrencyConfig(tz, language, currencyPart).code == RegionMap[RegionSuffix(EffectiveLocale(language))]
  {
    TablesConsistent();
  }

  /** Step 4: when no step yields a code, the rupee entry is used. */
  lemma DefaultsToBase(tz: string, language: string, currencyPart: (string, string) -> Option<string>)
    requires tz !in RegionToCurrency
    requires EffectiveLocale(language) !in RegionToCurrency
    requires '-' !in EffectiveLocale(language) || RegionSuffix(EffectiveLocale(language)) !in RegionMap
    ensures GetCurrencyConfig(tz, language, currencyPart).code == BaseCode
    ensures GetCurrencyConfig(tz, language, currencyPart).rate == 1.0
  {
  }

  /** The second fallback to the rupee entry is never needed: whatever code the chain yields has an entry. */
  lemma RateFallbackUnused(tz: string, locale: string)
    ensures ResolveCode(tz, locale).Some? ==> LookupRate(ResolveCode(tz, locale)).code == ResolveCode(tz, locale).value
  {
  }

  /** An empty language means `en-IN`, so with an unmapped time zone the shopper sees rupees. */
  lemma EmptyLanguageMeansRupees(tz: string, currencyPart: (string, string) -> Option<string>)
    requires tz !in RegionToCurrency
    ensures GetCurrencyConfig(tz, "", currencyPart).code == BaseCode
  {
    assert EffectiveLocale("") in RegionToCurrency;
  }

  /** The region step reads the segment between the first and the second `-`. */
  lemma RegionSuffixOf(language: string, script: string, rest: string)
    requires '-' !in language && '-' !in script
    requires rest == [] || rest[0] == '-'
    ensures '-' in language + "-" + script + rest
    ensures RegionSuffix(language + "-" + script + rest) == ToUpper(script)
  {
    var s := language + "-" + script + rest;
    assert s[|language|] == '-';
    assert s == language + ['-'] + (script + rest);
    SplitAtFirst(language, '-', script + rest);
    assert Split(s, '-')[1] == Split(script + rest, '-')[0];
    if rest == [] {
      assert script + rest == script;
      SplitWithoutSeparator(script, '-');
    } else {
      assert script + rest == script + ['-'] + rest[1..];
      SplitAtFirst(script, '-', rest[1..]);
    }
    assert Split(s, '-')[1] == script;
  }

  /** Once the first two steps miss, the region table alone decides. */
  lemma ResolveByRegion(tz: string, locale: string, region: string)
    requires tz !in RegionToCurrency && locale !in RegionToCurrency
    requires '-' in locale && RegionSuffix(locale) == region
    ensures ResolveCode(tz, locale) == if region in RegionMap then Some(RegionMap[region]) else None
  {
  }

  lemma ScriptTagFacts()
    ensures "zh-Hans-CN" !in RegionToCurrency
    ensures '-' in "zh-Hans-CN" && RegionSuffix("zh-Hans-CN") == "HANS"
    ensures "HANS" !in RegionMap && "CN" in RegionMap
  {
    ScriptTagSuffix();
    ScriptTagUnmapped();
  }

  lemma ScriptTagUnmapped()
    ensures "zh-Hans-CN" !in RegionToCurrency
    ensures "HANS" !in RegionMap && "CN" in RegionMap
  {
  }

  lemma ScriptTagSuffix()
    ensures '-' in "zh-Hans-CN" && RegionSuffix("zh-Hans-CN") == "HANS"
  {
    RegionSuffixOf("zh", "Hans", "-CN");
    assert "zh" + "-" + "Hans" + "-CN" == "zh-Hans-CN";
    assert ToUpper("Hans") == "HANS";
  }

  /** The second segment of a tag with a script subtag is the script, not the region: `zh-Hans-CN` falls through to rupees, though `zh-CN` gives yuan. */
  lemma ScriptSubtagIsNotRegion(tz: string, currencyPart: (string, string) -> Option<string>)
    requires tz !in RegionToCurrency
    ensures GetCurrencyConfig(tz, "zh-Hans-CN", currencyPart).code == BaseCode
    ensures GetCurrencyConfig(tz, "zh-CN", currencyPart).code == "CNY"
  {
    ScriptTagFacts();
    ResolveByRegion(tz, "zh-Hans-CN", "HANS");
  }

  lemma AustralianTagFacts()
    ensures "en-AU" !in RegionToCurrency && "en-au" !in RegionToCurrency
    ensures '-' in "en-AU" && RegionSuffix("en-AU") == "AU"
    ensures '-' in "en-au" && RegionSuffix("en-au") == "AU"
  {
    RegionSuffixOf("en", "AU", "");
    RegionSuffixOf("en", "au", "");
    assert "en" + "-" + "AU" + "" == "en-AU";
    assert "en" + "-" + "au" + "" == "en-au";
    assert ToUpper("AU") == "AU" && ToUpper("au") == "AU";
  }

  /** The region step ignores the case of the segment: `en-AU` and `en-au` both give Australian dollars. */
  lemma RegionStepIgnoresCase(tz: string, currencyPart: (string, string) -> Option<string>)
    requires tz !in RegionToCurrency
    ensures GetCurrencyConfig(tz, "en-AU", currencyPart).code == "AUD"
    ensures GetCurrencyConfig(tz, "en-au", currencyPart).code == "AUD"
    ensures GetCurrencyConfig(tz, "en-AU", currencyPart).rate == 0.018
  {
    AustralianTagFacts();
    ResolveByRegion(tz, "en-AU", "AU");
    ResolveByRegion(tz, "en-au", "AU");
  }

  /** Kolkata gives rupees whatever the language. */
  lemma KolkataScenario(currencyPart: (string, string) -> Option<string>)
    ensures GetCurrencyConfig("Asia/Kolkata", "fr-FR", currencyPart).code == "INR"
    ensures GetCurrencyConfig("Asia/Kolkata", "fr-FR", currencyPart).rate == 1.0
  {
    assert ResolveCode("Asia/Kolkata", "fr-FR") == Some("INR");
  }

  /** An unmapped zone with the tag `fr-FR` gives euros through the exact-locale step. */
  lemma FrenchLocaleScenario(currencyPart: (string, string) -> Option<string>)
    ensures GetCurrencyConfig("Pacific/Unknown", "fr-FR", currencyPart).code == "EUR"
    ensures GetCurrencyConfig("Pacific/Unknown", "fr-FR", currencyPart).rate == 0.011
  {
    assert "Pacific/Unknown" !in RegionToCurrency;
    assert ResolveCode("Pacific/Unknown", "fr-FR") == Some("EUR");
  }

  lemma UnknownTagFacts()
    ensures "Pacific/Unknown" !in RegionToCurrency && "xx-ZZ" !in RegionToCurrency
    ensures '-' in "xx-ZZ" && RegionSuffix("xx-ZZ") == "ZZ" && "ZZ" !in RegionMap
  {
    RegionSuffixOf("xx", "ZZ", "");
    assert "xx" + "-" + "ZZ" + "" == "xx-ZZ";
    assert ToUpper("ZZ") == "ZZ";
  }

  /** An unmapped zone with an unmapped tag `xx-ZZ` gives rupees. */
  lemma UnknownScenario(currencyPart: (string, string) -> Option<string>)
    ensures GetCurrencyConfig("Pacific/Unknown", "xx-ZZ", currencyPart).code == "INR"
    ensures GetCurrencyConfig("Pacific/Unknown", "xx-ZZ", currencyPart).rate == 1.0
  {
    UnknownTagFacts();
    ResolveByRegion("Pacific/Unknown", "xx-ZZ", "ZZ");
  }

  // ---- Conversion ----

  /** Rupee prices are shown unconverted and without fraction digits. */
  lemma RupeesShownAsIs(inrAmount: real, config: CurrencyConfig, language: string)
    requires config.code == BaseCode && config.code in CurrencyMap && config.rate == CurrencyMap[config.code].rate
    ensures FormatPrice(inrAmount, config, language).amount == inrAmount
    ensures FormatPrice(inrAmount, config, language).maxFractionDigits == 0
  {
  }

  /** For a resolved currency a larger rupee amount never converts to a smaller one. */
  lemma ConversionMonotone(a: real, b: real, config: CurrencyConfig, language: string)
    requires a <= b
    requires config.rate > 0.0
    ensures FormatPrice(a, config, language).amount <= FormatPrice(b, config, language).amount
  {
    assert (b - a) * config.rate >= 0.0;
  }

  /** The worked price: 3500 rupees in New York is 42 dollars, with two fraction digits. */
  lemma NewYorkPrice(currencyPart: (string, string) -> Option<string>, language: string)
    ensures FormatPrice(3500.0, GetCurrencyConfig("America/New_York", language, currencyPart), language).amount == 42.0
    ensures FormatPrice(3500.0, GetCurrencyConfig("America/New_York", language, currencyPart), language).maxFractionDigits == 2
  {
    assert ResolveCode("America/New_York", EffectiveLocale(language)) == Some("USD");
  }

  // ---- The fallback symbol ----

  /** The symbol choice as the source writes it, with the mis-encoded literal. */
  function ChooseSymbolAsWritten(part: Option<string>): (symbol: string)
    ensures part.Some? && part.value != "" ==> symbol == part.value
    ensures part.None? || part.value == "" ==> symbol == FallbackSymbolAsWritten
  {
    if part.Some? && part.value != "" then part.value else FallbackSymbolAsWritten
  }

  /** When the host yields no symbol, the literal as stored shows three stray characters instead of the rupee sign; the corrected choice shows the sign. */
  lemma FallbackSymbolMisencoded()
    ensures |ChooseSymbolAsWritten(None)| == 3 && ChooseSymbolAsWritten(None) != ChooseSymbol(None)
    ensures ChooseSymbol(None) == ['\U{20B9}']
  {
  }
}
