/** The e-mail renderer: the ordered chain of 62 global replacements that
    turns a template body into the order e-mail (index.js:1853-2019 for
    two-step templates, index.js:2214-2394 for three-step ones). */
module Render {
  import opened Common
  import opened Escape
  import opened Replace

  /** The saved profile of a user (`getUserSettings`), absent when never set. */
  datatype Settings = Settings(fullName: string, email: string, street: string,
                               city: string, postalCode: string, country: string)

  /** The order as the wizard collected it, every field as text. */
  datatype Order = Order(
    template: string, brand: string, product: string, size: string,
    email: string, orderDate: string, imageUrl: string, styleId: string,
    colour: string, reference: string, firstName: string, wholeName: string,
    phoneNumber: string, currency: string, cardEnd: string,
    estimatedDelivery: string, orderNumber: string)

  /** The amounts as printed: `toFixed(2)` of price, subtotal and taxes, the
      already formatted total, and `String(quantity)`. */
  datatype Figures = Figures(price: string, subtotal: string, taxes: string,
                             total: string, quantity: string)

  /** Three rules of the source are written with a literal U+0008 character
      on each side of the token where a `\b` word boundary evidently was
      meant; `AsWritten` keeps them, `Corrected` reads them as `\b`. */
  datatype Transcription = AsWritten | Corrected

  const Backspace: char := '\U{0008}'

  const ProcessingFee: string := "5.95"

  const ShippingFee: string := "12.95"

  /** The tokens of the chain, in its order. */
  const ProductImageToken: Token := "PRODUCT_IMAGE"
  const ProductLinkToken: Token := "PRODUCT_LINK"
  const ProductNameToken: Token := "PRODUCT_NAME"
  const ProductnameToken: Token := "PRODUCTNAME"
  const ProductSubtotalToken: Token := "PRODUCT_SUBTOTAL"
  const ProductQtyToken: Token := "PRODUCT_QTY"
  const ProductPriceToken: Token := "PRODUCT_PRICE"
  const ProductpriceToken: Token := "PRODUCTPRICE"
  const OrderPriceToken: Token := "ORDER_PRICE"
  const ProductColourToken: Token := "PRODUCT_COLOUR"
  const ProductstyleToken: Token := "PRODUCTSTYLE"
  const ProductsizeToken: Token := "PRODUCTSIZE"
  const ProductToken: Token := "PRODUCT"
  const StyleIdToken: Token := "STYLE_ID"
  const StyleToken: Token := "STYLE"
  const SizeToken: Token := "SIZE"
  const PriceToken: Token := "PRICE"
  const FeeToken: Token := "FEE"
  const ShippingToken: Token := "SHIPPING"
  const TaxesToken: Token := "TAXES"
  const TotalStarToken: Token := "TOTAL*"
  const OrderTotalToken: Token := "ORDER_TOTAL"
  const CarttotalToken: Token := "CARTTOTAL"
  const DateToken: Token := "DATE"
  const OrderdateToken: Token := "ORDERDATE"
  const OrderNumberToken: Token := "ORDER_NUMBER"
  const OrdernumberToken: Token := "ORDERNUMBER"
  const ColourToken: Token := "COLOUR"
  const ReferenceToken: Token := "REFERENCE"
  const FirstnameToken: Token := "FIRSTNAME"
  const FirstNameToken: Token := "FIRST_NAME"
  const WholeNameToken: Token := "WHOLE_NAME"
  const WholenameToken: Token := "WHOLENAME"
  const FullNameToken: Token := "FULL_NAME"
  const EmailToken: Token := "EMAIL"
  const QuantityToken: Token := "QUANTITY"
  const CurrencyStrToken: Token := "CURRENCY_STR"
  const CurrencyToken: Token := "CURRENCY"
  const PhoneNumberToken: Token := "PHONE_NUMBER"
  const CardEndToken: Token := "CARD_END"
  const EstimatedDeliveryToken: Token := "ESTIMATED_DELIVERY"
  const StreetToken: Token := "STREET"
  const PostalCodeToken: Token := "POSTAL_CODE"
  const CityToken: Token := "CITY"
  const Address1Token: Token := "ADDRESS1"
  const Address2Token: Token := "ADDRESS2"
  const Address3Token: Token := "ADDRESS3"
  const Address4Token: Token := "ADDRESS4"
  const Address5Token: Token := "ADDRESS5"
  const Billing1Token: Token := "BILLING1"
  const Billing2Token: Token := "BILLING2"
  const Billing3Token: Token := "BILLING3"
  const Billing4Token: Token := "BILLING4"
  const Billing5Token: Token := "BILLING5"
  const Shipping1Token: Token := "SHIPPING1"
  const Shipping2Token: Token := "SHIPPING2"
  const Shipping3Token: Token := "SHIPPING3"
  const Shipping4Token: Token := "SHIPPING4"
  const Shipping5Token: Token := "SHIPPING5"
  const ShippingJanToken: Token := "SHIPPING_JAN"
  const BillingJanToken: Token := "BILLING_JAN"
  const TotalToken: Token := "TOTAL"

  /** Amount and currency: `stockx` writes the currency first, every other
      template after the amount. */
  function Money(template: string, amount: string, currency: string): string
  {
    if template == "stockx" then currency + " " + amount else amount + currency
  }

  /** `userSettings?.fullName` and the other saved fields. */
  function SavedName(u: Option<Settings>): Option<string>
  {
    if u.Some? then Some(u.value.fullName) else None
  }

  function SavedEmail(u: Option<Settings>): Option<string>
  {
    if u.Some? then Some(u.value.email) else None
  }

  function SavedStreet(u: Option<Settings>): Option<string>
  {
    if u.Some? then Some(u.value.street) else None
  }

  function SavedCity(u: Option<Settings>): Option<string>
  {
    if u.Some? then Some(u.value.city) else None
  }

  function SavedPostalCode(u: Option<Settings>): Option<string>
  {
    if u.Some? then Some(u.value.postalCode) else None
  }

  function SavedCountry(u: Option<Settings>): Option<string>
  {
    if u.Some? then Some(u.value.country) else None
  }

  /** The `city, postalCode` line, or its placeholder without settings. */
  function CityLine(u: Option<Settings>): string
  {
    if u.Some? then u.value.city + ", " + u.value.postalCode else "City, Postal Code"
  }

  /** A token the source wraps in backspace characters, as written or read as `\b`. */
  function Word(src: Transcription, word: Token): (Token, bool)
  {
    if src == AsWritten then ([Backspace] + word + [Backspace], false) else (word, true)
  }

  /** The token of rule k and whether it is wrapped in `\b`. Three
      two-step tokens are written with backspace characters around them. */
  function Shape(threeStep: bool, src: Transcription, k: nat): (Token, bool)
    requires k < 62
  {
    if k < 16 then ShapeProduct(threeStep, src, k)
    else if k < 24 then ShapeMoney(threeStep, src, k - 16)
    else if k < 42 then ShapeOrder(threeStep, src, k - 24)
    else ShapeAddress(threeStep, src, k - 42)
  }

  /** Rules 0-15: the product tokens, composite ones before `PRODUCT`. */
  function ShapeProduct(threeStep: bool, src: Transcription, k: nat): (Token, bool)
    requires k < 16
  {
    match k
    case 0 => (ProductImageToken, false)
    case 1 => (ProductLinkToken, false)
    case 2 => (ProductNameToken, false)
    case 3 => (ProductnameToken, false)
    case 4 => (ProductSubtotalToken, false)
    case 5 => (ProductQtyToken, false)
    case 6 => (ProductPriceToken, false)
    case 7 => (ProductpriceToken, false)
    case 8 => (OrderPriceToken, false)
    case 9 => (ProductColourToken, false)
    case 10 => (ProductstyleToken, false)
    case 11 => (ProductsizeToken, false)
    case 12 => (ProductToken, false)
    case 13 => (StyleIdToken, false)
    case 14 => (StyleToken, true)
    case _ => (SizeToken, true)
  }

  /** Rules 16-23: the amounts. */
  function ShapeMoney(threeStep: bool, src: Transcription, k: nat): (Token, bool)
    requires k < 8
  {
    match k
    case 0 => if threeStep then (PriceToken, false) else Word(src, PriceToken)
    case 1 => (FeeToken, false)
    case 2 => (ShippingToken, false)
    case 3 => if threeStep then (TaxesToken, false) else Word(src, TaxesToken)
    case 4 => (TotalStarToken, false)
    case 5 => Word(src, TotalToken)
    case 6 => (OrderTotalToken, false)
    case _ => (CarttotalToken, false)
  }

  /** Rules 24-41: dates, numbers, names and contact details. */
  function ShapeOrder(threeStep: bool, src: Transcription, k: nat): (Token, bool)
    requires k < 18
  {
    match k
    case 0 => (DateToken, true)
    case 1 => (OrderdateToken, false)
    case 2 => (OrderNumberToken, false)
    case 3 => (OrdernumberToken, false)
    case 4 => (ColourToken, true)
    case 5 => (ReferenceToken, true)
    case 6 => (FirstnameToken, true)
    case 7 => (FirstNameToken, false)
    case 8 => (WholeNameToken, false)
    case 9 => (WholenameToken, false)
    case 10 => (FullNameToken, false)
    case 11 => (EmailToken, true)
    case 12 => (QuantityToken, true)
    case 13 => (CurrencyStrToken, false)
    case 14 => (CurrencyToken, true)
    case 15 => (PhoneNumberToken, false)
    case 16 => (CardEndToken, false)
    case _ => (EstimatedDeliveryToken, false)
  }

  /** Rules 42-61: the address blocks. */
  function ShapeAddress(threeStep: bool, src: Transcription, k: nat): (Token, bool)
    requires k < 20
  {
    match k
    case 0 => (StreetToken, false)
    case 1 => (PostalCodeToken, false)
    case 2 => (CityToken, false)
    case 3 => (Address1Token, false)
    case 4 => (Address2Token, false)
    case 5 => (Address3Token, false)
    case 6 => (Address4Token, false)
    case 7 => (Address5Token, false)
    case 8 => (Billing1Token, false)
    case 9 => (Billing2Token, false)
    case 10 => (Billing3Token, false)
    case 11 => (Billing4Token, false)
    case 12 => (Billing5Token, false)
    case 13 => (Shipping1Token, false)
    case 14 => (Shipping2Token, false)
    case 15 => (Shipping3Token, false)
    case 16 => (Shipping4Token, false)
    case 17 => (Shipping5Token, false)
    case 18 => (ShippingJanToken, false)
    case _ => (BillingJanToken, false)
  }

  /** The text rule k substitutes, before escaping. */
  function Value(threeStep: bool, o: Order, f: Figures, u: Option<Settings>, k: nat): string
    requires k < 62
  {
    if k < 16 then ValueProduct(threeStep, o, f, u, k)
    else if k < 24 then ValueMoney(threeStep, o, f, u, k - 16)
    else if k < 42 then ValueOrder(threeStep, o, f, u, k - 24)
    else ValueAddress(threeStep, o, f, u, k - 42)
  }

  /** Rules 0-15: the product tokens, composite ones before `PRODUCT`. */
  function ValueProduct(threeStep: bool, o: Order, f: Figures, u: Option<Settings>, k: nat): string
    requires k < 16
  {
    var cur := o.currency;
    match k
    case 0 => o.imageUrl
    case 1 => o.imageUrl
    case 2 => o.brand + " " + o.product
    case 3 => o.brand + " " + o.product
    case 4 => f.subtotal + cur
    case 5 => "Qty " + f.quantity
    case 6 => Money(o.template, f.price, cur)
    case 7 => Money(o.template, f.price, cur)
    case 8 => Money(o.template, f.price, cur)
    case 9 => o.colour
    case 10 => o.styleId
    case 11 => o.size
    case 12 => o.product
    case 13 => o.styleId
    case 14 => o.styleId
    case _ => o.size
  }

  /** Rules 16-23: the amounts. */
  function ValueMoney(threeStep: bool, o: Order, f: Figures, u: Option<Settings>, k: nat): string
    requires k < 8
  {
    var cur := o.currency;
    match k
    case 0 => if threeStep then Money(o.template, f.price, cur) else f.price + cur
    case 1 => Money(o.template, ProcessingFee, cur)
    case 2 => Money(o.template, ShippingFee, cur)
    case 3 => if threeStep then Money(o.template, f.taxes, cur) else f.taxes + cur
    case 4 => f.total + cur + "*"
    case 5 => f.total + cur
    case 6 => f.total + cur
    case _ => f.total + cur
  }

  /** Rules 24-41: dates, numbers, names and contact details. */
  function ValueOrder(threeStep: bool, o: Order, f: Figures, u: Option<Settings>, k: nat): string
    requires k < 18
  {
    var cur := o.currency;
    var name := SavedName(u);
    match k
    case 0 => o.orderDate
    case 1 => o.orderDate
    case 2 => o.orderNumber
    case 3 => o.orderNumber
    case 4 => o.colour
    case 5 => o.reference
    case 6 => OrElse(name, Or(o.firstName, "Jan"))
    case 7 => OrElse(name, Or(o.firstName, "Jan"))
    case 8 => OrElse(name, Or(o.wholeName, "Jan Kowalski"))
    case 9 => OrElse(name, Or(o.wholeName, "Jan Kowalski"))
    case 10 => OrElse(name, Or(o.wholeName, Or(o.firstName, "Jan Kowalski")))
    case 11 => o.email
    case 12 => f.quantity
    case 13 => cur
    case 14 => cur
    case 15 => Or(o.phoneNumber, OrElse(SavedEmail(u), "+1 234 567 890"))
    case 16 => Or(o.cardEnd, "1234")
    case _ => o.estimatedDelivery
  }

  /** Rules 42-61: the address blocks. */
  function ValueAddress(threeStep: bool, o: Order, f: Figures, u: Option<Settings>, k: nat): string
    requires k < 20
  {
    var name := SavedName(u);
    var street := SavedStreet(u);
    var country := OrElse(SavedCountry(u), "Country");
    match k
    case 0 => OrElse(street, "ul. Przykładowa 123")
    case 1 => OrElse(SavedPostalCode(u), "00-000")
    case 2 => OrElse(SavedCity(u), "Warszawa")
    case 3 => OrElse(name, Or(o.firstName, Or(o.wholeName, "Customer")))
    case 4 => OrElse(street, "Shipping Address Line 1")
    case 5 => CityLine(u)
    case 6 => country
    case 7 => ""
    case 8 => OrElse(name, Or(o.wholeName, Or(o.firstName, "Customer")))
    case 9 => OrElse(street, "Billing Address Line 1")
    case 10 => CityLine(u)
    case 11 => country
    case 12 => ""
    case 13 => OrElse(name, Or(o.firstName, Or(o.wholeName, "Customer")))
    case 14 => OrElse(street, "Shipping Address Line 1")
    case 15 => CityLine(u)
    case 16 => country
    case 17 => ""
    case 18 => OrElse(name, Or(o.firstName, Or(o.wholeName, "Jan Kowalski")))
    case _ => OrElse(name, Or(o.wholeName, Or(o.firstName, "Jan Kowalski")))
  }

  /** Rule k of the chain. Every value is escaped; `esc` is written as the
      per-character escaping it equals (`Escape.EscIsPerChar`), and the
      three empty values are unchanged by it. */
  function RuleAt(threeStep: bool, src: Transcription, o: Order, f: Figures, u: Option<Settings>, k: nat): Rule
    requires k < 62
  {
    var (p, b) := Shape(threeStep, src, k);
    Rule(p, b, EscapeEach(Value(threeStep, o, f, u, k)))
  }

  /** The replacement chain. */
  function Chain(threeStep: bool, src: Transcription, o: Order, f: Figures, u: Option<Settings>): seq<Rule>
  {
    seq(62, k requires 0 <= k < 62 => RuleAt(threeStep, src, o, f, u, k))
  }

  /** The rendered e-mail body: the template's text run through the chain
      of its path. A text that holds none of the 62 tokens goes out as it is. */
  function Render(body: string, threeStep: bool, src: Transcription, o: Order, f: Figures, u: Option<Settings>): (r: string)
    ensures (forall k :: 0 <= k < 62 ==> Absent(body, Shape(threeStep, src, k).0)) ==> r == body
  {
    TokenFreeKept(body, threeStep, src, o, f, u);
    ApplyChain(body, Chain(threeStep, src, o, f, u))
  }

  lemma TokenFreeKept(body: string, threeStep: bool, src: Transcription, o: Order, f: Figures, u: Option<Settings>)
    ensures (forall k :: 0 <= k < 62 ==> Absent(body, Shape(threeStep, src, k).0)) ==>
              ApplyChain(body, Chain(threeStep, src, o, f, u)) == body
  {
    var rules := Chain(threeStep, src, o, f, u);
    if forall k :: 0 <= k < 62 ==> Absent(body, Shape(threeStep, src, k).0) {
      forall k | 0 <= k < 62 ensures ReplaceAll(body, rules[k]) == body {
        AbsentIsIdle(body, rules[k]);
      }
      ChainKeeps(body, rules, 62);
      assert rules[..62] == rules;
    }
  }

  /** The two copies of the chain differ only in rules 16 and 19 (`PRICE`
      and `TAXES`), and outside `stockx` even those substitute the same text. */
  lemma StepsAgree(src: Transcription, o: Order, f: Figures, u: Option<Settings>)
    ensures forall k: nat :: k < 62 && k != 16 && k != 19 ==>
              RuleAt(false, src, o, f, u, k) == RuleAt(true, src, o, f, u, k)
    ensures o.template != "stockx" ==>
              Value(false, o, f, u, 16) == Value(true, o, f, u, 16) &&
              Value(false, o, f, u, 19) == Value(true, o, f, u, 19)
  {
  }

  /** Only `stockx` puts the currency first, and only for the unit price,
      the fee and the shipping cost (and, in the three-step chain, `PRICE`
      and `TAXES`). */
  lemma CurrencyPlacement(threeStep: bool, o: Order, f: Figures, u: Option<Settings>)
    ensures o.template == "stockx" ==>
      && Value(threeStep, o, f, u, 6) == o.currency + " " + f.price
      && Value(threeStep, o, f, u, 7) == o.currency + " " + f.price
      && Value(threeStep, o, f, u, 8) == o.currency + " " + f.price
      && Value(threeStep, o, f, u, 17) == o.currency + " 5.95"
      && Value(threeStep, o, f, u, 18) == o.currency + " 12.95"
    ensures o.template != "stockx" ==>
      && Value(threeStep, o, f, u, 6) == f.price + o.currency
      && Value(threeStep, o, f, u, 7) == f.price + o.currency
      && Value(threeStep, o, f, u, 8) == f.price + o.currency
      && Value(threeStep, o, f, u, 17) == "5.95" + o.currency
      && Value(threeStep, o, f, u, 18) == "12.95" + o.currency
    ensures threeStep ==>
      && Value(threeStep, o, f, u, 16) == Money(o.template, f.price, o.currency)
      && Value(threeStep, o, f, u, 19) == Money(o.template, f.taxes, o.currency)
  {
  }

  /** Subtotal and total, and in the two-step chain `PRICE` and `TAXES`,
      carry the currency behind the amount for every template. */
  lemma CurrencyBehind(threeStep: bool, o: Order, f: Figures, u: Option<Settings>)
    ensures Value(threeStep, o, f, u, 4) == f.subtotal + o.currency
    ensures Value(threeStep, o, f, u, 20) == f.total + o.currency + "*"
    ensures Value(threeStep, o, f, u, 21) == f.total + o.currency
    ensures Value(threeStep, o, f, u, 22) == f.total + o.currency
    ensures Value(threeStep, o, f, u, 23) == f.total + o.currency
    ensures !threeStep ==>
      && Value(threeStep, o, f, u, 16) == f.price + o.currency
      && Value(threeStep, o, f, u, 19) == f.taxes + o.currency
  {
  }

  /** `SHIPPING` (rule 18) runs before `SHIPPING1`-`SHIPPING5` and
      `SHIPPING_JAN` (rules 55-60): a template's longer token comes through
      rules 0-17 whole, and rule 18 turns it into the shipping cost followed
      by the token's suffix, so the longer token is no longer there when
      rule 18 has run. */
  lemma ShippingCutsLongerTokens(threeStep: bool, src: Transcription, o: Order, f: Figures, u: Option<Settings>, j: nat)
    requires 55 <= j <= 60
    ensures var p := Shape(threeStep, src, j).0;
      && |p| > |ShippingToken| && p[..|ShippingToken|] == ShippingToken
      && ApplyChain(p, Chain(threeStep, src, o, f, u)[..18]) == p
      && ApplyChain(p, Chain(threeStep, src, o, f, u)[..19])
         == EscapeEach(Value(threeStep, o, f, u, 18)) + p[|ShippingToken|..]
  {
    var p := Shape(threeStep, src, j).0;
    assert ShippingQuiet(p);
    assert StartsOnce(p, ShippingToken) && |p| > 8;
    ShippingKeeps(p, threeStep, src, o, f, u, 18);
    ShippingCut(threeStep, src, o, f, u, p);
  }

  /** Rule 18 turns a text made of `SHIPPING` and a shorter suffix that
      reaches it whole into the shipping cost followed by the suffix. */
  lemma ShippingCut(threeStep: bool, src: Transcription, o: Order, f: Figures, u: Option<Settings>, t: string)
    requires StartsOnce(t, ShippingToken)
    requires ApplyChain(t, Chain(threeStep, src, o, f, u)[..18]) == t
    ensures ApplyChain(t, Chain(threeStep, src, o, f, u)[..19]) == EscapeEach(Value(threeStep, o, f, u, 18)) + t[8..]
  {
    ShippingRule(threeStep, src, o, f, u);
    PrefixStep(t, Chain(threeStep, src, o, f, u), 18, ShippingToken, EscapeEach(Value(threeStep, o, f, u, 18)));
  }

  /** Rule 18 is the plain `SHIPPING` rule. */
  lemma ShippingRule(threeStep: bool, src: Transcription, o: Order, f: Figures, u: Option<Settings>)
    ensures Chain(threeStep, src, o, f, u)[18] == Rule(ShippingToken, false, EscapeEach(Value(threeStep, o, f, u, 18)))
  {
  }

  /** A text without `R`, `O`, `T`, `Z`, `F` and backspace characters. */
  predicate ShippingQuiet(t: string)
  {
    'R' !in t && 'O' !in t && 'T' !in t && 'Z' !in t && 'F' !in t && Backspace !in t
  }

  /** Rules 0 to m - 1 (m at most 18) leave alone a text without `R`, `O`,
      `T`, `Z`, `F` and backspace characters. */
  lemma {:induction false} ShippingKeeps(t: string, threeStep: bool, src: Transcription, o: Order, f: Figures,
                                         u: Option<Settings>, m: nat)
    requires m <= 18
    requires ShippingQuiet(t)
    ensures ApplyChain(t, Chain(threeStep, src, o, f, u)[..m]) == t
    decreases m
  {
    var rules := Chain(threeStep, src, o, f, u);
    if m == 0 {
      assert rules[..0] == [];
    } else {
      ShippingKeeps(t, threeStep, src, o, f, u, m - 1);
      ShippingPrefixIdle(t, threeStep, src, o, f, u, m - 1);
      ChainStep(t, rules, m - 1);
    }
  }

  /** Rule k < 18 leaves alone a text without `R`, `O`, `T`, `Z`, `F` and
      backspace characters. */
  lemma ShippingPrefixIdle(t: string, threeStep: bool, src: Transcription, o: Order, f: Figures, u: Option<Settings>, k: nat)
    requires k < 18
    requires ShippingQuiet(t)
    ensures ReplaceAll(t, RuleAt(threeStep, src, o, f, u, k)) == t
  {
    var r := RuleAt(threeStep, src, o, f, u, k);
    if k < 8 {
      ForeignIdleAt(t, r, 1);
    } else {
      LaterShippingPrefixIdle(t, threeStep, src, o, f, u, k);
    }
  }

  /** The rules 8 to 17 of `ShippingPrefixIdle`. */
  lemma LaterShippingPrefixIdle(t: string, threeStep: bool, src: Transcription, o: Order, f: Figures, u: Option<Settings>, k: nat)
    requires 8 <= k < 18
    requires ShippingQuiet(t)
    ensures ReplaceAll(t, RuleAt(threeStep, src, o, f, u, k)) == t
  {
    var r := RuleAt(threeStep, src, o, f, u, k);
    if k < 13 {
      ForeignIdleAt(t, r, if k == 8 then 0 else 1);
    } else {
      MoneyShippingPrefixIdle(t, threeStep, src, o, f, u, k);
    }
  }

  /** The rules 13 to 17 of `ShippingPrefixIdle`. */
  lemma MoneyShippingPrefixIdle(t: string, threeStep: bool, src: Transcription, o: Order, f: Figures, u: Option<Settings>, k: nat)
    requires 13 <= k < 18
    requires ShippingQuiet(t)
    ensures ReplaceAll(t, RuleAt(threeStep, src, o, f, u, k)) == t
  {
    var r := RuleAt(threeStep, src, o, f, u, k);
    if k == 17 || (k == 16 && !threeStep && src == AsWritten) {
      ForeignIdleAt(t, r, 0);
    } else if k == 15 {
      ForeignIdleAt(t, r, 2);
    } else {
      ForeignIdleAt(t, r, 1);
    }
  }

  /** The `SHIPPING` rule does not make the later `SHIPPING1` rule dead:
      `ADDRESS5` is deleted after it ran, and a template that splits
      `SHIPPING1` around `ADDRESS5` gets the token back, which rule 55 then
      replaces. */
  lemma ShippingTokenReforms(threeStep: bool, src: Transcription, o: Order, f: Figures, u: Option<Settings>)
    ensures var t := "SHIPADDRESS5PING1";
      && ReplaceAll(t, RuleAt(threeStep, src, o, f, u, 18)) == t
      && ReplaceAll(t, RuleAt(threeStep, src, o, f, u, 49)) == Shipping1Token
      && ReplaceAll(Shipping1Token, RuleAt(threeStep, src, o, f, u, 55)) == RuleAt(threeStep, src, o, f, u, 55).value
  {
    SplitShippingToken(EscapeEach(Value(threeStep, o, f, u, 49)));
    AbsentIsIdle("SHIPADDRESS5PING1", RuleAt(threeStep, src, o, f, u, 18));
    AddressFiveJoins(threeStep, src, o, f, u);
    ShippingOneFires(threeStep, src, o, f, u);
  }

  lemma AddressFiveJoins(threeStep: bool, src: Transcription, o: Order, f: Figures, u: Option<Settings>)
    ensures ReplaceAll("SHIPADDRESS5PING1", RuleAt(threeStep, src, o, f, u, 49)) == Shipping1Token
  {
    var r49 := RuleAt(threeStep, src, o, f, u, 49);
    assert r49 == Rule(Address5Token, false, "");
    SplitShippingToken(r49.value);
  }

  lemma ShippingOneFires(threeStep: bool, src: Transcription, o: Order, f: Figures, u: Option<Settings>)
    ensures ReplaceAll(Shipping1Token, RuleAt(threeStep, src, o, f, u, 55)) == RuleAt(threeStep, src, o, f, u, 55).value
  {
    var r55 := RuleAt(threeStep, src, o, f, u, 55);
    assert r55 == Rule(Shipping1Token, false, r55.value);
    ShortAbsent([], Shipping1Token);
    TokenThenSuffix(Shipping1Token, [], r55.value);
    assert Shipping1Token + [] == Shipping1Token;
  }

  /** `SHIPADDRESS5PING1` holds no `SHIPPING`, and replacing its `ADDRESS5`
      joins the two halves. */
  lemma SplitShippingToken(v: string)
    ensures Absent("SHIPADDRESS5PING1", ShippingToken)
    ensures ReplaceAll("SHIPADDRESS5PING1", Rule(Address5Token, false, v)) == "SHIP" + v + "PING1"
  {
    var t := "SHIPADDRESS5PING1";
    forall k: nat ensures !OccursAt(t, ShippingToken, k) {
      if k + 8 <= |t| {
        var w := t[k..k + 8];
        assert w[0] == t[k] && w[1] == t[k + 1] && w[4] == t[k + 4];
      }
    }
    assert t == "SHIP" + Address5Token + "PING1";
    forall j: nat | j < 4 ensures !OccursAt(t, Address5Token, j) {
      assert t[j..j + 8][0] == t[j];
    }
    ReplaceInside("SHIP", Address5Token, "PING1", v);
  }

  /** As written, the backspace-wrapped rules (`TOTAL`, and in the two-step
      chain `PRICE` and `TAXES`) only match text that holds a U+0008
      character: on any other text they change nothing, so a template's
      `TOTAL` is sent out as the word `TOTAL`. */
  lemma BackspaceRulesIdle(threeStep: bool, o: Order, f: Figures, u: Option<Settings>, s: string)
    requires Backspace !in s
    ensures ReplaceAll(s, RuleAt(threeStep, AsWritten, o, f, u, 21)) == s
    ensures !threeStep ==> ReplaceAll(s, RuleAt(threeStep, AsWritten, o, f, u, 16)) == s
    ensures !threeStep ==> ReplaceAll(s, RuleAt(threeStep, AsWritten, o, f, u, 19)) == s
  {
    WordRuleIdle(threeStep, o, f, u, s, 21, TotalToken);
    if !threeStep {
      WordRuleIdle(threeStep, o, f, u, s, 16, PriceToken);
      WordRuleIdle(threeStep, o, f, u, s, 19, TaxesToken);
    }
  }

  lemma WordRuleIdle(threeStep: bool, o: Order, f: Figures, u: Option<Settings>, s: string, k: nat, w: Token)
    requires k < 62 && Backspace !in s
    requires Shape(threeStep, AsWritten, k) == Word(AsWritten, w)
    ensures ReplaceAll(s, RuleAt(threeStep, AsWritten, o, f, u, k)) == s
  {
    var r := RuleAt(threeStep, AsWritten, o, f, u, k);
    assert r.pattern[0] == Backspace;
    ForeignCharIdle(s, r, Backspace);
  }

  /** The counterexample, through the whole chain: a body that is the word
      `TOTAL` (or, for a two-step template, `PRICE` or `TAXES`) is sent out
      as that word. */
  lemma BackspaceWordsSentAsWritten(threeStep: bool, o: Order, f: Figures, u: Option<Settings>, t: string)
    requires t == TotalToken || (!threeStep && (t == PriceToken || t == TaxesToken))
    ensures Render(t, threeStep, AsWritten, o, f, u) == t
  {
    var rules := Chain(threeStep, AsWritten, o, f, u);
    AmountWords(t);
    BackspaceRulesIdle(threeStep, o, f, u, t);
    if threeStep {
      PriceTaxesIdle(t, threeStep, AsWritten, o, f, u);
    }
    ShortKeeps(t, threeStep, AsWritten, o, f, u, 62);
    assert rules[..62] == rules;
  }

  /** A text of at most five characters without `D`, `F`, `M`, `Y` and `Z`. */
  predicate QuietShort(t: string)
  {
    |t| <= 5 && 'D' !in t && 'F' !in t && 'M' !in t && 'Y' !in t && 'Z' !in t
  }

  /** The three amount words are short words of upper-case letters. */
  lemma AmountWords(t: string)
    requires t == TotalToken || t == PriceToken || t == TaxesToken
    ensures |t| == 5 && IsWordChar(t[0]) && IsWordChar(t[4])
    ensures Backspace !in t && QuietShort(t)
    ensures t != PriceToken ==> 'P' !in t
    ensures t == TotalToken ==> 'X' !in t
  {
  }


  /** Rules 0 to m - 1 leave alone a text of at most five characters
      without `D`, `F`, `M`, `Y` and `Z`, provided the three word rules
      among them do. */
  lemma {:induction false} ShortKeeps(t: string, threeStep: bool, src: Transcription, o: Order, f: Figures,
                                      u: Option<Settings>, m: nat)
    requires m <= 62
    requires QuietShort(t)
    requires m > 16 ==> ReplaceAll(t, RuleAt(threeStep, src, o, f, u, 16)) == t
    requires m > 19 ==> ReplaceAll(t, RuleAt(threeStep, src, o, f, u, 19)) == t
    requires m > 21 ==> ReplaceAll(t, RuleAt(threeStep, src, o, f, u, 21)) == t
    ensures ApplyChain(t, Chain(threeStep, src, o, f, u)[..m]) == t
    decreases m
  {
    var rules := Chain(threeStep, src, o, f, u);
    if m == 0 {
      assert rules[..0] == [];
    } else {
      ShortKeeps(t, threeStep, src, o, f, u, m - 1);
      if m - 1 != 16 && m - 1 != 19 && m - 1 != 21 {
        ShortTextIdle(t, threeStep, src, o, f, u, m - 1);
      }
      ChainStep(t, rules, m - 1);
    }
  }

  /** Every rule but the three word rules 16, 19 and 21 leaves alone a text
      of at most five characters without `D`, `F`, `M`, `Y` and `Z`. */
  lemma ShortTextIdle(t: string, threeStep: bool, src: Transcription, o: Order, f: Figures, u: Option<Settings>, k: nat)
    requires k < 62 && k != 16 && k != 19 && k != 21
    requires QuietShort(t)
    ensures ReplaceAll(t, RuleAt(threeStep, src, o, f, u, k)) == t
  {
    if k < 24 {
      EarlyShortTextIdle(t, threeStep, src, o, f, u, k);
    } else if k < 42 {
      OrderShortTextIdle(t, threeStep, src, o, f, u, k);
    } else {
      AddressShortTextIdle(t, threeStep, src, o, f, u, k);
    }
  }

  /** The rules 24 to 41 of `ShortTextIdle`. */
  lemma OrderShortTextIdle(t: string, threeStep: bool, src: Transcription, o: Order, f: Figures, u: Option<Settings>, k: nat)
    requires 24 <= k < 42
    requires QuietShort(t)
    ensures ReplaceAll(t, RuleAt(threeStep, src, o, f, u, k)) == t
  {
    var r := RuleAt(threeStep, src, o, f, u, k);
    if k == 24 {
      ForeignIdleAt(t, r, 0);
    } else if k == 35 {
      ForeignIdleAt(t, r, 1);
    } else {
      ShortIdle(t, r);
    }
  }

  /** The rules 42 to 61 of `ShortTextIdle`. */
  lemma AddressShortTextIdle(t: string, threeStep: bool, src: Transcription, o: Order, f: Figures, u: Option<Settings>, k: nat)
    requires 42 <= k < 62
    requires QuietShort(t)
    ensures ReplaceAll(t, RuleAt(threeStep, src, o, f, u, k)) == t
  {
    var r := RuleAt(threeStep, src, o, f, u, k);
    if k == 44 {
      ForeignIdleAt(t, r, 3);
    } else {
      ShortIdle(t, r);
    }
  }

  /** The rules before 24 of `ShortTextIdle`. */
  lemma EarlyShortTextIdle(t: string, threeStep: bool, src: Transcription, o: Order, f: Figures, u: Option<Settings>, k: nat)
    requires k < 24 && k != 16 && k != 19 && k != 21
    requires QuietShort(t)
    ensures ReplaceAll(t, RuleAt(threeStep, src, o, f, u, k)) == t
  {
    var r := RuleAt(threeStep, src, o, f, u, k);
    if k == 14 || k == 15 {
      ForeignIdleAt(t, r, 2);
    } else if k == 17 {
      ForeignIdleAt(t, r, 0);
    } else {
      ShortIdle(t, r);
    }
  }

  /** Read as `\b`, the chain does put the amounts in: a body that is the
      word `TOTAL` (or, for a two-step template, `PRICE` or `TAXES`) comes
      through the earlier rules whole and its own rule replaces it. */
  lemma CorrectedWordsFilled(threeStep: bool, o: Order, f: Figures, u: Option<Settings>)
    ensures ApplyChain(TotalToken, Chain(threeStep, Corrected, o, f, u)[..22]) == EscapeEach(f.total + o.currency)
    ensures !threeStep ==>
              ApplyChain(PriceToken, Chain(threeStep, Corrected, o, f, u)[..17]) == EscapeEach(f.price + o.currency)
    ensures !threeStep ==>
              ApplyChain(TaxesToken, Chain(threeStep, Corrected, o, f, u)[..20]) == EscapeEach(f.taxes + o.currency)
  {
    CorrectedTotalFilled(threeStep, o, f, u);
    if !threeStep {
      CorrectedPriceTaxesFilled(o, f, u);
    }
  }

  lemma CorrectedTotalFilled(threeStep: bool, o: Order, f: Figures, u: Option<Settings>)
    ensures ApplyChain(TotalToken, Chain(threeStep, Corrected, o, f, u)[..22]) == EscapeEach(f.total + o.currency)
  {
    WordFilled(threeStep, o, f, u, 21, TotalToken);
  }



  lemma CorrectedPriceTaxesFilled(o: Order, f: Figures, u: Option<Settings>)
    ensures ApplyChain(PriceToken, Chain(false, Corrected, o, f, u)[..17]) == EscapeEach(f.price + o.currency)
    ensures ApplyChain(TaxesToken, Chain(false, Corrected, o, f, u)[..20]) == EscapeEach(f.taxes + o.currency)
  {
    CorrectedPriceFilled(o, f, u);
    CorrectedTaxesFilled(o, f, u);
  }

  lemma CorrectedPriceFilled(o: Order, f: Figures, u: Option<Settings>)
    ensures ApplyChain(PriceToken, Chain(false, Corrected, o, f, u)[..17]) == EscapeEach(f.price + o.currency)
  {
    WordFilled(false, o, f, u, 16, PriceToken);
  }

  lemma CorrectedTaxesFilled(o: Order, f: Figures, u: Option<Settings>)
    ensures ApplyChain(TaxesToken, Chain(false, Corrected, o, f, u)[..20]) == EscapeEach(f.taxes + o.currency)
  {
    WordFilled(false, o, f, u, 19, TaxesToken);
  }


  /** The `PRICE` and `TAXES` rules, where they are not wrapped in
      backspace characters, leave alone a text without `P` and `X`. */
  lemma PriceTaxesIdle(t: string, threeStep: bool, src: Transcription, o: Order, f: Figures, u: Option<Settings>)
    requires threeStep || src == Corrected
    requires 'P' !in t && 'X' !in t
    ensures ReplaceAll(t, RuleAt(threeStep, src, o, f, u, 16)) == t
    ensures ReplaceAll(t, RuleAt(threeStep, src, o, f, u, 19)) == t
  {
    ForeignIdleAt(t, RuleAt(threeStep, src, o, f, u, 16), 0);
    ForeignIdleAt(t, RuleAt(threeStep, src, o, f, u, 19), 2);
  }

  /** Word rule m, read as `\b`, on a body that is its word, given that the
      earlier word rules leave that body alone. */
  lemma WordFilled(threeStep: bool, o: Order, f: Figures, u: Option<Settings>, m: nat, w: Token)
    requires || (m == 16 && w == PriceToken && !threeStep)
             || (m == 19 && w == TaxesToken && !threeStep)
             || (m == 21 && w == TotalToken)
    ensures ApplyChain(w, Chain(threeStep, Corrected, o, f, u)[..m + 1])
            == EscapeEach(Value(threeStep, o, f, u, m))
  {
    var rules := Chain(threeStep, Corrected, o, f, u);
    AmountWords(w);
    if m > 16 {
      EarlierWordRulesIdle(threeStep, o, f, u, m, w);
    }
    WordAloneFilled(threeStep, o, f, u, m, w);
    ShortKeeps(w, threeStep, Corrected, o, f, u, m);
    ChainFires(w, rules, m, EscapeEach(Value(threeStep, o, f, u, m)));
  }

  /** Read as `\b`, the `PRICE` and `TAXES` rules leave the later amount words alone. */
  lemma EarlierWordRulesIdle(threeStep: bool, o: Order, f: Figures, u: Option<Settings>, m: nat, w: Token)
    requires (m == 19 && w == TaxesToken) || (m == 21 && w == TotalToken)
    ensures ReplaceAll(w, RuleAt(threeStep, Corrected, o, f, u, 16)) == w
    ensures m > 19 ==> ReplaceAll(w, RuleAt(threeStep, Corrected, o, f, u, 19)) == w
  {
    ForeignIdleAt(w, RuleAt(threeStep, Corrected, o, f, u, 16), 0);
    if m > 19 {
      ForeignIdleAt(w, RuleAt(threeStep, Corrected, o, f, u, 19), 2);
    }
  }

  /** A word rule replaces its token when the token is the whole text. */
  lemma WordAloneFilled(threeStep: bool, o: Order, f: Figures, u: Option<Settings>, m: nat, w: Token)
    requires m < 62 && Shape(threeStep, Corrected, m) == (w, true)
    requires IsWordChar(w[0]) && IsWordChar(w[|w| - 1])
    ensures ReplaceAll(w, Chain(threeStep, Corrected, o, f, u)[m]) == EscapeEach(Value(threeStep, o, f, u, m))
  {
    var v := EscapeEach(Value(threeStep, o, f, u, m));
    ShortAbsent([], w);
    WordRuleFires(threeStep, Corrected, o, f, u, [], [], m, w);
    assert [] + w + [] == w;
    assert [] + v + [] == v;
  }

  /** Read as `\b`, the same rules replace their token wherever it stands as a
      word of its own: text `a + TOTAL + b` with no other `TOTAL` and no word
      character touching it becomes `a + total + b`. */
  lemma CorrectedWordRulesFire(threeStep: bool, o: Order, f: Figures, u: Option<Settings>, a: string, b: string)
    requires a == [] || !IsWordChar(a[|a| - 1])
    requires b == [] || !IsWordChar(b[0])
    requires Absent(b, TotalToken) && Absent(b, PriceToken) && Absent(b, TaxesToken)
    requires forall j: nat :: j < |a| ==> !OccursAt(a + TotalToken + b, TotalToken, j)
    requires forall j: nat :: j < |a| ==> !OccursAt(a + PriceToken + b, PriceToken, j)
    requires forall j: nat :: j < |a| ==> !OccursAt(a + TaxesToken + b, TaxesToken, j)
    ensures ReplaceAll(a + TotalToken + b, RuleAt(threeStep, Corrected, o, f, u, 21))
            == a + EscapeEach(f.total + o.currency) + b
    ensures !threeStep ==>
              (ReplaceAll(a + PriceToken + b, RuleAt(threeStep, Corrected, o, f, u, 16))
               == a + EscapeEach(f.price + o.currency) + b)
    ensures !threeStep ==>
              (ReplaceAll(a + TaxesToken + b, RuleAt(threeStep, Corrected, o, f, u, 19))
               == a + EscapeEach(f.taxes + o.currency) + b)
  {
    WordRuleFires(threeStep, Corrected, o, f, u, a, b, 21, TotalToken);
    if !threeStep {
      WordRuleFires(threeStep, Corrected, o, f, u, a, b, 16, PriceToken);
      WordRuleFires(threeStep, Corrected, o, f, u, a, b, 19, TaxesToken);
    }
  }

  /** A word-bounded rule replaces its token where it stands as a word. */
  lemma WordRuleFires(threeStep: bool, src: Transcription, o: Order, f: Figures, u: Option<Settings>,
                      a: string, b: string, k: nat, w: Token)
    requires k < 62 && Shape(threeStep, src, k) == (w, true)
    requires IsWordChar(w[0]) && IsWordChar(w[|w| - 1])
    requires a == [] || !IsWordChar(a[|a| - 1])
    requires b == [] || !IsWordChar(b[0])
    requires Absent(b, w)
    requires forall j: nat :: j < |a| ==> !OccursAt(a + w + b, w, j)
    ensures ReplaceAll(a + w + b, RuleAt(threeStep, src, o, f, u, k))
            == a + EscapeEach(Value(threeStep, o, f, u, k)) + b
  {
    var r := RuleAt(threeStep, src, o, f, u, k);
    assert r == Rule(w, true, EscapeEach(Value(threeStep, o, f, u, k)));
    BoundedWordInText(a, w, b, r.value);
  }

  /** A word-bounded rule leaves its token alone at the end of a longer word. */
  lemma WordRuleSpares(threeStep: bool, src: Transcription, o: Order, f: Figures, u: Option<Settings>,
                       before: string, k: nat, w: Token)
    requires k < 62 && Shape(threeStep, src, k) == (w, true)
    requires before != [] && IsWordChar(before[|before| - 1]) && IsWordChar(w[0])
    requires forall j: nat :: j < |before| ==> !OccursAt(before + w, w, j)
    ensures ReplaceAll(before + w, RuleAt(threeStep, src, o, f, u, k)) == before + w
  {
    var r := RuleAt(threeStep, src, o, f, u, k);
    assert r == Rule(w, true, r.value);
    BoundedInsideWord(before, w, r.value);
  }

  /** A plain rule replaces its token that makes up the whole text. */
  lemma PlainRuleFires(threeStep: bool, src: Transcription, o: Order, f: Figures, u: Option<Settings>, k: nat, w: Token)
    requires k < 62 && Shape(threeStep, src, k) == (w, false)
    ensures ReplaceAll(w, RuleAt(threeStep, src, o, f, u, k)) == EscapeEach(Value(threeStep, o, f, u, k))
  {
    var r := RuleAt(threeStep, src, o, f, u, k);
    assert r == Rule(w, false, EscapeEach(Value(threeStep, o, f, u, k)));
    ShortAbsent([], w);
    TokenThenSuffix(w, [], r.value);
    assert w + [] == w && r.value + [] == r.value;
  }

  /** A template's `ORDER_TOTAL`, `CARTTOTAL` and `TOTAL*` come through the
      rules before their own (22, 23 and 20) whole and are replaced there by
      the total: in particular rule 21 (`TOTAL`) leaves the first two alone,
      both as written (it needs backspace characters) and corrected (`TOTAL`
      is not a word of its own there). */
  lemma TotalTokensSurvive(threeStep: bool, src: Transcription, o: Order, f: Figures, u: Option<Settings>)
    ensures ApplyChain(OrderTotalToken, Chain(threeStep, src, o, f, u)[..22]) == OrderTotalToken
    ensures ApplyChain(OrderTotalToken, Chain(threeStep, src, o, f, u)[..23]) == EscapeEach(f.total + o.currency)
    ensures ApplyChain(CarttotalToken, Chain(threeStep, src, o, f, u)[..23]) == CarttotalToken
    ensures ApplyChain(CarttotalToken, Chain(threeStep, src, o, f, u)[..24]) == EscapeEach(f.total + o.currency)
    ensures ApplyChain(TotalStarToken, Chain(threeStep, src, o, f, u)[..20]) == TotalStarToken
    ensures ApplyChain(TotalStarToken, Chain(threeStep, src, o, f, u)[..21]) == EscapeEach(f.total + o.currency + "*")
  {
    OrderTotalSurvives(threeStep, src, o, f, u);
    CarttotalSurvives(threeStep, src, o, f, u);
    TotalStarSurvives(threeStep, src, o, f, u);
  }

  /** `ORDER_TOTAL` reaches rule 22 whole and is replaced there. */
  lemma OrderTotalSurvives(threeStep: bool, src: Transcription, o: Order, f: Figures, u: Option<Settings>)
    ensures ApplyChain(OrderTotalToken, Chain(threeStep, src, o, f, u)[..22]) == OrderTotalToken
    ensures ApplyChain(OrderTotalToken, Chain(threeStep, src, o, f, u)[..23]) == EscapeEach(f.total + o.currency)
  {
    var rules := Chain(threeStep, src, o, f, u);
    TotalEarly(threeStep, src, o, f, u, OrderTotalToken);
    TotalTokenIdle(threeStep, src, o, f, u, OrderTotalToken);
    TotalRuleFires(threeStep, src, o, f, u, 22, OrderTotalToken);
    KeepsTwoThenFires(OrderTotalToken, rules, 20, EscapeEach(f.total + o.currency));
  }

  /** `CARTTOTAL` reaches rule 23 whole and is replaced there. */
  lemma CarttotalSurvives(threeStep: bool, src: Transcription, o: Order, f: Figures, u: Option<Settings>)
    ensures ApplyChain(CarttotalToken, Chain(threeStep, src, o, f, u)[..23]) == CarttotalToken
    ensures ApplyChain(CarttotalToken, Chain(threeStep, src, o, f, u)[..24]) == EscapeEach(f.total + o.currency)
  {
    var rules := Chain(threeStep, src, o, f, u);
    TotalEarly(threeStep, src, o, f, u, CarttotalToken);
    TotalTokenIdle(threeStep, src, o, f, u, CarttotalToken);
    ChainFires(CarttotalToken, rules, 20, CarttotalToken);
    TotalRuleFires(threeStep, src, o, f, u, 23, CarttotalToken);
    KeepsTwoThenFires(CarttotalToken, rules, 21, EscapeEach(f.total + o.currency));
  }

  /** Rules 22 and 23 replace `ORDER_TOTAL` and `CARTTOTAL` by the total. */
  lemma TotalRuleFires(threeStep: bool, src: Transcription, o: Order, f: Figures, u: Option<Settings>, k: nat, t: Token)
    requires (k == 22 && t == OrderTotalToken) || (k == 23 && t == CarttotalToken)
    ensures ReplaceAll(t, Chain(threeStep, src, o, f, u)[k]) == EscapeEach(f.total + o.currency)
  {
    PlainRuleFires(threeStep, src, o, f, u, k, t);
  }

  /** Rules 0 to 19 leave the three total tokens alone. */
  lemma TotalEarly(threeStep: bool, src: Transcription, o: Order, f: Figures, u: Option<Settings>, t: string)
    requires t == OrderTotalToken || t == CarttotalToken || t == TotalStarToken
    ensures ApplyChain(t, Chain(threeStep, src, o, f, u)[..20]) == t
  {
    assert 'P' !in t && 'S' !in t && 'F' !in t && 'X' !in t && Backspace !in t;
    EarlyKeeps(t, threeStep, src, o, f, u, 20);
  }

  /** `TOTAL*` reaches rule 20 whole and is replaced there. */
  lemma TotalStarSurvives(threeStep: bool, src: Transcription, o: Order, f: Figures, u: Option<Settings>)
    ensures ApplyChain(TotalStarToken, Chain(threeStep, src, o, f, u)[..20]) == TotalStarToken
    ensures ApplyChain(TotalStarToken, Chain(threeStep, src, o, f, u)[..21]) == EscapeEach(f.total + o.currency + "*")
  {
    var rules := Chain(threeStep, src, o, f, u);
    TotalEarly(threeStep, src, o, f, u, TotalStarToken);
    PlainRuleFires(threeStep, src, o, f, u, 20, TotalStarToken);
    ChainFires(TotalStarToken, rules, 20, EscapeEach(f.total + o.currency + "*"));
  }

  /** Rules 20 (`TOTAL*`) and 21 (`TOTAL`) leave `ORDER_TOTAL` and
      `CARTTOTAL` alone, and rule 22 (`ORDER_TOTAL`) leaves `CARTTOTAL` alone. */
  lemma TotalTokenIdle(threeStep: bool, src: Transcription, o: Order, f: Figures, u: Option<Settings>, t: string)
    requires t == OrderTotalToken || t == CarttotalToken
    ensures ReplaceAll(t, Chain(threeStep, src, o, f, u)[20]) == t
    ensures ReplaceAll(t, Chain(threeStep, src, o, f, u)[21]) == t
    ensures t == CarttotalToken ==> ReplaceAll(t, Chain(threeStep, src, o, f, u)[22]) == t
  {
    assert '*' !in t;
    ForeignIdleAt(t, RuleAt(threeStep, src, o, f, u, 20), 5);
    TotalRuleSpares(threeStep, src, o, f, u, t);
    if t == CarttotalToken {
      ShortIdle(t, RuleAt(threeStep, src, o, f, u, 22));
    }
  }

  /** Rule 21 (`TOTAL`) leaves `ORDER_TOTAL` and `CARTTOTAL` alone. */
  lemma TotalRuleSpares(threeStep: bool, src: Transcription, o: Order, f: Figures, u: Option<Settings>, t: string)
    requires t == OrderTotalToken || t == CarttotalToken
    ensures ReplaceAll(t, RuleAt(threeStep, src, o, f, u, 21)) == t
  {
    if src == AsWritten {
      assert Backspace !in t;
      WordRuleIdle(threeStep, o, f, u, t, 21, TotalToken);
    } else {
      TotalInsideWords();
      if t == OrderTotalToken {
        WordRuleSpares(threeStep, src, o, f, u, "ORDER_", 21, TotalToken);
      } else {
        WordRuleSpares(threeStep, src, o, f, u, "CART", 21, TotalToken);
      }
    }
  }

  /** Rules 0 to m - 1 (m at most 20) leave alone a text without `P`, `S`,
      `F`, `X` and backspace characters. */
  lemma {:induction false} EarlyKeeps(t: string, threeStep: bool, src: Transcription, o: Order, f: Figures,
                                      u: Option<Settings>, m: nat)
    requires m <= 20
    requires 'P' !in t && 'S' !in t && 'F' !in t && 'X' !in t && Backspace !in t
    ensures ApplyChain(t, Chain(threeStep, src, o, f, u)[..m]) == t
    decreases m
  {
    var rules := Chain(threeStep, src, o, f, u);
    if m == 0 {
      assert rules[..0] == [];
    } else {
      EarlyKeeps(t, threeStep, src, o, f, u, m - 1);
      EarlyRulesIdle(t, threeStep, src, o, f, u, m - 1);
      ChainStep(t, rules, m - 1);
    }
  }

  /** Rule k < 20 leaves alone a text without `P`, `S`, `F`, `X` and
      backspace characters. */
  lemma EarlyRulesIdle(t: string, threeStep: bool, src: Transcription, o: Order, f: Figures, u: Option<Settings>, k: nat)
    requires k < 20
    requires 'P' !in t && 'S' !in t && 'F' !in t && 'X' !in t && Backspace !in t
    ensures ReplaceAll(t, RuleAt(threeStep, src, o, f, u, k)) == t
  {
    var r := RuleAt(threeStep, src, o, f, u, k);
    if k < 8 {
      ForeignIdleAt(t, r, 0);
    } else {
      LaterEarlyRulesIdle(t, threeStep, src, o, f, u, k);
    }
  }

  /** The rules 8 to 19 of `EarlyRulesIdle`. */
  lemma LaterEarlyRulesIdle(t: string, threeStep: bool, src: Transcription, o: Order, f: Figures, u: Option<Settings>, k: nat)
    requires 8 <= k < 20
    requires 'P' !in t && 'S' !in t && 'F' !in t && 'X' !in t && Backspace !in t
    ensures ReplaceAll(t, RuleAt(threeStep, src, o, f, u, k)) == t
  {
    var r := RuleAt(threeStep, src, o, f, u, k);
    if k < 14 {
      ForeignIdleAt(t, r, if k == 8 then 6 else 0);
    } else {
      MoneyEarlyRulesIdle(t, threeStep, src, o, f, u, k);
    }
  }

  /** The rules 14 to 19 of `EarlyRulesIdle`. */
  lemma MoneyEarlyRulesIdle(t: string, threeStep: bool, src: Transcription, o: Order, f: Figures, u: Option<Settings>, k: nat)
    requires 14 <= k < 20
    requires 'P' !in t && 'S' !in t && 'F' !in t && 'X' !in t && Backspace !in t
    ensures ReplaceAll(t, RuleAt(threeStep, src, o, f, u, k)) == t
  {
    var r := RuleAt(threeStep, src, o, f, u, k);
    if k == 19 && (threeStep || src == Corrected) {
      ForeignIdleAt(t, r, 2);
    } else {
      ForeignIdleAt(t, r, 0);
    }
  }

  /** `TOTAL` occurs in `ORDER_TOTAL` and `CARTTOTAL` only at their end. */
  lemma TotalInsideWords()
    ensures OrderTotalToken == "ORDER_" + TotalToken && CarttotalToken == "CART" + TotalToken
    ensures forall j: nat :: j < 6 ==> !OccursAt("ORDER_" + TotalToken, TotalToken, j)
    ensures forall j: nat :: j < 4 ==> !OccursAt("CART" + TotalToken, TotalToken, j)
  {
    var t := "ORDER_TOTAL";
    assert t == "ORDER_" + TotalToken;
    forall j: nat | j < 6 ensures !OccursAt(t, TotalToken, j) {
      var w := t[j..j + 5];
      assert w[0] == t[j] && w[1] == t[j + 1];
    }
    var c := "CARTTOTAL";
    assert c == "CART" + TotalToken;
    forall j: nat | j < 4 ensures !OccursAt(c, TotalToken, j) {
      var w := c[j..j + 5];
      assert w[0] == c[j] && w[1] == c[j + 1];
    }
  }

  /** `\bDATE\b` (rule 24) spares `ORDERDATE`, which rule 25 then replaces,
      and replaces a `DATE` that stands as a word. */
  lemma DateSparesOrderDate(threeStep: bool, src: Transcription, o: Order, f: Figures, u: Option<Settings>)
    ensures ReplaceAll(OrderdateToken, RuleAt(threeStep, src, o, f, u, 24)) == OrderdateToken
    ensures ReplaceAll(OrderdateToken, RuleAt(threeStep, src, o, f, u, 25)) == EscapeEach(o.orderDate)
    ensures ReplaceAll(DateToken, RuleAt(threeStep, src, o, f, u, 24)) == EscapeEach(o.orderDate)
  {
    DateInsideWord();
    WordRuleSpares(threeStep, src, o, f, u, "ORDER", 24, DateToken);
    PlainRuleFires(threeStep, src, o, f, u, 25, OrderdateToken);
    ShortAbsent([], DateToken);
    WordRuleFires(threeStep, src, o, f, u, [], [], 24, DateToken);
    assert [] + DateToken + [] == DateToken;
  }

  /** `DATE` occurs in `ORDERDATE` only at its end. */
  lemma DateInsideWord()
    ensures OrderdateToken == "ORDER" + DateToken
    ensures forall j: nat :: j < 5 ==> !OccursAt("ORDER" + DateToken, DateToken, j)
  {
    var t := "ORDERDATE";
    assert t == "ORDER" + DateToken;
    forall j: nat | j < 5 ensures !OccursAt(t, DateToken, j) {
      var w := t[j..j + 4];
      assert w[0] == t[j] && w[1] == t[j + 1];
    }
  }

  /** Rules 0-11 other than `ORDER_PRICE` replace tokens that begin with
      `PRODUCT`; each such token comes through the rules before its own
      whole and is consumed whole there, whereas `PRODUCT` (rule 12), had it
      run first, would put the product name in and leave the rest of the
      token behind. */
  lemma ProductTokensFirst(threeStep: bool, src: Transcription, o: Order, f: Figures, u: Option<Settings>, j: nat)
    requires j < 12 && j != 8
    ensures var p := Shape(threeStep, src, j).0;
      && |p| > |ProductToken| && p[..|ProductToken|] == ProductToken
      && ApplyChain(p, Chain(threeStep, src, o, f, u)[..j]) == p
      && ApplyChain(p, Chain(threeStep, src, o, f, u)[..j + 1]) == EscapeEach(Value(threeStep, o, f, u, j))
      && ReplaceAll(p, RuleAt(threeStep, src, o, f, u, 12)) == EscapeEach(o.product) + p[|ProductToken|..]
  {
    var p := Shape(threeStep, src, j).0;
    ProductPrefix(threeStep, src, j);
    ProductRule(threeStep, src, o, f, u);
    TokenThenSuffix(ProductToken, p[7..], EscapeEach(o.product));
    ProductFires(threeStep, src, o, f, u, j);
  }

  /** Product token j comes through the rules before its own whole and is
      replaced by its value at rule j. */
  lemma ProductFires(threeStep: bool, src: Transcription, o: Order, f: Figures, u: Option<Settings>, j: nat)
    requires j < 12 && j != 8
    ensures var p := Shape(threeStep, src, j).0;
      && ApplyChain(p, Chain(threeStep, src, o, f, u)[..j]) == p
      && ApplyChain(p, Chain(threeStep, src, o, f, u)[..j + 1]) == EscapeEach(Value(threeStep, o, f, u, j))
  {
    var p := Shape(threeStep, src, j).0;
    ProductPrefix(threeStep, src, j);
    ProductKeeps(threeStep, src, o, f, u, j);
    PlainRuleFires(threeStep, src, o, f, u, j, p);
    ChainFires(p, Chain(threeStep, src, o, f, u), j, EscapeEach(Value(threeStep, o, f, u, j)));
  }

  /** The rules before product rule j leave its token alone. */
  lemma ProductKeeps(threeStep: bool, src: Transcription, o: Order, f: Figures, u: Option<Settings>, j: nat)
    requires j < 12 && j != 8
    ensures ApplyChain(Shape(threeStep, src, j).0, Chain(threeStep, src, o, f, u)[..j]) == Shape(threeStep, src, j).0
  {
    var p := Shape(threeStep, src, j).0;
    var rules := Chain(threeStep, src, o, f, u);
    forall k | 0 <= k < j
      ensures ReplaceAll(p, rules[k]) == p
    {
      ProductRuleIdle(threeStep, src, j, k, rules[k]);
    }
    ChainKeeps(p, rules, j);
  }

  /** A rule with the pattern of product rule k, for k before j, leaves the
      token of rule j alone: its pattern is longer, or holds a character the
      token lacks. */
  lemma ProductRuleIdle(threeStep: bool, src: Transcription, j: nat, k: nat, r: Rule)
    requires k < j < 12 && j != 8 && r.pattern == Shape(threeStep, src, k).0
    ensures ReplaceAll(Shape(threeStep, src, j).0, r) == Shape(threeStep, src, j).0
  {
    match j
    case 1 => ProductLinkKept(threeStep, src, k, r);
    case 2 => ProductNameKept(threeStep, src, k, r);
    case 3 => ProductnameKept(threeStep, src, k, r);
    case 4 => ProductSubtotalKept(threeStep, src, k, r);
    case 5 => ProductQtyKept(threeStep, src, k, r);
    case 6 => ProductPriceKept(threeStep, src, k, r);
    case 7 => ProductpriceKept(threeStep, src, k, r);
    case 9 => ProductColourKept(threeStep, src, k, r);
    case 10 => ProductstyleKept(threeStep, src, k, r);
    case _ => ProductsizeKept(threeStep, src, k, r);
  }

  /** The rules before `PRODUCT_LINK` (rule 1) leave it alone. */
  lemma ProductLinkKept(threeStep: bool, src: Transcription, k: nat, r: Rule)
    requires k < 1 && r.pattern == Shape(threeStep, src, k).0
    ensures ReplaceAll(ProductLinkToken, r) == ProductLinkToken
  {
    ShortIdle(ProductLinkToken, r);
  }

  /** The rules before `PRODUCT_NAME` (rule 2) leave it alone. */
  lemma ProductNameKept(threeStep: bool, src: Transcription, k: nat, r: Rule)
    requires k < 2 && r.pattern == Shape(threeStep, src, k).0
    ensures ReplaceAll(ProductNameToken, r) == ProductNameToken
  {
    match k
    case 0 => ShortIdle(ProductNameToken, r);
    case _ => ForeignIdleAt(ProductNameToken, r, 11);
  }

  /** The rules before `PRODUCTNAME` (rule 3) leave it alone. */
  lemma ProductnameKept(threeStep: bool, src: Transcription, k: nat, r: Rule)
    requires k < 3 && r.pattern == Shape(threeStep, src, k).0
    ensures ReplaceAll(ProductnameToken, r) == ProductnameToken
  {
    ShortIdle(ProductnameToken, r);
  }

  /** The rules before `PRODUCT_SUBTOTAL` (rule 4) leave it alone. */
  lemma ProductSubtotalKept(threeStep: bool, src: Transcription, k: nat, r: Rule)
    requires k < 4 && r.pattern == Shape(threeStep, src, k).0
    ensures ReplaceAll(ProductSubtotalToken, r) == ProductSubtotalToken
  {
    match k
    case 0 => ForeignIdleAt(ProductSubtotalToken, r, 12);
    case 1 | 2 => ForeignIdleAt(ProductSubtotalToken, r, 11);
    case _ => ForeignIdleAt(ProductSubtotalToken, r, 10);
  }

  /** The rules before `PRODUCT_QTY` (rule 5) leave it alone. */
  lemma ProductQtyKept(threeStep: bool, src: Transcription, k: nat, r: Rule)
    requires k < 5 && r.pattern == Shape(threeStep, src, k).0
    ensures ReplaceAll(ProductQtyToken, r) == ProductQtyToken
  {
    match k
    case 3 => ForeignIdleAt(ProductQtyToken, r, 10);
    case _ => ShortIdle(ProductQtyToken, r);
  }

  /** The rules before `PRODUCT_PRICE` (rule 6) leave it alone. */
  lemma ProductPriceKept(threeStep: bool, src: Transcription, k: nat, r: Rule)
    requires k < 6 && r.pattern == Shape(threeStep, src, k).0
    ensures ReplaceAll(ProductPriceToken, r) == ProductPriceToken
  {
    match k
    case 0 | 1 => ForeignIdleAt(ProductPriceToken, r, 11);
    case 3 => ForeignIdleAt(ProductPriceToken, r, 9);
    case 4 => ShortIdle(ProductPriceToken, r);
    case _ => ForeignIdleAt(ProductPriceToken, r, 10);
  }

  /** The rules before `PRODUCTPRICE` (rule 7) leave it alone. */
  lemma ProductpriceKept(threeStep: bool, src: Transcription, k: nat, r: Rule)
    requires k < 7 && r.pattern == Shape(threeStep, src, k).0
    ensures ReplaceAll(ProductpriceToken, r) == ProductpriceToken
  {
    match k
    case 1 => ForeignIdleAt(ProductpriceToken, r, 11);
    case 2 | 5 => ForeignIdleAt(ProductpriceToken, r, 10);
    case 3 => ForeignIdleAt(ProductpriceToken, r, 9);
    case _ => ShortIdle(ProductpriceToken, r);
  }

  /** The rules before `PRODUCT_COLOUR` (rule 9) leave it alone. */
  lemma ProductColourKept(threeStep: bool, src: Transcription, k: nat, r: Rule)
    requires k < 9 && r.pattern == Shape(threeStep, src, k).0
    ensures ReplaceAll(ProductColourToken, r) == ProductColourToken
  {
    if k < 4 {
      match k
      case 0 => ForeignIdleAt(ProductColourToken, r, 12);
      case 1 | 2 => ForeignIdleAt(ProductColourToken, r, 11);
      case _ => ForeignIdleAt(ProductColourToken, r, 10);
    } else {
      LaterProductColourKept(threeStep, src, k, r);
    }
  }

  /** The rules 4 to 8 of `ProductColourKept`. */
  lemma LaterProductColourKept(threeStep: bool, src: Transcription, k: nat, r: Rule)
    requires 4 <= k < 9 && r.pattern == Shape(threeStep, src, k).0
    ensures ReplaceAll(ProductColourToken, r) == ProductColourToken
  {
    match k
    case 4 => ShortIdle(ProductColourToken, r);
    case 6 => ForeignIdleAt(ProductColourToken, r, 12);
    case 7 => ForeignIdleAt(ProductColourToken, r, 11);
    case _ => ForeignIdleAt(ProductColourToken, r, 10);
  }

  /** The rules before `PRODUCTSTYLE` (rule 10) leave it alone. */
  lemma ProductstyleKept(threeStep: bool, src: Transcription, k: nat, r: Rule)
    requires k < 10 && r.pattern == Shape(threeStep, src, k).0
    ensures ReplaceAll(ProductstyleToken, r) == ProductstyleToken
  {
    match k
    case 1 => ForeignIdleAt(ProductstyleToken, r, 11);
    case 2 => ForeignIdleAt(ProductstyleToken, r, 10);
    case 3 | 7 => ForeignIdleAt(ProductstyleToken, r, 9);
    case 5 | 8 => ForeignIdleAt(ProductstyleToken, r, 8);
    case _ => ShortIdle(ProductstyleToken, r);
  }

  /** The rules before `PRODUCTSIZE` (rule 11) leave it alone. */
  lemma ProductsizeKept(threeStep: bool, src: Transcription, k: nat, r: Rule)
    requires k < 11 && r.pattern == Shape(threeStep, src, k).0
    ensures ReplaceAll(ProductsizeToken, r) == ProductsizeToken
  {
    match k
    case 3 => ForeignIdleAt(ProductsizeToken, r, 9);
    case 5 => ForeignIdleAt(ProductsizeToken, r, 10);
    case 8 => ForeignIdleAt(ProductsizeToken, r, 5);
    case _ => ShortIdle(ProductsizeToken, r);
  }

  lemma ProductRule(threeStep: bool, src: Transcription, o: Order, f: Figures, u: Option<Settings>)
    ensures RuleAt(threeStep, src, o, f, u, 12) == Rule(ProductToken, false, EscapeEach(o.product))
  {
  }

  lemma ProductPrefix(threeStep: bool, src: Transcription, j: nat)
    requires j < 12 && j != 8
    ensures var p := Shape(threeStep, src, j);
      && !p.1 && |p.0| > 7 && p.0 == ProductToken + p.0[7..] && Absent(p.0[7..], ProductToken)
  {
    var p := ShapeProduct(threeStep, src, j).0;
    var rest := p[7..];
    assert p == ProductToken + rest;
    if |rest| < 7 {
      ShortAbsent(rest, ProductToken);
    } else {
      assert 'P' !in rest;
      ForeignCharAbsent(rest, ProductToken, 'P');
    }
  }

  /** The rules that put a person's name in: `FIRSTNAME`, `FIRST_NAME`,
      `WHOLE_NAME`, `WHOLENAME`, `FULL_NAME`, `ADDRESS1`, `BILLING1`,
      `SHIPPING1`, `SHIPPING_JAN` and `BILLING_JAN`. */
  const NameRules: set<nat> := {30, 31, 32, 33, 34, 45, 50, 55, 60, 61}

  /** No name rule deletes its token. */
  lemma NamesNeverEmpty(threeStep: bool, o: Order, f: Figures, u: Option<Settings>)
    ensures forall k :: k in NameRules ==> k < 62 && Value(threeStep, o, f, u, k) != ""
  {
    forall k | k in NameRules ensures k < 62 && Value(threeStep, o, f, u, k) != "" {
      NameValue(threeStep, o, f, u, k);
    }
  }

  /** A saved full name wins in every name rule. */
  lemma SavedNameWins(threeStep: bool, o: Order, f: Figures, u: Option<Settings>)
    requires u.Some? && u.value.fullName != ""
    ensures forall k :: k in NameRules ==> k < 62 && Value(threeStep, o, f, u, k) == u.value.fullName
  {
    forall k | k in NameRules ensures k < 62 && Value(threeStep, o, f, u, k) == u.value.fullName {
      NameValue(threeStep, o, f, u, k);
    }
  }

  /** The value of one name rule: the saved full name if there is one,
      otherwise the first non-empty of the order's names and a placeholder. */
  lemma NameValue(threeStep: bool, o: Order, f: Figures, u: Option<Settings>, k: nat)
    requires k in NameRules
    ensures k < 62
    ensures var v := Value(threeStep, o, f, u, k);
      && v != ""
      && (u.Some? && u.value.fullName != "" ==> v == u.value.fullName)
  {
  }

  /** Without a saved full name, the first-name rules prefer the order's
      first name and the whole-name rules its whole name; each falls back to
      the other name and then to a placeholder. */
  lemma NamePreference(threeStep: bool, o: Order, f: Figures, u: Option<Settings>)
    requires u.None? || u.value.fullName == ""
    ensures o.firstName != "" ==>
      && Value(threeStep, o, f, u, 30) == o.firstName && Value(threeStep, o, f, u, 31) == o.firstName
      && Value(threeStep, o, f, u, 45) == o.firstName && Value(threeStep, o, f, u, 55) == o.firstName
      && Value(threeStep, o, f, u, 60) == o.firstName
    ensures o.wholeName != "" ==>
      && Value(threeStep, o, f, u, 32) == o.wholeName && Value(threeStep, o, f, u, 33) == o.wholeName
      && Value(threeStep, o, f, u, 34) == o.wholeName && Value(threeStep, o, f, u, 50) == o.wholeName
      && Value(threeStep, o, f, u, 61) == o.wholeName
    ensures o.firstName == "" && o.wholeName != "" ==>
      && Value(threeStep, o, f, u, 45) == o.wholeName && Value(threeStep, o, f, u, 55) == o.wholeName
      && Value(threeStep, o, f, u, 60) == o.wholeName
    ensures o.wholeName == "" && o.firstName != "" ==>
      && Value(threeStep, o, f, u, 34) == o.firstName && Value(threeStep, o, f, u, 50) == o.firstName
      && Value(threeStep, o, f, u, 61) == o.firstName
    ensures o.firstName == "" && o.wholeName == "" ==>
      && Value(threeStep, o, f, u, 30) == "Jan" && Value(threeStep, o, f, u, 31) == "Jan"
      && Value(threeStep, o, f, u, 32) == "Jan Kowalski" && Value(threeStep, o, f, u, 33) == "Jan Kowalski"
      && Value(threeStep, o, f, u, 34) == "Jan Kowalski" && Value(threeStep, o, f, u, 60) == "Jan Kowalski"
      && Value(threeStep, o, f, u, 61) == "Jan Kowalski"
      && Value(threeStep, o, f, u, 45) == "Customer" && Value(threeStep, o, f, u, 50) == "Customer"
      && Value(threeStep, o, f, u, 55) == "Customer"
  {
  }

  /** The three address blocks: the fifth line is always deleted, the third
      is the saved city and postal code, and without settings every line is
      a placeholder. The address and shipping blocks are the same text. */
  lemma AddressBlocks(threeStep: bool, o: Order, f: Figures, u: Option<Settings>)
    ensures Value(threeStep, o, f, u, 49) == "" && Value(threeStep, o, f, u, 54) == ""
         && Value(threeStep, o, f, u, 59) == ""
    ensures forall k :: 45 <= k < 50 ==> Value(threeStep, o, f, u, k) == Value(threeStep, o, f, u, k + 10)
    ensures u.Some? ==>
      var line := u.value.city + ", " + u.value.postalCode;
      Value(threeStep, o, f, u, 47) == line && Value(threeStep, o, f, u, 52) == line
    ensures u.Some? && u.value.street != "" ==>
      && Value(threeStep, o, f, u, 42) == u.value.street && Value(threeStep, o, f, u, 46) == u.value.street
      && Value(threeStep, o, f, u, 51) == u.value.street
    ensures u.Some? && u.value.country != "" ==>
      Value(threeStep, o, f, u, 48) == u.value.country && Value(threeStep, o, f, u, 53) == u.value.country
    ensures u.None? ==>
      && Value(threeStep, o, f, u, 42) == "ul. Przykładowa 123" && Value(threeStep, o, f, u, 43) == "00-000"
      && Value(threeStep, o, f, u, 44) == "Warszawa"
      && Value(threeStep, o, f, u, 46) == "Shipping Address Line 1"
      && Value(threeStep, o, f, u, 51) == "Billing Address Line 1"
      && Value(threeStep, o, f, u, 47) == "City, Postal Code" && Value(threeStep, o, f, u, 52) == "City, Postal Code"
      && Value(threeStep, o, f, u, 48) == "Country" && Value(threeStep, o, f, u, 53) == "Country"
  {
  }
}
