/** The order wizard: the per-user session records (`client.tempData`)
    that carry an order from the template menu through up to three form
    steps to the e-mail, and the two-step settings wizard
    (`client.tempSettings`) that saves a user's profile. Each handler reads
    the caller's entry, answers, and stores, replaces or deletes that entry. */
module Wizard {
  import opened Common
  import opened Templates
  import opened Fields
  import opened Validators
  import opened Render
  import Ledger

  /** What the first order step collected: the template and the product. */
  datatype Description = Description(template: string, brand: string, product: string,
                                     size: string, priceRaw: string)

  /** What the second step of a three-step template collected. */
  datatype Details = Details(
    email: string, orderDate: string, imageUrl: string, styleId: string,
    colour: string, taxesRaw: string, taxes: JsNum, reference: string,
    firstName: string, wholeName: string, quantityRaw: string, quantity: JsNum,
    price: real, phoneNumber: string)

  /** The shapes a session record takes: `{template}` after the menu, the
      product after step 1, and the merged record a three-step template
      keeps between steps 2 and 3. */
  datatype Session =
    | Chosen(template: string)
    | Described(d: Description)
    | Collected(d: Description, x: Details)

  /** The first half of the settings wizard. */
  datatype PartialSettings = PartialSettings(fullName: string, email: string, street: string,
                                             city: string, postalCode: string)

  /** An order ready for the e-mail: the text fields the renderer reads,
      which copy of the replacement chain applies, and the numbers the
      amounts are printed from. */
  datatype Mail = Mail(order: Order, threeStep: bool, price: real, quantity: JsNum, taxes: JsNum)

  /** How a handler answers. `Thrown` is an exception that reaches the
      handler's outer catch; `Prompt` shows the next form or button. */
  datatype Outcome =
    | NoSession
    | UnknownTemplate(name: string)
    | InvalidEmail
    | InvalidUrl
    | InvalidPrice
    | InvalidTaxes
    | InvalidQuantity
    | Thrown
    | Prompt
    | AskCountry
    | ShowForm(fields: seq<FieldId>)
    | Sent(mail: Mail, settings: Option<Settings>, remaining: Option<int>)

  /** What a form step does with the caller's session: keep it and answer
      with an error, store a new record, delete it and answer with an error,
      or delete it and go on to the e-mail. */
  datatype StepResult =
    | Rejected(why: Outcome)
    | Deferred(next: Session)
    | Dropped(why: Outcome)
    | Ready(mail: Mail)

  function TemplateOf(s: Session): string
  {
    match s
    case Chosen(t) => t
    case Described(d) => d.template
    case Collected(d, _) => d.template
  }

  /** A three-step record as the second step stores it: a known three-step
      template, a positive price, taxes that are a number, and the default
      quantity of one. */
  predicate SessionOk(s: Session)
  {
    s.Collected? ==>
      && Lookup(s.d.template).Some?
      && Lookup(s.d.template).value.needsModal3
      && s.x.price > 0.0
      && !s.x.taxes.NaN?
      && s.x.quantity == Num(1.0)
  }

  // ----- reading the submitted form -----

  /** The second-step fields read without a fallback: reading one the
      submitted form does not hold throws. */
  const Unguarded: seq<FieldId> := [StyleId, Colour, Taxes, Reference, FirstName, WholeName, Quantity]

  /** Every flagged unguarded field is present in the form. */
  predicate Readable(c: TemplateConfig, form: map<FieldId, string>)
  {
    forall f :: f in Unguarded && Flagged(c, f) ==> f in form
  }

  /** A read that yields `default` when the field is not wanted or, inside a
      `try`, when the form does not hold it. */
  function ReadOr(form: map<FieldId, string>, wanted: bool, f: FieldId, default: string): string
  {
    if wanted && f in form then form[f] else default
  }

  /** `Number(taxesRaw)`, where an unasked taxes field reads "0"; that
      text's number is written out as zero (see `DefaultNumbers`). */
  function TaxesOf(c: TemplateConfig, form: map<FieldId, string>): JsNum
  {
    if c.needsTaxes && Taxes in form then JsNumber(form[Taxes]) else Num(0.0)
  }

  /** `Number(quantityRaw)`, where an unasked quantity field reads "1". */
  function QuantityOf(c: TemplateConfig, form: map<FieldId, string>): JsNum
  {
    if c.needsQuantity && Quantity in form then JsNumber(form[Quantity]) else Num(1.0)
  }

  function OrderOf(d: Description, x: Details, currency: string, cardEnd: string,
                   delivery: string, orderNumber: string): Order
  {
    Order(d.template, d.brand, d.product, d.size, x.email, x.orderDate, x.imageUrl,
          x.styleId, x.colour, x.reference, x.firstName, x.wholeName, x.phoneNumber,
          currency, cardEnd, delivery, orderNumber)
  }

  // ----- the continuation buttons -----

  /** The "continue" button after step 1: the second-step form of the
      session's template, which is normalised once more and looked up. */
  function ContinueFormOf(s: Option<Session>): (r: Outcome)
    ensures r == NoSession <==> s.None? || TemplateOf(s.value) == ""
    ensures r.UnknownTemplate? <==>
              s.Some? && TemplateOf(s.value) != "" && Lookup(NormaliseName(TemplateOf(s.value))).None?
    ensures s.Some? && TemplateOf(s.value) != "" && Lookup(NormaliseName(TemplateOf(s.value))).Some? ==> r.ShowForm?
    ensures r.ShowForm? ==> r.fields == Step2Fields(Lookup(NormaliseName(TemplateOf(s.value))).value)
    ensures r.ShowForm? ==> |r.fields| <= RowCap && r.fields[..3] == [Email, Date, ImageUrl]
  {
    if s.None? || TemplateOf(s.value) == "" then NoSession
    else
      var t := NormaliseName(TemplateOf(s.value));
      match Lookup(t)
      case None => UnknownTemplate(t)
      case Some(c) => Step2Shape(c); ShowForm(Step2Fields(c))
  }

  /** The "continue" button after step 2 of a three-step template. It does
      not test the template for emptiness, and a template without a table
      entry makes its flag reads throw. */
  function ContinueStep3Of(s: Option<Session>): (r: Outcome)
    ensures r == NoSession <==> s.None?
    ensures r == Thrown <==> s.Some? && Lookup(NormaliseName(TemplateOf(s.value))).None?
    ensures s.Some? && Lookup(NormaliseName(TemplateOf(s.value))).Some? ==> r.ShowForm?
    ensures r.ShowForm? ==> forall f :: f in r.fields <==>
              Deferrable(f) && Flagged(Lookup(NormaliseName(TemplateOf(s.value))).value, f)
  {
    if s.None? then NoSession
    else match Lookup(NormaliseName(TemplateOf(s.value)))
      case None => Thrown
      case Some(c) => Step3Shape(c); ShowForm(Step3Fields(c))
  }

  /** Every menu value but `louis_vuitton` gets past the "continue" button
      after step 1; that one is answered with the unknown-template error. */
  lemma MenuContinues(v: string, brand: string, product: string, size: string, priceRaw: string)
    requires v in MenuValues
    ensures var r := ContinueFormOf(Some(Described(Description(NormaliseName(v), brand, product, size, priceRaw))));
            (r.ShowForm? <==> v != "louis_vuitton") &&
            (v == "louis_vuitton" ==> r == UnknownTemplate("louis_vuitton"))
  {
    NormaliseIdempotent(v);
    MenuResolution(v);
  }

  // ----- the second form step -----

  /** The checks of the second step that answer with an error and keep the
      session, all passed. */
  predicate Passes(s: Option<Session>, form: map<FieldId, string>)
  {
    && Email in form && Date in form && ImageUrl in form
    && ImageUrlAccepted(form[ImageUrl])
    && s.Some? && !s.value.Chosen?
    && PriceAccepted(s.value.d.priceRaw)
    && Lookup(s.value.d.template).Some?
    && Readable(Lookup(s.value.d.template).value, form)
    && !TaxesOf(Lookup(s.value.d.template).value, form).NaN?
  }

  /** The second form step on the caller's session `s` and the submitted
      form. In order: the three fixed fields are read, the image link is
      checked (before the session is even looked up), the session must be
      there and hold a product (a bare `{template}` record makes the price
      logging throw), the price is checked, the template is looked up, the
      flagged fields are read, and the taxes are checked. A three-step
      template then stores the merged record; any other template deletes the
      session, checks the quantity and goes on to the e-mail. */
  function DetailsStep(s: Option<Session>, form: map<FieldId, string>, orderNumber: string): (r: StepResult)
    ensures r.Rejected? ==> r.why in {Thrown, InvalidUrl, NoSession, InvalidPrice, InvalidTaxes}
    ensures r.Dropped? ==> r.why == InvalidQuantity
    ensures r.Deferred? ==> r.next.Collected? && r.next.x.phoneNumber == ""
    ensures r.Ready? ==> Email in form && r.mail.order.email == form[Email] && !r.mail.threeStep
    ensures r.Ready? ==> QuantityAccepted(r.mail.quantity) && !r.mail.taxes.NaN? && r.mail.price > 0.0
  {
    if Email !in form || Date !in form || ImageUrl !in form then Rejected(Thrown)
    else if !ImageUrlAccepted(form[ImageUrl]) then Rejected(InvalidUrl)
    else if s.None? then Rejected(NoSession)
    else if s.value.Chosen? then Rejected(Thrown)
    else
      var d := s.value.d;
      if !PriceAccepted(d.priceRaw) then Rejected(InvalidPrice)
      else if Lookup(d.template).None? then Rejected(Thrown)
      else
        var c := Lookup(d.template).value;
        if !Readable(c, form) then Rejected(Thrown)
        else if TaxesOf(c, form).NaN? then Rejected(InvalidTaxes)
        else
          var x := DetailsOf(c, d, form);
          if c.needsModal3 then Deferred(Collected(d, x))
          else if !QuantityAccepted(x.quantity) then Dropped(InvalidQuantity)
          else Ready(Mail(TwoStepOrder(c, d, x, form, orderNumber), false, x.price, x.quantity, x.taxes))
  }

  /** The values the second step reads: the date normalised, the link
      trimmed, each flagged field or its default, the converted numbers. The
      phone number is read here only for a two-step template. */
  function DetailsOf(c: TemplateConfig, d: Description, form: map<FieldId, string>): (x: Details)
    requires Email in form && Date in form && ImageUrl in form && PriceAccepted(d.priceRaw)
    ensures x.email == form[Email] && x.quantity == QuantityOf(c, form) && x.taxes == TaxesOf(c, form)
    ensures x.price == JsNumber(CleanPrice(d.priceRaw)).v
    ensures c.needsModal3 ==> x.phoneNumber == ""
  {
    Details(
      form[Email], NormaliseDate(form[Date]), Trim(form[ImageUrl]),
      ReadOr(form, c.needsStyleId, StyleId, ""), ReadOr(form, c.needsColour, Colour, ""),
      ReadOr(form, c.needsTaxes, Taxes, "0"), TaxesOf(c, form),
      ReadOr(form, c.needsReference, Reference, ""), ReadOr(form, c.needsFirstName, FirstName, ""),
      ReadOr(form, c.needsWholeName, WholeName, ""),
      ReadOr(form, c.needsQuantity, Quantity, "1"), QuantityOf(c, form),
      JsNumber(CleanPrice(d.priceRaw)).v,
      ReadOr(form, c.needsPhoneNumber && !c.needsModal3, PhoneNumber, ""))
  }

  /** The order of a two-step template: the currency, card end and delivery
      date are read inside a `try`, with `$` and empty text as fallbacks. */
  function TwoStepOrder(c: TemplateConfig, d: Description, x: Details, form: map<FieldId, string>,
                        orderNumber: string): (o: Order)
    ensures o.email == x.email && o.template == d.template && o.orderNumber == orderNumber
  {
    OrderOf(d, x,
      ReadOr(form, c.needsCurrency, Currency, "$"),
      ReadOr(form, c.needsCardEnd, CardEnd, ""),
      ReadOr(form, c.needsEstimatedDelivery, EstimatedDelivery, ""),
      orderNumber)
  }

  /** The session is kept exactly when one of the checks before the
      branch fails: a bad link, price or taxes never costs the user the
      product typed in step 1. */
  lemma DetailsKeepIff(s: Option<Session>, form: map<FieldId, string>, orderNumber: string)
    ensures DetailsStep(s, form, orderNumber).Rejected? <==> !Passes(s, form)
    ensures Email in form && Date in form && ImageUrl in form && !ImageUrlAccepted(form[ImageUrl]) ==>
              DetailsStep(s, form, orderNumber) == Rejected(InvalidUrl)
    ensures Email in form && Date in form && ImageUrl in form && ImageUrlAccepted(form[ImageUrl]) &&
            s.Some? && !s.value.Chosen? && !PriceAccepted(s.value.d.priceRaw) ==>
              DetailsStep(s, form, orderNumber) == Rejected(InvalidPrice)
  {
  }

  /** Once the checks pass, a three-step template keeps the merged record,
      and any other template loses its session whether or not the quantity
      check that follows succeeds. */
  lemma DetailsBranches(s: Option<Session>, form: map<FieldId, string>, orderNumber: string)
    requires Passes(s, form)
    ensures var c := Lookup(s.value.d.template).value;
            var r := DetailsStep(s, form, orderNumber);
            (r.Deferred? <==> c.needsModal3) &&
            (r.Dropped? <==> !c.needsModal3 && !QuantityAccepted(QuantityOf(c, form))) &&
            (r.Ready? <==> !c.needsModal3 && QuantityAccepted(QuantityOf(c, form)))
  {
  }

  /** The default texts of the two unasked numeric fields convert to the
      numbers `TaxesOf` and `QuantityOf` use for them. */
  lemma DefaultNumbers()
    ensures JsNumber("1") == Num(1.0) && JsNumber("0") == Num(0.0)
  {
    assert DecimalString(1) == "1" && DecimalString(0) == "0";
    NumberOfDecimalString(1);
    NumberOfDecimalString(0);
  }

  /** Both readings agree with `Number()` of the raw text the source keeps. */
  lemma NumbersOfRawText(c: TemplateConfig, form: map<FieldId, string>)
    ensures TaxesOf(c, form) == JsNumber(ReadOr(form, c.needsTaxes, Taxes, "0"))
    ensures QuantityOf(c, form) == JsNumber(ReadOr(form, c.needsQuantity, Quantity, "1"))
  {
    DefaultNumbers();
  }

  /** The record a three-step template stores is a well-formed three-step
      record; in particular its quantity is one, since no such template
      asks for a quantity. */
  lemma DeferredSessionOk(s: Option<Session>, form: map<FieldId, string>, orderNumber: string)
    requires DetailsStep(s, form, orderNumber).Deferred?
    ensures SessionOk(DetailsStep(s, form, orderNumber).next)
  {
    ThreeStepNeverAsksQuantity(s.value.d.template);
  }

  /** The checks read the e-mail field's presence, never its text. */
  lemma PassesIgnoresEmail(s: Option<Session>, form: map<FieldId, string>, e: string)
    requires Email in form
    ensures Passes(s, form[Email := e]) == Passes(s, form)
  {
    var form' := form[Email := e];
    EmailOnly(form, e);
    if s.Some? && !s.value.Chosen? && Lookup(s.value.d.template).Some? {
      var c := Lookup(s.value.d.template).value;
      assert Readable(c, form') == Readable(c, form);
      assert TaxesOf(c, form') == TaxesOf(c, form);
    }
  }

  /** Overwriting the e-mail field leaves every other field as it was. */
  lemma EmailOnly(form: map<FieldId, string>, e: string)
    ensures forall f :: f != Email ==> (f in form[Email := e] <==> f in form)
    ensures forall f :: f != Email && f in form ==> form[Email := e][f] == form[f]
  {
  }

  /** The second-step e-mail address is never checked: replacing it by any
      text changes neither the branch taken nor the session's fate, and the
      mail then goes to whatever was typed. */
  lemma DetailsEmailUnchecked(s: Option<Session>, form: map<FieldId, string>, orderNumber: string, e: string)
    requires Email in form
    ensures var r, r' := DetailsStep(s, form, orderNumber), DetailsStep(s, form[Email := e], orderNumber);
            (r.Rejected? <==> r'.Rejected?) && (r.Deferred? <==> r'.Deferred?) &&
            (r.Dropped? <==> r'.Dropped?) && (r.Ready? <==> r'.Ready?) &&
            (r'.Ready? ==> r'.mail.order.email == e)
  {
    PassesIgnoresEmail(s, form, e);
    DetailsKeepIff(s, form, orderNumber);
    DetailsKeepIff(s, form[Email := e], orderNumber);
    if Passes(s, form) {
      var c := Lookup(s.value.d.template).value;
      assert QuantityOf(c, form[Email := e]) == QuantityOf(c, form) by {
        EmailOnly(form, e);
      }
      DetailsBranches(s, form, orderNumber);
      DetailsBranches(s, form[Email := e], orderNumber);
    }
  }

  /** The unguarded fields come first in the second step's priority order,
      so when a template flags at most two of them, all of them are shown. */
  lemma FewUnguardedFit(c: TemplateConfig, form: map<FieldId, string>)
    requires |Wanted(c, Step2, Unguarded)| <= 2
    requires forall f :: f in form <==> f in Step2Fields(c)
    ensures Readable(c, form)
  {
    var a := Wanted(c, Step2, Unguarded);
    var rest := Step2Order[7..];
    assert Step2Order == Unguarded + rest;
    WantedAppend(c, Step2, Unguarded, rest);
    var t := Take(a + Wanted(c, Step2, rest), 2);
    Step2FieldsSplit(c);
    forall f | f in Unguarded && Flagged(c, f)
      ensures f in form
    {
      WantedMembers(c, Step2, Unguarded, f);
      var k :| 0 <= k < |a| && a[k] == f;
      assert t[k] == f;
      assert Step2Fields(c)[3 + k] == f;
    }
  }

  /** How many unguarded fields the template flags. */
  function UnguardedFlags(c: TemplateConfig): nat
  {
    (if c.needsStyleId then 1 else 0) + (if c.needsColour then 1 else 0) + (if c.needsTaxes then 1 else 0)
    + (if c.needsReference then 1 else 0) + (if c.needsFirstName then 1 else 0)
    + (if c.needsWholeName then 1 else 0) + (if c.needsQuantity then 1 else 0)
  }

  /** One unguarded field shown per flag: none of them waits for a third step. */
  lemma UnguardedLength(c: TemplateConfig)
    ensures |Wanted(c, Step2, Unguarded)| == UnguardedFlags(c)
  {
    var u := Unguarded;
    WantedOfSeven(c, Step2, u);
    assert |Opt(c, Step2, u[0])| == if c.needsStyleId then 1 else 0 by { assert u[0] == StyleId; }
    assert |Opt(c, Step2, u[1])| == if c.needsColour then 1 else 0 by { assert u[1] == Colour; }
    assert |Opt(c, Step2, u[2])| == if c.needsTaxes then 1 else 0 by { assert u[2] == Taxes; }
    assert |Opt(c, Step2, u[3])| == if c.needsReference then 1 else 0 by { assert u[3] == Reference; }
    assert |Opt(c, Step2, u[4])| == if c.needsFirstName then 1 else 0 by { assert u[4] == FirstName; }
    assert |Opt(c, Step2, u[5])| == if c.needsWholeName then 1 else 0 by { assert u[5] == WholeName; }
    assert |Opt(c, Step2, u[6])| == if c.needsQuantity then 1 else 0 by { assert u[6] == Quantity; }
  }

  lemma UnguardedFlagsEarly(name: string)
    requires name in {"stockx", "apple", "balenciaga", "bape", "dior", "lv", "moncler"}
    ensures UnguardedFlags(Lookup(name).value) <= 2
  {
  }

  lemma UnguardedFlagsLate(name: string)
    requires name in {"nike", "stussy", "trapstar", "notino", "mediaexpert", "grailpoint"}
    ensures UnguardedFlags(Lookup(name).value) <= 2
  {
  }

  /** Every table template flags at most two unguarded fields, except
      `zalando`, which flags four. */
  lemma UnguardedCounts(name: string)
    requires name in ConfigNames
    ensures |Wanted(Lookup(name).value, Step2, Unguarded)| <= 2 <==> name != "zalando"
  {
    UnguardedLength(Lookup(name).value);
    if name in {"stockx", "apple", "balenciaga", "bape", "dior", "lv", "moncler"} {
      UnguardedFlagsEarly(name);
    } else if name != "zalando" {
      UnguardedFlagsLate(name);
    } else {
      assert UnguardedFlags(Lookup(name).value) == 4;
    }
  }

  /** The form the "continue" button shows holds every field the template
      flags and the second step reads unguarded, except for `zalando`: its
      five rows leave out the whole name and the quantity, so its second
      step always throws. */
  lemma ShownFormReadable(name: string, form: map<FieldId, string>)
    requires name in ConfigNames
    requires forall f :: f in form <==> f in Step2Fields(Lookup(name).value)
    ensures Readable(Lookup(name).value, form) <==> name != "zalando"
  {
    var c := Lookup(name).value;
    if name == "zalando" {
      ZalandoForm();
      assert WholeName in Unguarded && Flagged(c, WholeName) && WholeName !in form;
    } else {
      UnguardedCounts(name);
      FewUnguardedFit(c, form);
    }
  }

  /** A zalando order never gets past the second step. */
  lemma ZalandoStuck(d: Description, form: map<FieldId, string>, orderNumber: string)
    requires d.template == "zalando"
    requires forall f :: f in form <==> f in Step2Fields(Lookup("zalando").value)
    ensures DetailsStep(Some(Described(d)), form, orderNumber).Rejected?
  {
    ShownFormReadable("zalando", form);
  }

  // ----- the third form step -----

  /** The third form step: the session is deleted as soon as it is found;
      an unknown template, or a record without the second step's details,
      then throws. The quantity is never checked on this path. */
  function FinalStep(s: Option<Session>, form: map<FieldId, string>, orderNumber: string): (r: StepResult)
    ensures r.Rejected? <==> s.None?
    ensures r.Rejected? ==> r.why == NoSession
    ensures !r.Deferred?
    ensures r.Dropped? ==> r.why == Thrown
    ensures r.Ready? ==> s.value.Collected? && r.mail.threeStep &&
                         r.mail.quantity == s.value.x.quantity && r.mail.price == s.value.x.price &&
                         r.mail.order.email == s.value.x.email
  {
    if s.None? then Rejected(NoSession)
    else match Lookup(TemplateOf(s.value))
      case None => Dropped(Thrown)
      case Some(c) =>
        if !s.value.Collected? then Dropped(Thrown)
        else
          var d, x := s.value.d, s.value.x;
          var late := c.needsModal3;
          var phone := ReadOr(form, c.needsPhoneNumber && late, PhoneNumber, x.phoneNumber);
          var order := OrderOf(d, x.(phoneNumber := phone),
            ReadOr(form, c.needsCurrency && late, Currency, "$"),
            ReadOr(form, c.needsCardEnd && late, CardEnd, ""),
            ReadOr(form, c.needsEstimatedDelivery && late, EstimatedDelivery, ""),
            orderNumber);
          Ready(Mail(order, true, x.price, x.quantity, x.taxes))
  }

  /** On the three-step path the quantity check is skipped: a stored record
      goes to the e-mail whatever its quantity, even one that is not a number. */
  lemma FinalIgnoresQuantity(d: Description, x: Details, form: map<FieldId, string>, orderNumber: string)
    requires Lookup(d.template).Some?
    ensures FinalStep(Some(Collected(d, x)), form, orderNumber).Ready?
    ensures FinalStep(Some(Collected(d, x.(quantity := NaN))), form, orderNumber).Ready?
  {
  }

  /** A record stored by the second step reaches the e-mail with quantity
      one, accepted price and taxes: the skipped check cannot fail on it. */
  lemma FinalOfStored(s: Session, form: map<FieldId, string>, orderNumber: string)
    requires s.Collected? && SessionOk(s)
    ensures var r := FinalStep(Some(s), form, orderNumber);
            r.Ready? && r.mail.quantity == Num(1.0) && QuantityAccepted(r.mail.quantity) &&
            !r.mail.taxes.NaN? && r.mail.price > 0.0
  {
  }

  /** The body of the e-mail for a ready order: the template's text run
      through the replacement chain of its path as the handler writes it,
      backspace characters included; so a body that is the bare word
      `TOTAL` (or, on the two-step path, `PRICE` or `TAXES`) goes out as it is. */
  function MailBody(html: string, m: Mail, f: Figures, u: Option<Settings>): (r: string)
    ensures html == TotalToken ==> r == html
    ensures !m.threeStep && (html == PriceToken || html == TaxesToken) ==> r == html
  {
    if html == TotalToken || (!m.threeStep && (html == PriceToken || html == TaxesToken)) then
      BackspaceWordsSentAsWritten(m.threeStep, m.order, f, u, html);
      Render.Render(html, m.threeStep, AsWritten, m.order, f, u)
    else
      Render.Render(html, m.threeStep, AsWritten, m.order, f, u)
  }

  // ----- the stores -----

  /** The session map after a form step: kept, replaced by the stored
      record, or without the caller's entry. */
  function AfterStep(sessions: map<string, Session>, user: string, r: StepResult): map<string, Session>
  {
    match r
    case Rejected(_) => sessions
    case Deferred(next) => sessions[user := next]
    case _ => sessions - {user}
  }

  class Client {
    /** `client.tempData`: the order session of each user. */
    var sessions: map<string, Session>
    /** `client.tempSettings`: the first half of the settings wizard. */
    var pending: map<string, PartialSettings>
    /** The saved profiles (`settings.json`). */
    var settings: map<string, Settings>
    /** The saved e-mail addresses (`emails.json`). */
    var emails: map<string, string>

    /** The invariant of the in-memory stores: every pending profile has an
        address of the settings pattern, and every stored session record is
        well formed. */
    predicate Valid()
      reads this
    {
      && (forall u :: u in pending ==> EmailMatches(pending[u].email))
      && (forall u :: u in sessions ==> SessionOk(sessions[u]))
    }

    constructor(settings0: map<string, Settings>, emails0: map<string, string>)
      ensures Valid()
      ensures sessions == map[] && pending == map[]
      ensures settings == settings0 && emails == emails0
    {
      sessions := map[];
      pending := map[];
      settings := settings0;
      emails := emails0;
    }

    /** The caller's session, if any. */
    function Current(user: string): Option<Session>
      reads this
    {
      if user in sessions then Some(sessions[user]) else None
    }

    /** `getUserSettings`: the saved profile, if any. */
    function Saved(user: string): Option<Settings>
      reads this
    {
      if user in settings then Some(settings[user]) else None
    }

    /** First half of the settings wizard: the address must match the
        settings pattern; the five fields are then kept for the second half. */
    method SaveSettingsPart1(user: string, fullName: string, email: string, street: string,
                             city: string, postalCode: string) returns (out: Outcome)
      requires Valid()
      modifies this
      ensures Valid()
      ensures EmailMatches(email) ==>
                out == Prompt && pending == old(pending)[user := PartialSettings(fullName, email, street, city, postalCode)]
      ensures !EmailMatches(email) ==> out == InvalidEmail && pending == old(pending)
      ensures EmailMatches(email) ==> ContinueSettings(user) == AskCountry
      ensures !EmailMatches(email) ==> ContinueSettings(user) == old(ContinueSettings(user))
      ensures sessions == old(sessions) && settings == old(settings) && emails == old(emails)
    {
      if !EmailMatches(email) {
        out := InvalidEmail;
        return;
      }
      pending := pending[user := PartialSettings(fullName, email, street, city, postalCode)];
      out := Prompt;
    }

    /** The button between the two halves: it needs the first half. */
    function ContinueSettings(user: string): Outcome
      reads this
    {
      if user in pending then AskCountry else NoSession
    }

    /** Second half: the country completes the profile, which is saved
        together with its address; the pending half is discarded. */
    method SaveSettingsPart2(user: string, country: string) returns (out: Outcome)
      requires Valid()
      modifies this
      ensures Valid()
      ensures user !in old(pending) ==>
                (out == NoSession && pending == old(pending) && settings == old(settings) && emails == old(emails))
      ensures user in old(pending) ==>
                var p := old(pending)[user];
                && out == Prompt
                && settings == old(settings)[user := Settings(p.fullName, p.email, p.street, p.city, p.postalCode, country)]
                && emails == old(emails)[user := p.email]
                && pending == old(pending) - {user}
                && EmailMatches(settings[user].email)
      ensures ContinueSettings(user) == NoSession
      ensures sessions == old(sessions)
    {
      if user !in pending {
        out := NoSession;
        return;
      }
      var p := pending[user];
      settings := settings[user := Settings(p.fullName, p.email, p.street, p.city, p.postalCode, country)];
      emails := emails[user := p.email];
      pending := pending - {user};
      out := Prompt;
    }

    /** The template menu: the session starts over with the chosen,
        normalised template, whatever the user had typed before. */
    method SelectTemplate(user: string, value: string) returns (out: Outcome)
      requires Valid()
      modifies this
      ensures Valid()
      ensures out == Prompt && sessions == old(sessions)[user := Chosen(NormaliseName(value))]
      ensures pending == old(pending) && settings == old(settings) && emails == old(emails)
    {
      sessions := sessions[user := Chosen(NormaliseName(value))];
      out := Prompt;
    }

    /** The first order step: it needs a session with a template, and
        replaces the record by the template and the product, the price text
        trimmed. Anything typed at a later step is dropped. */
    method SubmitDescription(user: string, brand: string, product: string, size: string, price: string)
      returns (out: Outcome)
      requires Valid()
      modifies this
      ensures Valid()
      ensures user !in old(sessions) || TemplateOf(old(sessions)[user]) == "" ==>
                out == NoSession && sessions == old(sessions)
      ensures user in old(sessions) && TemplateOf(old(sessions)[user]) != "" ==>
                out == Prompt &&
                sessions == old(sessions)[user := Described(Description(
                  NormaliseName(TemplateOf(old(sessions)[user])), brand, product, size, Trim(price)))]
      ensures pending == old(pending) && settings == old(settings) && emails == old(emails)
    {
      if user !in sessions || TemplateOf(sessions[user]) == "" {
        out := NoSession;
        return;
      }
      var t := NormaliseName(TemplateOf(sessions[user]));
      sessions := sessions[user := Described(Description(t, brand, product, size, Trim(price)))];
      out := Prompt;
    }

    /** The e-mail goes out (or the transport throws) and only after it
        returned is the use accounted: nothing for a user with time-based
        access, otherwise one use is taken. */
    method Deliver(user: string, m: Mail, now: nat, sendOk: bool, ledgers: Ledger.Ledgers)
      returns (out: Outcome)
      modifies ledgers
      ensures ledgers.access == old(ledgers.access)
      ensures !sendOk ==> out == Thrown && ledgers.limits == old(ledgers.limits)
      ensures sendOk ==> out.Sent? && out.mail == m && out.settings == Saved(user)
      ensures sendOk && user in old(ledgers.access) && now <= old(ledgers.access)[user] ==>
                out.remaining == None && ledgers.limits == old(ledgers.limits)
      ensures sendOk && !(user in old(ledgers.access) && now <= old(ledgers.access)[user]) ==>
                && ledgers.limits == (if user in old(ledgers.limits)
                                      then Ledger.Decreased(old(ledgers.limits), user) else old(ledgers.limits))
                && out.remaining == Some(if user in old(ledgers.limits) then ledgers.limits[user] else 0)
    {
      if !sendOk {
        out := Thrown;
        return;
      }
      var remaining := ledgers.RecordSend(user, now);
      out := Sent(m, Saved(user), remaining);
    }

    /** Carries out what a form step decided: the session map is updated,
        and an order that is ready is delivered. */
    method Settle(user: string, r: StepResult, now: nat, sendOk: bool, ledgers: Ledger.Ledgers)
      returns (out: Outcome)
      requires Valid()
      requires r.Deferred? ==> SessionOk(r.next)
      modifies this, ledgers
      ensures Valid()
      ensures sessions == AfterStep(old(sessions), user, r)
      ensures r.Rejected? || r.Dropped? ==> out == r.why
      ensures r.Deferred? ==> out == Prompt
      ensures r.Ready? && sendOk ==> out.Sent? && out.mail == r.mail && out.settings == Saved(user)
      ensures r.Ready? && !sendOk ==> out == Thrown
      ensures !(r.Ready? && sendOk) ==> ledgers.limits == old(ledgers.limits)
      ensures r.Ready? && sendOk && user in old(ledgers.access) && now <= old(ledgers.access)[user] ==>
                out.remaining == None && ledgers.limits == old(ledgers.limits)
      ensures r.Ready? && sendOk && !(user in old(ledgers.access) && now <= old(ledgers.access)[user]) ==>
                && ledgers.limits == (if user in old(ledgers.limits)
                                      then Ledger.Decreased(old(ledgers.limits), user) else old(ledgers.limits))
                && out.remaining == Some(if user in old(ledgers.limits) then ledgers.limits[user] else 0)
      ensures ledgers.access == old(ledgers.access)
      ensures pending == old(pending) && settings == old(settings) && emails == old(emails)
    {
      match r
      case Rejected(why) =>
        out := why;
      case Deferred(next) =>
        sessions := sessions[user := next];
        out := Prompt;
      case Dropped(why) =>
        sessions := sessions - {user};
        out := why;
      case Ready(m) =>
        sessions := sessions - {user};
        out := Deliver(user, m, now, sendOk, ledgers);
    }

    /** The second order step on the caller's session (see `DetailsStep`),
        with the order number taken from the clock. */
    method SubmitDetails(user: string, form: map<FieldId, string>, now: nat, sendOk: bool,
                         ledgers: Ledger.Ledgers) returns (out: Outcome)
      requires Valid()
      modifies this, ledgers
      ensures Valid()
      ensures var r := DetailsStep(old(Current(user)), form, DecimalString(now));
              && sessions == AfterStep(old(sessions), user, r)
              && (r.Rejected? || r.Dropped? ==> out == r.why)
              && (r.Deferred? ==> out == Prompt)
              && (r.Ready? && sendOk ==> out.Sent? && out.mail == r.mail && out.settings == Saved(user))
              && (r.Ready? && !sendOk ==> out == Thrown)
              && (!(r.Ready? && sendOk) ==> ledgers.limits == old(ledgers.limits))
              && (r.Ready? && sendOk && user in old(ledgers.access) && now <= old(ledgers.access)[user] ==>
                    out.remaining == None && ledgers.limits == old(ledgers.limits))
              && (r.Ready? && sendOk && !(user in old(ledgers.access) && now <= old(ledgers.access)[user]) ==>
                    && ledgers.limits == (if user in old(ledgers.limits)
                                          then Ledger.Decreased(old(ledgers.limits), user) else old(ledgers.limits))
                    && out.remaining == Some(if user in old(ledgers.limits) then ledgers.limits[user] else 0))
      ensures ledgers.access == old(ledgers.access)
      ensures pending == old(pending) && settings == old(settings) && emails == old(emails)
    {
      var r := DetailsStep(Current(user), form, DecimalString(now));
      if r.Deferred? {
        DeferredSessionOk(Current(user), form, DecimalString(now));
      }
      out := Settle(user, r, now, sendOk, ledgers);
    }

    /** The third order step on the caller's session (see `FinalStep`): the
        session is gone afterwards whenever there was one. */
    method SubmitFinal(user: string, form: map<FieldId, string>, now: nat, sendOk: bool,
                       ledgers: Ledger.Ledgers) returns (out: Outcome)
      requires Valid()
      modifies this, ledgers
      ensures Valid()
      ensures user !in old(sessions) ==> out == NoSession && sessions == old(sessions)
      ensures user in old(sessions) ==> sessions == old(sessions) - {user}
      ensures var r := FinalStep(old(Current(user)), form, DecimalString(now));
              && (r.Dropped? ==> out == Thrown)
              && (r.Ready? && sendOk ==> out.Sent? && out.mail == r.mail && out.settings == Saved(user))
              && (r.Ready? && !sendOk ==> out == Thrown)
              && (!(r.Ready? && sendOk) ==> ledgers.limits == old(ledgers.limits))
              && (r.Ready? && sendOk && user in old(ledgers.access) && now <= old(ledgers.access)[user] ==>
                    out.remaining == None && ledgers.limits == old(ledgers.limits))
              && (r.Ready? && sendOk && !(user in old(ledgers.access) && now <= old(ledgers.access)[user]) ==>
                    && ledgers.limits == (if user in old(ledgers.limits)
                                          then Ledger.Decreased(old(ledgers.limits), user) else old(ledgers.limits))
                    && out.remaining == Some(if user in old(ledgers.limits) then ledgers.limits[user] else 0))
      ensures ledgers.access == old(ledgers.access)
      ensures pending == old(pending) && settings == old(settings) && emails == old(emails)
    {
      var r := FinalStep(Current(user), form, DecimalString(now));
      out := Settle(user, r, now, sendOk, ledgers);
    }
  }
}
