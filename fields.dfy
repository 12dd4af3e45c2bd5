/** Field packing for the order form: which inputs the second and third
    form steps show. A form holds at most five rows; the second step always
    starts with email, date and image link and fills the remaining two rows
    from the template's flags in a fixed priority order. */
module Fields {
  import opened Templates

  /** The inputs of the second and third order-form steps. */
  datatype FieldId =
    | Email | Date | ImageUrl
    | StyleId | Colour | Taxes | Reference | FirstName | WholeName | Quantity
    | Currency | PhoneNumber | CardEnd | EstimatedDelivery

  /** The two form steps whose rows depend on the template. */
  datatype Step = Step2 | Step3

  /** A form (Discord modal) takes at most five rows. */
  const RowCap: nat := 5

  /** The rows every second step starts with. */
  const Step2Fixed: seq<FieldId> := [Email, Date, ImageUrl]

  /** The optional second-step rows, in the order the form builder tries them. */
  const Step2Order: seq<FieldId> :=
    [StyleId, Colour, Taxes, Reference, FirstName, WholeName, Quantity,
     Currency, PhoneNumber, CardEnd, EstimatedDelivery]

  /** The third-step rows, in the order the form builder tries them. */
  const Step3Order: seq<FieldId> := [Currency, CardEnd, EstimatedDelivery, PhoneNumber]

  /** The four fields a three-step template moves to the third step. */
  predicate Deferrable(f: FieldId)
  {
    f == Currency || f == PhoneNumber || f == CardEnd || f == EstimatedDelivery
  }

  /** Whether the template's flags ask for the field (the fixed rows are always asked for). */
  predicate Flagged(c: TemplateConfig, f: FieldId)
  {
    match f
    case Email => true
    case Date => true
    case ImageUrl => true
    case StyleId => c.needsStyleId
    case Colour => c.needsColour
    case Taxes => c.needsTaxes
    case Reference => c.needsReference
    case FirstName => c.needsFirstName
    case WholeName => c.needsWholeName
    case Quantity => c.needsQuantity
    case Currency => c.needsCurrency
    case PhoneNumber => c.needsPhoneNumber
    case CardEnd => c.needsCardEnd
    case EstimatedDelivery => c.needsEstimatedDelivery
  }

  /** The guard of a row, apart from the row cap: on the second step the
      deferrable fields are also guarded by the template having no third step. */
  predicate Offered(c: TemplateConfig, step: Step, f: FieldId)
  {
    Flagged(c, f) && (step == Step2 && Deferrable(f) ==> !c.needsModal3)
  }

  /** The elements of `fs` the step would like to show, in order. */
  function Wanted(c: TemplateConfig, step: Step, fs: seq<FieldId>): (r: seq<FieldId>)
    ensures |r| <= |fs|
  {
    if fs == [] then []
    else Wanted(c, step, fs[..|fs| - 1]) + (if Offered(c, step, fs[|fs| - 1]) then [fs[|fs| - 1]] else [])
  }

  lemma {:induction false} WantedMembers(c: TemplateConfig, step: Step, fs: seq<FieldId>, f: FieldId)
    ensures f in Wanted(c, step, fs) <==> f in fs && Offered(c, step, f)
  {
    if fs != [] {
      var init := fs[..|fs| - 1];
      WantedMembers(c, step, init, f);
      assert fs == init + [fs[|fs| - 1]];
    }
  }

  /** The first `n` elements of `s`, or all of them when there are fewer. */
  function Take<T>(s: seq<T>, n: nat): (r: seq<T>)
    ensures |r| <= n && |r| <= |s| && (|s| <= n ==> r == s)
    ensures |r| == n || r == s
    ensures r == s[..|r|]
  {
    if |s| <= n then s else s[..n]
  }

  /** The rows of the second step, as a reference definition: the fixed rows,
      then as many wanted rows as still fit. */
  function Step2Fields(c: TemplateConfig): seq<FieldId>
  {
    Step2Fixed + Take(Wanted(c, Step2, Step2Order), RowCap - |Step2Fixed|)
  }

  /** The rows of the third step, as a reference definition. */
  function Step3Fields(c: TemplateConfig): seq<FieldId>
  {
    Take(Wanted(c, Step3, Step3Order), RowCap)
  }

  /** The position of a field in the builder's priority order for the step. */
  function Rank(step: Step, f: FieldId): nat
  {
    match (step, f)
    case (Step2, StyleId) => 1
    case (Step2, Colour) => 2
    case (Step2, Taxes) => 3
    case (Step2, Reference) => 4
    case (Step2, FirstName) => 5
    case (Step2, WholeName) => 6
    case (Step2, Quantity) => 7
    case (Step2, Currency) => 8
    case (Step2, PhoneNumber) => 9
    case (Step2, CardEnd) => 10
    case (Step2, EstimatedDelivery) => 11
    case (Step3, Currency) => 1
    case (Step3, CardEnd) => 2
    case (Step3, EstimatedDelivery) => 3
    case (Step3, PhoneNumber) => 4
    case _ => 0
  }

  /** The fields of `s` come in strictly increasing priority order (so none repeats). */
  predicate Ranked(step: Step, s: seq<FieldId>)
  {
    forall i, j :: 0 <= i < j < |s| ==> Rank(step, s[i]) < Rank(step, s[j])
  }

  /** Both priority orders list their fields by increasing rank. */
  lemma OrdersRanked()
    ensures Ranked(Step2, Step2Order) && Ranked(Step3, Step3Order)
  {
    forall i | 0 <= i < |Step2Order| ensures Rank(Step2, Step2Order[i]) == i + 1 {
    }
    forall i | 0 <= i < |Step3Order| ensures Rank(Step3, Step3Order[i]) == i + 1 {
    }
  }

  lemma {:induction false} WantedRanked(c: TemplateConfig, step: Step, fs: seq<FieldId>)
    requires Ranked(step, fs)
    ensures Ranked(step, Wanted(c, step, fs))
  {
    if fs != [] {
      var init := fs[..|fs| - 1];
      assert Ranked(step, init);
      WantedRanked(c, step, init);
      forall f | f in Wanted(c, step, init) ensures Rank(step, f) < Rank(step, fs[|fs| - 1]) {
        WantedMembers(c, step, init, f);
        var k :| 0 <= k < |init| && init[k] == f;
      }
    }
  }

  lemma TakeSnoc<T>(s: seq<T>, x: seq<T>, n: nat)
    requires |x| <= 1
    ensures Take(s + x, n) == if |s| < n then s + x else Take(s, n)
  {
    if |s| >= n {
      assert (s + x)[..n] == s[..n];
    }
  }

  lemma WantedSnoc(c: TemplateConfig, step: Step, order: seq<FieldId>, i: nat)
    requires i < |order|
    ensures Wanted(c, step, order[..i + 1]) ==
            Wanted(c, step, order[..i]) + (if Offered(c, step, order[i]) then [order[i]] else [])
  {
    assert order[..i + 1][..i] == order[..i];
  }

  /** One pass of the packing loop keeps the loop's invariant. */
  lemma PackStep(c: TemplateConfig, step: Step, base: seq<FieldId>, order: seq<FieldId>, i: nat, rows: seq<FieldId>)
    requires |base| <= RowCap && i < |order|
    requires rows == base + Take(Wanted(c, step, order[..i]), RowCap - |base|)
    ensures (if Offered(c, step, order[i]) && |rows| < RowCap then rows + [order[i]] else rows)
         == base + Take(Wanted(c, step, order[..i + 1]), RowCap - |base|)
  {
    var f := order[i];
    WantedSnoc(c, step, order, i);
    TakeSnoc(Wanted(c, step, order[..i]), if Offered(c, step, f) then [f] else [], RowCap - |base|);
  }

  /** The packing loop shared by both steps: after the base rows, one guarded
      push per field of `order` while fewer than five rows exist. */
  method PackRows(c: TemplateConfig, step: Step, base: seq<FieldId>, order: seq<FieldId>)
    returns (rows: seq<FieldId>)
    requires |base| <= RowCap
    ensures rows == base + Take(Wanted(c, step, order), RowCap - |base|)
  {
    rows := base;
    for i := 0 to |order|
      invariant rows == base + Take(Wanted(c, step, order[..i]), RowCap - |base|)
    {
      PackStep(c, step, base, order, i, rows);
      if Offered(c, step, order[i]) && |rows| < RowCap {
        rows := rows + [order[i]];
      }
    }
    assert order[..|order|] == order;
  }

  /** The second-step form: email, date, image link, then the optional rows. */
  method BuildStep2Rows(c: TemplateConfig) returns (rows: seq<FieldId>)
    ensures rows == Step2Fields(c)
  {
    rows := PackRows(c, Step2, [Email, Date, ImageUrl], Step2Order);
  }

  /** The third-step form. */
  method BuildStep3Rows(c: TemplateConfig) returns (rows: seq<FieldId>)
    ensures rows == Step3Fields(c)
  {
    rows := PackRows(c, Step3, [], Step3Order);
  }

  /** Every field among the first `n` wanted ones is offered and comes from `order`. */
  lemma TakeWantedSound(c: TemplateConfig, step: Step, order: seq<FieldId>, n: nat, f: FieldId)
    requires f in Take(Wanted(c, step, order), n)
    ensures Offered(c, step, f) && f in order
  {
    WantedMembers(c, step, order, f);
  }

  /** An offered field of `order` is missing from the first `n` wanted ones
      only when all `n` places are taken. */
  lemma TakeWantedComplete(c: TemplateConfig, step: Step, order: seq<FieldId>, n: nat, f: FieldId)
    requires f in order && Offered(c, step, f) && f !in Take(Wanted(c, step, order), n)
    ensures |Take(Wanted(c, step, order), n)| == n
  {
    WantedMembers(c, step, order, f);
  }

  /** Keeping the first `n` wanted fields of a ranked order keeps the ranking. */
  lemma TakeWantedRanked(c: TemplateConfig, step: Step, order: seq<FieldId>, n: nat)
    requires Ranked(step, order)
    ensures Ranked(step, Take(Wanted(c, step, order), n))
  {
    WantedRanked(c, step, order);
  }

  lemma Step2FieldsSplit(c: TemplateConfig)
    ensures Step2Fields(c) == Step2Fixed + Take(Wanted(c, Step2, Step2Order), 2)
    ensures Step2Fields(c)[3..] == Take(Wanted(c, Step2, Step2Order), 2)
  {
  }

  lemma Step2OrderNotFixed(f: FieldId)
    requires f in Step2Order
    ensures f !in Step2Fixed
  {
  }

  /** The second step: never more than five rows; email, date and image link
      first; then only fields the template asks for (the four deferrable ones
      only for a two-step template), in priority order, without repeats. */
  lemma Step2Shape(c: TemplateConfig)
    ensures |Step2Fields(c)| <= RowCap
    ensures Step2Fields(c)[..3] == [Email, Date, ImageUrl]
    ensures forall f :: f in Step2Fields(c)[3..] ==> Offered(c, Step2, f) && f !in Step2Fixed
    ensures Ranked(Step2, Step2Fields(c)[3..])
  {
    Step2FieldsSplit(c);
    forall f | f in Step2Fields(c)[3..] ensures Offered(c, Step2, f) && f !in Step2Fixed {
      TakeWantedSound(c, Step2, Step2Order, 2, f);
      Step2OrderNotFixed(f);
    }
    assert Ranked(Step2, Step2Fields(c)[3..]) by {
      OrdersRanked();
      TakeWantedRanked(c, Step2, Step2Order, 2);
    }
  }

  lemma FixedThenOfferedHasNoDeferred(c: TemplateConfig, t: seq<FieldId>)
    requires c.needsModal3
    requires forall f :: f in t ==> Offered(c, Step2, f)
    ensures forall f :: f in Step2Fixed + t ==> !Deferrable(f)
  {
  }

  /** A three-step template shows none of the deferrable fields on the second step. */
  lemma Step2KeepsDeferredBack(c: TemplateConfig)
    requires c.needsModal3
    ensures forall f :: f in Step2Fields(c) ==> !Deferrable(f)
  {
    Step2FieldsSplit(c);
    var t := Take(Wanted(c, Step2, Step2Order), 2);
    forall f | f in t ensures Offered(c, Step2, f) {
      TakeWantedSound(c, Step2, Step2Order, 2, f);
    }
    FixedThenOfferedHasNoDeferred(c, t);
  }

  /** A field the template asks for is left off the second step only when
      all five rows are taken. */
  lemma Step2DropsOnlyWhenFull(c: TemplateConfig, f: FieldId)
    requires f in Step2Order && Offered(c, Step2, f) && f !in Step2Fields(c)
    ensures |Step2Fields(c)| == RowCap
  {
    Step2FieldsSplit(c);
    TakeWantedComplete(c, Step2, Step2Order, 2, f);
  }

  /** The third step shows exactly the flagged third-step fields, in the
      order currency, card end, estimated delivery, phone number: with four
      candidates the five-row cap never cuts. */
  lemma Step3Shape(c: TemplateConfig)
    ensures Step3Fields(c) == Wanted(c, Step3, Step3Order)
    ensures |Step3Fields(c)| <= 4 < RowCap
    ensures forall f :: f in Step3Fields(c) <==> Deferrable(f) && Flagged(c, f)
    ensures Ranked(Step3, Step3Fields(c))
  {
    forall f ensures f in Step3Fields(c) <==> Deferrable(f) && Flagged(c, f) {
      WantedMembers(c, Step3, Step3Order, f);
    }
    OrdersRanked();
    WantedRanked(c, Step3, Step3Order);
  }

  /** A three-step template asks for every flagged deferrable field on the
      third step, and for none of them on the second. */
  lemma DeferredFieldsMove(c: TemplateConfig, f: FieldId)
    requires c.needsModal3 && Deferrable(f) && Flagged(c, f)
    ensures f !in Step2Fields(c)
    ensures f in Step3Fields(c)
  {
    Step2KeepsDeferredBack(c);
    Step3Shape(c);
  }

  /** The contribution of one field to the wanted list. */
  function Opt(c: TemplateConfig, step: Step, f: FieldId): (r: seq<FieldId>)
    ensures r == [f] <==> Offered(c, step, f)
    ensures r == [] <==> !Offered(c, step, f)
  {
    if Offered(c, step, f) then [f] else []
  }

  lemma {:induction false} WantedAppend(c: TemplateConfig, step: Step, xs: seq<FieldId>, ys: seq<FieldId>)
    ensures Wanted(c, step, xs + ys) == Wanted(c, step, xs) + Wanted(c, step, ys)
    decreases |ys|
  {
    if ys == [] {
      assert xs + ys == xs;
    } else {
      var init := ys[..|ys| - 1];
      WantedAppend(c, step, xs, init);
      assert (xs + ys)[..|xs + ys| - 1] == xs + init;
    }
  }

  lemma WantedOfFour(c: TemplateConfig, step: Step, o: seq<FieldId>)
    requires |o| == 4
    ensures Wanted(c, step, o) == Opt(c, step, o[0]) + Opt(c, step, o[1]) + Opt(c, step, o[2]) + Opt(c, step, o[3])
  {
    assert Wanted(c, step, o[..3]) == Opt(c, step, o[0]) + Opt(c, step, o[1]) + Opt(c, step, o[2]) by {
      WantedOfThree(c, step, o[..3]);
    }
    WantedSnoc(c, step, o, 3);
    assert o[..4] == o;
  }

  lemma WantedOfThree(c: TemplateConfig, step: Step, o: seq<FieldId>)
    requires |o| == 3
    ensures Wanted(c, step, o) == Opt(c, step, o[0]) + Opt(c, step, o[1]) + Opt(c, step, o[2])
  {
    assert o[..0] == [];
    WantedSnoc(c, step, o, 0);
    WantedSnoc(c, step, o, 1);
    WantedSnoc(c, step, o, 2);
    assert o[..3] == o;
  }

  /** How many of seven candidates a step would like to show: one for each it offers. */
  lemma WantedOfSeven(c: TemplateConfig, step: Step, o: seq<FieldId>)
    requires |o| == 7
    ensures |Wanted(c, step, o)| ==
      |Opt(c, step, o[0])| + |Opt(c, step, o[1])| + |Opt(c, step, o[2])| + |Opt(c, step, o[3])|
      + |Opt(c, step, o[4])| + |Opt(c, step, o[5])| + |Opt(c, step, o[6])|
  {
    var h, t := o[..4], o[4..];
    assert Wanted(c, step, o) == Wanted(c, step, h) + Wanted(c, step, t) by {
      assert o == h + t;
      WantedAppend(c, step, h, t);
    }
    assert |Wanted(c, step, h)| == |Opt(c, step, o[0])| + |Opt(c, step, o[1])| + |Opt(c, step, o[2])| + |Opt(c, step, o[3])| by {
      WantedOfFour(c, step, h);
    }
    assert |Wanted(c, step, t)| == |Opt(c, step, o[4])| + |Opt(c, step, o[5])| + |Opt(c, step, o[6])| by {
      WantedOfThree(c, step, t);
    }
  }

  /** The first four second-step candidates, field by field. */
  lemma Step2Head(c: TemplateConfig)
    ensures Wanted(c, Step2, Step2Order) ==
      Opt(c, Step2, StyleId) + Opt(c, Step2, Colour) + Opt(c, Step2, Taxes) + Opt(c, Step2, Reference)
      + Wanted(c, Step2, Step2Order[4..])
  {
    var o := Step2Order;
    assert o == o[..4] + o[4..];
    WantedAppend(c, Step2, o[..4], o[4..]);
    WantedOfFour(c, Step2, o[..4]);
  }

  /** A template that asks for colour and taxes but not a style id fills the
      form with those two, whatever else it asks for. */
  lemma ColourAndTaxesFillForm(c: TemplateConfig)
    requires !c.needsStyleId && c.needsColour && c.needsTaxes
    ensures Step2Fields(c) == [Email, Date, ImageUrl, Colour, Taxes]
  {
    Step2Head(c);
    Step2FieldsSplit(c);
  }

  /** The zalando template asks for colour, taxes, whole name, quantity,
      currency and estimated delivery: the five-row cap leaves out whole
      name and quantity, which the second step's handler reads whenever they
      are flagged. */
  lemma ZalandoForm()
    ensures Step2Fields(Lookup("zalando").value) == [Email, Date, ImageUrl, Colour, Taxes]
    ensures Lookup("zalando").value.needsWholeName && Lookup("zalando").value.needsQuantity
  {
    ColourAndTaxesFillForm(Lookup("zalando").value);
  }
}
