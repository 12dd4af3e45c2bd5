/** The template registry: the fixed table of product templates, each with
    its document file and the flags that decide which fields the order
    wizard asks for. Flags the table sets but no handler ever reads
    (needsSize, needsShipping, needsStreet, ...) are not modelled. */
module Templates {
  import opened Common

  /** One entry of the template table. A flag the table leaves out reads as
      `undefined`, which every handler treats as false. */
  datatype TemplateConfig = TemplateConfig(
    file: string,
    needsStyleId: bool,
    needsColour: bool,
    needsTaxes: bool,
    needsReference: bool,
    needsFirstName: bool,
    needsWholeName: bool,
    needsQuantity: bool,
    needsCurrency: bool,
    needsPhoneNumber: bool,
    needsCardEnd: bool,
    needsEstimatedDelivery: bool,
    needsModal3: bool)

  /** The names under which the table has an entry. */
  const ConfigNames: seq<string> :=
    ["stockx", "apple", "balenciaga", "bape", "dior", "lv", "moncler", "nike",
     "stussy", "trapstar", "notino", "zalando", "mediaexpert", "grailpoint"]

  /** `TEMPLATE_CONFIG[name]`: the entry, or None for a name without one. */
  function Lookup(name: string): (r: Option<TemplateConfig>)
    ensures r.Some? <==> name in ConfigNames
  {
    match name
    case "stockx" => Some(TemplateConfig("stockx_new.html",
        true, false, false, false, false, false, false, true, false, false, false, false))
    case "apple" => Some(TemplateConfig("apple.html",
        false, false, false, false, false, false, true, true, false, false, false, false))
    case "balenciaga" => Some(TemplateConfig("balenciaga.html",
        false, true, false, false, true, false, false, true, false, false, false, false))
    case "bape" => Some(TemplateConfig("bape.html",
        true, false, true, false, false, false, false, true, false, false, false, true))
    case "dior" => Some(TemplateConfig("dior.html",
        false, false, true, false, false, false, false, true, false, false, false, false))
    case "lv" => Some(TemplateConfig("lv.html",
        false, false, false, true, false, false, false, true, false, false, false, false))
    case "moncler" => Some(TemplateConfig("moncler.html",
        false, true, false, false, false, false, false, false, false, true, true, true))
    case "nike" => Some(TemplateConfig("nike.html",
        false, false, false, false, false, false, false, true, false, true, false, false))
    case "stussy" => Some(TemplateConfig("stussy.html",
        true, false, true, false, false, false, false, true, false, false, false, false))
    case "trapstar" => Some(TemplateConfig("trapstar.html",
        true, false, false, false, false, false, false, true, false, false, false, false))
    case "notino" => Some(TemplateConfig("notino.html",
        false, false, false, false, false, false, false, true, false, false, false, false))
    case "zalando" => Some(TemplateConfig("zalando.html",
        false, true, true, false, false, true, true, true, false, false, true, false))
    case "mediaexpert" => Some(TemplateConfig("media_expert.html",
        false, false, true, false, false, true, false, true, false, false, true, true))
    case "grailpoint" => Some(TemplateConfig("grail_point.html",
        false, false, false, false, false, true, false, true, true, false, false, true))
    case _ => None
  }

  /** The values the template menu offers, in menu order. */
  const MenuValues: seq<string> :=
    ["stockx", "apple", "balenciaga", "bape", "dior", "louis_vuitton", "moncler", "nike",
     "stussy", "trapstar", "notino", "zalando", "media_expert", "grail_point"]

  /** The handlers' fix-up of two menu values whose table key has no
      underscore: a name the table already knows is kept, the two underscore
      spellings are no longer produced, and exactly those two are newly
      resolved by it. */
  function NormaliseName(t: string): (r: string)
    ensures r !in {"media_expert", "grail_point"}
    ensures r == t || t in {"media_expert", "grail_point"}
    ensures Lookup(t).Some? ==> r == t
    ensures Lookup(r).Some? <==> Lookup(t).Some? || t in {"media_expert", "grail_point"}
  {
    if t == "media_expert" then "mediaexpert"
    else if t == "grail_point" then "grailpoint"
    else t
  }

  /** Every handler re-applies the fix-up; doing it twice is the same as once. */
  lemma NormaliseIdempotent(t: string)
    ensures NormaliseName(NormaliseName(t)) == NormaliseName(t)
  {
  }

  /** Every menu value resolves to a table entry except `louis_vuitton`,
      whose entry is filed under `lv`: that template can never be used. */
  lemma MenuResolution(v: string)
    requires v in MenuValues
    ensures Lookup(NormaliseName(v)).Some? <==> v != "louis_vuitton"
  {
  }

  /** The four templates that split the order form over three steps. */
  lemma ThreeStepTemplates(name: string)
    requires Lookup(name).Some?
    ensures Lookup(name).value.needsModal3 <==> name in {"bape", "moncler", "mediaexpert", "grailpoint"}
  {
  }

  /** No three-step template asks for a quantity, so on that path the raw
      quantity is always the default "1". */
  lemma ThreeStepNeverAsksQuantity(name: string)
    requires Lookup(name).Some? && Lookup(name).value.needsModal3
    ensures !Lookup(name).value.needsQuantity
  {
  }
}
