# Order-mail bot: a Dafny model of its core

The system is a Discord bot with a small admin web API (`index.js`). A user
with access picks one of fourteen shop templates from a menu. The bot then
walks them through two or three Discord forms: the product and price, then
the recipient, date, image link and template-specific fields, and for four
templates a third form with currency, card end, delivery date and phone.
It renders an HTML e-mail by running a fixed chain of 62 global
replacements over the template file and sends it. After sending, it charges
one use unless the user holds time-based access. Users get time-based
access by redeeming codes. Admins generate, count and list these codes
through the web API, behind 24-hour tokens.

The model has one module per concern:

- `Common`: `String.prototype.trim`, counting and filtering over sequences,
  first index.
- `Templates`: the template table, the menu values and the name fix-up the
  handlers apply.
- `Fields`: the builders of the second and third form steps. These are
  loops that push guarded rows up to Discord's five-row cap, modelled as a
  method with loop invariants and proved equal to a reference definition.
- `Validators`: JavaScript `Number()` on decimal text, the price clean-up
  and check, the taxes and quantity checks, the date rewrite, the image-link
  check and the settings e-mail pattern.
- `Escape`: the `esc` helper and its inverse.
- `Replace`: the semantics of `s.replace(/token/g, v)` and of
  `s.replace(/\btoken\b/g, v)`, and of a chain of such calls.
- `Render`: the 62-rule chain itself, for two-step and three-step
  templates.
- `Ledger`: the remaining-uses and access-expiry ledgers. This is a class
  whose methods change its two dictionaries. It also covers the gate in
  front of the form and the accounting after a send.
- `Codes`: the code generator, redeeming, batch generation, the statistics
  and listing views, and admin tokens. The store and the token table are
  classes. The token table is a plain JavaScript object, so the names it
  inherits (`constructor`, `toString`, ...) are modelled as a set that
  the token check finds as written.
- `Wizard`: the per-user session records (`client.tempData`,
  `client.tempSettings`), the settings store and every form handler. The
  second and third order steps are decision functions. The `Client` class
  carries out their decisions on its maps.

Times are integer milliseconds passed in as parameters. Random draws,
generated tokens and the outcome of the mail transport are parameters too.

## Model

| member | source | states |
|---|---|---|
| Ledger.Ledgers.constructor | index.js:267-276 | the ledgers start as the loaded limit and access dictionaries |
| Ledger.Ledgers.SetUserLimit | index.js:286-295 | one user's count is overwritten, so reading it back (`GetUserLimit`, index.js:286-289) gives the new limit; every other count and the access ledger are unchanged |
| Ledger.Ledgers.DecreaseUserLimit | index.js:297-307 | a known user's positive count drops by one; an unknown user gets 0 and nothing is written. The returned count is what `GetUserLimit` reads afterwards, and it is never negative when the old one was not |
| Ledger.Decreased | index.js:297-307 | taking a use keeps the set of users |
| Ledger.DecreasedSpec | index.js:297-307 | a count never goes below zero, drops by exactly one when positive, and no other user's count changes |
| Ledger.DecreasedRepeatedly | index.js:297-307 | n decrements take a count c to c - n, bottoming out at 0 |
| Ledger.Ledgers.SetUserAccess | index.js:328-335 | the expiry becomes now plus the given days, replacing any earlier expiry; the limits are unchanged |
| Ledger.Ledgers.CheckUserAccess | index.js:337-348 | access holds exactly when an expiry is stored and has not passed; no record gives `noAccess`, a passed expiry gives `expired`, and the expiry is reported whenever one is stored |
| Ledger.GateOf | index.js:872-896 | the gate lets a user through exactly when they have access, or when neither flag is set and the remaining count is not 0 |
| Ledger.StatusesNeverReachLimit | index.js:872-896 | for every status that access checking can return, the remaining-uses branch of the gate is dead and the count does not change the answer |
| Ledger.Ledgers.GateIsAccess | index.js:872-896 | only time-based access opens the form: no record gives the no-access answer, an expired one the expired answer, and the no-uses answer never occurs |
| Ledger.Ledgers.RecordSend | index.js:2029-2043 | after a send, a user with access is charged nothing; any other user loses one use, and the remaining count is returned |
| Codes.GenerateCode | index.js:491-502 | the nested loops build the code the draws determine |
| Codes.CodeLayout | index.js:491-502 | a code has 19 characters, dashes at positions 4, 9 and 14, and between them the alphabet characters of the 16 draws |
| Codes.DrawsRoundTrip | index.js:491-502 | the draws can be read back off the code they produced |
| Codes.CodeTextInjective | index.js:491-502 | different draws give different codes |
| Codes.FindUnused | index.js:504-508 | finds the first entry holding the code that is unused; none is found exactly when every entry with the code is used |
| Codes.UnusedCopiesFound | index.js:504-508 | an entry is found exactly when at least one unused copy of the code is stored |
| Codes.RedeemUsesOneCopy | index.js:504-516 | redeeming marks exactly one unused copy as used |
| Codes.RedeemedOnce | index.js:504-516 | a code stored once can be redeemed once; a second attempt finds nothing |
| Codes.CodeStore.constructor | index.js:429-438 | the store starts as the loaded list of codes |
| Codes.CodeStore.Redeem | index.js:504-527 | an unknown or spent code changes nothing. Otherwise the first unused copy is marked used by the user at that time. A lifetime code grants 36500 days and a 31-day code 31 days. A code of any other type is spent without granting anything. The limits are never touched |
| Codes.CodeStore.GenerateCodes | index.js:2864-2887 | an empty type or a count outside 1..1000 is refused with the store unchanged, and no other request is refused. Otherwise it returns `count` distinct codes, none already stored, each one drawn. They are appended to the store in order, unused and of the requested type |
| Codes.GeneratedRedeemableOnce | index.js:2864-2887 | right after generation, every new code has exactly one unused copy in the store |
| Codes.StatsAddUp | index.js:2849-2862 | used plus unused is the total, and no code counts as both lifetime and 31-day |
| Codes.ListedSpec | index.js:2890-2909 | each filter lists exactly the stored codes that pass it, as many as the matching statistic; an unknown filter lists everything; `unused` and `used` partition the store |
| Codes.AdminSessions.constructor | index.js:2827 | the token table starts empty |
| Codes.AdminSessions.Login | index.js:2829-2838 | a password equal to the configured one (both absent counts as equal) records the fresh token at the current time; any other password changes nothing |
| Codes.AdminSessions.CheckAuth | index.js:2840-2847 | as written: an issued token passes exactly when it was issued at most 24 hours ago, and a name that was never issued passes exactly when it is one a plain object inherits (`constructor`, `__proto__`, `toString`, ...); a failing token is no longer in the table and an expired one is deleted |
| Codes.ConstructorPassesAsWritten | index.js:2841 | with no token issued (the table starts as a plain object, index.js:2827), `constructor` passes the lookup as written although it is not a live token |
| Codes.AuthAsWrittenVersusOwnKey | index.js:2841 | the lookup as written and an own-key check disagree exactly on inherited names that were never issued; every live token passes both |
| Codes.AdminSessions.CheckOwnAuth | index.js:2840-2847 | corrected: a token passes exactly when it was issued at most 24 hours ago; a failing token is no longer in the table and an expired one is deleted |
| Codes.ExpiryIsFinal | index.js:2840-2847 | a token that has expired stays expired at every later time |
| Escape.EscIsPerChar | index.js:259-265 | the five chained replacements, `&` first, are exactly per-character escaping |
| Escape.EscAppend | index.js:259-265 | escaping distributes over concatenation |
| Escape.EscNoRaw | index.js:259-265 | the escaped text holds no raw `<`, `>`, `"` or `'` |
| Escape.UnescapeEsc | index.js:259-265 | decoding the five entities gives back the original text |
| Escape.EscapeEachLength | index.js:259-265 | escaping never shortens a text, and keeps its length only when no special character occurs |
| Escape.EscIdentityIff | index.js:259-265 | `esc` leaves a text unchanged exactly when it holds none of the five special characters |
| Templates.Lookup | index.js:81-243 | a template entry exists exactly for the fourteen table names |
| Templates.NormaliseName | index.js:1364-1365 | a name the table knows is kept and every other name but two is kept too; `media_expert` and `grail_point` never come out, and a name resolves in the table afterwards exactly when it already did or is one of those two |
| Templates.NormaliseIdempotent | index.js:1444-1445 | the handlers' repeated fix-up is harmless: applying it twice is applying it once |
| Templates.MenuResolution | index.js:902-978 | every menu value resolves to a table entry except `louis_vuitton` |
| Templates.ThreeStepTemplates | index.js:81-243 | exactly bape, moncler, mediaexpert and grailpoint use a third form step |
| Templates.ThreeStepNeverAsksQuantity | index.js:81-243 | no three-step template asks for a quantity |
| Fields.WantedMembers | index.js:1541-1657 | a field is among the wanted rows exactly when it is a candidate and its guard holds |
| Fields.PackStep | index.js:1541-1657 | one guarded push keeps the packing invariant: base rows, then the first wanted rows up to the cap |
| Fields.PackRows | index.js:1541-1657 | the packing loop returns the base rows followed by the first wanted rows that fit under five |
| Fields.BuildStep2Rows | index.js:1535-1657 | the second-step builder produces the reference second-step form |
| Fields.BuildStep3Rows | index.js:2073-2114 | the third-step builder produces the reference third-step form |
| Fields.Step2Shape | index.js:1535-1657 | at most five rows; email, date and image link first; every further row is flagged, not fixed, and in builder order, so none repeats |
| Fields.Step2KeepsDeferredBack | index.js:1613-1657 | a three-step template shows none of currency, phone, card end and delivery date on the second step |
| Fields.Step2DropsOnlyWhenFull | index.js:1541-1657 | a wanted second-step field is missing only when the form already has five rows |
| Fields.Step3Shape | index.js:2073-2114 | the third step shows exactly the flagged deferrable fields, in builder order, never more than four |
| Fields.DeferredFieldsMove | index.js:1613-1657 | for a three-step template, a flagged deferrable field is asked on the third step and not the second |
| Fields.ColourAndTaxesFillForm | index.js:1541-1570 | a template asking for colour and taxes but no style id fills the form with email, date, link, colour and taxes |
| Fields.ZalandoForm | index.js:201-213 | zalando's second step is email, date, link, colour and taxes, although it also flags whole name and quantity |
| Validators.NumberOfPlainText | index.js:1706 | `Number` of non-empty text made of digits, `.` and `,` is the value of that text as a decimal literal, if it is one |
| Validators.NumberOfDigits | index.js:1789 | `Number` of a digit string is its value |
| Validators.NumberOfDecimalString | index.js:1839 | `Number(String(n))` is n for every natural number |
| Validators.NumberOfPointLiteral | index.js:1706 | `Number("w.f")` is the value of the literal w.f |
| Validators.NumberOfNegative | index.js:1780 | `Number("-d")` is minus the value of d |
| Validators.CommaIsNaN | index.js:1780 | any text containing a comma converts to NaN |
| Validators.MantissaShape | index.js:1706 | a decimal literal has a digit, at most one point and nothing else |
| Validators.CommaToPointFirst | index.js:1703 | the string-pattern replace turns only the first comma into a point |
| Validators.CleanPriceLength | index.js:1703 | cleaning keeps one character for each digit, point and comma typed |
| Validators.CleanPriceChars | index.js:1703 | the cleaned price holds only digits, points and commas |
| Validators.CleanPriceCommas | index.js:1703 | cleaning leaves one comma fewer, if there was one |
| Validators.PriceAcceptedIff | index.js:1703-1717 | a price passes exactly when the typed text is non-empty and its cleaned form converts to a positive number |
| Validators.CleanCommaPrice | index.js:1703 | `$1,200`-style text, with junk before digits, comma and digits, cleans to the digits joined by a point |
| Validators.CommaPriceIsDecimal | index.js:1703-1706 | so a comma-separated price is read as a decimal fraction: `$1,200` is 1.2 |
| Validators.TwoCommasRejected | index.js:1703-1717 | a price typed with two or more commas is always rejected |
| Validators.CommaPriceAccepted | index.js:1703-1717 | a price `w,f` with w at least 1 is accepted |
| Validators.TaxesNotCleaned | index.js:1780-1787 | taxes written `w,f` are rejected, though the same text is accepted as a price |
| Validators.NegativeTaxesAccepted | index.js:1780-1787 | negative taxes pass the check |
| Validators.FractionalQuantityAccepted | index.js:1827-1833 | a fractional quantity of at least one, such as `1.5`, passes the check |
| Validators.FirstEightDigits | index.js:1672 | finds the leftmost run of eight digits at or after a position; none exactly when no run exists there |
| Validators.NormaliseDateKept | index.js:1669-1673 | an empty date, one with a `/`, or one without eight consecutive digits is kept as typed |
| Validators.NormaliseDateRewrites | index.js:1669-1673 | otherwise slashes go in after the first two and the next two digits of the leftmost run; everything else is kept in place |
| Validators.NormaliseDateUndone | index.js:1669-1673 | removing the slashes from the rewritten date gives the typed date back |
| Validators.NormaliseDateIdempotent | index.js:1669-1673 | rewriting a date twice changes nothing more |
| Validators.ImageUrlTrimmed | index.js:1674-1682 | the link check reads the trimmed text, so trimming first changes nothing |
| Validators.ImageUrlSchemeAccepted | index.js:1674-1682 | any text after `http://` or `https://` passes |
| Validators.ImageUrlCapitalRejected | index.js:1674-1682 | the scheme test is case-sensitive: a link starting with a capital letter is refused |
| Validators.EmailMatchesShaped | index.js:1241-1247 | a split as the pattern describes gives the scanned shape |
| Validators.EmailShapedMatches | index.js:1241-1247 | the scanned shape gives the split the pattern describes |
| Validators.EmailPatternIff | index.js:1241-1247 | the address pattern matches exactly when there is one `@` with no whitespace around it and a point strictly inside the domain |
| Common.TrimIsSlice | index.js:1451 | `trim` keeps a contiguous slice that neither starts nor ends with whitespace, and everything cut away is whitespace |
| Common.TrimKeeps | index.js:1451 | every non-whitespace character survives trimming |
| Common.TrimIdempotent | index.js:1674 | trimming twice is trimming once |
| Replace.NoMatchFrom | index.js:1854 | where nothing matches from a position on, the global replace copies the rest |
| Replace.AbsentIsIdle | index.js:1854 | a rule whose token does not occur leaves the text unchanged |
| Replace.CopiedPrefix | index.js:1854 | output free of the value's characters was copied from the input |
| Replace.ReplaceClears | index.js:1854 | a plain rule whose value shares no character with its token leaves no occurrence of the token |
| Replace.ReplaceKeepsAbsent | index.js:1854 | a rule whose value shares no character with a token creates no occurrence of it |
| Replace.ScanToMatch | index.js:1854 | at the first match, with no later occurrence, the scan copies the text before, puts in the value and copies the rest |
| Replace.ReplaceInside | index.js:1854 | a single occurrence of a plain token is replaced in place |
| Replace.TokenThenSuffix | index.js:1887 | a token followed by text without it: only the token is replaced |
| Replace.ForeignCharIdle | index.js:1854 | a rule whose token holds a character the text lacks is idle |
| Replace.BoundedWordInText | index.js:1889 | a `\b`-wrapped token standing as a word is replaced in place |
| Replace.BoundedWholeWord | index.js:1889 | a `\b`-wrapped token that is the whole text is replaced |
| Replace.BoundedInsideWord | index.js:1913 | a `\b`-wrapped token at the end of a longer word is left alone |
| Replace.ChainStep | index.js:1853-2019 | each link of the chain applies one global replace to the previous result |
| Replace.ChainKeeps | index.js:1853-2019 | a chain whose every rule leaves a text alone leaves it alone |
| Replace.ChainFires | index.js:1853-2019 | a rule after links that kept a text acts on that text itself |
| Replace.AbsentThrough | index.js:1853-2019 | once a token is gone, later rules whose values avoid its characters do not bring it back |
| Replace.ShadowedRuleIdle | index.js:1853-2019 | a rule whose token contains an earlier plain rule's token never fires |
| Render.Render | index.js:1849-2019 | the e-mail body is the template text run through the 62 replacements in order (`Chain`; the three-step chain is index.js:2212-2394); a text holding none of the 62 tokens is sent as it is |
| Render.StepsAgree | index.js:2214-2394 | the two-step and three-step chains differ only in the `PRICE` and `TAXES` rules, and outside `stockx` even those put in the same text |
| Render.CurrencyPlacement | index.js:1860-1907 | the amounts are written by `Money`: only `stockx` puts the currency (and a space) first, and only for the unit price, fee and shipping, and in the three-step chain for `PRICE` and `TAXES` |
| Render.CurrencyBehind | index.js:1858-1912 | subtotal and total, and in the two-step chain `PRICE` and `TAXES`, carry the currency after the amount for every template |
| Render.ShippingCutsLongerTokens | index.js:1853-1907 | each of `SHIPPING1`-`SHIPPING5` and `SHIPPING_JAN` comes through the first 18 rules of the chain unchanged, and rule 18 (`SHIPPING`) turns it into the shipping cost followed by the token's suffix, so the longer token is gone before its own rule runs |
| Render.ShippingTokenReforms | index.js:1971 | deleting `ADDRESS5` can join `SHIP` and `PING1` into a `SHIPPING1` that its later rule then replaces |
| Render.BackspaceRulesIdle | index.js:1891-1910 | as written, the backspace-wrapped `PRICE`, `TAXES` and `TOTAL` rules change no text free of backspace characters |
| Render.BackspaceWordsSentAsWritten | index.js:1891-1910 | as written, a body that is the word `TOTAL`, or on the two-step path `PRICE` or `TAXES`, comes out of the whole chain unchanged |
| Render.CorrectedWordRulesFire | index.js:1889-1890 | read as `\b` (like the neighbouring `STYLE` and `SIZE` rules), the same three rules replace a token standing as a word |
| Render.CorrectedWordsFilled | index.js:1889-1910 | read as `\b`, the chain does fill the amounts in: a body that is `TOTAL` becomes the total with its currency by rule 21, and on the two-step path `PRICE` and `TAXES` become the price and the taxes by their rules 16 and 19 |
| Render.WordRuleFires | index.js:1889 | a word-bounded rule replaces its token where it stands as a word |
| Render.WordRuleSpares | index.js:1913 | a word-bounded rule leaves its token alone at the end of a longer word |
| Render.PlainRuleFires | index.js:1854 | a plain rule replaces a token that is the whole text by the escaped value |
| Render.TotalTokensSurvive | index.js:1853-1912 | on either reading of the `TOTAL` rule, `ORDER_TOTAL` and `CARTTOTAL` come through the first 22 and 23 rules of the chain unchanged and their own rules make them the total; `TOTAL*` comes through the first 20 and becomes the total with a star |
| Render.DateSparesOrderDate | index.js:1913-1914 | `\bDATE\b` spares `ORDERDATE`, which its own rule then replaces, and replaces a `DATE` standing alone |
| Render.ProductTokensFirst | index.js:1854-1887 | each composite `PRODUCT...` token comes through every rule before its own unchanged and is replaced whole by its own rule, with its value; the later bare `PRODUCT` rule would instead leave its suffix behind |
| Render.NamesNeverEmpty | index.js:1919-1940 | no name rule puts in empty text |
| Render.SavedNameWins | index.js:1919-1940 | a saved, non-empty full name is what every name rule puts in |
| Render.NameValue | index.js:1919-1940 | each name rule puts in the saved full name, otherwise the first non-empty of the order's names, otherwise its placeholder |
| Render.NamePreference | index.js:1919-1940 | without a saved name, the first-name rules prefer the first name and the whole-name rules the whole name, each falling back to the other and then to a placeholder |
| Render.AddressBlocks | index.js:1951-2019 | the fifth line of each address block is deleted. The address and shipping blocks are the same text. The lines come from the saved settings when present, otherwise from placeholders |
| Wizard.Client.constructor | index.js:1367 | the bot starts with no sessions and no half-filled settings |
| Wizard.Client.SaveSettingsPart1 | index.js:1229-1316 | an address that fails the pattern is refused and nothing changes, the continue button included; otherwise the five fields are kept for the second half and the continue button (`ContinueSettings`, index.js:1277-1316) shows the country form. The store invariant holds |
| Wizard.Client.SaveSettingsPart2 | index.js:1318-1355 | without a first half, nothing changes. Otherwise the completed profile and its address are saved and the pending half is discarded. The saved address matches the pattern, and the continue button answers that there is no session |
| Wizard.Client.SelectTemplate | index.js:1357-1368 | the session starts over with the chosen, normalised template |
| Wizard.Client.SubmitDescription | index.js:1427-1459 | without a session holding a template, nothing changes. Otherwise the record becomes the normalised template, the product and the trimmed price text |
| Wizard.ContinueFormOf | index.js:1480-1503 | no session or an empty template gives the missing-data answer, and an unknown template the unknown-template answer. Otherwise, and always when the template is known, the answer is the template's second-step form: at most five rows, starting with email, date and link |
| Wizard.MenuContinues | index.js:1480-1503 | every menu choice but `louis_vuitton` reaches the second-step form |
| Wizard.DetailsStep | index.js:1662-1850 | the second step's error answers are link, session, price, taxes or a thrown read, and they keep the session. A bad quantity drops it. A stored record has no phone yet. A ready order goes to the typed address, with accepted price, taxes and quantity |
| Wizard.DetailsOf | index.js:1668-1808 | the values read at the second step: the typed address, the converted price, taxes and quantity, and no phone for a three-step template |
| Wizard.TwoStepOrder | index.js:1742-1778 | the two-step order goes to the typed address, for the session's template, under the given order number |
| Wizard.DetailsKeepIff | index.js:1668-1787 | the session is kept exactly when a check before the branch fails; a bad link and a bad price give their own answers |
| Wizard.DetailsBranches | index.js:1791-1833 | once the checks pass, a three-step template stores the record. Any other template loses the session: it is ready exactly when the quantity passes and dropped otherwise |
| Wizard.DefaultNumbers | index.js:1727-1741 | the default texts `"0"` and `"1"` convert to 0 and 1 |
| Wizard.NumbersOfRawText | index.js:1780-1789 | the converted taxes and quantity are `Number()` of the raw text the handler keeps |
| Wizard.DeferredSessionOk | index.js:1791-1808 | the stored three-step record is well formed: known three-step template, positive price, numeric taxes, quantity one |
| Wizard.PassesIgnoresEmail | index.js:1668 | the checks read the e-mail field's presence, never its text |
| Wizard.DetailsEmailUnchecked | index.js:1668 | replacing the typed address by any text changes neither the branch taken nor the session's fate, and the mail goes to whatever was typed |
| Wizard.FewUnguardedFit | index.js:1721-1741 | when a template flags at most two fields that are read without a fallback, the shown form holds them all |
| Wizard.UnguardedLength | index.js:1721-1741 | each flag of a field read without a fallback puts exactly one such row in the wanted list |
| Wizard.UnguardedCounts | index.js:81-243 | every template flags at most two fields read without a fallback, except zalando |
| Wizard.ShownFormReadable | index.js:1721-1741 | the form the continue button shows holds every field read without a fallback, exactly for the templates other than zalando |
| Wizard.ZalandoStuck | index.js:1736-1741 | a zalando order filled in on the form it was shown never gets past the second step |
| Wizard.ContinueStep3Of | index.js:2051-2118 | without a session, the missing-data answer; an unknown template throws; a known template always gets the form, which asks exactly the flagged deferrable fields |
| Wizard.FinalStep | index.js:2120-2199 | no session gives the missing-data answer with nothing deleted. An unknown template or a record without second-step data throws. Otherwise the mail is the three-step one, with the stored price, quantity and address |
| Wizard.FinalIgnoresQuantity | index.js:2195-2199 | the three-step path never checks the quantity: even a NaN quantity reaches the e-mail |
| Wizard.FinalOfStored | index.js:2136-2199 | a record the second step stored reaches the e-mail with quantity one and accepted price and taxes |
| Wizard.Client.Deliver | index.js:2397-2418 | a failed transport throws with the ledgers unchanged. Otherwise the mail is sent and the use is accounted as the send accounting states |
| Wizard.Client.Settle | index.js:1791-1833 | the session map is kept, replaced or loses the caller's entry as the step decided; only a sent mail changes the limits, charging nothing under access and one use otherwise, with the remaining count reported; the store invariant holds |
| Wizard.Client.SubmitDetails | index.js:1662-1850 | the second step's decision is carried out on the caller's session with the clock as order number; a sent mail is accounted as in `Deliver` |
| Wizard.Client.SubmitFinal | index.js:2120-2418 | the caller's session is gone after the third step whenever there was one, and the decision is carried out; a sent mail is accounted as in `Deliver` |
| Wizard.MailBody | index.js:1849-2019 | the body sent is the chain as written; a body that is the word `TOTAL`, or on the two-step path `PRICE` or `TAXES`, goes out unchanged |

## Left out

- Discord, Express, the SMTP transport and the file system are not modelled as such. A handler's inputs are parameters. Whether the transport succeeds is a boolean, and the JSON files are class fields.
- The Postgres path of the code store (index.js:529-558 and the database branches of loading and saving) is left out. The model follows the local-file path.
- Randomness in code and token generation is left out. Draws and tokens are inputs.
- `Codes.CodeStore.GenerateCodes`: the retry loop stops with `DrawsExhausted` when the supplied draws run out. The source would keep drawing.
- Calendar arithmetic is left out: `setDate(getDate() + days)` is taken as adding `days` times 86 400 000 ms, which ignores daylight-saving shifts. ISO date strings are integers.
- Floating point is left out. Price, taxes and quantity are exact reals. `toFixed(2)` and `String(number)` output are the `Figures` parameter of the renderer, and the total's arithmetic is not modelled.
- JavaScript `Number()` is modelled on exact reals. `Validators.NumberOfTrimmed` (validators.dfy:136-157) follows the literal grammar, including signs, exponents, `0x`/`0o`/`0b` prefixes and `Infinity`. Double precision is not captured: there is no overflow to `Infinity` (`Number("1e400")`), no underflow to 0 (a point followed by 400 zeros and a 1), no rounding and no negative zero. The lemmas about `Number()` are stated for text over digits, point, comma, sign and white space, which covers every input the price check sees.
- The `$` sequences in replacement values (`$&`, `$1`, ...) are not interpreted; values are inserted literally.
- Concurrency between interactions is left out. Each handler runs as one atomic step on the maps.
- Step 1 and the continue buttons assign a module-level `currency` variable that no later handler reads, so it is left out.
- The brand-name subject line and the log and reply texts are left out.
- `Replace.ShadowedRuleIdle` is stated for any chain; it is not applied to every shadowed pair of the 62 rules.
- Template flags that no handler reads are left out.
- `Wizard.DetailsEmailUnchecked`: states the branch equality and the recipient, not that the rest of the order is unchanged.
- Three facts of the code that a reader might not expect, all modelled as written:
  - the price is checked at the second step (index.js:1703-1717), not when the first form is submitted;
  - `"$1,200"` is read as 1.2 (`Validators.CommaPriceIsDecimal`);
  - the gate's no-uses branch is unreachable (`Ledger.Ledgers.GateIsAccess`).
- The `Figures` parameter of the renderer (the formatted price, taxes and total) is not tied to the order's price, quantity and taxes: `toFixed(2)` and the total's arithmetic are left out, so no member states that the mail shows the amounts the user typed.
- `Codes.CodeStore.GenerateCodes`: `count` is an integer here. In JavaScript (index.js:2870-2877) a fractional count such as 2.5 passes the check and the loop makes ceil(count) codes, and a numeric string count is compared and looped over as a number; neither is modelled.

## Findings

| source | as written | input that shows it | evidently intended | confidence | as-written member | corrected member |
|---|---|---|---|---|---|---|
| index.js:1891 | `PRICE` pattern wrapped in literal U+0008 characters | a two-step body that is the word `PRICE` is sent as `PRICE` | `\bPRICE\b`, like the `STYLE` and `SIZE` rules beside it | not executed | Render.BackspaceWordsSentAsWritten | Render.CorrectedWordsFilled |
| index.js:1908 | `TAXES` pattern wrapped in literal U+0008 characters | a two-step body that is the word `TAXES` is sent as `TAXES` | `\bTAXES\b` | not executed | Render.BackspaceWordsSentAsWritten | Render.CorrectedWordsFilled |
| index.js:1910 | `TOTAL` pattern wrapped in literal U+0008 characters | a two-step body that is the word `TOTAL` is sent as `TOTAL` | `\bTOTAL\b` | not executed | Render.BackspaceWordsSentAsWritten | Render.CorrectedWordsFilled |
| index.js:2285 | the three-step `TOTAL` pattern wrapped in literal U+0008 characters | a three-step body that is the word `TOTAL` is sent as `TOTAL` | `\bTOTAL\b` | not executed | Render.BackspaceWordsSentAsWritten | Render.CorrectedWordsFilled |
| index.js:2841 | `!authTokens[token]` looks the token up on a plain `{}` object (index.js:2827), so inherited names are found; their age is NaN, which is never above a day | the token `constructor` (in the query, or in the body for `/api/generate`) passes `/api/stats`, `/api/generate` and `/api/codes` with no login | an own-property test (`Object.hasOwn(authTokens, token)`) or a `Map` | not executed | Codes.ConstructorPassesAsWritten | Codes.AdminSessions.CheckOwnAuth |

`Render.Render` takes the reading of these three rules as a parameter. `Wizard.MailBody`, the body the bot sends, uses the rules as written (`Render.BackspaceWordsSentAsWritten`). The intended reading is the `Corrected` one (`Render.CorrectedWordRulesFire`, `Render.CorrectedWordsFilled`).
