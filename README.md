# Empire Soluções Automotivas: booking form and theme logic in Dafny

This project models the client-side logic of the Empire Soluções Automotivas website and proves properties about it.

**Booking page** (`js/booking.js`):
- `BookingForm` models the form's eight values and `validateForm`. Every check runs, and the errors come back in a fixed order. It also models `isValidEmail`, an explicit test proved equal to the regular expression `/^[^\s@]+@[^\s@]+\.[^\s@]+$/`.
- `BookingMessage` models the `services` catalog and the WhatsApp message template. It also models the `https://wa.me/...` link that carries the message.
- `UriComponent` models `encodeURIComponent` and a matching decoder. Encoding copies the characters `A-Z a-z 0-9 - _ . ! ~ * ' ( )` unchanged. It writes each character outside that set as UTF-8 (section 3 of RFC 3629) and percent-encodes those bytes as in section 2.1 of RFC 3986. The decoder is proved to undo the encoder.
- `PhoneMask` models the phone field's input mask.
- `BookingPage` models the submit handler as a class holding the form, the submit button and a log of effects (toasts shown, windows opened). The handler is split at its `await` into `Submit` and `Resume`.
- `JsText` holds JavaScript's `trim` and whitespace class.

**Every page** (`js/script.js`):
- `Theme` models the light/dark theme: the stored preference, the body's `dark` class and the `data-theme` attribute. Its operations are written both as functions on a state value and as methods of a page class proved against those functions.
- `SiteChrome` models the header's scroll shadow and the in-page link click handler.

Three facts about the code shape the model:
- **WhatsApp number.** The destination number is the 13-digit `5579999727920` (js/booking.js:158).
- **Message line.** It appears whenever the message is non-empty (`formData.message ? … : ''`, js/booking.js:78). A message of only spaces still produces the line.
- **Form reset.** `form.reset()` (js/booking.js:168) restores the fields' default values, which the model keeps as `BookingPage.defaults`.

## Model

| member | source | states |
|---|---|---|
| JsText.TrimEmptyIffBlank | js/booking.js:25-34 | `!s.trim()` holds exactly when every character of `s` is JavaScript whitespace. |
| BookingForm.IsValidEmailIffPattern | js/booking.js:54-57 | `IsValidEmail`, the model of `isValidEmail`, holds exactly when the string splits as `[^\s@]+ @ [^\s@]+ . [^\s@]+`. That is: exactly one `@`, no whitespace, a non-empty local part, and a `.` in the domain with text on both sides. |
| BookingForm.PaddedEmailIsInvalid | js/booking.js:54-57 | A leading or trailing whitespace character makes the e-mail invalid, even though `validateForm`'s trim check lets it through. |
| BookingForm.ValidateForm | js/booking.js:22-52 | `ValidateForm` is `validateForm`: it runs the six checks one after another and returns exactly the errors the checks report, in check order. |
| BookingForm.ExpectedErrorsInSteps | js/booking.js:25-49 | The reference `ExpectedErrors` (the six `Verdict`s, collected) equals the six checks' reports appended one after another, with no check skipped. |
| BookingForm.ExpectedErrorsBounded | js/booking.js:22-52 | There are at most six errors. There are none exactly when the booking is complete: name, phone and e-mail are non-blank, the untrimmed e-mail is valid, and service, date and time are non-empty without trimming. |
| BookingForm.NoErrorsIffComplete | js/booking.js:22-52 | No errors are expected exactly when the complete-booking condition holds. |
| BookingForm.ErrorReportedIff | js/booking.js:25-49 | Each error appears in the result exactly when its own condition holds. |
| BookingForm.EmailReportedOnce | js/booking.js:33-37 | The e-mail never produces both "insira seu email" and "email válido". |
| BookingForm.ErrorsInCheckOrder | js/booking.js:22-51 | The errors are ordered by the check that raised them: name, phone, e-mail, service, date, time. |
| UriComponent.Utf8Char | js/booking.js:82 | One character encodes to between one and four UTF-8 bytes. |
| UriComponent.EncodeCharKeepsOnlyUnescaped | js/booking.js:82 | A character is copied unchanged exactly when it is in `A-Z a-z 0-9 - _ . ! ~ * ' ( )`. Any other character becomes `%`-triples. |
| UriComponent.EncodedFormOfEncode | js/booking.js:82 | The encoded text consists only of unescaped characters and `%XX` triples with upper-case hex digits. |
| UriComponent.PercentDecodeOfEncode | js/booking.js:82 | Percent-decoding the encoded text gives back exactly the UTF-8 bytes of the input. |
| UriComponent.Utf8RoundTrip | js/booking.js:82 | Strict UTF-8 decoding of the UTF-8 encoding gives back the input. |
| UriComponent.DecodeEncode | js/booking.js:82 | `EncodeUriComponent`, the model of `encodeURIComponent`, is inverted by `DecodeUriComponent`: decoding its result gives back the original text. |
| BookingMessage.ServiceLabelCatalog | js/booking.js:10-16 | `ServiceLabel`, the intended lookup `services[key] \|\| key`, maps the five catalog keys to their Portuguese labels, and relabels a key exactly when it is in the catalog. |
| BookingMessage.InheritedKeyIsNotFallback | js/booking.js:64 | `ServiceLabelAsWritten`, the lookup as written (it also finds `Object.prototype` members), gives the key `constructor` a function's source text instead of falling back to the key. |
| BookingMessage.LookupsAgreeOffPrototype | js/booking.js:64 | Apart from the names inherited from `Object.prototype`, the as-written and intended lookups agree. |
| BookingMessage.GeneratedMessageDecodes | js/booking.js:68-82 | `GenerateWhatsAppMessage` (`generateWhatsAppMessage`) is `EncodeUriComponent` of `MessageText`, the template joined from `MessagePieces`. Its result is in encoded form and decodes back to that template text. |
| BookingMessage.UrlCarriesMessage | js/booking.js:157-159 | `WhatsAppUrl`, the `whatsappUrl` template, starts with `https://wa.me/5579999727920?text=`, and the rest of it decodes to the message text. |
| BookingMessage.MessageShowsFields | js/booking.js:68-80 | `MessageText` (the template before encoding) contains the name, e-mail, phone, service label, formatted date and time. It also contains the vehicle line between its caption and the date caption. |
| BookingMessage.VehiclePlaceholderIff | js/booking.js:75 | The vehicle slot shows "Não informado" exactly when the vehicle is empty or is that text itself. |
| BookingMessage.FixedTextHasNoMarker | js/booking.js:68-80 | None of the template's fixed text contains the 💬 marker. |
| BookingMessage.MessageLineIff | js/booking.js:78 | The 💬 marker is in the text exactly when the message is non-empty, given that the other values do not contain it. When the message is non-empty, the line `\n💬 Mensagem: <message>` is in the text. |
| PhoneMask.Digits | js/booking.js:197 | `replace(/\D/g, '')` returns only digits and is never longer than its input. |
| PhoneMask.DigitsKeepsDigits | js/booking.js:197 | Stripping is idempotent. A character survives exactly when it is a digit that occurs in the input. |
| PhoneMask.MaskDigits | js/booking.js:199-206 | `Mask`, the `if`/`else` that renders the digits, keeps exactly as its digits the first min(n, 11) input digits, in order. |
| PhoneMask.MaskIgnoresExtraDigits | js/booking.js:205 | Digits after the eleventh do not change the mask. |
| PhoneMask.MaskShape | js/booking.js:199-206 | Masks of equally long digit strings have the same length and the same punctuation at the same positions. |
| PhoneMask.FormatPhoneEmptyIff | js/booking.js:197-199 | The field is left empty exactly when the input has no digit. |
| PhoneMask.FormatPhoneLength | js/booking.js:205 | The masked value has at most fifteen characters. |
| PhoneMask.FormatPhoneFullPattern | js/booking.js:205 | Eleven or more digits render as `(DD) DDDDD-DDDD`. |
| PhoneMask.FormatPhoneIdempotent | js/booking.js:196-210 | `FormatPhone` (`Mask` of `Digits`), the value the `input` listener writes back, is idempotent: masking a masked value changes nothing. |
| BookingPage.ErrorToasts | js/booking.js:141-143 | There is one error toast per error, in order, each carrying that error's text. |
| BookingPage.ErrorTextsDistinct | js/booking.js:26-48 | Different errors have different texts. |
| BookingPage.BadEmailScenario | js/booking.js:22-57 | A form complete except for an e-mail without a dot gets exactly the "email válido" error. |
| BookingPage.BookingPage.constructor | js/booking.js:6-7 | The page starts with its default values, an idle button and no effects. |
| BookingPage.BookingPage.OnPhoneInput | js/booking.js:196-210 | The listener rewrites only the phone field, to the masked value, and nothing else changes. |
| BookingPage.BookingPage.Submit | js/booking.js:124-150 | Invalid values produce the error toasts and nothing else. Otherwise the button turns disabled, loading and `Processando...`, and the values read and the button's previous markup are handed on. The form is not changed. |
| BookingPage.BookingPage.ShowErrorToasts | js/booking.js:141-143 | One error toast per error, in order, is appended. No other state changes. |
| BookingPage.BookingPage.Resume | js/booking.js:152-178 | On success, the link for the submitted values opens in `_blank`, the success toast is shown and the form is reset. On an exception only the failure toast is shown. In both cases the button is enabled, not loading, and shows its previous markup again. |
| BookingPage.SubmitAndResume | js/booking.js:124-179 | A submission from an idle page leaves the page idle. A valid form gets the link and the toast and is reset. A valid form whose continuation throws keeps its values and gets only the failure toast. An invalid one keeps its values and gets only the error toasts. |
| Theme.ThemePage.ApplyTheme | js/script.js:18-26 | The new state is `Applied(old state, theme)`. |
| Theme.ThemePage.OnToggleClick | js/script.js:32-38 | The new state is `Toggled(old state)`. |
| Theme.ThemePage.Load | js/script.js:15-118 | The new state is `Loaded(old state, prefersDark)`: the saved theme is applied, light if none (lines 15 and 29). Then, if nothing is stored, the system theme is applied and stored (lines 113-118). The statements in between are not part of this step. |
| Theme.ThemePage.OnSystemChange | js/script.js:121-126 | The new state is `SystemChanged(old state, matches)`. |
| Theme.AppliedShowsTheme | js/script.js:18-26 | `Applied` models `applyTheme`. After it, dark mode is on exactly for `"dark"`. The flag is on exactly when `data-theme` is `"dark"`, the attribute names the displayed theme, and storage is unchanged. |
| Theme.ToggleStoresDisplayed | js/script.js:32-38 | `Toggled` models the toggle's click handler. A toggle flips the flag, keeps the attribute consistent and stores the displayed theme. |
| Theme.ToggleTwice | js/script.js:32-38 | Two toggles restore the flag, and the attribute too when it agreed with the flag. |
| Theme.LoadStoresTheme | js/script.js:113-118 | `Loaded` models the script's top level, with `SavedTheme` as `getItem('theme') \|\| 'light'`. After loading, a theme is always stored and displayed consistently. The stored theme wins if there is one, otherwise the system's. An empty store shows `light` before the fallback. |
| Theme.SystemChangeAfterLoad | js/script.js:121-126 | `SystemChanged` models the colour-scheme `change` listener. It never writes storage and does nothing once loading has stored a theme. |
| Theme.TogglesAfterLoadKeepStore | js/script.js:32-38 | After loading and any number of toggles, a theme is stored, the attribute is consistent, and the stored theme is the displayed one. |
| SiteChrome.ScrolledShadow | js/script.js:97-103 | The header is elevated exactly when `pageYOffset` is past 100, or `pageYOffset` is zero and the element's `scrollTop` is past 100 (`ScrollOffset` models the `\|\|` fallback). |
| SiteChrome.Header.OnScroll | js/script.js:96-106 | The header's shadow becomes the one for the current offset. |
| SiteChrome.ShadowThreshold | js/script.js:99-103 | `ShadowFor`, the scroll listener's `if`, gives the elevated shadow exactly when the offset is strictly greater than 100. At exactly 100 it is resting. |
| SiteChrome.ShadowMonotone | js/script.js:99-103 | Scrolling further never takes the elevated shadow away. |
| SiteChrome.OnAnchorClick | js/script.js:45-60 | The default is prevented exactly when the href is not a bare `#`. A scroll happens exactly when the href is not `#` and the target exists. |

## Left out

- Lone UTF-16 surrogates cannot occur in the model: a Dafny `char` is a Unicode scalar value. So the `URIError` that `encodeURIComponent` throws for them is not modelled. `Resume`'s `raises` flag stands for an exception thrown before `window.open` opens the link (in building the message or in `window.open` itself). An exception after the window opened, between the success toast and the reset, cannot be represented.
- Date formatting (`new Date(...).toLocaleDateString('pt-BR')`, js/booking.js:65-66) depends on the time zone and locale. The formatted date enters as a parameter. Parsing `YYYY-MM-DD` as UTC and rendering it in local time can shift the day.
- `setupDateInput` (js/booking.js:106-118) is left out. It depends on the clock and the time zone.
- Toasts are recorded as effects. Their DOM elements, CSS classes and 4-second and 300 ms removal timers (js/booking.js:89-100) are not modelled.
- The 500 ms `await` is not modelled as a delay. It is the split between `Submit` and `Resume`. Events handled in between (for instance `OnPhoneInput`) do not affect the values carried in `Pending`.
- `console.log` and `console.error` calls, and the `.btn` click logging, are left out.
- The IntersectionObserver scroll-reveal in both files, lazy image loading and preload hints are left out. They are browser plumbing.
- `localStorage` is modelled as an `Option<string>` field and `matchMedia` as a boolean input. `window.open` and `document.querySelector` are modelled by their outcomes: an effect, and a `Lookup` parameter. The unused `lastScrollTop` is dropped.
- `Theme.ThemePage.Load`, `Loaded` and `LoadStoresTheme` assume the top level of js/script.js runs to completion from line 15 to line 118. Two unguarded statements in between can throw and stop it before lines 113-126: `themeToggle.addEventListener` (js/script.js:32) when the page has no `#themeToggle`, and `new IntersectionObserver(...)` (js/script.js:72) in a browser without that API (line 132 guards the same constructor, line 72 does not). Then no theme is stored and no `change` listener is registered, so `LoadStoresTheme`'s promise that a theme is stored after loading does not hold there.
- `NaN` scroll offsets are not modelled. Offsets are real numbers.
- BookingMessage.InheritedKeyIsNotFallback: inherited methods are rendered as V8 prints a native function. Other engines print them differently.
- BookingMessage.VehiclePlaceholderIff: states the placeholder condition for the vehicle slot rather than for the whole text, because other fields may contain the same words.
- BookingMessage.MessageLineIff: requires the other values not to contain the 💬 marker, since a marker typed into another field would also appear in the text.
- BookingMessage.MessagePieces: uses the intended lookup `ServiceLabel`, not `ServiceLabelAsWritten`, so `GenerateWhatsAppMessage`, `WhatsAppUrl`, `BookingPage.Resume` and `SubmitAndResume` describe the corrected program. For the twelve `Object.prototype` member names (`InheritedMembers`) the code's message shows the inherited member's text where the model shows the key; for every other service value the two agree (`LookupsAgreeOffPrototype`).
- `e.preventDefault()` at the start of the submit handler (js/booking.js:125) is not recorded as an effect: the form's native submission is always cancelled, on every path.
- The `input` listener is modelled on the whole field value. Where the caret lands after the rewrite is not modelled.

## Findings

| source | as written | input that shows it | evidently intended | confidence | as-written member | corrected member |
|---|---|---|---|---|---|---|
| js/booking.js:64 | `services[formData.service] \|\| formData.service` also finds members inherited from `Object.prototype`, which are truthy | service value `constructor`: the message shows `function Object() { [native code] }` as the service | the catalog label for a catalog key, the raw key otherwise | medium: needs a service value outside the select's options; not executed | BookingMessage.InheritedKeyIsNotFallback | BookingMessage.ServiceLabelCatalog |
