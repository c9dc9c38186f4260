# Public API Request gallery — a Dafny model

The gallery page fetches twelve people from a public directory API, shows one
card per person, and opens a detail modal when a card is clicked. Its
pure logic lives in `js/scripts.js`:

- `checkStatus`, the status gate of the fetch chain. It is modelled as a
  decision to `Success`/`Failure` instead of a promise (`fetch.dfy`).
- `createHTML` and `createPersonHTML`, which map each result to a card tagged
  with `position=<index>` (`gallery.dfy`). The page is abstracted away: a card is
  the record of what its markup shows, and the gallery is the sequence of cards
  in document order.
- `showModal`, which reads the clicked card's `position` attribute back with
  `parseInt` and indexes the stored results. `createModalHTML` is modelled as the
  record of fields the modal fills in (`gallery.dfy`).
- `formatPhone`, a fixed positional splice (`phone.dfy`).
- `formatBirthdate`, from the calendar fields on (`birthdate.dfy`).

Supporting modules:

- `js_string.dfy` models `String.prototype.substring`: both indices are
  clamped, and the arguments are swapped when start > end.
- `decimal.dfy` models the decimal text a template literal prints for an
  integer. It also models `parseInt` without a radix, as in section 19.2.5 of
  ECMA-262. That covers leading white space, an optional sign, the `0x` prefix,
  the longest digit run, and `NaN` shown as `None`.
- `wrappers.dfy` holds `Option` and `Result`.

The central fact is the card round trip. Card `i` carries the decimal text of
`i`, and `parseInt` reads that text back as `i`, so positions are pairwise
distinct. The selector `div[position="i"]` therefore finds exactly card `i`.
A click on card `i` opens the modal of `results[i]`, the person the card was
built from.

Some facts about the script that the model keeps:

- A card shows `picture.large` (js/scripts.js:77).
- The modal's image is `picture.medium` (js/scripts.js:112).
- The script has no search filter and no prev/next navigation.

## Model

| member | source | states |
|---|---|---|
| Fetch.CheckStatus | js/scripts.js:18-25 | success exactly when the status is in 200..299 (`response.ok`), carrying the identical response; otherwise failure whose message is the status text |
| Phone.FormatPhone | js/scripts.js:141-150 | result length is the input length below 14 characters and `min(length, 15)` from 14 on |
| Phone.FormatPhoneShort | js/scripts.js:143-149 | an input shorter than 14 characters is returned unchanged |
| Phone.FormatPhoneSplice | js/scripts.js:143-145 | from 14 characters on, the result is `s[..5] + " " + s[6..min(15, len)]`, with `substring`'s end clamped to the length |
| Phone.FormatPhoneShape | js/scripts.js:144 | a spliced result has length `min(len, 15)`, keeps the first five characters, has a space at index 5 and the input's characters from index 6 on |
| Phone.FormatPhoneOnlySeparatorChanges | js/scripts.js:142-145 | for 14 or 15 characters only index 5 changes (to a space); every other position keeps its character |
| Phone.FormatPhoneTruncates | js/scripts.js:144 | past 15 characters everything from index 15 on is dropped |
| Phone.FormatPhoneIdempotent | js/scripts.js:141-150 | formatting a formatted number changes nothing |
| Phone.FormatPhoneNormalisesLayout | js/scripts.js:142-145 | `(XXX)-XXX-XXXX` and `(XXX) XXX-XXXX` both come out as `(XXX) XXX-XXXX`, the layout the comment names |
| Phone.FormatPhoneKeepsConventional | js/scripts.js:142-145 | a number already in `(XXX) XXX-XXXX` layout is returned unchanged |
| JsString.Substring | js/scripts.js:144 | for `0 <= start <= end`, `substring` is the slice between the two indices, each clamped to the string length |
| Decimal.NatToDecimal | js/scripts.js:75 | the `${index}` text of a non-negative integer is non-empty, all decimal digits, without a leading zero |
| Decimal.IntToDecimal | js/scripts.js:162 | the `${z}` text of an integer is decimal digits, preceded by a minus sign exactly when `z` is negative |
| Decimal.ParseInt | js/scripts.js:173 | `parseInt` yields a number only when its first non-blank character is a decimal digit or a sign, otherwise `NaN`; a negative result needs a leading minus sign |
| Decimal.ParseIntNatRoundTrip | js/scripts.js:173 | `parseInt` of the decimal text of `n` is `n` |
| Decimal.ParseIntIntRoundTrip | js/scripts.js:162 | the `${...}` text printed for a birthday field, a negative year included, parses back to that integer |
| Decimal.NatToDecimalInjective | js/scripts.js:75 | distinct indices print as distinct position attributes |
| Decimal.DigitPrefix | js/scripts.js:173 | `parseInt` reads the longest prefix of radix digits and stops at the first non-digit |
| Gallery.Render | js/scripts.js:58-64 | one card per result, in input order; card `i` parses back to position `i` and shows `first last`, the email, `city, state` and the large picture of `results[i]` |
| Gallery.PersonCard | js/scripts.js:71-85 | the card for index `i` carries the decimal text of `i` as its position and shows the large picture, `first last`, the email and `city, state` |
| Gallery.QuerySelect | js/scripts.js:91-92 | the selector yields the first card in document order whose position attribute equals the value, or nothing when no card has it |
| Gallery.Lookup | js/scripts.js:176 | indexing the results is defined exactly for an in-range integer position, giving that entry, and `undefined` for `NaN` or an out-of-range position |
| Gallery.ShowModal | js/scripts.js:171-177 | a click opens a modal exactly when the parsed position is a valid index, and the modal is built from the person at that index |
| Gallery.PersonModal | js/scripts.js:100-123 | the modal shows the medium picture, `first last`, the email, the city, the formatted phone, the street line `number street city, state postcode` (whose `parseInt` is the street number) and the formatted birthday `FormatBirthdate(date)` (whose `parseInt` is the one-based month for a valid date) |
| Gallery.PositionsDistinct | js/scripts.js:63 | the positions of two different cards differ |
| Gallery.SelectorFindsCard | js/scripts.js:91 | the selector for index `i` finds card `i`, and card `i` is the only card with that position |
| Gallery.ClickShowsCardPerson | js/scripts.js:171-177 | clicking card `i` shows the modal of `results[i]`, whose name and email are the ones on the card |
| Gallery.CreateHtml | js/scripts.js:71-93 | appending cards one by one and querying each new card's selector builds exactly `Render(results)`, and listener `i` lands on card `i` |
| Birthdate.FormatBirthdate | js/scripts.js:157-165 | read as a number, the formatted birthday begins with the one-based month; an invalid date reads as `NaN` |
| Birthdate.FormatBirthdateRoundTrip | js/scripts.js:162 | a formatted birthday splits into exactly three fields that `parseInt` reads back as one-based month, day and full year |
| Birthdate.FormatBirthdateUnpadded | js/scripts.js:161-162 | neither field is padded: months January to September and days 1 to 9 print as one digit, so the output has the shape `M/D/YYYY`, not the `MM/DD/YYYY` of the comment |
| Birthdate.FormatBirthdateInvalid | js/scripts.js:159-162 | an invalid date prints `NaN` in all three fields |

## Left out

- `fetchData` and the promise chain (`fetch`, `then`, `catch`), with the hard-coded URL (js/scripts.js:32-43, 180-181). These are network I/O and asynchronous plumbing. Only the `checkStatus` decision is modelled.
- `errorHandler` (js/scripts.js:49-52). It only writes a fixed message into the page.
- All page mutation: `innerHTML`, `insertAdjacentHTML`, `addEventListener` and the close button's `remove` (js/scripts.js:88-92, 126-133). `Gallery.CreateHtml` keeps only the order in which cards are appended and the card each listener is attached to.
- The exact markup strings of the card and modal templates (js/scripts.js:74-85, 107-123). Only the fields they fill in are modelled.
- Turning `dob.date` into a calendar date. `new Date(dob)` with `getMonth`/`getDate`/`getFullYear` depends on the host's date parser and local time zone, so `Gallery.PersonModal` takes that step as a parameter `hostDate`. `Birthdate.FormatBirthdate` formats the fields it yields.
- Search filtering and prev/next navigation of the modal. The script has no code for them.
- Gallery.CreateHtml: two assumptions about the page. Person fields are treated as plain text, although the script interpolates them into markup without escaping (js/scripts.js:77-82); a field holding an element with a `position` attribute would let the selector at js/scripts.js:91 find that element instead of the card. And no element of the page outside the gallery cards has a `position` attribute, although `document.querySelector` searches the whole document.
- Decimal.ParseIntNatRoundTrip: the model uses unbounded integers. It ignores the difference between `-0` and `+0` and the loss of precision above 2^53 in JavaScript numbers. Card indices are far below that bound.
- Phone.FormatPhone: JavaScript measures string length in UTF-16 code units. The model counts Unicode scalar values, so the two agree on phone strings without characters outside the Basic Multilingual Plane.
- Gallery.CreateHtml: the case where the selector finds no card (`null.addEventListener` throws) is not modelled as an error path. The lemma shows it cannot happen for cards the gallery itself rendered.
