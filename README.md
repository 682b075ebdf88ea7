# Hotel listing page: a Dafny model of `script.js`

`script.js` is the script behind a hotel listing page. When the document
loads it looks up the grid, the status region and the results label. It shows
"Cargando hoteles...", fetches the hotel list from a mock endpoint, and builds
one card per hotel record. Each card has a discount badge, an image with a
previous/next carousel, a title, a star or text rating, a city label and a
truncated description. The script then shows the number of results and hides
the status region. When the fetch fails it shows a retry message instead.

The model has one module per part of the script:

| file | module | what it models |
|---|---|---|
| `js.dfy` | `Js` | JSON values, JavaScript truthiness, `Number.isInteger`, `Math.abs` and `Math.round` on exact reals |
| `text.dfy` | `Text` | `trim`, `toLowerCase`/`toUpperCase` on the characters the page uses, `split(/\s+/)`, `join`, and decimal printing of naturals |
| `formatters.dfy` | `Formatters` | `truncarTexto`, the gallery filter, `obtenerImagenPrincipal`, `obtenerDescuento` and the badge text |
| `city.dfy` | `City` | `formatearCiudad` |
| `rating.dfy` | `Rating` | `crearRating`: the decision as a datatype, and the container-building loop as a method |
| `carousel.dfy` | `Carousel` | `configurarGaleria`: a class holding the gallery, the cursor `indice` and the image `src`, with `Next`/`Prev` |
| `cards.dfy` | `Cards` | `crearTarjetaHotel`, reduced to the values a card displays, and the wiring of its carousel |
| `fetcher.dfy` | `Fetcher` | `obtenerHoteles`, as a function from the response to the hotels or an error |
| `page.dfy` | `Page` | `cargarHoteles`, `updateStatus` and `ocultarStatus`, as classes for the three page elements and a pure render pass they are proved against |
| `wrappers.dfy` | `Wrappers` | an `Option` datatype |

Two inputs of the script are passed in as parameters:

- The random divisor of `obtenerDescuento`, `Math.round(Math.random() * 100)`, becomes `d` for one card. For a whole render pass it becomes `draw(i)`, the draw for the `i`-th array entry.
- What `fetch` and `respuesta.json()` settle to becomes a `Response` value. It is a network failure, or a status code with a body that is malformed, not an array, or an array of entries.

Some text fields can be absent or `null`. The script treats those exactly like
`""` (`||`, `!x`), so the model types them as strings and uses `""` for the
absent case. The fields the script tests for their type (`id`, `gallery`, and
`category.showIcon` and `category.number`) stay JSON values.

### Behaviour worth noting

- `truncarTexto` trims both ends of the cut text (`.trim()`, script.js:232), so whitespace at the start of the first 190 characters is dropped as well as whitespace before the "...".
- A category name made only of whitespace still yields a text label. Assigning a non-empty `textContent` creates a text child, so `childNodes.length > 0` holds before the `trim()` test (script.js:214-218). `Rating.WhitespaceNameKeepsLabel` states this.
- The carousel cursor starts at entry 0, but the card first shows the first non-blank entry (script.js:78 and script.js:152). When entry 0 is blank, a full turn of "next" lands on the blank entry, not on the image first shown. `Cards.BlankFirstEntryNotRestored` gives such a gallery.
- The Cancun aliases are compared after `trim().toLowerCase()` only. Inner whitespace is not collapsed, so "cancun,  qroo" (two spaces) is title-cased rather than shown as "Cancun" (`City.SpacedAliasIsNotAlias`).

## Model

| member | source | states |
|---|---|---|
| Js.Round | script.js:263 | `Math.round(x)` is the integer within half a unit of `x`, halves rounding up |
| Js.RoundAbsTenth | script.js:263 | for an integer id, `Math.round(Math.abs(id / 10))` equals `(abs(id) + 5) div 10` |
| Js.IntegerValue | script.js:258 | a number that passes `Number.isInteger` is exactly an integer |
| Text.Lower | script.js:240 | `toLowerCase` maps each character and keeps the length |
| Text.Trim | script.js:232 | `trim()` returns a contiguous slice of its input, with only whitespace cut on each side and no whitespace at either end |
| Text.TrimEmpty | script.js:180 | the trimmed string is empty exactly when the input is all whitespace |
| Text.Split | script.js:251 | `split(/\s+/)` gives at least one word, no word holds whitespace, only the first and last words can be empty, and each of those is empty exactly when the input starts or ends with whitespace |
| Text.SplitCollapse | script.js:251-253 | splitting on whitespace runs and joining with one space is the same as replacing every maximal whitespace run with one space |
| Text.ParseNatToString | script.js:29 | the decimal text of a number reads back as that number |
| Text.NatToStringInjective | script.js:59 | different numbers print differently |
| Formatters.Truncate | script.js:223-233 | an empty value gives ""; text within the limit is kept; longer text ends in "..." and has at most limit + 3 characters |
| Formatters.TruncateCore | script.js:232 | what precedes "..." is the slice of the first `limit` characters left after trimming, with only whitespace around it in that window |
| Formatters.TruncatePrefix | script.js:232 | for text not starting with whitespace, what precedes "..." is a prefix of the text |
| Formatters.TruncateExamples | script.js:223-233 | ("abcdefgh", 5) gives "abcde..."; ("abc", 5) gives "abc"; ("", 5) gives "" |
| Formatters.KeepStringUris | script.js:76 | the filter keeps at most the input's entries; a uri is kept exactly when some truthy entry has it as a string `uri`; with every entry qualifying, all uris are kept in order |
| Formatters.FilterGallery | script.js:75-77 | a gallery that is not an array gives no images; an array is filtered |
| Formatters.KeepStringUrisAppend | script.js:76 | filtering a concatenation is the concatenation of the filtered parts, so order is kept |
| Formatters.KeepStringUrisIdempotent | script.js:76 | filtering already-filtered entries changes nothing |
| Formatters.NonBlankTrim | script.js:180 | `item.uri.trim()` is truthy exactly when the uri is not all whitespace |
| Formatters.FirstNonBlank | script.js:179-181 | `find` stops at the first non-blank uri, and every uri before it is blank |
| Formatters.PrimaryImage | script.js:174-183 | the result is the placeholder or a gallery uri; all-blank or empty galleries give the placeholder; otherwise it is the first non-blank uri, untrimmed |
| Formatters.PrimaryImageExamples | script.js:174-183 | [] gives the placeholder; ["  ", "x.jpg"] gives "x.jpg" |
| Formatters.ComputeDiscount | script.js:257-265 | a non-integer id gives 15; for an integer id the badge is NaN exactly when the divisor rounds to 0; any number shown lies in 10..60 |
| Formatters.DiscountFormula | script.js:262-264 | the discount equals `min(round(abs(id / 10)) mod d + 10, 60)` evaluated on exact reals |
| Formatters.DiscountUnclamped | script.js:262-264 | with a divisor of at most 50 the clamp never acts and the percentage is below d + 10 |
| Formatters.BadgeText | script.js:85 | the badge reads "<n>% Descuento", or "NaN% Descuento" |
| City.CapitalizeAll | script.js:252 | each word is mapped by `charAt(0).toUpperCase() + slice(1)`, keeping the number of words |
| City.FormatCity | script.js:235-255 | the label is never empty; no city gives the country, or "Cancun" without one; an alias gives "Cancun"; any other city gives single-spaced text whose words are the capitalized words of the lower-cased city and whose lower-case form is the lower-cased city with every whitespace run collapsed to one space |
| City.SplitJoin | script.js:251-253 | splitting words joined by one space gives the words back |
| City.SplitWordSpace | script.js:251 | a word, one space and text not starting with whitespace split into the word followed by the pieces of that text |
| City.SplitIgnoresSpacing | script.js:251 | text and its whitespace-collapsed form split into the same words |
| City.TitleCaseSingleSpaced | script.js:249-253 | the title-cased city holds no two whitespace characters in a row, and only plain spaces |
| City.TitleCaseWords | script.js:249-253 | splitting the title-cased city gives the capitalized words of the lower-cased city |
| City.TitleCaseLower | script.js:249-253 | lower-casing the title-cased city gives the lower-cased city with every whitespace run collapsed to one space, so title-casing changes only letter case and whitespace runs |
| City.TitleCaseIdempotent | script.js:249-253 | title-casing a title-cased city changes nothing |
| City.TitleCaseNonEmpty | script.js:249-253 | a non-empty city never title-cases to "" |
| City.AccentedAlias | script.js:240-247 | "CANCÚN" shows as "Cancun" |
| City.PlayaDelCarmen | script.js:235-255 | "playa del carmen" with no country shows as "Playa Del Carmen" |
| City.NoCity | script.js:236-238 | no city shows the country, and no country "Cancun" |
| City.SpacedAliasIsNotAlias | script.js:240-246 | an alias with a doubled inner space is not recognised |
| Rating.DecideRating | script.js:185-220 | no category gives no rating; `showIcon` truthy with a positive integer `number` gives that many stars; otherwise a label exactly when the name is non-empty, carrying the name |
| Rating.CreateRating | script.js:185-220 | the container is returned exactly when the decision is not "no rating"; a star group has the label "<n> estrellas" and n star icons; a text label carries the name |
| Rating.WhitespaceNameKeepsLabel | script.js:213-220 | a whitespace-only name still gives a label |
| Rating.NoStarsNoName | script.js:193-220 | a zero, negative or fractional number with no name gives no rating |
| Carousel.Advance | script.js:160-161 | one press moves the cursor one place forward or back, wrapping at both ends |
| Carousel.PrevAfterNext | script.js:169-170 | "previous" undoes "next" |
| Carousel.NextAfterPrev | script.js:169-170 | "next" undoes "previous" |
| Carousel.RepeatNext | script.js:160-170 | k presses of "next" move the cursor k places forward, modulo the gallery size |
| Carousel.RepeatPrev | script.js:160-170 | k presses of "previous" move the cursor k places back, modulo the gallery size |
| Carousel.FullCycle | script.js:151-172 | pressing either button once per entry brings the cursor back |
| Carousel.Carousel.constructor | script.js:151-153 | the cursor starts at 0 and the image keeps its source |
| Carousel.Carousel.Move | script.js:155-163 | the cursor advances by the step and the image shows the entry under it |
| Carousel.Carousel.Next | script.js:170 | "next" advances the cursor by one and shows that entry |
| Carousel.Carousel.Prev | script.js:169 | "previous" moves the cursor back by one and shows that entry |
| Carousel.PressNext | script.js:160-170 | k presses of "next" leave the cursor k places on, showing its entry |
| Carousel.FullTurn | script.js:151-172 | a full turn restores the cursor, and the image whenever it showed the cursor's entry |
| Carousel.BackAndForth | script.js:169-170 | "previous" then "next", or the reverse, restores cursor and image |
| Cards.BuildCard | script.js:66-149 | a card is built exactly for object entries; its title is the name, or "Hotel sin nombre" without one; its discount is `obtenerDescuento` of the id and its badge that discount's text; its gallery is the filtered gallery and its image the primary image of that gallery; navigation is hidden exactly with at most one image; its rating is the decision on the category; its city is `formatearCiudad` of city and country; its description is the text truncated to 190 characters |
| Cards.CardGuarantees | script.js:66-149 | every card has a non-empty title and city, an image from its gallery or the placeholder, a description of at most 193 characters, a discount in 10..60 or NaN, and a badge reading "<n>% Descuento" or "NaN% Descuento" |
| Cards.AttachCarousel | script.js:111-116 | a carousel is attached exactly when the gallery has more than one image; it starts at entry 0 showing the card's image |
| Cards.CarouselStartsOnImage | script.js:75-78 | the first image shown is the carousel's entry 0 exactly when that entry is not blank |
| Cards.BlankFirstGallery | script.js:75-77 | [{uri:"  "}, {uri:"x.jpg"}] keeps both entries |
| Cards.BlankFirstEntryNotRestored | script.js:151-172 | with that gallery the card shows "x.jpg", yet a full turn of "next" lands on "  " |
| Fetcher.FetchHotels | script.js:55-64 | the fetch fails exactly on a network failure, a non-ok status or a malformed body; a non-ok status fails with "Solicitud fallida con estado <status>"; an ok non-array body gives no hotels; an ok array gives its entries |
| Fetcher.HttpErrorCarriesStatus | script.js:59 | the status reads back from the error message |
| Fetcher.HttpErrorDistinguishesStatus | script.js:59 | different statuses give different messages |
| Page.StatusRegion.Show | script.js:267-270 | `updateStatus` sets the text and clears the hidden class |
| Page.StatusRegion.Hide | script.js:272-275 | `ocultarStatus` empties the text and sets the hidden class |
| Page.Collect | script.js:32-38 | the `forEach` never yields more cards than entries |
| Page.CollectCount | script.js:33-38 | with a builder that makes a card exactly for objects, one card per object entry |
| Page.CollectFrom | script.js:33-38 | every card in the fragment is the card of some entry, built with that entry's draw |
| Page.CollectAllRecords | script.js:33-38 | when every entry is an object, card i is the card of entry i |
| Page.CollectStep | script.js:33-38 | each iteration appends what its entry adds and nothing else |
| Page.CollectAppend | script.js:33-38 | collecting a + b is collecting a, then b with the draws continuing after a |
| Page.BuildCardsAllRecords | script.js:33-38 | when every entry is an object there is one card per entry, and card i is `crearTarjetaHotel` of entry i |
| Page.BuildCardsAppend | script.js:33-38 | the cards of a + b are the cards of a followed by those of b, b's draws continuing after a's |
| Page.BuildCards | script.js:32-38 | the fragment holds one card per object entry, never more cards than entries, each built from an entry with that entry's draw |
| Page.BuildFragment | script.js:32-38 | the `forEach` loop leaves exactly the fragment the render pass specifies: one card per object entry, in order |
| Page.CountRecordsBound | script.js:33-38 | the number of cards equals the number of entries exactly when every entry is an object |
| Page.Loading | script.js:22 | after the guard the loading message shows and nothing else changes |
| Page.RenderPass | script.js:13-53 | without a grid or status nothing changes; a failure shows the retry message and keeps grid and label; an empty or non-array result shows "no hotels" and keeps grid and label; a non-empty result replaces the grid with the built cards, sets an existing label to "<n> resultados" and hides the status |
| Page.NotArrayIsEmpty | script.js:13-64 | a non-array body renders exactly like an empty array |
| Page.HttpFailureKeepsGrid | script.js:46-60 | a failing status keeps grid and label and shows the retry message, whatever the body |
| Page.RenderedCounts | script.js:27-42 | the label's number is the number of entries, and the grid holds one card per object entry |
| Page.ResultsTextParses | script.js:29 | "<n> resultados" ends in " resultados" and its leading digits read back as n |
| Page.TwoRecords | script.js:27-42 | two records give two cards, "2 resultados" and a hidden, empty status |
| Page.OnlySkippedEntries | script.js:27-42 | a non-empty array of non-objects still empties the grid and hides the status |
| Page.LoadHotels | script.js:13-53 | running `cargarHoteles` on the page elements leaves them in the state the render pass gives |

## Left out

- The network request, `async`/`await`, and JSON parsing are left out. A `Response` value stands for what they produce.
- `Math.random` is left out. Each card's rounded divisor is a parameter.
- `console.error` is left out because it has no visible effect on the page.
- The `DOMContentLoaded` listener and the `querySelector` lookups are left out. The page elements are passed in, with `null` for a missing one.
- DOM structure is left out: class names, roles, aria attributes other than the star label, `alt` text, `loading`, the button glyphs, and the order of children. A card is reduced to the values it displays.
- Event listeners are left out. The carousel's `Next` and `Prev` stand for the two click handlers.
- Js.Round: numbers are exact reals, so IEEE-754 rounding and precision loss for very large ids are not modelled.
- Text.Lower: case mapping covers ASCII and Ú/ú only. Multi-character case mappings and full Unicode are not modelled.
- Text.Trim: whitespace is space, tab, line feed, vertical tab, form feed and carriage return. The other Unicode space characters that `trim` and `\s` also match are not modelled.
- Formatters.Truncate: lengths count characters, not UTF-16 code units, so characters outside the Basic Multilingual Plane are measured differently.
- Page.RenderPass: text fields are strings in the model, so a truthy non-string value is not modelled. For `name`, `country` and `category.name` the script would print the value as text. A non-string `description` throws at `valor.slice` or `.trim()` (script.js:228-232), except an array of at most 190 elements, which is returned and printed. A non-string `city` throws at `ciudad.trim()` (script.js:240). The throw reaches the catch (script.js:46-51): the retry message shows and the grid keeps its old cards, but the label already reads "<n> resultados" (script.js:28-30). RenderPass's clause that a failure keeps the label does not cover this case.
