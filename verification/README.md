# Portfolio site UI core in Dafny

This project models the client-side controller of a single-page portfolio
site. The site fetches three static JSON collections: settings with reviews,
projects and products. It renders them into a fixed page and toggles which
"screen" is shown: landing, style selection, projects by style, store or
portfolio. It also toggles four overlays: the project modal, the product
modal, the contact dialog and the image lightbox.

The DOM is replaced by an explicit, immutable application state (`App.AppState`).
Each click, key press or scroll the page listens for that changes the page
is an `App.Action`, and `App.Dispatch` is the state transition its handler
performs; the copy button and the purchase button only call into the browser
and have no action (see "## Left out"). A rendered
container is a list of nodes. Each node is either the container's
empty-state message or a card, and a card is a record of the values it
displays, not HTML.

Modules, one per component:

- `Screens`: the screen selector (`switchScreen`).
- `Lightbox`: the image carousel with wrap-around stepping and JavaScript's
  remainder operator.
- `Faq`: the accordion, which keeps at most one item open.
- `NavSync`: nav-link highlighting on scroll and on click.
- `Content`: the data records, the style filter with the `"all"` sentinel,
  empty states, titles, price labels, the image counter and the review slider.
- `App`: loading defaults, overlays, the keyboard handler and the dispatch table.
- `Text`: decimal rendering of numbers (with its inverse), capitalisation and
  character repetition.
- `Options`: optional values for absent JSON fields.

## Behaviour of the code worth knowing

- Switching to an unknown screen name deactivates every screen first, so
  none stays active, while the current screen name keeps its old value
  (`script.js:85-96`).
- When the settings fail to load, the fallback is `{badges: []}`, with no
  `reviews` field. The review slider is then left as it was
  (`script.js:147`, `script.js:153`).
- Escape closes the lightbox, the project modal and the product modal, all in
  one keystroke. It never closes the contact dialog (`script.js:540-554`).
- The three fetches are awaited one after another (`script.js:14-16`), and
  each one falls back on its own.
- A product whose `price` is absent shows `$undefined`.
- Every project card on the portfolio screen is built non-clickable
  (`script.js:208`). Items on the projects-by-style screen have no click
  handler. So no handler in the page opens the project modal. `OpenProject`
  is kept as an action that models `openProjectModal` itself.
- When no section covers the scroll position, the current id is `""`.
  A nav link whose `href` is the bare `#` is then marked along with `#home`
  (`NavSync.BareFragmentMarkedWhenNothingCovered`).

## Model

| member | source | states |
|---|---|---|
| `Text.NatToString` | script.js:327 | The decimal form of a count: non-empty, digits only, no leading zero for a positive number |
| `Text.DecimalRoundTrip` | script.js:327 | Reading back the rendered digits of a number gives the number |
| `Text.NatToStringInjective` | script.js:327 | Different counts render as different strings |
| `Text.IntToString` | script.js:265 | The string form of an integer price below 10^21 in magnitude: a leading `-` exactly for negative values, then the magnitude's decimal form with no leading zero, which reads back as the magnitude |
| `Text.Repeat` | script.js:160 | `c.repeat(n)` has length n and every character is c |
| `Text.UpperAscii` | script.js:109 | Maps a lower-case ASCII letter to its upper-case letter (code point minus 32) and leaves every other character unchanged |
| `Text.Capitalize` | script.js:109 | Same length as the input; only the first character is upper-cased, the rest is kept; the empty string stays empty |
| `Screens.Lookup` | script.js:91 | The element found is the first one in document order with the id; there is none exactly when no element has that id |
| `Screens.Deactivate` | script.js:88-89 | Clearing the markers keeps every screen in place and leaves none active |
| `Screens.DeactivateForgetsMarkers` | script.js:88-89 | Two screen lists with the same elements are identical once cleared, whatever their markers were |
| `Screens.SwitchScreen` | script.js:85-96 | Scroll goes to the top. For an existing screen, exactly one screen is active (the first with id name+"-screen") and it becomes the current one. For an unknown name, no screen is active and the current name is unchanged. At most one screen is active either way |
| `Screens.SwitchScreenForgetsHistory` | script.js:85-96 | The markers after a switch do not depend on the switch before it |
| `Screens.SwitchScreenTwice` | script.js:85-96 | Switching to X and then to an existing Y leaves exactly one active screen, Y, which is the current one |
| `Screens.SwitchScreenIdempotent` | script.js:85-96 | Switching to the same screen twice equals switching once |
| `Lightbox.JsRem` | script.js:379 | JavaScript's remainder for a positive divisor: in [0, n) for a non-negative dividend and in (-n, 0] for a negative one; below 2n it needs at most one subtraction |
| `Lightbox.JsRemIsRemainder` | script.js:379 | For a non-negative dividend, JavaScript's remainder equals the mathematical remainder |
| `Lightbox.JsRemIsOdd` | script.js:387 | Negating the dividend negates JavaScript's remainder, which truncates towards zero |
| `Lightbox.Open` | script.js:355-357 | Opening keeps the given list and the start index as given; a valid start index shows that image |
| `Lightbox.Next` | script.js:377-383 | The list is unchanged. An empty list leaves everything unchanged. A valid index stays valid, moving to index + 1 or wrapping from the last image to 0 |
| `Lightbox.Prev` | script.js:385-391 | The list is unchanged. An empty list leaves everything unchanged. A valid index stays valid, moving to index - 1 or wrapping from 0 to n - 1 |
| `Lightbox.PrevUndoesNext` | script.js:377-391 | For a valid carousel, previous after next and next after previous both restore it |
| `Lightbox.AdvanceAdds` | script.js:377-383 | Pressing next a times and then b times equals pressing it a + b times |
| `Lightbox.AdvanceUpToWrap` | script.js:377-383 | Up to the end of the list, k presses of next move the index by exactly k; the press past the last image lands on index 0 |
| `Lightbox.AdvanceFullCycle` | script.js:377-383 | n presses of next on a list of n images return to the starting index; with no images nothing moves |
| `Faq.Toggle` | script.js:627-637 | After a toggle at most one item is open. Toggling a closed item makes it the only open one. Toggling an open item closes all |
| `Faq.ToggleTwice` | script.js:627-637 | Toggling a closed item twice closes everything; toggling an open item twice leaves just it open |
| `Faq.ToggleSwitchesItem` | script.js:627-637 | With item j the only one open, toggling another item k leaves just k open |
| `NavSync.LastCovering` | script.js:587-594 | There is no result exactly when no section covers the scroll position; otherwise the result is a covering section with no covering section after it |
| `NavSync.CurrentSection` | script.js:585-594 | The scroll handler's loop over the sections computes the last covering section's id, or "" when none covers the position |
| `NavSync.SyncOnScroll` | script.js:596-609 | Scroll sync keeps the same links with the same hrefs; which links get marked is stated by the three lemmas below |
| `NavSync.NothingCoveredMarksHome` | script.js:603-609 | With no section covering the position and no bare `#` link, exactly the `#home` links are marked |
| `NavSync.BareFragmentMarkedWhenNothingCovered` | script.js:596-609 | With no section covering the position, exactly the links to `#home` and to the bare `#` are marked |
| `NavSync.CoveredMarksLastSection` | script.js:587-609 | With a covering section, exactly the links to `#` followed by the last covering section's id are marked, plus the `#home` links when that id is empty |
| `NavSync.ClickLink` | script.js:564-565 | A click marks the clicked link alone and keeps every href |
| `Content.RenderList` | script.js:200-210 | An empty list renders as the single empty-state message; otherwise there is one card per item, in order |
| `Content.RenderListShape` | script.js:200-210 | An empty list yields exactly one message and no cards; a non-empty list yields no message and exactly the items' cards, in order |
| `Content.SameStyle` | script.js:106 | The kept projects all have the style and come from the input; every project with the style is kept |
| `Content.SameStyleAppend` | script.js:106 | Filtering distributes over concatenation, so the kept projects stay in their original relative order |
| `Content.SameStyleKeepsMatching` | script.js:106 | A list whose projects all have the style is returned whole |
| `Content.FilterByStyle` | script.js:104-107 | `"all"` returns the list unchanged. Any other style returns only input projects of that style and includes every one of them |
| `Content.StyleTitle` | script.js:109-110 | The title starts with the capitalised style, followed by " Projects" for `"all"` and " Style Examples" for any other style |
| `Content.AllTitleIsDistinct` | script.js:109-110 | The title for `"all"` is "All Projects", and no other style gets that title |
| `Content.ProjectPriceText` | script.js:132 | A project item shows its price when it is present and non-empty, and "Contact for price" otherwise |
| `Content.StyleList` | script.js:98-137 | The empty-state message alone appears exactly when the filter keeps nothing. Otherwise there is one item per kept project, in order, showing its title, description, thumbnail and price text |
| `Content.StyleListTitlesFromProjects` | script.js:104-137 | Every card in the list carries the title of some loaded project |
| `Content.ModernExample` | script.js:104-137 | For projects A (modern) and B (classic), choosing "modern" shows one card, titled "A" |
| `Content.PortfolioGrid` | script.js:196-233 | The empty-state message appears exactly for an empty list. Otherwise there is one card per project, in order, with its index, type, description, thumbnail and title, and not clickable |
| `Content.PriceBadge` | script.js:263-265 | A price badge reads "FREE" with the `free` class for price 0 or "free", and "$" followed by the price with the `paid` class otherwise |
| `Content.PriceLabelsAgree` | script.js:404-410 | The card shows "FREE" exactly for the free prices. The card and the modal always show the same text and both mark the same prices as free |
| `Content.PriceExamples` | script.js:263-265 | Price 0 shows "FREE", price 25 shows "$25", and the string "0" shows "$0" |
| `Content.ProductGrid` | script.js:256-298 | The empty-state message appears exactly for an empty list. Otherwise there is one card per product, in order, with its name, description, image and price badge |
| `Content.ProjectModalPriceLine` | script.js:317 | The modal has a price line exactly when the project's price is present and non-empty |
| `Content.ProjectPricesAgree` | script.js:317 | The modal's price line quotes the item's price text; when the line is missing, the item shows "Contact for price" |
| `Content.ImageCounter` | script.js:327 | One image reads "1 image"; any other count n reads n's digits followed by " images", including 0 |
| `Content.ImageCounterRoundTrip` | script.js:327 | The leading digits of the counter read back as the image count |
| `Content.ImageCounterExamples` | script.js:327 | 3 images read "3 images", 1 reads "1 image" and 0 reads "0 images" |
| `Content.StarString` | script.js:160 | A rating of n is n star characters |
| `Content.ReviewCards` | script.js:159-171 | One review card per review, in order |
| `Content.RenderReviews` | script.js:151-172 | Without a `reviews` field the slider is left as it was. Otherwise it holds 2n cards, and cards i and n + i both show review i |
| `Content.ReviewSliderHalvesMatch` | script.js:156 | The second half of the slider repeats the first |
| `App.LoadSettings` | script.js:140-149 | Loaded settings are taken as is; a failed load gives no badges and no `reviews` field |
| `App.LoadList` | script.js:174-194 | A loaded collection is taken as is; a failed load gives the empty list |
| `App.FailedSettingsKeepReviews` | script.js:147-153 | After a failed settings load, rendering the reviews leaves the slider unchanged |
| `App.Init` | script.js:2-19 | The start state: the loaded settings and collections (with their fallbacks), the markup's screens, FAQ items and nav links, landing current, no style chosen, no overlay shown, an empty carousel at index 0, nav not wired; the invariant holds when the markup has at most one active screen and FAQ item |
| `App.SetShown` | script.js:351 | Showing or hiding one overlay leaves the other three as they were |
| `App.Close` | script.js:432-442 | Closing hides that overlay and changes nothing else |
| `App.OpenProjectModal` | script.js:300-353 | Shows the project modal alone. The modal gets the title, the description, the images, the image counter (singular for one image) and the price line, which is present exactly when the price is non-empty. Nothing else changes |
| `App.OpenProductModal` | script.js:393-430 | Shows the product modal alone. The modal gets the name, the modal price badge (same text as the card's), the image, the detailed description when it is non-empty (else the short one), and the purchase link when it is non-empty (else none) |
| `App.OpenLightbox` | script.js:355-369 | Shows the lightbox with the given list and start index; a valid start index shows that image; nothing else changes |
| `App.CloseUndoesOpenLightbox` | script.js:355-375 | Closing a lightbox that was hidden before it was opened restores every overlay and the rest of the state; only the carousel keeps the opened list and index |
| `App.KeyOf` | script.js:540-554 | Each `e.key` value has exactly one encoding: `ArrowRight`, `ArrowLeft` and `Escape` map to their own keys and every other name to `OtherKey` with that name, which can never be one of the three |
| `App.HandleKey` | script.js:540-554 | The arrows move the carousel only while the lightbox is shown and change no overlay. Escape hides the lightbox and both modals without moving the carousel. Other keys change nothing. The contact dialog is never touched |
| `App.ArrowsNeedLightbox` | script.js:540-545 | With the lightbox hidden, the arrow keys change nothing |
| `App.EscapeClosesLightboxAndModal` | script.js:540-548 | With the lightbox over the project modal, one Escape closes both and leaves the contact dialog as it was |
| `App.Dispatch` | script.js:451-554 | No action changes the loaded collections, and every action keeps the invariant. Only opening the contact dialog, its close button and a click on its backdrop change its visibility |
| `App.EnterStore` | script.js:37-40 | The store button switches to the store screen and renders every product into the store grid. Nothing else in the page, the overlays or the collections changes, and the invariant is kept |
| `App.EnterPortfolio` | script.js:44-50 | The past-work button switches to the portfolio screen, renders the reviews, the project grid and the project count, and wires up the nav links. Nothing else in the page, the overlays or the collections changes, and the invariant is kept |
| `App.ShowProjectsByStyle` | script.js:98-138 | Sets the style title and the filtered project list; nothing else changes |
| `App.ChooseStyleAction` | script.js:65-71 | A style button records the style, sets its title, renders the filtered list and switches to projects-by-style. Nothing else in the page changes, and the invariant is kept |
| `App.ProductClickNeedsStore` | script.js:278-297 | Before the store grid holds any card a product click does nothing; after the store button, clicking card k opens product k's modal |
| `App.ChooseStyleShowsStyle` | script.js:65-71 | Choosing a style records it, renders its projects and, when the projects-by-style screen exists, makes that screen (by its id) the one active screen |
| `App.RunPreservesWf` | script.js:21-83 | Any sequence of actions from a well-formed state reaches a well-formed state with the same projects and products |

## Left out

- Fetching, JSON parsing and error logging are I/O. Each fetch result is a
  given input (`Some` for a successful load, `None` for a failure).
- HTML strings, `innerHTML`, alt texts and the `onerror` placeholder images
  are rendering details. Cards are records of the values they display.
- The staggered entrance animations and the clipboard "Copied!" reset
  timer are timing only.
- `window.scrollTo` for smooth scrolling to a section on a nav-link click,
  and `document.body.style.overflow`, are browser side effects. Only the
  scroll reset in `switchScreen` is kept, as `scrollTop`.
- The purchase button's click handler (`script.js:422-426`) calls only
  `window.open`, a foreign call, so it has no action. The product modal
  records which link the button would open.
- The copy button's click handler (`script.js:479-489`) calls only
  `navigator.clipboard` and a reset timer, so it has no action.
- Event-listener registration is left out. Registering the nav handlers
  again on every visit to the portfolio screen has the same effect as
  registering them once, so it is modelled as the flag `navWired`.
- The initial markup is not modelled: the screens, FAQ items and nav
  links are parameters, and the containers start empty.
- `getElementById` returning an element that is not a `.screen` is not
  modelled; screens are looked up among the `.screen` elements only.
- Guards for missing DOM elements are not modelled; every container is
  assumed present.
- Number formatting of non-integer prices is not modelled: `Price.Amount`
  holds an integer.
- Text.IntToString: does not model JavaScript's exponent form for integers
  of magnitude 10^21 or more (`1e+21`), nor the loss of precision above
  2^53, because `Price.Amount` is an unbounded integer rendered digit by digit.
- `toUpperCase` of non-ASCII characters is not modelled: `Text.UpperAscii`
  maps only `a`-`z`.
- Negative or fractional star ratings are not modelled: JavaScript's
  `repeat` would throw or truncate, and `Review.stars` is a natural number.
- Badges are loaded but never rendered, so they are carried without behaviour.
- NavSync.SyncOnScroll: its own contract states only that the links and
  their hrefs are kept. The marking rule is stated by
  `NavSync.BareFragmentMarkedWhenNothingCovered` (with its special case
  `NavSync.NothingCoveredMarksHome`) and `NavSync.CoveredMarksLastSection`.
