# Casa Chapala menu and ordering: a Dafny model

This project models the logic of the restaurant menu page's script `app_1.js`. It has three
parts:

- **The cart store.** The global `cart` is a sequence of lines `{id, name, price, category,
  quantity, notes}`. `addToCart` merges an item into the line with the same name and notes,
  or appends it. `removeFromCart` filters by id. `updateQuantity` sets a quantity, or removes
  the line when the new quantity is not positive. `updateNotes` edits the notes without
  re-merging. `calculateTotals` gives the subtotal, the 8.25% tax and the total, and the
  badge count is the sum of the quantities (`cart.dfy`, module `Cart`).
- **The order flow.** The page's mutable state is the class `Ordering.Session`: the cart,
  the order counter starting at 1000, whether the summary dialog is open, the order shown in
  the confirmation dialog, and the order form. Its methods are the buttons:
  - show the summary (refused for an empty cart);
  - place the order (trimmed name checked first, then trimmed phone; the counter is
    post-incremented);
  - close the confirmation (the cart stays);
  - start a new order, which resets the cart and the form (`ordering.dfy`).
- **Search and highlight.** The search box's input handler lower-cases and trims the query.
  - A blank query shows every item and strips the marks.
  - Otherwise it shows the items whose heading or description contains the query, counts
    them, re-highlights the matching fields and hides the sections left empty
    (`search.dfy`, module `MenuSearch`).
  - `highlightSearchTerm` escapes the term's regular-expression metacharacters and wraps
    every case-insensitive occurrence in `<mark>` (`highlight.dfy`, module `Highlight`).
  - A highlighted element is a sequence of plain and marked spans. `textContent` and
    `innerHTML` are functions of those spans.

The shared string operations are in `text.dfy`:
- `String.prototype.trim` with the ECMAScript white-space set;
- `toLowerCase` on ASCII letters;
- `includes`.

`wrappers.dfy` holds the `Option` type.

Where the source updates state in place, the model does too:
- the cart, the counter and the dialogs are fields of `Session`, reassigned by its methods;
- the search handler's loop runs over an `array` of item views with its `totalVisible` and
  `hasResults` counters.

Each method is proved against a pure function on values (`AddItem`, `WithoutId`,
`SetQuantity`, `SetNotes`, `PlaceOrder`, `SearchViews`, `CountMatches`), and the lemmas state
what the source promises about those functions.

The search handler is modelled as it is written: `SearchViews` applies
`MenuSearch.ApplyTermAsWritten`, which re-highlights only the matching fields of a shown item
and leaves its other field as it was. The corrected per-item update, which rebuilds every
field from its original text, is `MenuSearch.ApplyTerm`; it is proved separately and listed
under "## Findings".

The tax and the total are exact products of the subtotal; only the display rounds them, with
`toFixed(2)` (app_1.js:172-175). The model keeps them unrounded (`Cart.CalculateTotals`,
`Cart.TotalsExample`).

## Model

| member | source | states |
|---|---|---|
| Cart.FindIndex | app_1.js:96-98 | `findIndex`: the result is -1 exactly when no element satisfies the test; otherwise the element there satisfies it and none before it does |
| Cart.AddItem | app_1.js:94-106 | with no line of equal name and notes, the item is appended after the unchanged lines; otherwise only the first such line changes, gaining one unit and keeping its own id, price and category |
| Cart.WithoutId | app_1.js:113-114 | no remaining line has the id; every line with another id is kept as many times as it occurred, in the original relative order; an absent id leaves the cart unchanged |
| Cart.SetQuantity | app_1.js:123-134 | absent id: no change; present id and quantity <= 0: the same cart as removal by that id; otherwise only the first line with the id changes, and only its quantity |
| Cart.SetNotes | app_1.js:137-143 | absent id: no change; otherwise only the notes of the first line with the id change, with no merge |
| Cart.CalculateTotals | app_1.js:146-156 | the subtotal is the sum of price times quantity over the lines; the total is exactly 1.0825 times the subtotal and exceeds it by exactly the tax |
| Cart.Subtotal | app_1.js:147 | the reduce over line costs none of which is negative is not negative |
| Cart.ItemCount | app_1.js:167 | the badge count of a cart whose quantities are all at least one is at least its number of lines |
| Cart.TotalsNonNegative | app_1.js:146-156 | for non-negative prices and positive quantities the subtotal and tax are non-negative and neither exceeds the total |
| Cart.SubtotalNonNegative | app_1.js:147 | with non-negative prices and positive quantities the subtotal is non-negative and at least the cost of each single line |
| Cart.SumsAppend | app_1.js:146-167 | the subtotal and the item count of two carts put end to end are the sums of their subtotals and counts |
| Cart.SumsReplace | app_1.js:130 | replacing one line changes the subtotal and the item count by exactly the difference between the old and new line |
| Cart.AddItemSums | app_1.js:94-106 | a merging add raises the count by one and the subtotal by the existing line's price; an appending add raises them by the item's quantity and cost |
| Cart.AddItemKeepsKeysDistinct | app_1.js:94-106 | adding keeps every (name, notes) pair on at most one line |
| Cart.RemovalKeepsKeysDistinct | app_1.js:113-134 | removal and quantity edits keep every (name, notes) pair on at most one line |
| Cart.SetNotesMayDuplicateKeys | app_1.js:137-143 | a notes edit can leave two lines with equal name and notes, starting from a cart where no two lines share them |
| Cart.RemovalKeepsQuantitiesPositive | app_1.js:113-114 | removal keeps every quantity at least one |
| Cart.SetQuantityKeepsQuantitiesPositive | app_1.js:123-134 | a quantity edit keeps every quantity at least one, because a non-positive quantity removes the line |
| Cart.SetNotesKeepsQuantitiesPositive | app_1.js:137-143 | a notes edit keeps every quantity at least one |
| Cart.AddItemKeepsQuantitiesPositive | app_1.js:94-106 | adding an item of positive quantity keeps every quantity at least one |
| Cart.AddSameKeyRepeatedly | app_1.js:94-106 | n items of one (name, notes), each of quantity one, added to a cart without that key leave exactly one line with the key: the first item with quantity n, after the unchanged earlier lines |
| Cart.TotalsExample | app_1.js:146-156 | one line at 10.00 and two at 5.50 give subtotal 21.00, tax 1.7325 and total 22.7325, none of them rounded |
| Ordering.PlaceOrder | app_1.js:348-380 | the order is refused for a missing name exactly when the trimmed name is empty; for a missing phone exactly when the name is present and the trimmed phone is empty; otherwise it carries the given number, the trimmed fields, the checked order type or pickup, and the cart's unrounded total |
| Ordering.Session.constructor | app_1.js:4-5 | page load: empty cart, counter at 1000, no dialog open |
| Ordering.Session.EditForm | app_1.js:350-353 | the form holds what the visitor entered; nothing else changes |
| Ordering.Session.AddToCart | app_1.js:94-106 | the cart becomes `AddItem` of the old cart; counter, form and dialogs unchanged |
| Ordering.Session.RemoveFromCart | app_1.js:113-114 | the cart becomes `WithoutId` of the old cart; nothing else changes |
| Ordering.Session.UpdateQuantity | app_1.js:123-134 | the cart becomes `SetQuantity` of the old cart, with the removal path going through `RemoveFromCart`; nothing else changes |
| Ordering.Session.UpdateNotes | app_1.js:137-143 | the cart becomes `SetNotes` of the old cart; nothing else changes |
| Ordering.Session.ShowOrderSummary | app_1.js:247-259 | an empty cart is refused and nothing changes; otherwise the summary opens showing the cart's totals |
| Ordering.Session.HandlePlaceOrder | app_1.js:348-384 | the outcome is `PlaceOrder` of the form, the cart and the counter's old value; a refusal changes nothing; success increments the counter, closes the summary and shows the order; the cart is kept and the counter invariant (at least 1000, above every shown order number) is preserved |
| Ordering.Session.ResetOrder | app_1.js:411-427 | the cart is empty and the form is cleared with pickup selected; counter and dialogs unchanged |
| Ordering.Session.CloseConfirmation | app_1.js:315-319 | the confirmation closes and the cart, counter and form are left as they were |
| Ordering.Session.StartNewOrder | app_1.js:321-326 | the confirmation closes and the order is reset |
| Ordering.OrderNumbersIncrease | app_1.js:369 | two orders placed one after the other get strictly increasing numbers, the first at least 1000, the second one below the counter |
| Text.Trim | app_1.js:572 | `trim`: the result is empty exactly when the input is all white space; otherwise it starts and ends with a non-space character, and every character it holds comes from the input |
| Text.LowerTrimIsLower | app_1.js:572 | the normalised query is unchanged by lower-casing and is empty exactly when the input is all white space |
| Text.Contains | app_1.js:623-624 | `includes` holds exactly when the query occurs at some index of the text, so it always holds for the empty query |
| Highlight.Escape | app_1.js:834 | the escaped term is at least as long as the term and at most twice as long, and a term without metacharacters is left unchanged |
| Highlight.Marked | app_1.js:835-836 | the replace yields no spans exactly for the empty text, and never more spans than the text has characters |
| Highlight.EscapeIsLiteral | app_1.js:834-835 | the escaped term, read as a pattern, denotes exactly the term's own characters, metacharacters included |
| Highlight.SameIgnoringCaseIsLowerEqual | app_1.js:835 | the `i` flag's comparison holds exactly when the two strings have equal length and equal lower-cased forms |
| Highlight.HighlightSearchTerm | app_1.js:830-837 | the text content of the result is the input text; a blank term returns the text unchanged and unmarked |
| Highlight.MarkedKeepsText | app_1.js:836 | dropping the inserted `<mark>` elements from the global replace gives back the input text |
| Highlight.MarkedSpansAt | app_1.js:835-836 | each marked span starts where a case-insensitive match starts, at the offset of the text before it, and holds the text's own letters; each plain span is a single character at which no match starts |
| Highlight.MarkedHasMarkIff | app_1.js:835-836 | the replace inserts a mark exactly when the term occurs somewhere in the text, ignoring case |
| Highlight.RenderWithoutMarks | app_1.js:831 | highlighted text without marks renders as its text content |
| MenuSearch.ClearMarks | app_1.js:590-595 | the result keeps the text content and holds no mark; unmarked content is left untouched |
| MenuSearch.SearchTerm | app_1.js:572 | the normalised query is lower case, empty exactly when the input is all white space, and otherwise starts and ends with a non-space character |
| MenuSearch.ApplyTermAsWritten | app_1.js:627-653 | the loop body as written for one item: it is hidden exactly when neither field matches and emphasised exactly when shown; both fields keep their text content; a matching field shows the highlighting of its text; a shown item's non-matching field is left exactly as it was, earlier marks included; a hidden item holds no mark |
| MenuSearch.SectionDisplay | app_1.js:659-666 | one display flag per section: every section shows for a blank term; otherwise a section shows exactly when one of its items is not hidden |
| MenuSearch.OnSearchInput | app_1.js:571-673 | the handler's term is the lower-cased, trimmed input; every item is updated by `SearchViews`, which applies the loop body as written; a blank term reports zero and no "no results" message; otherwise the count is the number of matching items and "no results" shows exactly when it is zero; sections are displayed by `SectionDisplay` |
| MenuSearch.ShowEveryItem | app_1.js:584-596 | every item is shown, not emphasised, and stripped of marks |
| MenuSearch.FilterItems | app_1.js:607-654 | after the loop every item is as `SearchViews` gives it (the loop body as written), the count equals `CountMatches` of the original items, and `hasResults` holds exactly when the count is positive |
| MenuSearch.FilterOne | app_1.js:609-653 | one item of the loop: it is reported matching exactly when its heading or description contains the term, and comes out as `ApplyTermAsWritten` gives it, a non-matching field of a shown item left as it was |
| MenuSearch.FieldMatchIsMarked | app_1.js:623-640 | for a normalised, non-blank query, a field matches exactly when highlighting its original text inserts a mark |
| MenuSearch.CountMatchesIsShown | app_1.js:631 | the count the handler as written reports equals the number of items it leaves visible |
| MenuSearch.RenderClearMarks | app_1.js:647-652 | after the marks are stripped, the element's markup is its plain text |
| MenuSearch.ApplyTermShowsOriginal | app_1.js:627-653 | with the intended update an item is hidden exactly when neither field matches; each field keeps its text and shows the highlighting of its original text if it matches, its plain text otherwise |
| MenuSearch.AsWrittenKeepsStaleMarks | app_1.js:634-641 | as written, a shown item's non-matching field keeps the marks of the previous query: "Ab"/"c" searched for "a" then "c" still shows `<mark>A</mark>b`, while "c" alone shows "Ab" |
| MenuSearch.SearchIdempotent | app_1.js:634-640 | running the handler as written twice with the same query leaves the page as running it once |
| MenuSearch.ApplyTermAsWrittenTwice | app_1.js:627-653 | the loop body as written, applied twice to one item with the same term, gives the item it gives once |
| MenuSearch.BlankQueryRestores | app_1.js:584-600 | an all-white-space query gives the empty term and shows every item and section, each field rendering its original, unmarked text |
| MenuSearch.SectionHiddenIffNoMatch | app_1.js:659-666 | after the handler as written runs a non-blank query, a section is hidden exactly when none of its items matched |

## Left out

- DOM rendering is not modelled: the cart panel's HTML, the confirmation text, showing and hiding the cart, the results counter and the "no results" element. The handler returns the values these would show.
- The summary dialog's close button (`modal-close`), its back button, its backdrop and the Escape key only hide dialogs and are not modelled. Of the controls that only close dialogs, only the confirmation dialog's two buttons are modelled.
- The visual feedback after adding an item is not modelled; it is a timer-driven style change.
- `generateItemId` is not modelled, because it reads the clock. Ids are opaque strings passed in with the item.
- `parseFloat`, `toFixed(2)` and IEEE floating point are not modelled. Prices and totals are exact `real`s and quantities are unbounded integers.
- `toLowerCase` and the regular expression's `i` flag fold only the ASCII letters A-Z. Other Unicode case mappings are not modelled.
- The regular-expression engine is not modelled. `Highlight.Marked` scans for the literal term instead, and `Highlight.EscapeIsLiteral` shows that the escaped pattern denotes exactly that literal.
- `Highlight.Render` does not escape `<`, `>` or `&`. It models `innerHTML` only for text that holds no HTML markup characters. The model assumes that the menu's headings and descriptions hold none; index.html, where they are written, is not part of this model.
- Items without a heading or description element are not modelled separately; the model treats them as fields with empty text.
- Sections are given as lists of item indices. The model does not require each item to belong to exactly one section.
- index.html is not part of this model. The form's state at page load is taken to be the cleared form with pickup checked, and the order-type radio values are taken to be `pickup` and `delivery` (the `Ordering.Fulfilment` datatype).
- server.js is not part of this model. It only serves static files.
- Text.Trim: its contract does not state that the result is the contiguous slice of the input between the leading and trailing white space. `Text.TrimStartStrips` and `Text.TrimEndStrips` state that for the two halves.

## Findings

| source | as written | input that shows it | evidently intended | confidence | as-written member | corrected member |
|---|---|---|---|---|---|---|
| app_1.js:634-641 | a matching item re-highlights only its matching fields, so its other field keeps whatever marks the previous query left | heading "Ab", description "c": the query "a", then "c", leaves `<mark>A</mark>b` in the heading, while "c" alone shows "Ab" | each field of a shown item is rebuilt from its original text: highlighted if it matches, plain otherwise, as the hidden-item branch (app_1.js:646-652) does | medium; not executed | MenuSearch.AsWrittenKeepsStaleMarks | MenuSearch.ApplyTermShowsOriginal |
