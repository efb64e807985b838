# Print service core, modelled in Dafny

This project models the deterministic core of a self-service print shop's web
front end. There are five parts:

- **The price calculator** (`src/utils/printCalculations.js`). It parses a custom
  page range such as `1-3,5`. It turns the pages selected into sheets for a
  1-, 2- or 4-up layout. It prices the sheets at ₹2 each plus per-sheet
  surcharges for colour, quality and duplex. It then adds 18% tax.
- **The preview** (`src/components/PrintPreview.jsx`). Its layout places every
  source page on an N-up sheet, best-fit and centred. Its editor is a small
  state machine driven by the pointer: it holds page records, the active page,
  the view mode and a drag record. The editor moves and resizes pages by their
  corner handles, rotates the active page, reorders pages on the thumbnail grid
  of the sequence view, and steps between sheets with Prev and Next.
- **The upload gate** (`src/components/FileUpload.jsx`). It checks a file's size
  and type and estimates a PDF's page count. The estimate counts the matches
  of `/\/Type\s*\/Page[^s]/g` in the decoded text.
- **The UPI payment link** (`src/utils/qrGenerator.js`). It has the form
  `upi://pay?` followed by `application/x-www-form-urlencoded` parameters, as
  the WHATWG URL Standard, section 5.2, serializes them. It also models the
  guard that refuses to build a link without a UPI id.
- **The print-options form** (`src/components/PrintOptions.jsx`). This covers
  its defaults, its single-field update and `normalizeOptions`.

Modules:

| file | module | what it holds |
|---|---|---|
| `wrappers.dfy` | `Wrappers` | `Option` |
| `js_text.dfy` | `JsText` | the JavaScript string built-ins the core relies on: white space as ECMAScript defines it, `trim`, `split`, `parseInt`, `String(n)`, ASCII `toLowerCase`, `endsWith` |
| `print_options.dfy` | `PrintOptions` | the form record, `handleChange`, `Number()` on the form's strings, `normalizeOptions` |
| `print_calculations.dfy` | `PrintCalculations` | `parsePageRange` as a method with loops, proved against the set-valued `PageSet`; `calculatePrice` in whole paise |
| `preview_layout.dfy` | `PreviewLayout` | the geometry as pure functions: target boxes, best fit, handle hit tests, drag steps, rotation, the reorder splice, the thumbnail grid, navigation |
| `preview_editor.dfy` | `PreviewEditor` | page records as objects (`Page`), the editor state machine (`Editor`) and the render cache |
| `file_upload.dfy` | `FileUpload` | the guard chain of `handleFilesChange` and the regular-expression match counter |
| `form_urlencoded.dfy` | `FormUrlEncoded` | UTF-8, the form-urlencoded serializer, an inverse parser for it, and the round trip between them |
| `qr_generator.dfy` | `QrGenerator` | `buildUpiUri` and the guard of `generateUpiQrDataUrl` |

Units and representations:

- Money is in whole paise. Every per-sheet rate is a multiple of 50 paise, so
  the tax is exactly 9 paise per 50 paise of subtotal. Rounding to two decimals
  never changes a value, and `Tax` proves it.
- Canvas coordinates are Dafny `real`s.
- A string field of "" stands for an absent or falsy JavaScript value.

A custom range such as `abc,,` prices one page. `abc` reads as page 1, so
the selection `{1}` is not empty and there is no fallback to the whole
document. `UnparseableTokenIsPageOne` and `UnparseableRangePricesOnePage`
prove this behaviour.

## Model

| member | source | states |
|---|---|---|
| JsText.TrimStart | src/utils/printCalculations.js:6 | the result is a suffix of the input; everything dropped is white space; the result does not start with white space |
| JsText.TrimEnd | src/utils/printCalculations.js:6 | the result is a prefix of the input; everything dropped is white space; the result does not end with white space |
| JsText.Trim | src/utils/printCalculations.js:6-7 | the trimmed token neither starts nor ends with white space, and it is empty exactly when the token is all white space (the `if (!trimmed) continue` case) |
| JsText.TrimUnchanged | src/utils/printCalculations.js:6 | a text that neither starts nor ends with white space is its own trim |
| JsText.Split | src/utils/printCalculations.js:3 | `split(',')` always yields at least one part; it yields exactly one when the separator is absent; no part contains the separator |
| JsText.JoinSplit | src/utils/printCalculations.js:3 | joining the parts with the separator gives back the text, so splitting loses no character |
| JsText.SplitJoin | src/utils/printCalculations.js:3 | splitting a join of separator-free parts gives back those parts |
| JsText.ParseInt | src/utils/printCalculations.js:10-11 | `parseInt(s, 10)` is `NaN` exactly when no digit follows the leading white space and optional sign |
| JsText.OrDefault | src/utils/printCalculations.js:10-11 | `n \|\| d` keeps a non-zero number and gives `d` for `NaN` and 0 |
| JsText.NatToDecimal | src/utils/printCalculations.js:28 | `String(n)` is a non-empty run of digits with no leading zero |
| JsText.DecimalValueOfNat | src/utils/printCalculations.js:28 | the digits of `String(n)` have the value `n` |
| JsText.ParseIntOfDecimal | src/utils/printCalculations.js:28 | `parseInt(String(n), 10)` is `n`, so the default range text `1-N` names page N |
| JsText.LowerAscii | src/components/FileUpload.jsx:37 | lower-casing keeps the length and maps exactly the letters A–Z to a–z |
| PrintOptions.DefaultColorModeNotSelectable | src/components/PrintOptions.jsx:3-11 | the default colour mode `standard` is none of the three values the colour control offers |
| PrintOptions.HandleChange | src/components/PrintOptions.jsx:29-32 | the named field takes the new value and every other field keeps its old one |
| PrintOptions.HandleChangeOverwrites | src/components/PrintOptions.jsx:29-32 | setting a field twice keeps only the second value |
| PrintOptions.HandleChangeCommutes | src/components/PrintOptions.jsx:29-32 | updates of two different fields commute |
| PrintOptions.ToNumber | src/components/PrintOptions.jsx:18 | `Number` of a blank string is 0 |
| PrintOptions.ToNumberOfDecimal | src/components/PrintOptions.jsx:18 | `Number(String(n))` is `n` |
| PrintOptions.NormalizeOptions | src/components/PrintOptions.jsx:13-20 | `pagesPerSheet` becomes `Number(value)` when that is a non-zero number and 1 when it is 0 or `NaN`, so it is never 0; every other field is unchanged |
| PrintOptions.NormalizeSelectedPagesPerSheet | src/components/PrintOptions.jsx:61-64 | each value the pages-per-sheet control offers (1, 2, 4) comes through normalisation unchanged |
| PrintOptions.NormalizeDefaults | src/components/PrintOptions.jsx:3-20 | the default record normalises to one page per sheet |
| PrintCalculations.SpanStart | src/utils/printCalculations.js:10 | the first page of a span is at least 1; a missing, unparseable or zero start gives page 1; a positive start is kept |
| PrintCalculations.SpanEnd | src/utils/printCalculations.js:11 | the last page of a span is at most the page count; a missing, unparseable or zero end gives the page count; any other end is clamped to the page count |
| PrintCalculations.SinglePage | src/utils/printCalculations.js:14 | a single page is clamped into [1, totalPages]; an unparseable one is `min(totalPages, 1)` |
| PrintCalculations.Span | src/utils/printCalculations.js:12 | the counting loop adds exactly the integers from start to end, and nothing when the span is reversed |
| PrintCalculations.ParseToken | src/utils/printCalculations.js:6-15 | a token is blank exactly when its trim is empty, and a span exactly when its trim contains `-`; span ends and single pages are clamped |
| PrintCalculations.TokenPages | src/utils/printCalculations.js:6-16 | every page a token selects lies in [1, totalPages]; a blank token selects none |
| PrintCalculations.TokensPages | src/utils/printCalculations.js:5-17 | every page a list of tokens selects lies in [1, totalPages] |
| PrintCalculations.PageSet | src/utils/printCalculations.js:3-17 | every page a range text selects lies in [1, totalPages] |
| PrintCalculations.InsertSorted | src/utils/printCalculations.js:18 | inserting a new element keeps the list strictly ascending, adds exactly that element, and grows it by one |
| PrintCalculations.SortAscending | src/utils/printCalculations.js:18 | the sorted list is strictly ascending and holds exactly the elements of the set |
| PrintCalculations.AddSpan | src/utils/printCalculations.js:12 | the inner loop adds exactly the span's pages to the set |
| PrintCalculations.AddToken | src/utils/printCalculations.js:6-16 | one pass of the token loop adds exactly the token's pages |
| PrintCalculations.ParsePageRange | src/utils/printCalculations.js:1-19 | empty text gives `[1, totalPages]`; otherwise the result is strictly ascending (sorted, no duplicates) and holds exactly the pages the tokens select |
| PrintCalculations.IncreasingCardinality | src/utils/printCalculations.js:18 | a strictly ascending list is as long as the set of its elements |
| PrintCalculations.SpanCardinality | src/utils/printCalculations.js:12 | a span from `start` to `end` holds `end - start + 1` pages |
| PrintCalculations.ParsedLength | src/utils/printCalculations.js:32-33 | `selected.length` equals the number of pages selected |
| PrintCalculations.SafePages | src/utils/printCalculations.js:22 | the page count used is at least 1, and equals the given count when that is positive |
| PrintCalculations.RangeText | src/utils/printCalculations.js:28 | the text parsed is never empty; a non-empty range option is parsed as it is; an empty one stands for `1-N`, which selects exactly the pages 1 to N |
| PrintCalculations.ConsideredPages | src/utils/printCalculations.js:30-34 | at least one page is priced; outside custom mode, exactly the safe page count is priced; CustomModeCountsParsedList states the custom case |
| PrintCalculations.CustomModeCountsParsedList | src/utils/printCalculations.js:28-34 | in custom mode the priced page count is the length of the list the parser returns for the range text, or the safe page count when that list is empty, and the price breakdown reports that count |
| PrintCalculations.SheetDivisor | src/utils/printCalculations.js:25 | the sheet divisor is never 0 |
| PrintCalculations.CeilDiv | src/utils/printCalculations.js:36 | for a positive divisor, `q` is the least multiple count with `q·d ≥ n`, and it is at least 1 when `n ≥ 1` |
| PrintCalculations.SurchargePerSheet | src/utils/printCalculations.js:39-44 | the per-sheet surcharge is a multiple of 50 paise between −50 and 600 |
| PrintCalculations.OptionsAmount | src/utils/printCalculations.js:47 | the options amount is `max(0, sheets·surcharge)`, never negative, and a multiple of 50 paise |
| PrintCalculations.Tax | src/utils/printCalculations.js:49 | the tax is exactly 18% of the subtotal, with no rounding, and positive for a positive subtotal |
| PrintCalculations.MultiplesOfFifty | src/utils/printCalculations.js:46-48 | the subtotal is a multiple of 50 paise |
| PrintCalculations.PriceOfPages | src/utils/printCalculations.js:36-50 | sheets is the ceiling of pages over pages-per-sheet; base is ₹2 per sheet; options are `max(0, sheets·surcharge)`; tax is 18% of the subtotal; total is subtotal plus tax; all are positive for a positive layout |
| PrintCalculations.CalculatePrice | src/utils/printCalculations.js:21-60 | the breakdown is the price of the considered pages, and those lie between 1 and the safe page count |
| PrintCalculations.SheetsHoldConsideredPages | src/utils/printCalculations.js:36 | with positive pages-per-sheet there is at least one sheet, and the sheets are the fewest that hold every considered page |
| PrintCalculations.ConsideredPagesAtMostPageCount | src/utils/printCalculations.js:30-34 | a custom range never prices more pages than the document has |
| PrintCalculations.SingleTokenText | src/utils/printCalculations.js:3-5 | a range text without commas is a single token |
| PrintCalculations.TokensPagesSingleton | src/utils/printCalculations.js:5-17 | a one-token list selects that token's pages |
| PrintCalculations.TokensPagesBlank | src/utils/printCalculations.js:7 | a blank token adds no page |
| PrintCalculations.SplitDigitsAtDash | src/utils/printCalculations.js:9 | `a-b` of two digit strings splits at the dash into `a` and `b` |
| PrintCalculations.DigitsSpanToken | src/utils/printCalculations.js:8-12 | a token `a-b` of digit strings, either possibly empty, is the clamped span from `a` to `b` |
| PrintCalculations.DigitsSpanPages | src/utils/printCalculations.js:3-12 | a range text `a-b` of digit strings, either possibly empty, selects exactly the span from `SpanStart(a)` to `SpanEnd(b)` |
| PrintCalculations.OpenStartSpanPages | src/utils/printCalculations.js:8-12 | the text `-n` selects exactly the pages from 1 to `min(N, n \|\| N)` |
| PrintCalculations.OpenEndSpanPages | src/utils/printCalculations.js:8-12 | the text `m-` selects exactly the pages from `max(1, m \|\| 1)` to N |
| PrintCalculations.DecimalSpanPages | src/utils/printCalculations.js:8-12 | the text `m-n` selects exactly the pages from `max(1, m \|\| 1)` to `min(N, n \|\| N)` |
| PrintCalculations.EmptyCustomRangeSelectsAll | src/utils/printCalculations.js:28-34 | in custom mode an empty range stands for `1-N` and prices every page |
| PrintCalculations.ReversedSpanSelectsNothing | src/utils/printCalculations.js:8-12 | a span `m-n` with `1 <= n < m` selects no page |
| PrintCalculations.TrailingEmptyTokens | src/utils/printCalculations.js:7 | empty tokens after the first add nothing |
| PrintCalculations.NonNumericText | src/utils/printCalculations.js:14 | text starting with a character other than white space, a sign or a digit is `NaN` to `parseInt` |
| PrintCalculations.UnparseableToken | src/utils/printCalculations.js:14 | a non-span token with no leading digits counts as page 1 |
| PrintCalculations.UnparseableTokenIsPageOne | src/utils/printCalculations.js:6-15 | a text such as `abc,,` selects exactly page 1 |
| PrintCalculations.UnparseableRangePricesOnePage | src/utils/printCalculations.js:31-34 | a custom range such as `abc,,` prices one page; it does not fall back to the full count |
| PrintCalculations.WorkedExampleColour | src/utils/printCalculations.js:36-50 | 10 pages, 1-up, colour, standard, single-sided, all pages: 10 sheets, base ₹20, options ₹40, tax ₹10.80, total ₹70.80 |
| PrintCalculations.CustomRangeExample | src/utils/printCalculations.js:30-34 | `1-3` on a 5-page document prices 3 pages |
| PrintCalculations.WorkedExampleDraftDuplex | src/utils/printCalculations.js:30-50 | 5 pages, 2-up, monochrome, draft, double-sided, custom `1-3`: 3 pages, 2 sheets, base ₹4, options ₹0, tax ₹0.72, total ₹4.72 |
| PrintCalculations.DraftDuplexPrice | src/utils/printCalculations.js:38-50 | draft and double-sided surcharges cancel: 3 pages 2-up cost ₹4 plus ₹0.72 tax |
| PreviewLayout.SlotOnSheet | src/components/PrintPreview.jsx:45 | a page's position on its sheet lies in [0, pagesPerSheet) |
| PreviewLayout.TargetBox | src/components/PrintPreview.jsx:48-68 | any pages-per-sheet value other than 2 or 4 gets the whole canvas |
| PreviewLayout.TargetBoxOnCanvas | src/components/PrintPreview.jsx:48-68 | every target box lies on the canvas |
| PreviewLayout.TwoUpHalves | src/components/PrintPreview.jsx:49-56 | in 2-up the first page of a sheet takes the top half and the second takes the bottom half, at full width |
| PreviewLayout.FourUpQuadrants | src/components/PrintPreview.jsx:57-64 | in 4-up, position `p` takes the quarter at column `p % 2` and row `p / 2` |
| PreviewLayout.SameSheetBoxesApart | src/components/PrintPreview.jsx:45-68 | two different pages on the same 2-up or 4-up sheet get boxes that do not overlap |
| PreviewLayout.FitScale | src/components/PrintPreview.jsx:71 | the scale is not negative for a box of non-negative size; FitScaleIsBestFit states the best fit |
| PreviewLayout.FitScaleIsBestFit | src/components/PrintPreview.jsx:71 | the scaled page fills 90% of its box along one side and at most 90% along the other |
| PreviewLayout.Place | src/components/PrintPreview.jsx:71-82 | the pushed record carries the page number and rotation 0 |
| PreviewLayout.PlaceFitsCentred | src/components/PrintPreview.jsx:71-79 | the placed page lies inside its box, keeps the source aspect ratio, has equal left/right and top/bottom margins, and is not empty |
| PreviewLayout.LayoutRecord | src/components/PrintPreview.jsx:45-82 | the record of page `i` carries number `i` and rotation 0 |
| PreviewLayout.Layout | src/components/PrintPreview.jsx:40-83 | one record per source page, in order, the `k`-th being page `k+1`'s record |
| PreviewLayout.LayoutNumbersAndPlaces | src/components/PrintPreview.jsx:40-83 | the `k`-th record is page `k+1`, unrotated, non-empty, inside its target box and on the canvas |
| PreviewLayout.LayoutWellFormed | src/components/PrintPreview.jsx:75-82 | every laid-out page is unrotated and of positive size |
| PreviewLayout.LayoutRecordOnCanvas | src/components/PrintPreview.jsx:45-79 | every placed page lies inside its target box and on the canvas |
| PreviewLayout.HandleAt | src/components/PrintPreview.jsx:337-344 | the result is the first corner in the order br, bl, tr, tl whose open 8×8 square holds the pointer, and none exactly when no square does |
| PreviewLayout.HandlesApart | src/components/PrintPreview.jsx:337-344 | on a page at least 8 wide and high the squares are disjoint, so the one holding the pointer is the one found |
| PreviewLayout.HandleOutsideBody | src/components/PrintPreview.jsx:233-238 | a handle reaches beyond the page: just outside the bottom-right corner the pointer is not inside the page, yet it grabs that corner, which is why handles are tested before the body |
| PreviewLayout.GrabAt | src/components/PrintPreview.jsx:232-242 | a resize is grabbed exactly when the pointer is on a handle, and its handle is the one `checkHandleCollision` finds; the body is grabbed exactly when no handle is and the pointer is in the closed rectangle |
| PreviewLayout.GrabStart | src/components/PrintPreview.jsx:235-240 | a move records the grab offset `pos − (x, y)`; a resize records the pointer |
| PreviewLayout.HitScan | src/components/PrintPreview.jsx:227-243 | a hit is a shown, existing page that the pointer grabs, together with what it grabs |
| PreviewLayout.HitScanTopmost | src/components/PrintPreview.jsx:227-236 | the hit is the last shown page the pointer grabs; no shown page after it is grabbed |
| PreviewLayout.HitScanMisses | src/components/PrintPreview.jsx:227-244 | the scan misses exactly when the pointer grabs no shown page |
| PreviewLayout.DragStep | src/components/PrintPreview.jsx:292-303 | a drag step keeps the page number and rotation, and keeps a page of positive size positive |
| PreviewLayout.NextStart | src/components/PrintPreview.jsx:298-302 | a resize re-anchors at the pointer; a move keeps its offset |
| PreviewLayout.MoveKeepsGrabOffset | src/components/PrintPreview.jsx:298 | after a move the pointer is at the grab offset from the page's corner; width, height and rotation are unchanged |
| PreviewLayout.ResizeFloor | src/components/PrintPreview.jsx:299-302 | after any corner resize the page is at least 20 wide and 20 high |
| PreviewLayout.ResizeShifts | src/components/PrintPreview.jsx:299-302 | `br` keeps `(x, y)`; `bl` shifts `x` by dx, `tr` shifts `y` by dy, `tl` shifts both, even when the size is held at the floor |
| PreviewLayout.ResizeKeepsOppositeCorner | src/components/PrintPreview.jsx:299-302 | above the floor, the corner opposite the grabbed handle stays put |
| PreviewLayout.ResizeMovesGrabbedCorner | src/components/PrintPreview.jsx:299-302 | above the floor, the grabbed corner moves by the pointer's displacement |
| PreviewLayout.Rotated | src/components/PrintPreview.jsx:359 | `(rotation + 90) % 360` lies in [0, 360) and keeps a quarter turn a quarter turn |
| PreviewLayout.FourRotationsIdentity | src/components/PrintPreview.jsx:359 | four rotations restore the original rotation |
| PreviewLayout.Remove | src/components/PrintPreview.jsx:329 | `splice(i, 1)` drops exactly the element at `i` and shifts the later ones down |
| PreviewLayout.Insert | src/components/PrintPreview.jsx:330 | `splice(i, 0, x)` puts `x` at `i` and shifts the later ones up |
| PreviewLayout.Reorder | src/components/PrintPreview.jsx:327-331 | the length is unchanged and the dragged page ends at the drop index |
| PreviewLayout.ReorderPermutes | src/components/PrintPreview.jsx:327-331 | reordering is a permutation (same multiset) |
| PreviewLayout.RemoveCounts | src/components/PrintPreview.jsx:329 | removing takes exactly one copy of the removed element out of the multiset |
| PreviewLayout.InsertCounts | src/components/PrintPreview.jsx:330 | inserting adds exactly one copy of the element to the multiset |
| PreviewLayout.ReorderKeepsOthersInOrder | src/components/PrintPreview.jsx:327-331 | apart from the moved page, the pages keep their relative order |
| PreviewLayout.ReorderRoundTrip | src/components/PrintPreview.jsx:327-331 | moving `i` to `j` and then `j` to `i` restores the original order |
| PreviewLayout.ReorderKeepsDistinct | src/components/PrintPreview.jsx:327-331 | reordering keeps distinct pages distinct |
| PreviewLayout.ReorderSource | src/components/PrintPreview.jsx:327-331 | each position of the result holds the original element at a computed source position |
| PreviewLayout.ThumbCell | src/components/PrintPreview.jsx:248-254 | every cell is a thumbnail wide and high, and lies a padding inside the canvas's left and right edges and below its top edge |
| PreviewLayout.ThumbScan | src/components/PrintPreview.jsx:250-259 | the result is the first thumbnail whose open cell holds the pointer, and none exactly when no cell does |
| PreviewLayout.DropIndex | src/components/PrintPreview.jsx:323-325 | for a non-empty page list the drop index lies in [0, length) |
| PreviewLayout.DropInCellIsThatPosition | src/components/PrintPreview.jsx:323-325 | releasing over the cell of position `i` drops at `i` |
| PreviewLayout.ThumbCellsApart | src/components/PrintPreview.jsx:167-177 | the thumbnail cells do not overlap |
| PreviewLayout.PrevPage | src/components/PrintPreview.jsx:354 | Prev never goes below page 1 and never moves forward |
| PreviewLayout.NextPage | src/components/PrintPreview.jsx:356 | Next never passes the last page (1 with no pages) and never moves back |
| PreviewLayout.NavigationStaysInRange | src/components/PrintPreview.jsx:354-356 | from a page in range, Prev and Next stay in range |
| PreviewLayout.NextThenPrev | src/components/PrintPreview.jsx:354-356 | away from the end, Next followed by Prev returns to the same page |
| PreviewEditor.Page.constructor | src/components/PrintPreview.jsx:75-82 | a new page object holds exactly the pushed record |
| PreviewEditor.Page.SetBox | src/components/PrintPreview.jsx:298-302 | a drag step changes the object's position and size in place, and keeps its number and rotation |
| PreviewEditor.BuildPages | src/components/PrintPreview.jsx:36-83 | the loop builds fresh, distinct page objects whose values are exactly the layout |
| PreviewEditor.Editor.constructor | src/components/PrintPreview.jsx:16-27 | no pages, no active page, editor view, idle drag |
| PreviewEditor.Editor.Relayout | src/components/PrintPreview.jsx:32-88 | the whole page array is replaced by fresh objects holding the layout, so earlier edits are discarded; the active index becomes `currentPage - 1` |
| PreviewEditor.Editor.ClearDocument | src/components/PrintPreview.jsx:92-95 | an absent or non-PDF file empties the page array |
| PreviewEditor.Editor.FindHit | src/components/PrintPreview.jsx:227-243 | the last-to-first loop over the shown indices finds exactly the hit `HitScan` describes |
| PreviewEditor.Editor.FindThumb | src/components/PrintPreview.jsx:250-259 | the first-to-last loop over the thumbnails finds exactly the cell `ThumbScan` describes |
| PreviewEditor.Editor.MouseDown | src/components/PrintPreview.jsx:224-261 | editor view: the hit page becomes active and the drag starts with its kind and anchor, while a miss clears the active page and leaves the drag; sequence view: a hit thumbnail starts a reorder drag anchored at the pointer; pages are untouched |
| PreviewEditor.Editor.PressPage | src/components/PrintPreview.jsx:226-244 | the editor-view branch of mouse-down, as above |
| PreviewEditor.Editor.PressThumbnail | src/components/PrintPreview.jsx:245-259 | the sequence-view branch of mouse-down, as above |
| PreviewEditor.Editor.MouseMove | src/components/PrintPreview.jsx:263-312 | during an editor drag exactly the dragged page takes one drag step and a resize re-anchors the drag; otherwise no page and no drag field changes |
| PreviewEditor.Editor.MouseUp | src/components/PrintPreview.jsx:314-335 | a sequence drag released at a different position moves the page there by the splice; the page array stays a permutation; the drag always returns to idle |
| PreviewEditor.Editor.Rotate | src/components/PrintPreview.jsx:351-361 | available only in the editor view, where the button is shown; the active page's rotation becomes `(rotation + 90) % 360` and nothing else changes; with no active page nothing changes |
| PreviewEditor.Editor.SetViewMode | src/components/PrintPreview.jsx:349-350 | the view switches; nothing else changes |
| PreviewEditor.RenderCache.constructor | src/components/PrintPreview.jsx:12 | the cache starts empty |
| PreviewEditor.RenderCache.Clear | src/components/PrintPreview.jsx:104 | loading a document empties the cache |
| PreviewEditor.RenderCache.Get | src/components/PrintPreview.jsx:179-187 | a cached page is returned as it is; a missing page is rendered once and stored under its page number |
| FileUpload.DetectedType | src/components/FileUpload.jsx:36 | an empty type reads as `application/octet-stream`; any other type is kept |
| FileUpload.IsAccepted | src/components/FileUpload.jsx:36-37 | a listed type is accepted; a file with no type is accepted exactly when its name ends in `.pdf` |
| FileUpload.IsPdf | src/components/FileUpload.jsx:46 | a file counted as a PDF always passes the type check |
| FileUpload.MatchLength | src/components/FileUpload.jsx:50 | a match at the start is at least 11 characters long |
| FileUpload.MatchLengthCorrect | src/components/FileUpload.jsx:50 | the matcher reports a match exactly when one starts here, and then the only one |
| FileUpload.MatchLengthUnique | src/components/FileUpload.jsx:50 | a match can end only right after the white space that follows `/Type` |
| FileUpload.PdfPageCount | src/components/FileUpload.jsx:45-54 | the page count is the number of matches when there is one or more, and 1 for no match or unreadable text |
| FileUpload.HandleFilesChange | src/components/FileUpload.jsx:24-70 | no file does nothing; a file over 10 MiB is rejected as too large; then an unaccepted type is rejected; an accepted file stores `fileInfo` and passes the same page count to the callback, PDFs counted by matches and other files as 1 |
| FileUpload.Apply | src/components/FileUpload.jsx:26-62 | the error is cleared first; a rejection shows its message and drops the summary; an acceptance shows the new summary; no file leaves the summary |
| FileUpload.SizeLimitInclusive | src/components/FileUpload.jsx:30-34 | exactly 10 MiB passes the size gate; one byte more is rejected |
| FileUpload.SizeCheckedBeforeType | src/components/FileUpload.jsx:30-42 | an oversized file of an unsupported type is reported as too large |
| FileUpload.UnknownTypeNeedsPdfName | src/components/FileUpload.jsx:36-42 | a file with no type is accepted exactly when its name ends in `.pdf` |
| FileUpload.UpperCasePdfNameAccepted | src/components/FileUpload.jsx:36-55 | a name ending in `.PDF` is accepted and counted as a PDF whatever type the browser reports |
| FileUpload.OnlyFirstFile | src/components/FileUpload.jsx:27 | only the first selected file matters |
| FileUpload.LeadingMatchCounted | src/components/FileUpload.jsx:50-51 | a match at the start counts once, and the search resumes right after it |
| FileUpload.CountMatches | src/components/FileUpload.jsx:50-51 | the number of matches of the global search is at most the text's length; CountMatchesBound sharpens it |
| FileUpload.CountMatchesBound | src/components/FileUpload.jsx:50-51 | a text of length L holds at most L/11 matches |
| FileUpload.NoTypeNoMatch | src/components/FileUpload.jsx:50-51 | a text in which `/Type` occurs nowhere has no match |
| FileUpload.PagesNodeNotCounted | src/components/FileUpload.jsx:50-54 | `/Type /Pages` and a `/Type /Page` that ends the text are not matches, so such a text counts as one page |
| FormUrlEncoded.EncodeChar | src/utils/qrGenerator.js:11 | a character encodes to 1–4 UTF-8 bytes, one byte exactly for ASCII, which is kept as it is |
| FormUrlEncoded.Utf8Encode | src/utils/qrGenerator.js:11 | the encoding has at least as many bytes as the text has characters |
| FormUrlEncoded.DecodeChar | src/utils/qrGenerator.js:11 | the decoder of the standard consumes 1–4 bytes per character |
| FormUrlEncoded.DecodeEncodedChar | src/utils/qrGenerator.js:11 | decoding a character's encoding gives the character back and consumes exactly its bytes |
| FormUrlEncoded.DecodeTwoBytes | src/utils/qrGenerator.js:11 | the two-byte case of that round trip |
| FormUrlEncoded.DecodeThreeBytes | src/utils/qrGenerator.js:11 | the three-byte case of that round trip |
| FormUrlEncoded.DecodeFourBytes | src/utils/qrGenerator.js:11 | the four-byte case of that round trip |
| FormUrlEncoded.Utf8RoundTrip | src/utils/qrGenerator.js:11 | UTF-8 decoding undoes UTF-8 encoding |
| FormUrlEncoded.EncodeByte | src/utils/qrGenerator.js:11 | space becomes `+`; an ASCII alphanumeric or one of `*-._` is kept; any other byte becomes `%` and two upper-case hex digits of its value; only those characters appear |
| FormUrlEncoded.EncodeBytes | src/utils/qrGenerator.js:11 | the output holds only unreserved characters, `+` and `%` |
| FormUrlEncoded.Serialize | src/utils/qrGenerator.js:11 | a serialized name or value contains no `&` and no `=` |
| FormUrlEncoded.DecodeEncodedByte | src/utils/qrGenerator.js:11 | percent-decoding one encoded byte gives the byte back |
| FormUrlEncoded.PercentRoundTrip | src/utils/qrGenerator.js:11 | percent-decoding undoes the byte encoding |
| FormUrlEncoded.SerializeRoundTrip | src/utils/qrGenerator.js:11 | every name or value comes back unchanged from its serialization |
| FormUrlEncoded.SerializeUnreserved | src/utils/qrGenerator.js:11 | a text of unreserved characters is serialized as it is |
| FormUrlEncoded.SpacesAsPlus | src/utils/qrGenerator.js:11 | each space is serialized as one `+` |
| FormUrlEncoded.SerializeParam | src/utils/qrGenerator.js:11 | a serialized pair contains no `&` |
| FormUrlEncoded.SerializedParams | src/utils/qrGenerator.js:11 | one serialized pair per parameter, in order |
| FormUrlEncoded.ParseSerializedParam | src/utils/qrGenerator.js:11 | parsing a serialized pair gives the pair back |
| FormUrlEncoded.ParseSerializedParts | src/utils/qrGenerator.js:11 | parsing the serialized pairs gives the list back |
| FormUrlEncoded.SerializeParams | src/utils/qrGenerator.js:11 | `params.toString()` is empty exactly when the list is; ParamsRoundTrip states that it parses back |
| FormUrlEncoded.ParamsRoundTrip | src/utils/qrGenerator.js:11 | parsing a serialized list gives back every pair, in order |
| QrGenerator.AmountText | src/utils/qrGenerator.js:7 | `toFixed(2)` gives rupees in decimal, a point and exactly two digits, and the digits read back as the amount |
| QrGenerator.Slots | src/utils/qrGenerator.js:4-10 | six `set` calls with distinct names |
| QrGenerator.Origins | src/utils/qrGenerator.js:4-10 | every entry comes from a call that was made, and the entries come in call order |
| QrGenerator.UpiParams | src/utils/qrGenerator.js:4-10 | the list after the `set` calls holds each name at most once |
| QrGenerator.OriginsMatch | src/utils/qrGenerator.js:4-10 | each entry holds the name and value of its call |
| QrGenerator.OriginsComplete | src/utils/qrGenerator.js:4-10 | every call that was made has an entry |
| QrGenerator.SetParamsLookup | src/utils/qrGenerator.js:4-10 | looking up a call's name gives its value when the call was made, and nothing otherwise |
| QrGenerator.LookupSkipsEarlierCall | src/utils/qrGenerator.js:4-10 | a call with another name does not affect a lookup |
| QrGenerator.LaterCallsOnly | src/utils/qrGenerator.js:4-10 | a call not made leaves its name out of the list |
| QrGenerator.Lookup | src/utils/qrGenerator.js:4-10 | a name is found exactly when some entry carries it |
| QrGenerator.UpiParamsStartWithPayee | src/utils/qrGenerator.js:5 | the payee address is the first parameter |
| QrGenerator.UpiParamsAlwaysSet | src/utils/qrGenerator.js:3-8 | `pa` is the UPI id, `pn` is the given name or `Print Service`, and `cu` is `INR`, always |
| QrGenerator.UpiParamsAmount | src/utils/qrGenerator.js:7 | `am` is present exactly when the amount is positive, with two decimals |
| QrGenerator.UpiParamsReference | src/utils/qrGenerator.js:9 | `tr` is present exactly when the reference is non-empty |
| QrGenerator.UpiParamsNote | src/utils/qrGenerator.js:10 | `tn` is present exactly when the note is non-empty |
| QrGenerator.UpiParamsInCallOrder | src/utils/qrGenerator.js:4-10 | the parameters appear in the order `pa`, `pn`, `am`, `cu`, `tr`, `tn`, exactly for the calls made |
| QrGenerator.BuildUpiUri | src/utils/qrGenerator.js:3-12 | the link starts with `upi://pay?`, and its query parses back to exactly the parameter list |
| QrGenerator.GenerateUpiQr | src/utils/qrGenerator.js:14-16 | an empty UPI id raises `UPI ID required` before any link is built; otherwise the link is built without a payee name |
| QrGenerator.PaymentLinkNamesDefaultPayee | src/utils/qrGenerator.js:14-16 | a payment link always carries the UPI id, the default payee name and `INR` |

## Left out

- pdf.js work is left out: worker setup, loading a document, rendering pages and the off-screen canvases. Loading and rendering are asynchronous calls into a library. Page viewport sizes at scale 1 are inputs to `Relayout`, and a rendered image is an input to `RenderCache.Get`.
- Canvas drawing is left out: clearing, images, strokes, labels, alpha, fonts and cursor styles. None of it changes the modelled state.
- The "Viewing Sheet" label (PrintPreview.jsx line 355) is display text and is not modelled.
- The ghost thumbnail that follows the pointer during a sequence-view drag is left out. It is purely visual and uses a fixed 120×160 size. Its creation on mouse-down and its updates on mouse-move are not modelled, so a sequence-view mouse-move changes nothing in the model.
- React scaffolding is left out: hooks, effect scheduling, the loading and error flags, and `React.memo`. The effects are modelled as calls to `Relayout`, `ClearDocument` and `RenderCache.Clear`.
- `estimatePreviewWorkCost` and `formatBytes` are left out. They are floating-point helpers outside the core.
- `TextDecoder` is left out: the decoded text is an input, and `None` stands for a failed read.
- The outer `catch` of `handleFilesChange` (FileUpload.jsx lines 67-69) is left out. No modelled step can throw.
- `QRCode.toDataURL` is left out. It is an external library, and the model stops at the link handed to it.
- App wiring and the payment section are not part of this model.
- JavaScript doubles are idealised: layout geometry uses exact `real` arithmetic, and money uses whole paise.
- QrGenerator.AmountText: takes the amount in whole paise. It does not model `toFixed` on arbitrary doubles, such as fractions of a paisa or amounts of 10^21 and more.
- PrintOptions.ToNumber: reads only optionally signed decimal integers and blanks. Decimals, exponents, hexadecimal and `Infinity` are read as `NaN`. The form's pages-per-sheet control only offers 1, 2 and 4.
- JsText.LowerAscii: lower-cases only A–Z. This is exact for the `.pdf` test, since no character outside A–Z has a lower case containing `.`, `p`, `d` or `f`.
- Strings are sequences of Unicode scalar values, whereas JavaScript strings are UTF-16. A lone surrogate, which the URL serializer would encode as U+FFFD, has no counterpart in the model.
- FormUrlEncoded.Deserialize: fails on malformed UTF-8 instead of substituting U+FFFD. It is used only as the serializer's inverse.
- PreviewEditor.Editor.Relayout: requires that no drag is in progress. The same holds for `ClearDocument`. A new file or layout arrives from outside the canvas, and the pointer leaving the canvas has already ended the drag.
- PreviewEditor.Editor.Rotate: requires the active index to name a page or to be -1. The source throws when it names a page that does not exist.
- A sequence-view drag carries the kind `NoDrag`, standing for the `type` the source leaves unset. An editor-view mouse-move during such a drag therefore changes no page, as in the source.
