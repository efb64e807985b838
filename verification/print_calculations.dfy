/**
 * The price calculator (src/utils/printCalculations.js): the page-range
 * parser and the price breakdown.
 *
 * Money is counted in paise (hundredths of a rupee).  Every per-sheet rate
 * is a multiple of 50 paise, so the subtotal is too, the 18% tax is exactly
 * 9 paise per 50 paise of subtotal, and rounding to two decimals never
 * changes a value.
 */
module PrintCalculations {
  import opened Wrappers
  import opened JsText
  import opened PrintOptions

  // ------------------------------------------------------------ page ranges

  /** The first page of a `start-end` span: `Math.max(1, parseInt(startStr, 10) || 1)`. */
  function SpanStart(startStr: string): (p: int)
    ensures p >= 1
    ensures ParseInt(startStr).None? || ParseInt(startStr) == Some(0) ==> p == 1
    ensures ParseInt(startStr).Some? && ParseInt(startStr).value >= 1 ==> p == ParseInt(startStr).value
  {
    Max(1, OrDefault(ParseInt(startStr), 1))
  }

  /** The last page of a span: `Math.min(totalPages, parseInt(endStr, 10) || totalPages)`. */
  function SpanEnd(endStr: string, totalPages: int): (p: int)
    ensures p <= totalPages
    ensures ParseInt(endStr).None? || ParseInt(endStr) == Some(0) ==> p == totalPages
    ensures ParseInt(endStr).Some? && ParseInt(endStr).value != 0 ==> p == Min(totalPages, ParseInt(endStr).value)
  {
    Min(totalPages, OrDefault(ParseInt(endStr), totalPages))
  }

  /** A single page: `Math.min(totalPages, Math.max(1, parseInt(trimmed, 10) || 1))`. */
  function SinglePage(trimmed: string, totalPages: int): (p: int)
    ensures totalPages >= 1 ==> 1 <= p <= totalPages
    ensures ParseInt(trimmed).None? ==> p == Min(totalPages, 1)
  {
    Min(totalPages, Max(1, OrDefault(ParseInt(trimmed), 1)))
  }

  /** The pages from `start` to `end` inclusive; empty when the span is reversed. */
  function Span(start: int, end: int): (s: set<int>)
    ensures forall k :: k in s <==> start <= k <= end
    decreases end - start
  {
    if end < start then {} else Span(start, end - 1) + {end}
  }

  /** What one comma-separated token of the range text denotes. */
  datatype Token = Blank | Range(start: int, end: int) | Single(page: int)

  /** Reads one token: blank, a `start-end` span, or a single page. */
  function ParseToken(part: string, totalPages: int): (t: Token)
    ensures t.Blank? <==> Trim(part) == []
    ensures t.Range? <==> '-' in Trim(part)
    ensures t.Range? ==> t.start >= 1 && t.end <= totalPages
    ensures t.Single? && totalPages >= 1 ==> 1 <= t.page <= totalPages
  {
    var trimmed := Trim(part);
    if trimmed == [] then Blank
    else if '-' in trimmed then
      var pieces := Split(trimmed, '-');
      Range(SpanStart(pieces[0]), SpanEnd(pieces[1], totalPages))
    else
      Single(SinglePage(trimmed, totalPages))
  }

  /** The pages a token selects. */
  function Pages(t: Token): set<int> {
    match t
    case Blank => {}
    case Range(start, end) => Span(start, end)
    case Single(p) => {p}
  }

  /** The pages one comma-separated token of the range text selects. */
  function TokenPages(part: string, totalPages: int): (s: set<int>)
    ensures totalPages >= 1 ==> forall k :: k in s ==> 1 <= k <= totalPages
    ensures Trim(part) == [] ==> s == {}
  {
    var t := ParseToken(part, totalPages);
    assert t.Range? ==> forall k :: k in Span(t.start, t.end) ==> 1 <= k <= totalPages;
    Pages(t)
  }

  /** The union of the pages the tokens select. */
  function TokensPages(parts: seq<string>, totalPages: int): (s: set<int>)
    ensures totalPages >= 1 ==> forall k :: k in s ==> 1 <= k <= totalPages
  {
    if parts == [] then {}
    else TokensPages(parts[..|parts| - 1], totalPages) + TokenPages(parts[|parts| - 1], totalPages)
  }

  /** The set of pages a non-empty range text selects. */
  function PageSet(rangeText: string, totalPages: int): (s: set<int>)
    ensures totalPages >= 1 ==> forall k :: k in s ==> 1 <= k <= totalPages
  {
    TokensPages(Split(rangeText, ','), totalPages)
  }

  predicate StrictlyIncreasing(s: seq<int>) {
    forall i, j :: 0 <= i < j < |s| ==> s[i] < s[j]
  }

  /** Inserts a new element into a strictly increasing sequence. */
  function InsertSorted(s: seq<int>, x: int): (t: seq<int>)
    requires StrictlyIncreasing(s) && x !in s
    ensures StrictlyIncreasing(t) && |t| == |s| + 1
    ensures forall k :: k in t <==> k in s || k == x
  {
    if s == [] || x < s[0] then
      PrependSmallest(x, s);
      [x] + s
    else
      var t := InsertSorted(s[1..], x);
      HeadBelowTail(s);
      PrependSmallest(s[0], t);
      [s[0]] + t
  }

  /** The head of a strictly increasing sequence is below every later element. */
  lemma HeadBelowTail(s: seq<int>)
    requires StrictlyIncreasing(s) && s != []
    ensures forall k :: k in s <==> k == s[0] || k in s[1..]
    ensures forall k :: k in s[1..] ==> s[0] < k
  {
    assert s == [s[0]] + s[1..];
    forall k | k in s[1..] ensures s[0] < k {
      var j :| 0 <= j < |s[1..]| && s[1..][j] == k;
      assert s[j + 1] == k;
    }
  }

  /** Putting an element below all others in front keeps the order strict. */
  lemma PrependSmallest(x: int, s: seq<int>)
    requires StrictlyIncreasing(s)
    requires forall k :: k in s ==> x < k
    ensures StrictlyIncreasing([x] + s)
  {
    var r := [x] + s;
    forall i, j | 0 <= i < j < |r| ensures r[i] < r[j] {
      assert r[j] == s[j - 1] && s[j - 1] in s;
      if i > 0 {
        assert r[i] == s[i - 1];
      }
    }
  }

  lemma NonEmptyHasElement(s: set<int>)
    requires s != {}
    ensures exists x :: x in s
  {
    if forall x :: x !in s {
      assert false;
    }
  }

  /** `Array.from(pages).sort((a, b) => a - b)`. */
  method SortAscending(pages: set<int>) returns (sorted: seq<int>)
    ensures StrictlyIncreasing(sorted)
    ensures forall k :: k in sorted <==> k in pages
  {
    sorted := [];
    var rest := pages;
    while rest != {}
      invariant rest <= pages
      invariant StrictlyIncreasing(sorted)
      invariant forall k :: k in sorted <==> k in pages && k !in rest
      decreases |rest|
    {
      NonEmptyHasElement(rest);
      var x :| x in rest;
      sorted := InsertSorted(sorted, x);
      rest := rest - {x};
    }
  }

  /** The inner loop: `for (let i = start; i <= end; i++) pages.add(i)`. */
  method AddSpan(selected: set<int>, start: int, end: int) returns (result: set<int>)
    ensures result == selected + Span(start, end)
  {
    result := selected;
    var i := start;
    while i <= end
      invariant i == start || start <= i <= end + 1
      invariant result == selected + Span(start, i - 1)
    {
      assert Span(start, i) == Span(start, i - 1) + {i};
      result := result + {i};
      i := i + 1;
    }
    assert Span(start, i - 1) == Span(start, end);
  }

  /** One pass of the token loop: adds the pages of one token to the set. */
  method AddToken(selected: set<int>, part: string, totalPages: int) returns (result: set<int>)
    ensures result == selected + TokenPages(part, totalPages)
  {
    var trimmed := Trim(part);
    if trimmed == [] {
      result := selected;
    } else if '-' in trimmed {
      var pieces := Split(trimmed, '-');
      result := AddSpan(selected, SpanStart(pieces[0]), SpanEnd(pieces[1], totalPages));
    } else {
      result := selected + {SinglePage(trimmed, totalPages)};
    }
  }

  /**
   * `parsePageRange`: an empty text gives the two-element list
   * `[1, totalPages]`; otherwise the selected pages in strictly ascending order.
   */
  method ParsePageRange(rangeText: string, totalPages: int) returns (pages: seq<int>)
    ensures rangeText == [] ==> pages == [1, totalPages]
    ensures rangeText != [] ==> StrictlyIncreasing(pages)
    ensures rangeText != [] ==> forall k :: k in pages <==> k in PageSet(rangeText, totalPages)
  {
    if rangeText == [] {
      return [1, totalPages];
    }
    var parts := Split(rangeText, ',');
    var selected: set<int> := {};
    var n := 0;
    while n < |parts|
      invariant 0 <= n <= |parts|
      invariant selected == TokensPages(parts[..n], totalPages)
    {
      selected := AddToken(selected, parts[n], totalPages);
      assert parts[..n + 1][..n] == parts[..n];
      n := n + 1;
    }
    assert parts[..n] == parts;
    pages := SortAscending(selected);
  }

  /** A strictly increasing sequence has as many elements as the set of its elements. */
  lemma {:induction false} IncreasingCardinality(s: seq<int>, elems: set<int>)
    requires StrictlyIncreasing(s)
    requires forall k :: k in s <==> k in elems
    ensures |s| == |elems|
  {
    if s != [] {
      var tail := elems - {s[0]};
      assert s[0] in s;
      assert s[0] in elems;
      assert elems == tail + {s[0]};
      forall k
        ensures k in s[1..] <==> k in tail
      {
        if k in s[1..] {
          var j :| 0 <= j < |s[1..]| && s[1..][j] == k;
          assert s[0] < s[j + 1];
        }
        if k in tail {
          var j :| 0 <= j < |s| && s[j] == k;
          assert j != 0;
          assert s[1..][j - 1] == k;
        }
      }
      IncreasingCardinality(s[1..], tail);
    } else {
      forall k ensures k !in elems {
        assert k !in s;
      }
      assert elems == {};
    }
  }

  /** A span of integers has as many elements as its length. */
  lemma {:induction false} SpanCardinality(start: int, end: int)
    requires start <= end + 1
    ensures |Span(start, end)| == end - start + 1
    decreases end - start
  {
    if start <= end {
      SpanCardinality(start, end - 1);
      assert Span(start, end) == Span(start, end - 1) + {end};
    } else {
      assert Span(start, end) == {};
    }
  }

  /** The parsed list has exactly one entry per selected page. */
  lemma ParsedLength(rangeText: string, totalPages: int, pages: seq<int>)
    requires rangeText != []
    requires StrictlyIncreasing(pages)
    requires forall k :: k in pages <==> k in PageSet(rangeText, totalPages)
    ensures |pages| == |PageSet(rangeText, totalPages)|
  {
    IncreasingCardinality(pages, PageSet(rangeText, totalPages));
  }

  // ------------------------------------------------------------ price

  /** The price breakdown; all amounts in paise. */
  datatype PriceBreakdown = PriceBreakdown(
    baseAmount: int,
    optionsAmount: int,
    taxAmount: int,
    totalAmount: int,
    sheets: int,
    consideredPages: int)

  /** `Math.max(1, pages || 1)`. */
  function SafePages(pages: int): (p: int)
    ensures p >= 1 && (pages >= 1 ==> p == pages)
  {
    Max(1, pages)
  }

  /** The range text the calculator parses: the option, or "1-N" when it is empty. */
  function RangeText(options: NormalizedOptions, safePages: nat): (t: string)
    ensures t != []
    ensures options.pageRange != [] ==> t == options.pageRange
    ensures options.pageRange == [] ==> PageSet(t, safePages) == Span(1, safePages)
  {
    if options.pageRange == [] then
      var t := "1-" + NatToDecimal(safePages);
      assert t == NatToDecimal(1) + "-" + NatToDecimal(safePages) by {
        assert NatToDecimal(1) == "1";
      }
      DecimalSpanPages(1, safePages, safePages);
      t
    else options.pageRange
  }

  /** The number of pages priced. */
  function ConsideredPages(pages: int, options: NormalizedOptions): (c: int)
    ensures 1 <= c
    ensures options.pageRangeMode != "custom" ==> c == SafePages(pages)
  {
    var safePages := SafePages(pages);
    if options.pageRangeMode == "custom" then
      var selected := |PageSet(RangeText(options, safePages), safePages)|;
      if selected == 0 then safePages else selected
    else safePages
  }

  /** `Number(options.pagesPerSheet || 1)`. */
  function SheetDivisor(options: NormalizedOptions): (d: int)
    ensures d != 0
  {
    if options.pagesPerSheet == 0 then 1 else options.pagesPerSheet
  }

  /** `Math.ceil(n / d)` for a non-negative `n` and a non-zero integer `d`. */
  function CeilDiv(n: nat, d: int): (q: int)
    requires d != 0
    ensures d > 0 ==> q * d - d < n <= q * d
    ensures d > 0 && n >= 1 ==> q >= 1
  {
    if d > 0 then
      var q := (n + d - 1) / d;
      var r := (n + d - 1) % d;
      assert n + d - 1 == q * d + r && 0 <= r < d;
      q
    else 0 - n / (0 - d)
  }

  /** The per-sheet surcharge in paise, accumulated option by option. */
  function SurchargePerSheet(options: NormalizedOptions): (s: int)
    ensures s % 50 == 0
    ensures -50 <= s <= 600
  {
    var colour := if options.colorMode == "color" then 400
                  else if options.colorMode == "grayscale" then 100 else 0;
    var quality := if options.quality == "high" then 150
                   else if options.quality == "draft" then -50 else 0;
    var duplex := if options.duplex == "double" then 50 else 0;
    colour + quality + duplex
  }

  /** `Math.max(0, sheets * optionsPerSheet)`: never negative, a whole number of 50 paise. */
  function OptionsAmount(sheets: int, perSheet: int): (a: int)
    requires perSheet % 50 == 0
    ensures a >= 0 && a % 50 == 0
    ensures a == Max(0, sheets * perSheet)
  {
    var m := perSheet / 50;
    assert sheets * perSheet == 50 * (sheets * m);
    Max(0, sheets * perSheet)
  }

  /**
   * `+(subTotal * 0.18).toFixed(2)`: on a whole number of 50 paise the tax is
   * exact, so no rounding takes place.
   */
  function Tax(subTotal: int): (t: int)
    requires subTotal % 50 == 0
    ensures t * 100 == subTotal * 18
    ensures subTotal > 0 ==> t > 0
  {
    var m := subTotal / 50;
    assert subTotal == 50 * m;
    9 * m
  }

  lemma MultiplesOfFifty(sheets: int, optionsAmount: int)
    requires optionsAmount % 50 == 0
    ensures (200 * sheets + optionsAmount) % 50 == 0
  {
    var units := 4 * sheets + optionsAmount / 50;
    assert 200 * sheets + optionsAmount == 50 * units;
  }

  /**
   * The price of printing `considered` pages with the given options; the base
   * rate is ₹2 (200 paise) per sheet.
   */
  function PriceOfPages(considered: nat, options: NormalizedOptions): (p: PriceBreakdown)
    ensures p.consideredPages == considered
    ensures p.sheets == CeilDiv(p.consideredPages, SheetDivisor(options))
    ensures p.baseAmount == 200 * p.sheets
    ensures p.optionsAmount >= 0
    ensures p.optionsAmount == Max(0, p.sheets * SurchargePerSheet(options))
    ensures p.taxAmount * 100 == (p.baseAmount + p.optionsAmount) * 18
    ensures p.totalAmount == p.baseAmount + p.optionsAmount + p.taxAmount
    ensures SheetDivisor(options) > 0 && considered >= 1 ==>
              p.baseAmount > 0 && p.taxAmount > 0 && p.totalAmount > 0
  {
    var sheets := CeilDiv(considered, SheetDivisor(options));
    var baseAmount := 200 * sheets;
    var optionsAmount := OptionsAmount(sheets, SurchargePerSheet(options));
    MultiplesOfFifty(sheets, optionsAmount);
    var taxAmount := Tax(baseAmount + optionsAmount);
    PriceBreakdown(baseAmount, optionsAmount, taxAmount, baseAmount + optionsAmount + taxAmount, sheets, considered)
  }

  /** `calculatePrice({ pages, options })`: the price of the pages the options select. */
  function CalculatePrice(pages: int, options: NormalizedOptions): (p: PriceBreakdown)
    ensures p == PriceOfPages(ConsideredPages(pages, options), options)
    ensures 1 <= p.consideredPages <= SafePages(pages)
  {
    ConsideredPagesAtMostPageCount(pages, options);
    PriceOfPages(ConsideredPages(pages, options), options)
  }

  // ------------------------------------------------------------ properties

  /**
   * In custom mode the priced pages are the length of the list the parser
   * returns for the range text, or every page when that list is empty.
   */
  lemma CustomModeCountsParsedList(pages: int, options: NormalizedOptions, selected: seq<int>)
    requires options.pageRangeMode == "custom"
    requires StrictlyIncreasing(selected)
    requires forall k :: k in selected <==> k in PageSet(RangeText(options, SafePages(pages)), SafePages(pages))
    ensures ConsideredPages(pages, options) == if |selected| > 0 then |selected| else SafePages(pages)
    ensures CalculatePrice(pages, options).consideredPages == ConsideredPages(pages, options)
  {
    ParsedLength(RangeText(options, SafePages(pages)), SafePages(pages), selected);
  }

  /**
   * With a positive pages-per-sheet count the sheets are the fewest that hold
   * every considered page, and there is at least one.
   */
  lemma SheetsHoldConsideredPages(considered: nat, options: NormalizedOptions)
    requires options.pagesPerSheet > 0 && considered >= 1
    ensures var p := PriceOfPages(considered, options);
            var d := options.pagesPerSheet;
            p.sheets >= 1 && (p.sheets - 1) * d < considered <= p.sheets * d
  {
    var p := PriceOfPages(considered, options);
    var d := options.pagesPerSheet;
    assert SheetDivisor(options) == d;
    assert (p.sheets - 1) * d == p.sheets * d - d;
  }

  /** The considered pages never exceed the document's page count. */
  lemma ConsideredPagesAtMostPageCount(pages: int, options: NormalizedOptions)
    ensures ConsideredPages(pages, options) <= SafePages(pages)
  {
    var safePages := SafePages(pages);
    var selected := PageSet(RangeText(options, safePages), safePages);
    assert selected <= Span(1, safePages);
    SpanCardinality(1, safePages);
    SubsetCardinality(selected, Span(1, safePages));
  }

  lemma SubsetCardinality(a: set<int>, b: set<int>)
    requires a <= b
    ensures |a| <= |b|
  {
    assert b == a + (b - a);
  }

  /** A range text without commas is a single token. */
  lemma SingleTokenText(text: string, totalPages: int)
    requires ',' !in text
    ensures PageSet(text, totalPages) == TokenPages(text, totalPages)
  {
    SplitFree(text, ',');
    TokensPagesSingleton(text, totalPages);
  }

  lemma TokensPagesSingleton(token: string, totalPages: int)
    ensures TokensPages([token], totalPages) == TokenPages(token, totalPages)
  {
    assert [token][..0] == [];
  }

  /** A blank token adds no page. */
  lemma TokensPagesBlank(parts: seq<string>, blank: string, totalPages: int)
    requires Trim(blank) == []
    ensures TokensPages(parts + [blank], totalPages) == TokensPages(parts, totalPages)
  {
    assert (parts + [blank])[..|parts|] == parts;
  }

  /** A string of digits holds no non-digit character. */
  lemma DigitsExclude(s: string, c: char)
    requires AllDigits(s) && !IsDigit(c)
    ensures c !in s
  {
    forall i | 0 <= i < |s| ensures s[i] != c {
      assert IsDigit(s[i]);
    }
  }

  /** Two digit strings joined by a dash split back into the two. */
  lemma SplitDigitsAtDash(a: string, b: string)
    requires AllDigits(a) && AllDigits(b)
    ensures '-' in a + "-" + b
    ensures Split(a + "-" + b, '-') == [a, b]
  {
    assert (a + "-" + b)[|a|] == '-';
    DigitsExclude(a, '-');
    DigitsExclude(b, '-');
    assert a + "-" + b == Join([a, b], '-');
    SplitJoin([a, b], '-');
  }

  /** A token "a-b" of two digit strings, either of which may be empty, is the span from a to b, clamped. */
  lemma DigitsSpanToken(a: string, b: string, totalPages: int)
    requires AllDigits(a) && AllDigits(b)
    ensures ParseToken(a + "-" + b, totalPages) == Range(SpanStart(a), SpanEnd(b, totalPages))
  {
    var text := a + "-" + b;
    assert Trim(text) == text by {
      assert text[0] == if a == [] then '-' else a[0];
      assert text[|text| - 1] == if b == [] then '-' else b[|b| - 1];
      assert a != [] ==> IsDigit(a[0]);
      assert b != [] ==> IsDigit(b[|b| - 1]);
      TrimUnchanged(text);
    }
    SplitDigitsAtDash(a, b);
  }

  /** The range text "a-b" of two digit strings selects the span from a to b, clamped. */
  lemma DigitsSpanPages(a: string, b: string, totalPages: int)
    requires AllDigits(a) && AllDigits(b)
    ensures PageSet(a + "-" + b, totalPages) == Span(SpanStart(a), SpanEnd(b, totalPages))
  {
    DigitsExclude(a, ',');
    DigitsExclude(b, ',');
    assert ',' !in a + "-" + b;
    SingleTokenText(a + "-" + b, totalPages);
    DigitsSpanToken(a, b, totalPages);
  }

  /** The text "m-n", written in decimal, selects the clamped span from m to n. */
  lemma DecimalSpanPages(m: nat, n: nat, totalPages: int)
    ensures PageSet(NatToDecimal(m) + "-" + NatToDecimal(n), totalPages)
            == Span(Max(1, OrDefault(Some(m), 1)), Min(totalPages, OrDefault(Some(n), totalPages)))
  {
    DigitsSpanPages(NatToDecimal(m), NatToDecimal(n), totalPages);
    ParseIntOfDecimal(m);
    ParseIntOfDecimal(n);
  }

  /** A span "-n" with no start begins at page 1. */
  lemma OpenStartSpanPages(n: nat, totalPages: int)
    ensures PageSet("-" + NatToDecimal(n), totalPages) == Span(1, Min(totalPages, OrDefault(Some(n), totalPages)))
  {
    assert "" + "-" + NatToDecimal(n) == "-" + NatToDecimal(n);
    DigitsSpanPages("", NatToDecimal(n), totalPages);
    ParseIntOfDecimal(n);
  }

  /** A span "m-" with no end runs to the last page. */
  lemma OpenEndSpanPages(m: nat, totalPages: int)
    ensures PageSet(NatToDecimal(m) + "-", totalPages) == Span(Max(1, OrDefault(Some(m), 1)), totalPages)
  {
    assert NatToDecimal(m) + "-" + "" == NatToDecimal(m) + "-";
    DigitsSpanPages(NatToDecimal(m), "", totalPages);
    ParseIntOfDecimal(m);
  }

  /** In custom mode an empty range text stands for "1-N" and selects every page. */
  lemma EmptyCustomRangeSelectsAll(pages: int, options: NormalizedOptions)
    requires options.pageRangeMode == "custom" && options.pageRange == []
    ensures ConsideredPages(pages, options) == SafePages(pages)
  {
    SpanCardinality(1, SafePages(pages));
  }

  /** A reversed span such as "5-3" selects nothing; an end of 0 would read as the last page. */
  lemma ReversedSpanSelectsNothing(m: nat, n: nat, totalPages: int)
    requires 1 <= n < m
    ensures PageSet(NatToDecimal(m) + "-" + NatToDecimal(n), totalPages) == {}
  {
    DecimalSpanPages(m, n, totalPages);
    assert Span(m, Min(totalPages, n)) == {};
  }

  /** Empty tokens after a comma-free first token add nothing. */
  lemma TrailingEmptyTokens(t: string, totalPages: int)
    requires ',' !in t
    ensures PageSet(t + ",,", totalPages) == TokenPages(t, totalPages)
  {
    var parts := [t, [], []];
    assert t + ",," == Join(parts, ',') by {
      assert Join(parts[2..], ',') == [];
      assert Join(parts[1..], ',') == [] + [','] + [];
    }
    SplitJoin(parts, ',');
    assert parts == [t] + [[]] + [[]];
    TokensPagesBlank([t] + [[]], [], totalPages);
    TokensPagesBlank([t], [], totalPages);
    TokensPagesSingleton(t, totalPages);
  }

  /** Text starting with something other than white space, a sign or a digit is `NaN`. */
  lemma NonNumericText(s: string)
    requires s != [] && !IsWhiteSpace(s[0]) && !IsDigit(s[0]) && s[0] != '-' && s[0] != '+'
    ensures ParseInt(s).None?
  {
  }

  /** A token that is not a span and has no leading digits counts as page 1. */
  lemma UnparseableToken(t: string, totalPages: int)
    requires totalPages >= 1
    requires Trim(t) != [] && '-' !in Trim(t) && ParseInt(Trim(t)).None?
    ensures ParseToken(t, totalPages) == Single(1)
  {
  }

  /**
   * A text such as "abc,," selects page 1 only: its one non-blank token does
   * not parse, and an unparseable single token counts as page 1.
   */
  lemma UnparseableTokenIsPageOne(t: string, totalPages: int)
    requires totalPages >= 1
    requires t != [] && ('a' <= t[0] <= 'z' || 'A' <= t[0] <= 'Z') && !IsWhiteSpace(t[|t| - 1])
    requires ',' !in t && '-' !in t
    ensures PageSet(t + ",,", totalPages) == {1}
  {
    assert ParseToken(t, totalPages) == Single(1) by {
      TrimUnchanged(t);
      NonNumericText(t);
      UnparseableToken(t, totalPages);
    }
    TrailingEmptyTokens(t, totalPages);
    assert TokenPages(t, totalPages) == Pages(Single(1));
  }

  /**
   * In custom mode a range such as "abc,," prices one page, not the whole
   * document: the set it selects, {1}, is not empty, so there is no fallback.
   */
  lemma UnparseableRangePricesOnePage(pages: int, options: NormalizedOptions, t: string)
    requires options.pageRangeMode == "custom" && options.pageRange == t + ",,"
    requires t != [] && ('a' <= t[0] <= 'z' || 'A' <= t[0] <= 'Z') && !IsWhiteSpace(t[|t| - 1])
    requires ',' !in t && '-' !in t
    ensures ConsideredPages(pages, options) == 1
  {
    UnparseableTokenIsPageOne(t, SafePages(pages));
  }

  /** 10 pages, one per sheet, colour, standard quality, single-sided, all pages. */
  lemma WorkedExampleColour()
    ensures CalculatePrice(10, NormalizedOptions("color", "single", 1, "A4", "standard", "all", "1-1"))
            == PriceBreakdown(2000, 4000, 1080, 7080, 10, 10)
  {
  }

  /** "1-3" on a 5-page document prices 3 pages. */
  lemma CustomRangeExample(options: NormalizedOptions)
    requires options.pageRangeMode == "custom" && options.pageRange == "1-3"
    ensures ConsideredPages(5, options) == 3
  {
    assert NatToDecimal(1) + "-" + NatToDecimal(3) == "1-3";
    DecimalSpanPages(1, 3, 5);
    SpanCardinality(1, 3);
  }

  /** 5 pages, two per sheet, monochrome, draft, double-sided, custom range "1-3". */
  lemma WorkedExampleDraftDuplex(options: NormalizedOptions)
    requires options == NormalizedOptions("monochrome", "double", 2, "A4", "draft", "custom", "1-3")
    ensures CalculatePrice(5, options) == PriceBreakdown(400, 0, 72, 472, 2, 3)
  {
    CustomRangeExample(options);
    DraftDuplexPrice(options);
  }

  /** 3 pages, two per sheet, draft and double-sided: the surcharges cancel out. */
  lemma DraftDuplexPrice(options: NormalizedOptions)
    requires options.pagesPerSheet == 2 && options.colorMode == "monochrome"
    requires options.quality == "draft" && options.duplex == "double"
    ensures PriceOfPages(3, options) == PriceBreakdown(400, 0, 72, 472, 2, 3)
  {
    assert SurchargePerSheet(options) == 0 && SheetDivisor(options) == 2;
    assert CeilDiv(3, 2) == 2;
  }
}
