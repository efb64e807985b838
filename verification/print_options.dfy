/**
 * The print-options panel (src/components/PrintOptions.jsx): the form's
 * record of choices, its defaults, the single-field update every control
 * performs, and the normalisation applied before the record is handed to
 * the preview and the price calculator.
 *
 * Every control of the form delivers its value as a string (the DOM's
 * `event.target.value`), so the form record holds strings; the default
 * `pagesPerSheet` is the number 1, which behaves exactly as the string "1"
 * under `Number`.  After normalisation `pagesPerSheet` is an integer.
 */
module PrintOptions {
  import opened Wrappers
  import opened JsText

  /** The form's record, as `useState` holds it. */
  datatype Options = Options(
    colorMode: string,
    duplex: string,
    pagesPerSheet: string,
    paperSize: string,
    quality: string,
    pageRangeMode: string,
    pageRange: string)

  /** The record handed on by `normalizeOptions`; "" stands for an absent field. */
  datatype NormalizedOptions = NormalizedOptions(
    colorMode: string,
    duplex: string,
    pagesPerSheet: int,
    paperSize: string,
    quality: string,
    pageRangeMode: string,
    pageRange: string)

  /** The names of the form's controls. */
  datatype Field = ColorMode | Duplex | PagesPerSheet | PaperSize | Quality | PageRangeMode | PageRange

  /**
   * The initial form state.  Its colour mode, "standard", is not one of the
   * three values the colour control offers.
   */
  const DefaultOptions: Options := Options("standard", "single", "1", "A4", "standard", "all", "1-1")

  /** The values the colour control offers. */
  const SelectableColorModes: set<string> := {"monochrome", "grayscale", "color"}

  lemma DefaultColorModeNotSelectable()
    ensures DefaultOptions.colorMode !in SelectableColorModes
  {
  }

  /** Reads one field of the form record. */
  function Get(o: Options, f: Field): string {
    match f
    case ColorMode => o.colorMode
    case Duplex => o.duplex
    case PagesPerSheet => o.pagesPerSheet
    case PaperSize => o.paperSize
    case Quality => o.quality
    case PageRangeMode => o.pageRangeMode
    case PageRange => o.pageRange
  }

  /** `handleChange`: `{ ...prev, [name]: value }`. */
  function HandleChange(prev: Options, name: Field, value: string): (next: Options)
    ensures Get(next, name) == value
    ensures forall f :: f != name ==> Get(next, f) == Get(prev, f)
  {
    match name
    case ColorMode => prev.(colorMode := value)
    case Duplex => prev.(duplex := value)
    case PagesPerSheet => prev.(pagesPerSheet := value)
    case PaperSize => prev.(paperSize := value)
    case Quality => prev.(quality := value)
    case PageRangeMode => prev.(pageRangeMode := value)
    case PageRange => prev.(pageRange := value)
  }

  /** Setting a field twice keeps only the second value. */
  lemma HandleChangeOverwrites(o: Options, f: Field, v1: string, v2: string)
    ensures HandleChange(HandleChange(o, f, v1), f, v2) == HandleChange(o, f, v2)
  {
  }

  /** Changes to two different fields do not interfere. */
  lemma HandleChangeCommutes(o: Options, f: Field, g: Field, v: string, w: string)
    requires f != g
    ensures HandleChange(HandleChange(o, f, v), g, w) == HandleChange(HandleChange(o, g, w), f, v)
  {
  }

  /**
   * `Number(s)` for the strings an integer control can hold: white space
   * around an optionally signed run of decimal digits, or nothing at all
   * (which is 0).  Every other string is read as `NaN` (`None`).
   */
  function ToNumber(s: string): (r: Option<int>)
    ensures Trim(s) == [] ==> r == Some(0)
  {
    var t := Trim(s);
    if t == [] then Some(0)
    else
      var body := SignStripped(t);
      if body == [] || !AllDigits(body) then None
      else if t[0] == '-' then Some(0 - DecimalValue(body) as int)
      else Some(DecimalValue(body))
  }

  /** `Number(String(n)) === n` for every non-negative integer. */
  lemma ToNumberOfDecimal(n: nat)
    ensures ToNumber(NatToDecimal(n)) == Some(n)
  {
    var s := NatToDecimal(n);
    assert IsDigit(s[0]) && IsDigit(s[|s| - 1]);
    TrimUnchanged(s);
    assert SignStripped(s) == s;
    DecimalValueOfNat(n);
  }

  /** `normalizeOptions`: `pagesPerSheet` becomes `Number(value) || 1`. */
  function NormalizeOptions(o: Options): (n: NormalizedOptions)
    ensures n.pagesPerSheet != 0
    ensures ToNumber(o.pagesPerSheet).Some? && ToNumber(o.pagesPerSheet).value != 0 ==>
              n.pagesPerSheet == ToNumber(o.pagesPerSheet).value
    ensures ToNumber(o.pagesPerSheet) in {None, Some(0)} ==> n.pagesPerSheet == 1
    ensures n.colorMode == o.colorMode && n.duplex == o.duplex && n.paperSize == o.paperSize
    ensures n.quality == o.quality && n.pageRangeMode == o.pageRangeMode && n.pageRange == o.pageRange
  {
    NormalizedOptions(o.colorMode, o.duplex, OrDefault(ToNumber(o.pagesPerSheet), 1),
                      o.paperSize, o.quality, o.pageRangeMode, o.pageRange)
  }

  /** Each value the pages-per-sheet control offers comes through normalisation unchanged. */
  lemma NormalizeSelectedPagesPerSheet(o: Options, v: nat)
    requires v in {1, 2, 4}
    ensures NormalizeOptions(HandleChange(o, PagesPerSheet, NatToDecimal(v))).pagesPerSheet == v
  {
    ToNumberOfDecimal(v);
  }

  /** The default record normalises to one page per sheet. */
  lemma NormalizeDefaults()
    ensures NormalizeOptions(DefaultOptions).pagesPerSheet == 1
  {
    ToNumberOfDecimal(1);
  }
}
