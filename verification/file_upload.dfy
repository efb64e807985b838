/**
 * Upload validation of the file picker (src/components/FileUpload.jsx):
 * the size gate, the type gate and the page-count heuristic that counts the
 * matches of the regular expression `/\/Type\s*\/Page[^s]/g` in the file's
 * decoded text.
 *
 * A selected file is a value: its name, size in bytes, MIME type as the
 * browser reports it ("" when unknown) and its text as decoded from UTF-8,
 * or `None` when reading the file failed.
 */
module FileUpload {
  import opened Wrappers
  import opened JsText

  /** 10 MiB: the largest size accepted, inclusive. */
  const MaxFileSizeBytes: nat := 10 * 1024 * 1024

  /** The MIME types accepted as they are. */
  const AcceptedTypes: seq<string> := ["application/pdf", "image/png", "image/jpeg", "image/jpg", "image/gif"]

  const TooLargeMessage: string := "File is too large. Max size is 10MB."
  const UnsupportedMessage: string := "Unsupported file format. Please upload a PDF or image."

  datatype SelectedFile = SelectedFile(name: string, size: nat, fileType: string, text: Option<string>)

  /** `fileInfo` as stored after a successful selection. */
  datatype FileInfo = FileInfo(name: string, size: nat, fileType: string, pages: nat)

  /** What `onFileSelected` receives. */
  datatype Selection = Selection(file: SelectedFile, pageCount: nat)

  /** The three ways `handleFilesChange` ends. */
  datatype Outcome =
    | NoFile
    | Rejected(message: string)
    | Accepted(info: FileInfo, selection: Selection)

  /** `file.type || 'application/octet-stream'`. */
  function DetectedType(f: SelectedFile): (t: string)
    ensures f.fileType != [] ==> t == f.fileType
    ensures f.fileType == [] ==> t == "application/octet-stream"
    ensures t != []
  {
    if f.fileType != [] then f.fileType else "application/octet-stream"
  }

  /** `file.name.toLowerCase().endsWith('.pdf')`. */
  predicate HasPdfName(f: SelectedFile) {
    EndsWith(LowerAscii(f.name), ".pdf")
  }

  predicate IsAccepted(f: SelectedFile): (b: bool)
    ensures f.fileType in AcceptedTypes ==> b
    ensures f.fileType == [] ==> (b <==> HasPdfName(f))
  {
    DetectedType(f) in AcceptedTypes || HasPdfName(f)
  }

  predicate IsPdf(f: SelectedFile): (b: bool)
    ensures b ==> IsAccepted(f)
  {
    DetectedType(f) == "application/pdf" || HasPdfName(f)
  }

  // ---------------------------------------------------------------- the regular expression

  /** The text starts with "/Type". */
  predicate StartsWithType(s: string) {
    |s| >= 5 && s[..5] == "/Type"
  }

  /** The text starts with a match of `\/Type\s*\/Page[^s]` that is `len` characters long. */
  predicate IsMatch(s: string, len: nat) {
    len >= 11 && len <= |s| &&
    StartsWithType(s) &&
    (forall k :: 5 <= k < len - 6 ==> IsWhiteSpace(s[k])) &&
    s[len - 6..len - 1] == "/Page" &&
    s[len - 1] != 's'
  }

  /** The first index at or after `j` that is not white space, or the end of the text. */
  function SkipWhiteSpace(s: string, j: nat): (k: nat)
    requires j <= |s|
    ensures j <= k <= |s|
    ensures forall m :: j <= m < k ==> IsWhiteSpace(s[m])
    ensures k == |s| || !IsWhiteSpace(s[k])
    decreases |s| - j
  {
    if j == |s| || !IsWhiteSpace(s[j]) then j else SkipWhiteSpace(s, j + 1)
  }

  /**
   * Tries the pattern at the start of `s`. `\s*` is greedy, and since `/` is
   * not white space no shorter run of white space can lead to a match.
   */
  function MatchLength(s: string): (r: Option<nat>)
    ensures r.Some? ==> 11 <= r.value <= |s|
  {
    if StartsWithType(s) then
      var j := SkipWhiteSpace(s, 5);
      if j + 6 <= |s| && s[j..j + 5] == "/Page" && s[j + 5] != 's' then Some(j + 6) else None
    else
      None
  }

  /** The matcher finds a match exactly when there is one, and then the only one. */
  lemma MatchLengthCorrect(s: string)
    ensures var r := MatchLength(s);
            (r.Some? ==> IsMatch(s, r.value)) &&
            (forall len: nat :: IsMatch(s, len) ==> r == Some(len))
  {
    if StartsWithType(s) {
      MatchLengthUnique(s, SkipWhiteSpace(s, 5));
    }
  }

  /** Every match ends right after the white space that follows "/Type". */
  lemma MatchLengthUnique(s: string, j: nat)
    requires 5 <= j <= |s|
    requires forall m :: 5 <= m < j ==> IsWhiteSpace(s[m])
    requires j == |s| || !IsWhiteSpace(s[j])
    ensures forall len :: IsMatch(s, len) ==> len == j + 6
  {
    forall len | IsMatch(s, len)
      ensures len == j + 6
    {
      var e := len - 6;
      assert s[e] == '/' by { assert s[e..e + 5][0] == s[e]; }
    }
  }

  /**
   * `text.match(re).length` with the `g` flag: the leftmost match counts and
   * the search resumes right after it; where no match starts, one character
   * is skipped.
   */
  function CountMatches(text: string): (n: nat)
    ensures n <= |text|
    decreases |text|
  {
    if text == [] then 0
    else match MatchLength(text)
      case Some(len) => 1 + CountMatches(text[len..])
      case None => CountMatches(text[1..])
  }

  /**
   * `matches ? matches.length : 1`: a PDF whose text has no match, or whose
   * text could not be read, counts as one page.
   */
  function PdfPageCount(text: Option<string>): (pages: nat)
    ensures pages >= 1
    ensures text.Some? && CountMatches(text.value) > 0 ==> pages == CountMatches(text.value)
    ensures text.None? || CountMatches(text.value) == 0 ==> pages == 1
  {
    match text
    case None => 1
    case Some(t) => if CountMatches(t) == 0 then 1 else CountMatches(t)
  }

  // ---------------------------------------------------------------- the handler

  /** `handleFilesChange` on the browser's file list. */
  function HandleFilesChange(files: seq<SelectedFile>): (out: Outcome)
    ensures files == [] <==> out.NoFile?
    ensures files != [] && files[0].size > MaxFileSizeBytes ==> out == Rejected(TooLargeMessage)
    ensures files != [] && files[0].size <= MaxFileSizeBytes && !IsAccepted(files[0]) ==>
              out == Rejected(UnsupportedMessage)
    ensures out.Accepted? <==> files != [] && files[0].size <= MaxFileSizeBytes && IsAccepted(files[0])
    ensures out.Accepted? ==>
              var f := files[0];
              out.info == FileInfo(f.name, f.size, DetectedType(f), out.info.pages) &&
              out.selection == Selection(f, out.info.pages) &&
              out.info.pages >= 1 &&
              (IsPdf(f) ==> out.info.pages == PdfPageCount(f.text)) &&
              (!IsPdf(f) ==> out.info.pages == 1)
  {
    if files == [] then NoFile
    else
      var f := files[0];
      if f.size > MaxFileSizeBytes then Rejected(TooLargeMessage)
      else if !IsAccepted(f) then Rejected(UnsupportedMessage)
      else
        var pageCount := if IsPdf(f) then PdfPageCount(f.text) else 1;
        Accepted(FileInfo(f.name, f.size, DetectedType(f), pageCount), Selection(f, pageCount))
  }

  /** The component's visible state: the error banner and the file summary. */
  datatype UploadState = UploadState(errorMessage: string, fileInfo: Option<FileInfo>)

  /**
   * The state after the handler: the error is cleared first, a rejection
   * shows its message and drops the summary, no file leaves the summary as it was.
   */
  function Apply(s: UploadState, out: Outcome): (t: UploadState)
    ensures out.NoFile? ==> t == s.(errorMessage := "")
    ensures out.Rejected? ==> t.errorMessage == out.message && t.fileInfo.None?
    ensures out.Accepted? ==> t.errorMessage == "" && t.fileInfo == Some(out.info)
  {
    match out
    case NoFile => s.(errorMessage := "")
    case Rejected(m) => UploadState(m, None)
    case Accepted(info, _) => UploadState("", Some(info))
  }

  // ---------------------------------------------------------------- properties

  /** Exactly 10 MiB passes the size gate; one byte more does not, whatever the type. */
  lemma SizeLimitInclusive(f: SelectedFile, g: SelectedFile)
    requires f.size == 10 * 1024 * 1024 && IsAccepted(f)
    requires g.size == 10 * 1024 * 1024 + 1
    ensures HandleFilesChange([f]).Accepted?
    ensures HandleFilesChange([g]) == Rejected(TooLargeMessage)
  {
  }

  /** The size check comes first: an oversized file of an unsupported type is reported as too large. */
  lemma SizeCheckedBeforeType(f: SelectedFile)
    requires f.size > MaxFileSizeBytes && !IsAccepted(f)
    ensures HandleFilesChange([f]).message == TooLargeMessage
  {
  }

  /** A file of unknown type is judged as `application/octet-stream`: only a `.pdf` name admits it. */
  lemma UnknownTypeNeedsPdfName(f: SelectedFile)
    requires f.fileType == [] && f.size <= MaxFileSizeBytes
    ensures HandleFilesChange([f]).Accepted? <==> HasPdfName(f)
  {
    assert "application/octet-stream" !in AcceptedTypes;
  }

  /** A PDF name in any letter case admits the file, whatever type the browser reported. */
  lemma UpperCasePdfNameAccepted(f: SelectedFile, stem: string)
    requires f.name == stem + ".PDF" && f.size <= MaxFileSizeBytes
    ensures HandleFilesChange([f]).Accepted?
    ensures HandleFilesChange([f]).info.pages == PdfPageCount(f.text)
  {
    var lower := LowerAscii(f.name);
    assert lower[|lower| - 4..] == ".pdf";
  }

  /** Only the first selected file is looked at. */
  lemma OnlyFirstFile(files: seq<SelectedFile>, more: seq<SelectedFile>)
    requires files != []
    ensures HandleFilesChange(files + more) == HandleFilesChange(files[..1])
  {
    assert (files + more)[0] == files[..1][0];
  }

  /** A match found at the start of the text counts once, and counting goes on after it. */
  lemma LeadingMatchCounted(m: string, rest: string)
    requires IsMatch(m, |m|)
    ensures CountMatches(m + rest) == 1 + CountMatches(rest)
  {
    var text := m + rest;
    assert IsMatch(text, |m|) by {
      assert text[..5] == m[..5];
      assert text[|m| - 6..|m| - 1] == m[|m| - 6..|m| - 1];
      assert forall k :: 0 <= k < |m| ==> text[k] == m[k];
    }
    MatchLengthCorrect(text);
    assert text[|m|..] == rest;
  }

  /** Every match takes at least 11 characters, so a text holds at most a eleventh as many matches. */
  lemma {:induction false} CountMatchesBound(text: string)
    ensures CountMatches(text) * 11 <= |text|
    decreases |text|
  {
    if text != [] {
      var r := MatchLength(text);
      if r.Some? {
        CountMatchesBound(text[r.value..]);
      } else {
        CountMatchesBound(text[1..]);
      }
    }
  }

  /** A text in which no "/Type" starts anywhere has no match. */
  lemma {:induction false} NoTypeNoMatch(text: string)
    requires forall i :: 0 <= i <= |text| ==> !StartsWithType(text[i..])
    ensures CountMatches(text) == 0
    decreases |text|
  {
    if text != [] {
      assert !StartsWithType(text[0..]) && text[0..] == text;
      forall i | 0 <= i <= |text[1..]|
        ensures !StartsWithType(text[1..][i..])
      {
        assert text[1..][i..] == text[i + 1..];
      }
      NoTypeNoMatch(text[1..]);
    }
  }

  /**
   * A `/Pages` tree node, and a `/Page` that ends the text, are not counted:
   * each of these texts holds no match, so it counts as one page.
   */
  lemma PagesNodeNotCounted(w: string, tail: string)
    requires forall k :: 0 <= k < |w| ==> IsWhiteSpace(w[k])
    requires tail == "" || tail == "s"
    ensures CountMatches("/Type" + w + "/Page" + tail) == 0
    ensures PdfPageCount(Some("/Type" + w + "/Page" + tail)) == 1
  {
    var text := "/Type" + w + "/Page" + tail;
    var n := |w|;
    assert |text| == 10 + n + |tail|;
    assert forall k :: 0 <= k < n ==> text[5 + k] == w[k];
    assert text[5 + n..10 + n] == "/Page";
    forall q | 0 <= q <= |text[1..]|
      ensures !StartsWithType(text[1..][q..])
    {
      var i := q + 1;
      assert text[1..][q..] == text[i..];
      if i + 5 <= |text| {
        assert text[i..][..5][0] == text[i];
        if i < 5 {
          assert text[i] in "Type";
        } else if i < 5 + n {
          assert text[i] == w[i - 5];
        } else if i == 5 + n {
          assert text[i..][..5][1] == 'P';
        } else {
          assert text[i] == text[5 + n..10 + n][i - 5 - n];
        }
      }
    }
    NoTypeNoMatch(text[1..]);
    var j := SkipWhiteSpace(text, 5);
    assert !IsWhiteSpace(text[5 + n]);
    assert j == 5 + n;
    MatchLengthCorrect(text);
    assert MatchLength(text).None?;
  }
}
