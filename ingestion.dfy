/**
 * The server side of the uploader: the type allow-list the upload
 * middleware consults, the storage rules (fixed directory, timestamped
 * name) and the choice of response of the POST /upload route.
 *
 * The clock is a parameter: `now` is the millisecond timestamp read when
 * the stored name is built.
 */
module Ingestion {

  datatype Option<T> = None | Some(value: T)

  // ---------------------------------------------------------------------
  // Type allow-list
  // ---------------------------------------------------------------------

  const AllowedTypes: seq<string> := [
    "image/jpeg",
    "image/png",
    "application/pdf",
    "application/msword",
    "application/vnd.openxmlformats-officedocument.wordprocessingml.document"
  ]

  const UnsupportedTypeError: string := "Unsupported file type"

  /** Membership test of a list of strings, scanning from the front. */
  function Includes(list: seq<string>, x: string): (b: bool)
    ensures b <==> exists i :: 0 <= i < |list| && list[i] == x
    decreases |list|
  {
    if list == [] then false
    else if list[0] == x then true
    else Includes(list[1..], x)
  }

  /** The filter's verdict: keep the file, or fail the request with an
      error. */
  datatype FilterDecision = Accept | Reject(error: string)

  function FileFilter(mimetype: string): (d: FilterDecision)
    ensures d == Accept <==>
      || mimetype == "image/jpeg"
      || mimetype == "image/png"
      || mimetype == "application/pdf"
      || mimetype == "application/msword"
      || mimetype == "application/vnd.openxmlformats-officedocument.wordprocessingml.document"
    ensures d != Accept ==> d == Reject(UnsupportedTypeError)
  {
    if Includes(AllowedTypes, mimetype) then Accept else Reject(UnsupportedTypeError)
  }

  // ---------------------------------------------------------------------
  // Stored names: decimal timestamp, '-', original name
  // ---------------------------------------------------------------------

  predicate IsDigit(c: char)
  {
    '0' <= c <= '9'
  }

  predicate AllDigits(s: string)
  {
    forall i :: 0 <= i < |s| ==> IsDigit(s[i])
  }

  function DigitChar(d: nat): (c: char)
    requires d < 10
    ensures IsDigit(c)
  {
    ('0' as int + d) as char
  }

  function DigitValue(c: char): (d: nat)
    requires IsDigit(c)
    ensures d < 10 && DigitChar(d) == c
  {
    c as int - '0' as int
  }

  /** How a non-negative integer prints in JavaScript: decimal digits,
      no sign, no leading zero. */
  function DecimalString(n: nat): (s: string)
    ensures |s| > 0 && AllDigits(s)
    ensures s[0] == '0' ==> n == 0 && s == "0"
    decreases n
  {
    if n < 10 then [DigitChar(n)]
    else DecimalString(n / 10) + [DigitChar(n % 10)]
  }

  /** The value of a string of decimal digits. */
  function ParseDecimal(s: string): nat
    requires AllDigits(s)
    decreases |s|
  {
    if s == [] then 0
    else ParseDecimal(s[..|s| - 1]) * 10 + DigitValue(s[|s| - 1])
  }

  lemma {:induction false} ParseDecimalString(n: nat)
    ensures ParseDecimal(DecimalString(n)) == n
    decreases n
  {
    var s := DecimalString(n);
    if n < 10 {
      assert s[..0] == [];
    } else {
      ParseDecimalString(n / 10);
      assert s[..|s| - 1] == DecimalString(n / 10);
    }
  }

  /** The storage rule for names: the timestamp, a hyphen, then the
      original name as the client sent it. */
  function StoredName(now: nat, originalName: string): string
  {
    DecimalString(now) + "-" + originalName
  }

  /** Position of the first occurrence of `c` in `s`. */
  function IndexOf(s: string, c: char): (r: Option<nat>)
    ensures r.None? ==> forall j :: 0 <= j < |s| ==> s[j] != c
    ensures r.Some? ==> r.value < |s| && s[r.value] == c
    ensures r.Some? ==> forall j :: 0 <= j < r.value ==> s[j] != c
    decreases |s|
  {
    if s == [] then None
    else if s[0] == c then Some(0)
    else match IndexOf(s[1..], c)
      case None => None
      case Some(i) => Some(i + 1)
  }

  datatype NameParts = NameParts(timestamp: nat, originalName: string)

  /** Reading a stored name back: split at the first hyphen, the part
      before it must be a non-empty string of digits. */
  function ParseStoredName(s: string): Option<NameParts>
  {
    match IndexOf(s, '-')
    case None => None
    case Some(i) =>
      if i > 0 && AllDigits(s[..i]) then Some(NameParts(ParseDecimal(s[..i]), s[i + 1..]))
      else None
  }

  /** The timestamp's digits hold no hyphen, so splitting a stored name at
      its first hyphen recovers the timestamp and the exact original name,
      whatever hyphens the original name itself contains. */
  lemma StoredNameRoundTrip(now: nat, originalName: string)
    ensures ParseStoredName(StoredName(now, originalName)) == Some(NameParts(now, originalName))
  {
    var d := DecimalString(now);
    var s := StoredName(now, originalName);
    assert s[|d|] == '-';
    forall j | 0 <= j < |d| ensures s[j] != '-' {
      assert s[j] == d[j] && IsDigit(d[j]);
    }
    var r := IndexOf(s, '-');
    assert r == Some(|d|);
    assert s[..|d|] == d;
    assert s[|d| + 1..] == originalName;
    ParseDecimalString(now);
  }

  /** Two stored names coincide only when both the timestamps and the
      original names do. */
  lemma StoredNameInjective(t1: nat, n1: string, t2: nat, n2: string)
    requires StoredName(t1, n1) == StoredName(t2, n2)
    ensures t1 == t2 && n1 == n2
  {
    StoredNameRoundTrip(t1, n1);
    StoredNameRoundTrip(t2, n2);
  }

  // ---------------------------------------------------------------------
  // Storage and the route
  // ---------------------------------------------------------------------

  /** The directory next to the server script where files are written. */
  const UploadDirectory: string := "uploads"

  /** The part of the multipart body under the field `file`, as the
      middleware describes it before storing it. */
  datatype IncomingFile = IncomingFile(originalName: string, mimetype: string)

  /** What the middleware records for a stored file. */
  datatype StoredFile = StoredFile(originalName: string, mimetype: string,
                                   destination: string, filename: string)

  /** The storage destination rule ignores the file it is asked about. */
  function Destination(file: IncomingFile): (dir: string)
    ensures dir == UploadDirectory
  {
    UploadDirectory
  }

  function Store(file: IncomingFile, now: nat): (s: StoredFile)
    ensures s.destination == UploadDirectory
    ensures s.originalName == file.originalName && s.mimetype == file.mimetype
    ensures s.filename == StoredName(now, file.originalName)
    ensures ParseStoredName(s.filename) == Some(NameParts(now, file.originalName))
  {
    StoredNameRoundTrip(now, file.originalName);
    StoredFile(file.originalName, file.mimetype, Destination(file), StoredName(now, file.originalName))
  }

  datatype Body = PlainText(text: string) | FilenameJson(filename: string)
  datatype Response = Response(status: nat, body: Body)

  const NoFileMessage: string := "No file uploaded or invalid file type."

  /** The route handler, run after the middleware: it answers 400 when no
      file was stored and 200 with the stored name otherwise. */
  function HandleUpload(file: Option<StoredFile>): (r: Response)
    ensures r.status == 200 || r.status == 400
    ensures r.status == 400 <==> file.None?
    ensures file.None? ==> r.body == PlainText(NoFileMessage)
    ensures file.Some? ==> r.body == FilenameJson(file.value.filename)
  {
    match file
    case None => Response(400, PlainText(NoFileMessage))
    case Some(f) => Response(200, FilenameJson(f.filename))
  }

  /** What one POST /upload ends in: a response from the route handler, or
      the filter's error handed to the framework's error handling. */
  datatype RequestResult = Responded(response: Response) | Failed(error: string)

  /** One request: filter, then store, then the route handler. */
  function ProcessUpload(part: Option<IncomingFile>, now: nat): (r: RequestResult)
    ensures part.None? ==> r == Responded(Response(400, PlainText(NoFileMessage)))
    ensures part.Some? && FileFilter(part.value.mimetype) == Accept ==>
      r == Responded(Response(200, FilenameJson(StoredName(now, part.value.originalName))))
    ensures part.Some? && FileFilter(part.value.mimetype) != Accept ==>
      r == Failed(UnsupportedTypeError)
  {
    match part
    case None => Responded(HandleUpload(None))
    case Some(f) =>
      match FileFilter(f.mimetype)
      case Accept => Responded(HandleUpload(Some(Store(f, now))))
      case Reject(e) => Failed(e)
  }

  /** A 200 answer happens only for a file of an allowed type, and the
      name it reports reads back as the timestamp and the original name. */
  lemma SuccessOnlyForAllowedFile(part: Option<IncomingFile>, now: nat)
    requires ProcessUpload(part, now).Responded?
    requires ProcessUpload(part, now).response.status == 200
    ensures part.Some? && part.value.mimetype in AllowedTypes
    ensures ProcessUpload(part, now).response.body.FilenameJson?
    ensures ParseStoredName(ProcessUpload(part, now).response.body.filename)
              == Some(NameParts(now, part.value.originalName))
  {
  }

  /** A file the filter rejects never reaches storage: the request yields
      no response carrying a stored name. */
  lemma RejectedFileNeverStored(f: IncomingFile, now: nat)
    requires f.mimetype !in AllowedTypes
    ensures ProcessUpload(Some(f), now) == Failed(UnsupportedTypeError)
  {
  }

  /** Uploading `report.pdf` as a PDF yields 200 and a name of the form
      digits, hyphen, `report.pdf`. */
  lemma ReportPdfIsStored(now: nat)
    ensures var r := ProcessUpload(Some(IncomingFile("report.pdf", "application/pdf")), now);
      && r == Responded(Response(200, FilenameJson(DecimalString(now) + "-report.pdf")))
      && AllDigits(DecimalString(now))
  {
    var f := IncomingFile("report.pdf", "application/pdf");
    assert FileFilter(f.mimetype) == Accept;
    assert StoredName(now, f.originalName) == DecimalString(now) + "-report.pdf";
  }

  /** An executable's content type is refused. */
  lemma ExecutableIsRefused(now: nat)
    ensures ProcessUpload(Some(IncomingFile("virus.exe", "application/x-msdownload")), now)
              == Failed(UnsupportedTypeError)
  {
  }
}
