/** The per-document display rules of the `DocumentList` component
    (src/components/DocumentList.tsx): the file-type icon, the size label,
    the status badge, the MIME subtype line, the include checkbox, and which
    of the three views (skeleton, empty state, rows) is shown. */
module DocumentList {
  import opened Types
  import opened Strings

  /** The icons `getFileIcon` chooses between. */
  datatype FileIcon = TextIcon | SpreadsheetIcon | CodeIcon | GenericIcon

  /** `getFileIcon(type)`: the first matching test wins; matching is
      case-sensitive. */
  function FileIconFor(mime: string): FileIcon
  {
    if Contains(mime, "pdf") then TextIcon
    else if Contains(mime, "spreadsheet") || Contains(mime, "excel") then SpreadsheetIcon
    else if Contains(mime, "code") || Contains(mime, "json") then CodeIcon
    else GenericIcon
  }

  /** A PDF gets the text icon. */
  lemma PdfIcon()
    ensures FileIconFor("application/pdf") == TextIcon
  {
    var m := "application/pdf";
    assert m[12..15] == "pdf";
    ContainsAt(m, "pdf", 12);
  }

  /** A type naming "json" but containing no 'd' and no 'e' (so neither
      "pdf" nor a spreadsheet keyword), such as "application/json", gets the
      code icon. */
  lemma JsonIcon(mime: string, i: int)
    requires OccursAt(mime, "json", i) && 'd' !in mime && 'e' !in mime
    ensures FileIconFor(mime) == CodeIcon
  {
    MissingCharNotContained(mime, "pdf", 1);
    MissingCharNotContained(mime, "spreadsheet", 3);
    MissingCharNotContained(mime, "excel", 0);
    ContainsAt(mime, "json", i);
  }

  /** The tests are case-sensitive: a type without a lower-case 'd', 'e'
      or 'j' matches none of them, so "application/PDF" gets the generic
      icon although it names a PDF. */
  lemma GenericIconWithoutKeyLetters(mime: string)
    requires 'd' !in mime && 'e' !in mime && 'j' !in mime
    ensures FileIconFor(mime) == GenericIcon
  {
    MissingCharNotContained(mime, "pdf", 1);
    MissingCharNotContained(mime, "spreadsheet", 3);
    MissingCharNotContained(mime, "excel", 0);
    MissingCharNotContained(mime, "code", 3);
    MissingCharNotContained(mime, "json", 0);
  }

  /** "application/json" gets the code icon. */
  lemma ApplicationJsonIcon()
    ensures FileIconFor("application/json") == CodeIcon
  {
    var m := "application/json";
    assert m[12..16] == "json";
    JsonIcon(m, 12);
  }

  /** "application/PDF" gets the generic icon. */
  lemma UpperCasePdfIsGeneric()
    ensures FileIconFor("application/PDF") == GenericIcon
  {
    GenericIconWithoutKeyLetters("application/PDF");
  }

  /** A size as `formatFileSize` shows it: whole bytes, or tenths of a
      kilobyte or megabyte (the number `toFixed(1)` prints, times ten). */
  datatype SizeLabel = Bytes(count: nat) | Kilobytes(tenths: nat) | Megabytes(tenths: nat)

  const KB: nat := 1024
  const MB: nat := 1024 * 1024

  /** `(bytes / unit).toFixed(1)` as a count of tenths: the nearest tenth,
      a tie going to the larger. The quotient is exact in binary floating
      point for any size below 2^53, so no other rounding occurs. */
  function RoundTenths(bytes: nat, unit: nat): (tenths: nat)
    requires unit > 0
    ensures 2 * unit * tenths <= 20 * bytes + unit < 2 * unit * (tenths + 1)
  {
    var n := 20 * bytes + unit;
    var d := 2 * unit;
    DivBounds(n, d);
    n / d
  }

  lemma DivBounds(n: nat, d: nat)
    requires d > 0
    ensures d * (n / d) <= n < d * (n / d + 1)
  {
  }

  /** `formatFileSize(bytes)` as written: bytes below 1024, kilobytes below
      1024 * 1024, megabytes above. */
  function FormatFileSize(bytes: nat): (shown: SizeLabel)
    ensures shown.Bytes? <==> bytes < KB
    ensures shown.Kilobytes? <==> KB <= bytes < MB
    ensures shown.Bytes? ==> shown.count == bytes
    ensures shown.Kilobytes? ==> 2 * KB * shown.tenths <= 20 * bytes + KB < 2 * KB * (shown.tenths + 1)
    ensures shown.Megabytes? ==> 2 * MB * shown.tenths <= 20 * bytes + MB < 2 * MB * (shown.tenths + 1)
  {
    if bytes < KB then Bytes(bytes)
    else if bytes < MB then Kilobytes(RoundTenths(bytes, KB))
    else Megabytes(RoundTenths(bytes, MB))
  }

  /** The unit is chosen before rounding, so a size just under a megabyte
      is shown as "1024.0 KB" rather than "1.0 MB". */
  lemma KilobyteLabelReaches1024()
    ensures FormatFileSize(MB - 1) == Kilobytes(10240)
    ensures SizeText(FormatFileSize(MB - 1)) == "1024.0 KB"
  {
    assert RoundTenths(MB - 1, KB) == 10240;
    assert NatToString(1024) == "1024";
  }

  /** `formatFileSize` with the unit chosen after rounding: a size that
      would round to 1024.0 KB is shown in megabytes. */
  function FormatFileSizeRounded(bytes: nat): (shown: SizeLabel)
    ensures shown.Bytes? <==> bytes < KB
    ensures shown.Bytes? ==> shown.count == bytes
    ensures shown.Kilobytes? ==> 10 <= shown.tenths < 10240
    ensures shown.Megabytes? ==> shown.tenths >= 10
    ensures shown.Kilobytes? ==> 2 * KB * shown.tenths <= 20 * bytes + KB < 2 * KB * (shown.tenths + 1)
    ensures shown.Megabytes? ==> 2 * MB * shown.tenths <= 20 * bytes + MB < 2 * MB * (shown.tenths + 1)
  {
    if bytes < KB then Bytes(bytes)
    else
      var kilo := RoundTenths(bytes, KB);
      if kilo < 10240 then Kilobytes(kilo) else Megabytes(RoundTenths(bytes, MB))
  }

  /** The rank of a label's unit: bytes, then kilobytes, then megabytes. */
  function UnitRank(shown: SizeLabel): nat
  {
    match shown
    case Bytes(_) => 0
    case Kilobytes(_) => 1
    case Megabytes(_) => 2
  }

  /** A larger size never gets a smaller unit, as written or corrected. */
  lemma UnitMonotone(a: nat, b: nat)
    requires a <= b
    ensures UnitRank(FormatFileSize(a)) <= UnitRank(FormatFileSize(b))
    ensures UnitRank(FormatFileSizeRounded(a)) <= UnitRank(FormatFileSizeRounded(b))
  {
    if KB <= a && FormatFileSizeRounded(a).Megabytes? && b >= KB {
      var ka := RoundTenths(a, KB);
      var kb := RoundTenths(b, KB);
      assert 2 * KB * ka <= 20 * a + KB;
      assert 20 * b + KB < 2 * KB * (kb + 1);
      assert ka <= kb;
    }
  }

  /** `${n}` followed by one decimal digit: the text of a count of tenths. */
  function Tenths(tenths: nat): string
  {
    NatToString(tenths / 10) + "." + [DigitChar(tenths % 10)]
  }

  /** The text `formatFileSize` returns for a label. */
  function SizeText(shown: SizeLabel): string
  {
    match shown
    case Bytes(n) => NatToString(n) + " B"
    case Kilobytes(t) => Tenths(t) + " KB"
    case Megabytes(t) => Tenths(t) + " MB"
  }

  /** The byte count can be read back from a label in bytes: the text is
      the decimal digits of the count, then " B". */
  lemma BytesTextRoundTrip(bytes: nat)
    requires bytes < KB
    ensures var text := SizeText(FormatFileSize(bytes));
      |text| >= 3 && text[|text| - 2..] == " B"
      && (forall i :: 0 <= i < |text| - 2 ==> '0' <= text[i] <= '9')
      && ParseDigits(text[..|text| - 2]) == bytes
  {
    var digits := NatToString(bytes);
    var text := digits + " B";
    assert text[..|text| - 2] == digits;
    ParseNatToString(bytes);
  }

  /** The status icons of `getStatusInfo`. */
  datatype BadgeIcon = CheckIcon | ClockIcon | AlertIcon

  datatype StatusBadge = StatusBadge(icon: BadgeIcon, color: string)

  /** `getStatusInfo(status)`; a pending document takes the default case. */
  function StatusInfo(status: Status): (badge: StatusBadge)
    ensures badge.icon == CheckIcon <==> status == Completed
    ensures badge.icon == AlertIcon <==> status == Error
  {
    match status
    case Completed => StatusBadge(CheckIcon, "text-green-500")
    case Processing => StatusBadge(ClockIcon, "text-amber-500")
    case Error => StatusBadge(AlertIcon, "text-red-500")
    case Pending => StatusBadge(ClockIcon, "text-muted-foreground")
  }

  /** Different statuses get different badges, although pending and
      processing share the clock icon. */
  lemma StatusBadgeInjective(a: Status, b: Status)
    ensures StatusInfo(a) == StatusInfo(b) <==> a == b
    ensures StatusInfo(Pending).icon == StatusInfo(Processing).icon
  {
  }

  /** The include checkbox is enabled only for completed documents. */
  predicate IncludeEnabled(doc: Document)
  {
    doc.status == Completed
  }

  /** The include checkbox is enabled exactly when the badge shows the check. */
  lemma IncludeEnabledIffCheck(doc: Document)
    ensures IncludeEnabled(doc) <==> StatusInfo(doc.status).icon == CheckIcon
  {
  }

  /** `doc.type.split('/')[1]`: the text after the first '/' up to the next
      one; nothing (`undefined`) when the type has no '/'. */
  function MimeSubtype(mime: string): Option<string>
  {
    var parts := Split(mime, '/');
    if |parts| > 1 then Some(parts[1]) else None
  }

  /** A "type/subtype" string shows its subtype, whatever follows a further '/'. */
  lemma SubtypeOfTypeSlashSubtype(kind: string, sub: string, rest: string)
    requires '/' !in kind && '/' !in sub
    ensures MimeSubtype(kind + "/" + sub) == Some(sub)
    ensures MimeSubtype(kind + "/" + sub + "/" + rest) == Some(sub)
  {
    SplitAfterPiece(kind, '/', sub);
    SplitWithoutSeparator(sub, '/');
    SplitAfterPiece(sub, '/', rest);
    assert kind + "/" + sub + "/" + rest == kind + ['/'] + (sub + ['/'] + rest);
    SplitAfterPiece(kind, '/', sub + ['/'] + rest);
  }

  /** A type with no '/' shows no subtype. */
  lemma NoSlashNoSubtype(mime: string)
    requires '/' !in mime
    ensures MimeSubtype(mime) == None
  {
    SplitWithoutSeparator(mime, '/');
  }

  /** One row of the list. */
  datatype Row = Row(
    id: string,
    name: string,
    icon: FileIcon,
    subtype: Option<string>,
    size: string,
    badge: StatusBadge,
    checked: bool,
    includeEnabled: bool,
    highlighted: bool)

  /** What the component renders: three placeholder rows while loading, the
      empty state when there are no documents, or one row per document. */
  datatype ListView = Skeleton(placeholders: nat) | EmptyList | Rows(rows: seq<Row>)

  /** The row of one document, with the size label as `formatFileSize`
      writes it. */
  function RowFor(doc: Document): Row
  {
    Row(doc.id, doc.name, FileIconFor(doc.mimeType), MimeSubtype(doc.mimeType),
      SizeText(FormatFileSize(doc.size)), StatusInfo(doc.status),
      doc.selected, IncludeEnabled(doc), doc.selected)
  }

  /** The view: loading takes precedence over the documents, and an empty
      list shows the empty state; otherwise the rows follow the documents'
      order, one each, with the document's name, file icon, MIME subtype,
      size label and status badge, highlighted and checked exactly when
      selected. */
  function ListViewOf(documents: seq<Document>, loading: bool): (view: ListView)
    ensures loading ==> view == Skeleton(3)
    ensures !loading && documents == [] ==> view == EmptyList
    ensures !loading && documents != [] ==> view.Rows? && |view.rows| == |documents|
    ensures view.Rows? ==> forall k :: 0 <= k < |documents| ==>
      view.rows[k].id == documents[k].id && view.rows[k].name == documents[k].name
      && view.rows[k].icon == FileIconFor(documents[k].mimeType)
      && view.rows[k].subtype == MimeSubtype(documents[k].mimeType)
      && view.rows[k].size == SizeText(FormatFileSize(documents[k].size))
      && view.rows[k].badge == StatusInfo(documents[k].status)
      && view.rows[k].checked == view.rows[k].highlighted == documents[k].selected
      && (view.rows[k].includeEnabled <==> documents[k].status == Completed)
  {
    if loading then Skeleton(3)
    else if documents == [] then EmptyList
    else Rows(seq(|documents|, k requires 0 <= k < |documents| => RowFor(documents[k])))
  }
}
