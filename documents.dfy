/**
 * The document pipeline of `process_documents_gemini`: each uploaded file is read,
 * dispatched on its declared MIME type to a format reader, and its text and the
 * tables detected in that text are appended to two running strings, in upload
 * order. A file whose read raises is skipped and the loop goes on.
 */
module Documents {
  import opened Wrappers
  import opened Text
  import opened Tables

  newtype byte = x: int | 0 <= x < 256

  /** The raw content of an uploaded file. */
  type Bytes = seq<byte>

  const PdfType: string := "application/pdf"
  const DocxType: string := "application/vnd.openxmlformats-officedocument.wordprocessingml.document"
  const TextType: string := "text/plain"
  const SpreadsheetType: string := "application/vnd.openxmlformats-officedocument.spreadsheetml.sheet"

  /** The declared types the pipeline knows how to read. */
  const SupportedTypes: set<string> := {PdfType, DocxType, TextType, SpreadsheetType}

  /** What the dispatch on the declared type selects. */
  datatype Format = Pdf | Docx | PlainText | Spreadsheet | Unrecognised

  /** The closed dispatch on the declared MIME string; the comparisons are exact. */
  function FormatOf(mime: string): (f: Format)
    ensures f == Unrecognised <==> mime !in SupportedTypes
    ensures f == Pdf <==> mime == PdfType
    ensures f == PlainText <==> mime == TextType
    ensures f == Docx <==> mime == DocxType
    ensures f == Spreadsheet <==> mime == SpreadsheetType
  {
    if mime == PdfType then Pdf
    else if mime == DocxType then Docx
    else if mime == TextType then PlainText
    else if mime == SpreadsheetType then Spreadsheet
    else Unrecognised
  }

  /** The four format readers. Each catches its own failures and then returns what it
      had read before the failure (the empty string when nothing was read), so each is
      a total function here. */
  datatype Readers = Readers(
    pdf: Bytes -> string,
    docx: Bytes -> string,
    text: Bytes -> string,
    spreadsheet: Bytes -> string)

  /** An uploaded file; `body` is `None` when reading it raises. */
  datatype UploadedFile = UploadedFile(name: string, mime: string, body: Option<Bytes>)

  /** The content the file contributes: the selected reader's text, a single space for
      an unrecognised type, or nothing at all when the file cannot be read. */
  function ContentOf(file: UploadedFile, readers: Readers): (c: Option<string>)
    ensures c.None? <==> file.body.None?
    ensures file.body.Some? && FormatOf(file.mime) == Unrecognised ==> c == Some(" ")
  {
    match file.body
    case None => None
    case Some(bytes) =>
      Some(match FormatOf(file.mime)
           case Pdf => readers.pdf(bytes)
           case Docx => readers.docx(bytes)
           case PlainText => readers.text(bytes)
           case Spreadsheet => readers.spreadsheet(bytes)
           case Unrecognised => " ")
  }

  /** The two accumulated strings: all content, and all detected tables. */
  datatype Combined = Combined(content: string, tables: string)
  {
    /** Appending a further contribution to both strings. */
    function Then(other: Combined): Combined
    {
      Combined(content + other.content, tables + other.tables)
    }
  }

  /** What one file adds to the two strings. */
  function Contribution(file: UploadedFile, readers: Readers, render: Renderer): Combined
  {
    match ContentOf(file, readers)
    case None => Combined("", "")
    case Some(c) => Combined(c, TablesOf(c, render))
  }

  /** The two strings after processing `files` in order. */
  function Combine(files: seq<UploadedFile>, readers: Readers, render: Renderer): Combined
  {
    if files == [] then Combined("", "")
    else Combine(files[..|files| - 1], readers, render).Then(Contribution(files[|files| - 1], readers, render))
  }

  /** `process_documents_gemini`: read, dispatch and accumulate each file in turn; a file
      that cannot be read is logged and skipped. */
  method ProcessDocuments(files: seq<UploadedFile>, readers: Readers, render: Renderer)
    returns (content: string, tables: string)
    ensures Combined(content, tables) == Combine(files, readers, render)
  {
    content, tables := "", "";
    for i := 0 to |files|
      invariant Combined(content, tables) == Combine(files[..i], readers, render)
    {
      var file := files[i];
      assert files[..i + 1][..i] == files[..i];
      match file.body {
        case None =>
        case Some(bytes) =>
          var text: string;
          if file.mime == PdfType {
            text := readers.pdf(bytes);
          } else if file.mime == DocxType {
            text := readers.docx(bytes);
          } else if file.mime == TextType {
            text := readers.text(bytes);
          } else if file.mime == SpreadsheetType {
            text := readers.spreadsheet(bytes);
          } else {
            text := " ";
          }
          var found := ExtractTables(text, render);
          tables := tables + found;
          content := content + text;
      }
    }
    assert files[..|files|] == files;
  }

  /** Processing two batches one after the other is processing them together: the
      contributions are concatenated in upload order. */
  lemma {:induction false} CombineAppend(a: seq<UploadedFile>, b: seq<UploadedFile>, readers: Readers, render: Renderer)
    ensures Combine(a + b, readers, render) == Combine(a, readers, render).Then(Combine(b, readers, render))
    decreases |b|
  {
    if b == [] {
      assert a + b == a;
    } else {
      var b' := b[..|b| - 1];
      var last := Contribution(b[|b| - 1], readers, render);
      CombineAppend(a, b', readers, render);
      assert (a + b)[..|a + b| - 1] == a + b';
      assert (a + b)[|a + b| - 1] == b[|b| - 1];
      assert Combine(a + b, readers, render) == Combine(a + b', readers, render).Then(last);
      assert Combine(b, readers, render) == Combine(b', readers, render).Then(last);
      ThenAssociative(Combine(a, readers, render), Combine(b', readers, render), last);
    }
  }

  /** Appending contributions is associative. */
  lemma ThenAssociative(x: Combined, y: Combined, z: Combined)
    ensures x.Then(y).Then(z) == x.Then(y.Then(z))
  {
    assert x.content + y.content + z.content == x.content + (y.content + z.content);
    assert x.tables + y.tables + z.tables == x.tables + (y.tables + z.tables);
  }

  /** A file whose read raises contributes nothing, and the files after it are still
      processed. */
  lemma UnreadableFileSkipped(before: seq<UploadedFile>, file: UploadedFile, after: seq<UploadedFile>,
                              readers: Readers, render: Renderer)
    requires file.body.None?
    ensures Combine(before + [file] + after, readers, render) == Combine(before + after, readers, render)
  {
    var none := Combined("", "");
    CombineAppend(before + [file], after, readers, render);
    CombineAppend(before, [file], readers, render);
    CombineAppend(before, after, readers, render);
    assert [file][..0] == [];
    assert Contribution(file, readers, render) == none;
    assert Combine([file], readers, render) == none.Then(none) == none;
    var b := Combine(before, readers, render);
    assert b.Then(none) == b;
    assert Combine(before + [file], readers, render) == b;
  }

  /** The text of a single space opens no table. */
  lemma SpaceHasNoTables(render: Renderer)
    ensures TablesOf(" ", render) == ""
  {
    SingleLine(" ");
    var lines := [" "];
    forall k | 0 <= k < |Keywords| ensures !Contains(" ", Keywords[k]) {
      assert |Keywords[k]| > 1;
    }
    assert !IsTableStart(" ");
    assert StartsFrom(lines, 1) == [];
    assert StartIndices(lines) == [];
  }

  /** A readable file of an unrecognised type contributes one space of content and no
      tables. */
  lemma UnrecognisedTypeContribution(file: UploadedFile, readers: Readers, render: Renderer)
    requires file.body.Some? && file.mime !in SupportedTypes
    ensures Combine([file], readers, render) == Combined(" ", "")
  {
    SpaceHasNoTables(render);
    assert [file][..0] == [];
  }

  /** A readable file of a supported type contributes its reader's text and the tables
      detected in that text. */
  lemma SupportedTypeContribution(file: UploadedFile, readers: Readers, render: Renderer)
    requires file.body.Some? && file.mime in SupportedTypes
    ensures var text := ContentOf(file, readers).value;
      text == (if file.mime == PdfType then readers.pdf(file.body.value)
               else if file.mime == DocxType then readers.docx(file.body.value)
               else if file.mime == TextType then readers.text(file.body.value)
               else readers.spreadsheet(file.body.value))
      && Combine([file], readers, render) == Combined(text, TablesOf(text, render))
  {
    assert [file][..0] == [];
  }
}
