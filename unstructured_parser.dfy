/** The unstructured parser's two entry points, record parsing and schema
    inference, with the file-type dispatch and the error policy between them. */
module UnstructuredParser {
  import opened Wrappers
  import opened Streams
  import opened Markdown
  import opened FileTypes

  /** What one of the library's extraction routines does with a file: it
      returns the document's elements or raises an exception with a message. */
  datatype Extraction = Elements(elements: seq<Element>) | Raised(message: string)

  /** The extraction library as the parser calls it: file-type detection, the
      decoder for Markdown bytes and one extraction routine per binary type. */
  datatype Library = Library(
    detectors: Detectors,
    decode: Bytes -> string,
    partitionPdf: Bytes -> Extraction,
    partitionDocx: Bytes -> Extraction,
    partitionPptx: Bytes -> Extraction)

  /** The format options of a stream that uses this parser. */
  datatype UnstructuredFormat = UnstructuredFormat(skipUnprocessableFiles: bool)

  /** A stream's format configuration: this parser's options, or the options
      of some other parser (named by their printed form). */
  datatype FormatConfig = Unstructured(options: UnstructuredFormat) | OtherFormat(description: string)

  /** The exceptions the parser raises: a record parse error about one file,
      and the error for a format configuration that is not this parser's. */
  datatype Failure =
    | RecordParseError(filename: string, message: string)
    | ValueError(message: string)

  /** One output record; `parseError` is the `_ab_source_file_parse_error` field. */
  datatype Record = Record(content: Option<string>, documentKey: string, parseError: Option<string>)

  datatype Field = Field(fieldType: string, description: string)

  type Schema = map<string, Field>

  /** The schema every file of such a stream has. */
  const DiscoveredSchema: Schema := map[
    "content" := Field("string", "Content of the file as markdown. Might be null if the file could not be parsed"),
    "document_key" := Field("string", "Unique identifier of the document, e.g. the file path"),
    "_ab_source_file_parse_error" := Field("string", "Error message if the file could not be parsed even though the file is supported")
  ]

  /** The fixed first line of a record parse error's text. */
  const ParseErrorSummary: string :=
    "Error parsing record. This could be due to a mismatch between the config's file type and the actual file type, or because the file or record is not parseable. Contact Support if you need assistance."

  /** `str(e)` of an exception. */
  function ErrorText(e: Failure): string
  {
    match e
    case RecordParseError(filename, message) => ParseErrorSummary + "\nfilename=" + filename + " message=" + message
    case ValueError(message) => message
  }

  /** The text of a record parse error starts with the fixed summary and ends
      with the file name and then the message, so the original message of an
      extraction failure is kept verbatim at its end. */
  lemma ErrorTextCarriesFileAndMessage(filename: string, message: string)
    ensures var s, n := ErrorText(RecordParseError(filename, message)), |ParseErrorSummary|;
            && |s| == n + 19 + |filename| + |message|
            && s[..n] == ParseErrorSummary
            && s[n..n + 10] == "\nfilename="
            && s[n + 10..n + 10 + |filename|] == filename
            && s[n + 10 + |filename|..|s| - |message|] == " message="
            && s[|s| - |message|..] == message
  {
    var s, n := ErrorText(RecordParseError(filename, message)), |ParseErrorSummary|;
    assert s == ParseErrorSummary + "\nfilename=" + filename + " message=" + message;
    assert |" message="| == 9;
  }

  /** `_extract_format`: the stream's options, provided they are this parser's. */
  function ExtractFormat(config: FormatConfig): (r: Result<UnstructuredFormat, Failure>)
    ensures r.Ok? <==> config.Unstructured?
    ensures r.Ok? ==> r.value == config.options
    ensures r.Err? ==> r.error.ValueError?
  {
    match config
    case Unstructured(options) => Ok(options)
    case OtherFormat(description) => Err(ValueError("Invalid format config: " + description))
  }

  /** `_create_parse_error`: a record parse error about the given file. */
  function CreateParseError(file: RemoteFile, message: string): Failure
  {
    RecordParseError(file.uri, message)
  }

  /** The extraction routine of a binary document type. */
  function Partition(lib: Library, t: FileType, content: Bytes): Extraction
  {
    if t == PDF then lib.partitionPdf(content)
    else if t == DOCX then lib.partitionDocx(content)
    else lib.partitionPptx(content)
  }

  // ---------------------------------------------------------------------------
  // Detection and reading on the open file

  /** `_get_filetype` on an open file: a known declared MIME type decides and
      leaves the file alone; else a conclusive detection from the URI decides;
      only else is the content inspected, and the file is rewound afterwards. */
  method GetFileType(handle: FileHandle, file: RemoteFile, d: Detectors) returns (t: Option<FileType>)
    requires handle.Valid()
    modifies handle
    ensures handle.Valid()
    ensures t == ResolveFileType(file, handle.content, d)
    ensures handle.pos == if SniffsContent(file, d) then 0 else old(handle.pos)
  {
    if DeclaredTypeKnown(file, d.mimeTable) {
      return Some(d.mimeTable[file.mimeType.value]);
    }
    var byName := d.byName(file.uri);
    if byName.Some? && byName.value != UNK {
      return byName;
    }
    var sniffed := handle.ReadByLibrary();
    var byContent := d.byContent(sniffed);
    handle.SeekStart();
    return byContent;
  }

  /** What `_read_file` returns or raises for a file whose handle stands at
      `start`: Markdown is decoded from where the handle stands after
      detection, other supported types are extracted from the whole content and
      rendered, and everything else is a record parse error. */
  function ReadFileSpec(file: RemoteFile, content: Bytes, start: nat, lib: Library): (r: Result<string, Failure>)
    requires start <= |content|
    ensures r.Err? ==> r.error.RecordParseError? && r.error.filename == file.uri
  {
    var t := ResolveFileType(file, content, lib.detectors);
    if t == Some(MD) then
      Ok(lib.decode(content[if SniffsContent(file, lib.detectors) then 0 else start..]))
    else if !IsSupported(t) then
      Err(CreateParseError(file, UnsupportedMessage(t)))
    else
      match Partition(lib, t.value, content)
      case Raised(message) => Err(CreateParseError(file, message))
      case Elements(els) => Ok(Render(els))
  }

  /** `_read_file`, with its reads and seeks on the open file. */
  method ReadFile(handle: FileHandle, file: RemoteFile, lib: Library) returns (r: Result<string, Failure>)
    requires handle.Valid()
    modifies handle
    ensures handle.Valid()
    ensures r == ReadFileSpec(file, handle.content, old(handle.pos), lib)
    ensures ResolveFileType(file, handle.content, lib.detectors) == Some(MD) ==> handle.pos == |handle.content|
    ensures !IsSupported(ResolveFileType(file, handle.content, lib.detectors)) ==>
              handle.pos == if SniffsContent(file, lib.detectors) then 0 else old(handle.pos)
    ensures ResolveFileType(file, handle.content, lib.detectors) == Some(PDF) ==> handle.pos == 0
  {
    var t := GetFileType(handle, file, lib.detectors);
    if t == Some(MD) {
      var bytes := handle.Read();
      return Ok(lib.decode(bytes));
    }
    if !IsSupported(t) {
      return Err(CreateParseError(file, UnsupportedMessage(t)));
    }
    // the whole file is read once so that it is in memory before extraction
    handle.SeekStart();
    var _ := handle.Read();
    handle.SeekStart();
    var extraction: Extraction;
    if t.value == PDF {
      var bytes := handle.Read();
      handle.SeekStart();
      extraction := lib.partitionPdf(bytes);
    } else if t.value == DOCX {
      var bytes := handle.ReadByLibrary();
      extraction := lib.partitionDocx(bytes);
    } else {
      var bytes := handle.ReadByLibrary();
      extraction := lib.partitionPptx(bytes);
    }
    match extraction
    case Raised(message) =>
      r := Err(CreateParseError(file, message));
    case Elements(els) =>
      r := Ok(Render(els));
  }

  // ---------------------------------------------------------------------------
  // Record parsing

  /** What `parse_records` yields or raises for a file with the given content:
      one record with the rendered content, or, when reading failed, one
      degraded record if unprocessable files are skipped and the error
      otherwise. */
  function ParseRecordsSpec(config: FormatConfig, file: RemoteFile, content: Bytes, lib: Library)
    : (r: Result<seq<Record>, Failure>)
    ensures r.Ok? ==> |r.value| == 1 && r.value[0].documentKey == file.uri
    ensures r.Ok? ==> r.value[0].content.Some? != r.value[0].parseError.Some?
    ensures r.Err? ==> || config.OtherFormat?
                       || (!config.options.skipUnprocessableFiles
                           && r.error.RecordParseError? && r.error.filename == file.uri)
  {
    match ExtractFormat(config)
    case Err(e) => Err(e)
    case Ok(format) =>
      match ReadFileSpec(file, content, 0, lib)
      case Ok(markdown) => Ok([Record(Some(markdown), file.uri, None)])
      case Err(e) =>
        if format.skipUnprocessableFiles then Ok([Record(None, file.uri, Some(ErrorText(e)))])
        else Err(e)
  }

  /** `parse_records`: the file is opened afresh and read; a record parse error
      (the only error reading raises) is turned into a degraded record or
      raised, as the stream's options say. */
  method ParseRecords(config: FormatConfig, file: RemoteFile, content: Bytes, lib: Library)
    returns (r: Result<seq<Record>, Failure>)
    ensures r == ParseRecordsSpec(config, file, content, lib)
  {
    var format :- ExtractFormat(config);
    var handle := new FileHandle(content);
    var markdown := ReadFile(handle, file, lib);
    match markdown
    case Ok(text) =>
      r := Ok([Record(Some(text), file.uri, None)]);
    case Err(e) =>
      if format.skipUnprocessableFiles {
        r := Ok([Record(None, file.uri, Some(ErrorText(e)))]);
      } else {
        r := Err(e);
      }
  }

  /** Markdown is passed through: the record's content is the decoded bytes. */
  lemma MarkdownPassesThrough(config: FormatConfig, file: RemoteFile, content: Bytes, lib: Library)
    requires config.Unstructured?
    requires ResolveFileType(file, content, lib.detectors) == Some(MD)
    ensures ParseRecordsSpec(config, file, content, lib) == Ok([Record(Some(lib.decode(content)), file.uri, None)])
  {
    assert content[0..] == content;
  }

  /** A supported binary document that the library extracts yields one record
      holding the rendered elements. */
  lemma ExtractedDocumentIsRendered(config: FormatConfig, file: RemoteFile, content: Bytes, lib: Library, els: seq<Element>)
    requires config.Unstructured?
    requires ResolveFileType(file, content, lib.detectors) in {Some(PDF), Some(DOCX), Some(PPTX)}
    requires Partition(lib, ResolveFileType(file, content, lib.detectors).value, content) == Elements(els)
    ensures ParseRecordsSpec(config, file, content, lib) == Ok([Record(Some(Render(els)), file.uri, None)])
  {
  }

  /** An unsupported type (or no type at all) is a record parse error naming
      the file and the type: a degraded record when skipping, raised otherwise. */
  lemma UnsupportedTypeOutcome(config: FormatConfig, file: RemoteFile, content: Bytes, lib: Library)
    requires config.Unstructured?
    requires !IsSupported(ResolveFileType(file, content, lib.detectors))
    ensures var e := RecordParseError(file.uri, UnsupportedMessage(ResolveFileType(file, content, lib.detectors)));
            ParseRecordsSpec(config, file, content, lib)
            == if config.options.skipUnprocessableFiles then Ok([Record(None, file.uri, Some(ErrorText(e)))])
               else Err(e)
  {
  }

  /** An exception from the extraction routine becomes a record parse error
      carrying the file's URI and the exception's message; no partial content
      is returned. */
  lemma ExtractionFailureOutcome(config: FormatConfig, file: RemoteFile, content: Bytes, lib: Library, message: string)
    requires config.Unstructured?
    requires ResolveFileType(file, content, lib.detectors) in {Some(PDF), Some(DOCX), Some(PPTX)}
    requires Partition(lib, ResolveFileType(file, content, lib.detectors).value, content) == Raised(message)
    ensures var e := RecordParseError(file.uri, message);
            ParseRecordsSpec(config, file, content, lib)
            == if config.options.skipUnprocessableFiles then Ok([Record(None, file.uri, Some(ErrorText(e)))])
               else Err(e)
  {
  }

  /** With skipping on, parsing never raises: every file yields its record. */
  lemma SkippingNeverRaises(config: FormatConfig, file: RemoteFile, content: Bytes, lib: Library)
    requires config == Unstructured(UnstructuredFormat(true))
    ensures ParseRecordsSpec(config, file, content, lib).Ok?
  {
  }

  // ---------------------------------------------------------------------------
  // Schema inference

  /** What `infer_schema` returns or raises: the fixed schema, unless the file's
      type is unsupported and unprocessable files are not skipped. */
  function InferSchemaSpec(config: FormatConfig, file: RemoteFile, content: Bytes, lib: Library)
    : (r: Result<Schema, Failure>)
    ensures r.Ok? ==> r.value == DiscoveredSchema
    ensures r.Err? ==> || config.OtherFormat?
                       || (!config.options.skipUnprocessableFiles
                           && r.error == RecordParseError(file.uri, UnsupportedMessage(ResolveFileType(file, content, lib.detectors))))
  {
    match ExtractFormat(config)
    case Err(e) => Err(e)
    case Ok(format) =>
      var t := ResolveFileType(file, content, lib.detectors);
      if !IsSupported(t) && !format.skipUnprocessableFiles then Err(CreateParseError(file, UnsupportedMessage(t)))
      else Ok(DiscoveredSchema)
  }

  /** `infer_schema`: the file is opened afresh and only its type is detected. */
  method InferSchema(config: FormatConfig, file: RemoteFile, content: Bytes, lib: Library)
    returns (r: Result<Schema, Failure>)
    ensures r == InferSchemaSpec(config, file, content, lib)
  {
    var format :- ExtractFormat(config);
    var handle := new FileHandle(content);
    var t := GetFileType(handle, file, lib.detectors);
    if !IsSupported(t) && !format.skipUnprocessableFiles {
      return Err(CreateParseError(file, UnsupportedMessage(t)));
    }
    return Ok(DiscoveredSchema);
  }

  /** Schema inference fails exactly when the type is unsupported and skipping
      is off, and then with the unsupported-type error about the file. */
  lemma InferSchemaFailsExactlyWhenUnsupported(config: FormatConfig, file: RemoteFile, content: Bytes, lib: Library)
    requires config.Unstructured?
    ensures var t := ResolveFileType(file, content, lib.detectors);
            && (InferSchemaSpec(config, file, content, lib).Err?
                <==> !IsSupported(t) && !config.options.skipUnprocessableFiles)
            && (InferSchemaSpec(config, file, content, lib).Err?
                ==> InferSchemaSpec(config, file, content, lib).error == RecordParseError(file.uri, UnsupportedMessage(t)))
  {
  }

  /** The schema is static: whatever two files, contents, libraries and
      configurations, successful inferences return the same three string
      fields. */
  lemma SchemaIsStatic(c1: FormatConfig, f1: RemoteFile, b1: Bytes, l1: Library,
                       c2: FormatConfig, f2: RemoteFile, b2: Bytes, l2: Library)
    requires InferSchemaSpec(c1, f1, b1, l1).Ok? && InferSchemaSpec(c2, f2, b2, l2).Ok?
    ensures InferSchemaSpec(c1, f1, b1, l1).value == InferSchemaSpec(c2, f2, b2, l2).value
    ensures InferSchemaSpec(c1, f1, b1, l1).value.Keys == {"content", "document_key", "_ab_source_file_parse_error"}
    ensures forall k :: k in InferSchemaSpec(c1, f1, b1, l1).value ==> InferSchemaSpec(c1, f1, b1, l1).value[k].fieldType == "string"
  {
  }

  /** A configuration that is not this parser's is rejected by both entry
      points before the file is opened. */
  lemma ForeignFormatRejected(config: FormatConfig, file: RemoteFile, content: Bytes, lib: Library)
    requires config.OtherFormat?
    ensures ParseRecordsSpec(config, file, content, lib) == Err(ValueError("Invalid format config: " + config.description))
    ensures InferSchemaSpec(config, file, content, lib) == Err(ValueError("Invalid format config: " + config.description))
  {
  }

  /** Schema inference and record parsing agree on a file: once inference has
      accepted it without skipping, parsing it fails only if the extraction
      routine raises, never for its type. */
  lemma AcceptedSchemaMeansSupported(config: FormatConfig, file: RemoteFile, content: Bytes, lib: Library)
    requires config == Unstructured(UnstructuredFormat(false))
    requires InferSchemaSpec(config, file, content, lib).Ok?
    ensures var t := ResolveFileType(file, content, lib.detectors);
            ParseRecordsSpec(config, file, content, lib).Err? ==>
              && t in {Some(PDF), Some(DOCX), Some(PPTX)}
              && Partition(lib, t.value, content) == Raised(ParseRecordsSpec(config, file, content, lib).error.message)
  {
  }

  // ---------------------------------------------------------------------------
  // Files from the parser's tests

  /** A file whose type is detected from its name as CSV, with skipping on,
      yields one degraded record whose error names the type and lists the
      supported ones. */
  lemma UnsupportedCsvSkipped(content: Bytes, lib: Library)
    requires lib.detectors.byName("path/to/file.xyz") == Some(Unlisted("CSV"))
    ensures ParseRecordsSpec(Unstructured(UnstructuredFormat(true)), RemoteFile("path/to/file.xyz", None), content, lib)
            == Ok([Record(None, "path/to/file.xyz", Some(
                 ParseErrorSummary + "\nfilename=" + "path/to/file.xyz" + " message=" + ("File type " + ("FileType." + "CSV")
                 + " is not supported. Supported file types are "
                 + "FileType.MD" + ", " + "FileType.PDF" + ", " + "FileType.DOCX" + ", " + "FileType.PPTX")))])
  {
    var t := Some(Unlisted("CSV"));
    var file := RemoteFile("path/to/file.xyz", None);
    assert ResolveFileType(file, content, lib.detectors) == t;
    assert !IsSupported(t);
    UnsupportedMessageText(t);
    assert Describe(t) == "FileType." + "CSV";
    var m := UnsupportedMessage(t);
    assert ReadFileSpec(file, content, 0, lib) == Err(RecordParseError(file.uri, m));
    assert m == "File type " + ("FileType." + "CSV")
                 + " is not supported. Supported file types are "
                 + "FileType.MD" + ", " + "FileType.PDF" + ", " + "FileType.DOCX" + ", " + "FileType.PPTX";
  }

  /** A DOCX file whose extraction raises, with skipping on, yields one degraded
      record whose error ends with the exception's message. */
  lemma ExtractionErrorSkipped(content: Bytes, lib: Library)
    requires lib.detectors.byName("path/to/file.xyz") == Some(DOCX)
    requires lib.partitionDocx(content) == Raised("weird parsing error")
    ensures ParseRecordsSpec(Unstructured(UnstructuredFormat(true)), RemoteFile("path/to/file.xyz", None), content, lib)
            == Ok([Record(None, "path/to/file.xyz", Some(
                 ParseErrorSummary + "\nfilename=" + "path/to/file.xyz" + " message=" + "weird parsing error"))])
  {
    var file := RemoteFile("path/to/file.xyz", None);
    assert ResolveFileType(file, content, lib.detectors) == Some(DOCX);
    assert IsSupported(Some(DOCX));
    assert Partition(lib, DOCX, content) == Raised("weird parsing error");
  }
}
