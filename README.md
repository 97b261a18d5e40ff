# Unstructured document parser, modelled in Dafny

This project models the `UnstructuredParser` of the Airbyte file-based source
framework. The parser turns Markdown, PDF, DOCX and PPTX files into records. It
works in three steps:

- it decides a file's type from the declared MIME type, then the file name, then
  the file content;
- it hands binary documents to the `unstructured` extraction library and renders
  the elements that come back as one Markdown string;
- it reports unsupported or broken files according to the stream's
  `skip_unprocessable_files` option.

Modules:

- `Wrappers`: `Option` and `Result`.
- `Strings`: Python's `str.join`, with lemmas on its contents, its length and
  concatenation.
- `Markdown`: the document elements (`Title` with an optional depth, `ListItem`,
  `Formula`, `Other` with an optional text), the fragment each one renders to,
  and `Render`, which joins the fragments with a blank line. Beside the renderer
  stand its inverses: `SplitParagraphs` (Python's `split("\n\n")`) and
  `ReadFragment`, which recognises a heading, bullet, fence or plain text. The
  main lemma, `RenderReadsBack`, says that a rendered non-empty document of
  well-formed elements reads back as the element sequence it came from, up to
  `Normalize`. `Normalize` gives a title its level (`category_depth or 1`) as
  the depth and gives a text-less element the empty text.
- `Streams`: the open file as a class with fixed content and a read position
  that `seek(0)` and `read()` move.
- `FileTypes`: the library's file-type enumeration, the supported list, the
  unsupported-type message, and `ResolveFileType`, the three-step precedence
  as a pure function.
- `UnstructuredParser`: the extraction library as a datatype of function values
  (`Library`, `Detectors`), the exceptions, the records and the fixed schema.
  `GetFileType` and `ReadFile` work on the open file. `ParseRecords` and
  `InferSchema` each open the file afresh, and each is proved equal to a
  specification function. Lemmas about those functions state the outcome of
  every case.

Edge cases the code fixes:

- A title's level is `category_depth or 1`. A missing depth and a depth of 0
  both give one `#`. A negative depth gives no `#` at all, because Python's
  `"#" * d` is empty for `d < 0`, so the fragment is a space and the text.
- A declared MIME type counts only when it is non-empty, since an empty string
  is falsy, and when it is a key of the library's table.
- Content detection may find no type at all. Such a file is reported as
  `File type None is not supported. …`.
- An empty element list renders as the empty string. The read-back lemma
  therefore needs at least one element, since splitting `""` gives one empty
  paragraph.
- A formula with empty text, or with text that starts with a newline, opens a
  blank line inside its fence. Such an element does not stay one paragraph, and
  `SingleParagraph` excludes it.

## Model

| member | source | states |
|---|---|---|
| `Strings.Join` | airbyte-cdk/python/airbyte_cdk/sources/file_based/file_types/unstructured_parser.py:201 | joining no parts gives `""`, and a joined string starts with its first part |
| `Strings.JoinLength` | airbyte-cdk/python/airbyte_cdk/sources/file_based/file_types/unstructured_parser.py:200-201 | the length of a joined text is the parts' total length plus one separator's length for each two neighbours |
| `Strings.OffsetStep` | airbyte-cdk/python/airbyte_cdk/sources/file_based/file_types/unstructured_parser.py:201 | each part starts one separator after the end of the part before it |
| `Strings.JoinPartAt` | airbyte-cdk/python/airbyte_cdk/sources/file_based/file_types/unstructured_parser.py:201 | the contents of a joined text: each part sits unchanged at its offset, and the last part ends the text |
| `Strings.JoinSeparatorAt` | airbyte-cdk/python/airbyte_cdk/sources/file_based/file_types/unstructured_parser.py:201 | exactly one separator follows every part but the last |
| `Strings.JoinAppend` | airbyte-cdk/python/airbyte_cdk/sources/file_based/file_types/unstructured_parser.py:200-201 | for two non-empty part lists, joining their concatenation puts exactly one separator between the two joined halves |
| `Markdown.Repeat` | airbyte-cdk/python/airbyte_cdk/sources/file_based/file_types/unstructured_parser.py:205 | Python's `"#" * n`: exactly n copies of the character when n is positive, and the empty string when n ≤ 0 |
| `Markdown.HeadingLevel` | airbyte-cdk/python/airbyte_cdk/sources/file_based/file_types/unstructured_parser.py:205 | `category_depth or 1`: a level is never 0, and a non-zero depth is kept as the level |
| `Markdown.Fragment` | airbyte-cdk/python/airbyte_cdk/sources/file_based/file_types/unstructured_parser.py:203-212 | one element's Markdown: a `#` run and a space before a title, `- ` before a list item, a ``` fence around a formula, and the text (or nothing) otherwise; its contract is stated by `DefaultHeading`, `TitleHeading`, `ReadFragmentInverse` and `FragmentIsParagraph` |
| `Markdown.Render` | airbyte-cdk/python/airbyte_cdk/sources/file_based/file_types/unstructured_parser.py:200-201 | no elements render as `""`, one element as its own fragment with no separator, and the document starts with the first fragment |
| `Markdown.RenderLength` | airbyte-cdk/python/airbyte_cdk/sources/file_based/file_types/unstructured_parser.py:200-201 | n fragments are joined by exactly n-1 blank-line separators of two characters |
| `Markdown.RenderAppend` | airbyte-cdk/python/airbyte_cdk/sources/file_based/file_types/unstructured_parser.py:200-201 | rendering two non-empty element sequences one after the other separates them by exactly one blank line |
| `Markdown.DefaultHeading` | airbyte-cdk/python/airbyte_cdk/sources/file_based/file_types/unstructured_parser.py:204-206 | a title renders as `# text` when its depth is missing or 0, and as a space and the text when its depth is negative |
| `Markdown.TitleHeading` | airbyte-cdk/python/airbyte_cdk/sources/file_based/file_types/unstructured_parser.py:204-206 | a title of level k ≥ 1 renders as exactly k `#` (counted back from the fragment), then a space, then the text |
| `Markdown.ReadFragmentInverse` | airbyte-cdk/python/airbyte_cdk/sources/file_based/file_types/unstructured_parser.py:203-212 | for a readable element (a title of level ≥ 1, any list item or formula, or text that does not start with `#`, `-` or a backtick), the fragment reads back as the element up to `Normalize`, which gives a title its level as the depth and a text-less element the empty text; a `#` run and a space mean a title, `- ` a list item, a ``` fence a formula, and anything else is plain text |
| `Markdown.JoinSplit` | airbyte-cdk/python/airbyte_cdk/sources/file_based/file_types/unstructured_parser.py:201 | joining the blank-line-separated paragraphs of any text gives the text back |
| `Markdown.SplitJoin` | airbyte-cdk/python/airbyte_cdk/sources/file_based/file_types/unstructured_parser.py:201 | a non-empty list of paragraphs, each without a blank line or trailing newline, joined by blank lines splits back into exactly those paragraphs |
| `Markdown.FragmentIsParagraph` | airbyte-cdk/python/airbyte_cdk/sources/file_based/file_types/unstructured_parser.py:203-212 | every element whose text has no blank line or trailing newline renders to a single paragraph, titles of any depth and other text of any shape included; for a formula the text must also be non-empty and must not start with a newline |
| `Markdown.RenderReadsBack` | airbyte-cdk/python/airbyte_cdk/sources/file_based/file_types/unstructured_parser.py:200-212 | for a non-empty sequence of well-formed elements (`WellFormed`: readable markup and one paragraph each), the rendered document splits into one paragraph per element, and each paragraph reads back as its element up to `Normalize`, which gives a title its level as the depth and a text-less element the empty text |
| `Markdown.MixedDocumentRendering` | airbyte-cdk/python/unit_tests/sources/file_based/file_types/test_unstructured_parser.py:132-150 | title, text, list item and formula render as `# heading`, the text, `- item` and a fenced block, separated by blank lines |
| `Markdown.MultiLevelHeadings` | airbyte-cdk/python/unit_tests/sources/file_based/file_types/test_unstructured_parser.py:152-169 | titles of depth 1 and 2 render as `#` and `##` headings separated by a blank line |
| `FileTypes.TypeString` | airbyte-cdk/python/airbyte_cdk/sources/file_based/file_types/unstructured_parser.py:197 | `str()` of an enumeration member: `FileType.` and the member's name |
| `FileTypes.Describe` | airbyte-cdk/python/airbyte_cdk/sources/file_based/file_types/unstructured_parser.py:198 | `{file_type}` of an optional type: `None` for no type, otherwise `str()` of the type |
| `FileTypes.IsSupported` | airbyte-cdk/python/airbyte_cdk/sources/file_based/file_types/unstructured_parser.py:193-194 | membership of a detected type in the supported list; `SupportedTypes` states which types pass |
| `FileTypes.TypeStrings` | airbyte-cdk/python/airbyte_cdk/sources/file_based/file_types/unstructured_parser.py:197 | the i-th name of the list is `str()` of the i-th type |
| `FileTypes.UnsupportedMessage` | airbyte-cdk/python/airbyte_cdk/sources/file_based/file_types/unstructured_parser.py:196-198 | the message for an unsupported type; `UnsupportedMessageText` spells it out |
| `FileTypes.ResolveFileType` | airbyte-cdk/python/airbyte_cdk/sources/file_based/file_types/unstructured_parser.py:170-191 | the type of a file is the table entry of its declared MIME type, the type detected from its name, or the type detected from its content; without content detection a type is always found, and when neither the MIME type nor the name settles the type, the result is exactly what content detection returns, `None` included |
| `FileTypes.SupportedTypes` | airbyte-cdk/python/airbyte_cdk/sources/file_based/file_types/unstructured_parser.py:193-194 | exactly MD, PDF, DOCX and PPTX are supported; no type, the unknown type and every other type are not |
| `FileTypes.SupportedListText` | airbyte-cdk/python/airbyte_cdk/sources/file_based/file_types/unstructured_parser.py:196-197 | the supported types are listed as `FileType.MD, FileType.PDF, FileType.DOCX, FileType.PPTX` |
| `FileTypes.UnsupportedMessageText` | airbyte-cdk/python/airbyte_cdk/sources/file_based/file_types/unstructured_parser.py:196-198 | the unsupported-type message names the rejected type and then lists the four supported types |
| `FileTypes.DeclaredTypeDecides` | airbyte-cdk/python/airbyte_cdk/sources/file_based/file_types/unstructured_parser.py:170-171 | a non-empty declared MIME type that is a key of the table decides the type, whatever the URI, content and detectors say |
| `FileTypes.NameDecidesBeforeContent` | airbyte-cdk/python/airbyte_cdk/sources/file_based/file_types/unstructured_parser.py:180-184 | otherwise a name-based detection other than none or unknown decides, whatever the content says |
| `FileTypes.ContentOnlyAsLastResort` | airbyte-cdk/python/airbyte_cdk/sources/file_based/file_types/unstructured_parser.py:186-191 | the content changes the result only when neither the MIME type nor the name settled it, and then the content detector decides |
| `FileTypes.UnknownOnlyFromTableOrContent` | airbyte-cdk/python/airbyte_cdk/sources/file_based/file_types/unstructured_parser.py:183-191 | an unknown result from the name is never final: the result is unknown only if the MIME table or the content detector says so |
| `Streams.FileHandle.constructor` | airbyte-cdk/python/airbyte_cdk/sources/file_based/file_types/unstructured_parser.py:65 | opening a file gives a handle at position 0 over the file's bytes |
| `Streams.FileHandle.SeekStart` | airbyte-cdk/python/airbyte_cdk/sources/file_based/file_types/unstructured_parser.py:189 | `seek(0)` puts the position back at the start |
| `Streams.FileHandle.Read` | airbyte-cdk/python/airbyte_cdk/sources/file_based/file_types/unstructured_parser.py:130 | `read()` returns everything from the position to the end and leaves the position at the end |
| `Streams.FileHandle.ReadByLibrary` | airbyte-cdk/python/airbyte_cdk/sources/file_based/file_types/unstructured_parser.py:186 | the library sees the whole content and leaves the position unspecified |
| `UnstructuredParser.ErrorText` | airbyte-cdk/python/unit_tests/sources/file_based/file_types/test_unstructured_parser.py:126 | `str(e)` of the two exceptions: a record parse error's summary line, file name and message, or a value error's message; `ErrorTextCarriesFileAndMessage` states its layout |
| `UnstructuredParser.CreateParseError` | airbyte-cdk/python/airbyte_cdk/sources/file_based/file_types/unstructured_parser.py:158-159 | a record parse error whose file name is the file's URI and whose message is the given one |
| `UnstructuredParser.Partition` | airbyte-cdk/python/airbyte_cdk/sources/file_based/file_types/unstructured_parser.py:143-152 | the extraction routine of the detected type: PDF, DOCX or PPTX; its outcome is stated by `ExtractedDocumentIsRendered` and `ExtractionFailureOutcome` |
| `UnstructuredParser.ErrorTextCarriesFileAndMessage` | airbyte-cdk/python/airbyte_cdk/sources/file_based/file_types/unstructured_parser.py:158-159 | a record parse error's text is the fixed summary, then `filename=` and the URI, and it ends with the original message |
| `UnstructuredParser.ExtractFormat` | airbyte-cdk/python/airbyte_cdk/sources/file_based/file_types/unstructured_parser.py:219-223 | succeeds exactly for this parser's format options and returns them; any other configuration is a `ValueError` |
| `UnstructuredParser.GetFileType` | airbyte-cdk/python/airbyte_cdk/sources/file_based/file_types/unstructured_parser.py:161-191 | returns the resolved type; the position is back at 0 when the content was inspected and unchanged otherwise |
| `UnstructuredParser.ReadFileSpec` | airbyte-cdk/python/airbyte_cdk/sources/file_based/file_types/unstructured_parser.py:127-156 | every failure of reading is a record parse error whose filename is the file's URI |
| `UnstructuredParser.ReadFile` | airbyte-cdk/python/airbyte_cdk/sources/file_based/file_types/unstructured_parser.py:127-156 | on the open file, yields exactly what `ReadFileSpec` says; after Markdown the position is at the end, after a PDF it is at 0 |
| `UnstructuredParser.ParseRecordsSpec` | airbyte-cdk/python/airbyte_cdk/sources/file_based/file_types/unstructured_parser.py:91-114 | a success is exactly one record with `document_key` equal to the URI and exactly one of content and error set; a failure is a foreign configuration, or a record parse error about the file with skipping off |
| `UnstructuredParser.ParseRecords` | airbyte-cdk/python/airbyte_cdk/sources/file_based/file_types/unstructured_parser.py:83-114 | opening the file and reading it yields or raises exactly what `ParseRecordsSpec` says |
| `UnstructuredParser.MarkdownPassesThrough` | airbyte-cdk/python/airbyte_cdk/sources/file_based/file_types/unstructured_parser.py:129-132 | a Markdown file's record holds the decoded bytes unrendered and no error |
| `UnstructuredParser.ExtractedDocumentIsRendered` | airbyte-cdk/python/airbyte_cdk/sources/file_based/file_types/unstructured_parser.py:143-156 | an extracted PDF, DOCX or PPTX yields one record with the rendered elements and no error |
| `UnstructuredParser.UnsupportedTypeOutcome` | airbyte-cdk/python/airbyte_cdk/sources/file_based/file_types/unstructured_parser.py:133-134 | an unsupported type gives a degraded record with the error text when skipping, and otherwise raises the unsupported-type error about the URI |
| `UnstructuredParser.ExtractionFailureOutcome` | airbyte-cdk/python/airbyte_cdk/sources/file_based/file_types/unstructured_parser.py:143-154 | an extraction exception becomes a record parse error with the URI and the exception's message; no content is returned |
| `UnstructuredParser.SkippingNeverRaises` | airbyte-cdk/python/airbyte_cdk/sources/file_based/file_types/unstructured_parser.py:100-111 | with skipping on, parsing a file always yields its record |
| `UnstructuredParser.InferSchemaSpec` | airbyte-cdk/python/airbyte_cdk/sources/file_based/file_types/unstructured_parser.py:64-81 | a success is always the fixed schema; a failure is a foreign configuration, or, with skipping off, the unsupported-type record parse error about the file |
| `UnstructuredParser.InferSchema` | airbyte-cdk/python/airbyte_cdk/sources/file_based/file_types/unstructured_parser.py:57-81 | opening the file and detecting its type returns or raises exactly what `InferSchemaSpec` says |
| `UnstructuredParser.InferSchemaFailsExactlyWhenUnsupported` | airbyte-cdk/python/airbyte_cdk/sources/file_based/file_types/unstructured_parser.py:66-69 | schema inference fails if and only if the type is unsupported and skipping is off, and then with the unsupported-type error about the URI |
| `UnstructuredParser.SchemaIsStatic` | airbyte-cdk/python/airbyte_cdk/sources/file_based/file_types/unstructured_parser.py:71-81 | every successful inference returns the same schema: the three string fields `content`, `document_key` and `_ab_source_file_parse_error` |
| `UnstructuredParser.ForeignFormatRejected` | airbyte-cdk/python/airbyte_cdk/sources/file_based/file_types/unstructured_parser.py:219-223 | both entry points reject a configuration that is not this parser's with `Invalid format config: …` |
| `UnstructuredParser.AcceptedSchemaMeansSupported` | airbyte-cdk/python/airbyte_cdk/sources/file_based/file_types/unstructured_parser.py:64-69 | once inference accepted a file with skipping off, parsing it can fail only because the extraction routine of a PDF, DOCX or PPTX raised, and then with that routine's message |
| `UnstructuredParser.UnsupportedCsvSkipped` | airbyte-cdk/python/unit_tests/sources/file_based/file_types/test_unstructured_parser.py:117-131 | a CSV file with skipping on yields one degraded record whose error names `FileType.CSV` and lists the supported types |
| `UnstructuredParser.ExtractionErrorSkipped` | airbyte-cdk/python/unit_tests/sources/file_based/file_types/test_unstructured_parser.py:190-204 | a DOCX file whose extraction raises, with skipping on, yields one degraded record whose error ends with the exception's message |

## Left out

- The lazy import of the extraction library and the "library is not available"
  check (unstructured_parser.py:18-39, 117-125): these are module-loading
  plumbing, so the model assumes the library is present.
- The `unstructured` library itself (`detect_filetype`, `STR_TO_FILETYPE`,
  `partition_pdf`, `partition_docx`, `partition_pptx`, `optional_decode`): its
  source is not part of this model. These appear as total function values and a
  map in `Detectors` and `Library`. An extraction routine either returns
  elements or raises with a message.
- Exceptions from detection or decoding: these are not record parse errors, so
  `parse_records` would let them propagate. The model treats detection and
  decoding as total.
- Logging of the skipped file (unstructured_parser.py:106, 112), the `async`
  of `infer_schema`, and the generator mechanics: `parse_records` becomes a
  sequence of at most one record, or an error.
- `parser_max_n_files_for_schema_inference`, `parser_max_n_files_for_parsability`
  and `file_read_mode` (unstructured_parser.py:43-55, 214-216): constants with
  no behaviour.
- Setting `file.name = None` before detection (unstructured_parser.py:174-175):
  it only stops the library from reading file-system metadata.
- The `BytesIO` copy made for PDF (unstructured_parser.py:146-148): modelled as
  reading the whole content from position 0.
- Where the library leaves the read position after its own reads: left
  unspecified (`ReadByLibrary`).
- `RemoteFile.last_modified`, and element metadata other than `category_depth`:
  the parser does not use them. The text of an `Other` element is taken to be a
  string already, so `str()` leaves it unchanged.
- The text of the `RecordParseError` exception, which lives in the framework's
  exceptions module (not part of this model): the summary line and the
  `filename=… message=…` layout are taken from the expected strings in
  test_unstructured_parser.py:126 and :199.
- The printed form of a foreign format configuration in the `ValueError`
  message: the model carries it as the configuration's `description`.
- FileType: `Unlisted(name)` stands for the library's enumeration members
  other than the five the parser names, but the model does not forbid
  `Unlisted("MD")` and the like. Such a value would print as `FileType.MD` and
  still count as unsupported; the library has no such member.
- airbyte-integrations/connectors/source-azure-blob-storage/setup.py: packaging
  metadata with no behaviour.
