/** File types as the unstructured parser sees them: which ones it supports,
    how an unsupported one is reported, and how the type of a file is decided. */
module FileTypes {
  import opened Wrappers
  import opened Strings
  import opened Streams

  /** A member of the extraction library's file-type enumeration: the four the
      parser handles, the "unknown" member, and any other member by its name. */
  datatype FileType = MD | PDF | DOCX | PPTX | UNK | Unlisted(member: string)

  /** The supported file types, in the order the error message lists them. */
  const SupportedFileTypes: seq<FileType> := [MD, PDF, DOCX, PPTX]

  /** Membership of a detected type (possibly none) in the supported list. */
  predicate IsSupported(t: Option<FileType>)
  {
    t.Some? && t.value in SupportedFileTypes
  }

  /** `str(t)` of an enumeration member: `FileType.<member name>`. */
  function TypeString(t: FileType): string
  {
    "FileType." +
      match t
      case MD => "MD"
      case PDF => "PDF"
      case DOCX => "DOCX"
      case PPTX => "PPTX"
      case UNK => "UNK"
      case Unlisted(member) => member
  }

  /** A detected type as a format string shows it; no type at all is `None`. */
  function Describe(t: Option<FileType>): string
  {
    match t
    case None => "None"
    case Some(ft) => TypeString(ft)
  }

  /** `str(t)` of each type in a list, in order. */
  function TypeStrings(ts: seq<FileType>): (names: seq<string>)
    ensures |names| == |ts|
    ensures forall i :: 0 <= i < |ts| ==> names[i] == TypeString(ts[i])
  {
    if |ts| == 0 then [] else [TypeString(ts[0])] + TypeStrings(ts[1..])
  }

  /** The message of the error raised for a type the parser does not support. */
  function UnsupportedMessage(t: Option<FileType>): string
  {
    "File type " + Describe(t) + " is not supported. Supported file types are "
      + Join(", ", TypeStrings(SupportedFileTypes))
  }

  /** Exactly Markdown, PDF, DOCX and PPTX are supported; no type, the unknown
      type and every other member are not. */
  lemma SupportedTypes(t: Option<FileType>)
    ensures IsSupported(t) <==> t in {Some(MD), Some(PDF), Some(DOCX), Some(PPTX)}
  {
  }

  /** The supported types, listed as the error message lists them. */
  lemma SupportedListText()
    ensures Join(", ", TypeStrings(SupportedFileTypes))
            == "FileType.MD" + ", " + "FileType.PDF" + ", " + "FileType.DOCX" + ", " + "FileType.PPTX"
  {
    var names := TypeStrings(SupportedFileTypes);
    assert TypeString(MD) == "FileType.MD";
    assert TypeString(PDF) == "FileType.PDF";
    assert TypeString(DOCX) == "FileType.DOCX";
    assert TypeString(PPTX) == "FileType.PPTX";
    assert SupportedFileTypes[3..] == [PPTX];
    assert SupportedFileTypes[2..] == [DOCX, PPTX];
    assert SupportedFileTypes[1..] == [PDF, DOCX, PPTX];
    assert TypeStrings(SupportedFileTypes[3..]) == ["FileType.PPTX"];
    assert TypeStrings(SupportedFileTypes[2..]) == ["FileType.DOCX", "FileType.PPTX"];
    assert TypeStrings(SupportedFileTypes[1..]) == ["FileType.PDF", "FileType.DOCX", "FileType.PPTX"];
    assert names == ["FileType.MD", "FileType.PDF", "FileType.DOCX", "FileType.PPTX"];
    assert Join(", ", names[3..]) == "FileType.PPTX";
    assert Join(", ", names[2..]) == "FileType.DOCX" + ", " + "FileType.PPTX";
    assert Join(", ", names[1..]) == "FileType.PDF" + ", " + ("FileType.DOCX" + ", " + "FileType.PPTX");
  }

  /** The unsupported-type message spelled out: it names the rejected type and
      lists the four supported ones, comma separated. */
  lemma UnsupportedMessageText(t: Option<FileType>)
    ensures UnsupportedMessage(t)
            == "File type " + Describe(t) + " is not supported. Supported file types are "
               + "FileType.MD" + ", " + "FileType.PDF" + ", " + "FileType.DOCX" + ", " + "FileType.PPTX"
  {
    SupportedListText();
  }

  // ---------------------------------------------------------------------------
  // Resolving the type of a file

  /** The file as the host describes it. */
  datatype RemoteFile = RemoteFile(uri: string, mimeType: Option<string>)

  /** The extraction library's detection: its table from MIME type to file
      type, detection from a file name, and detection from file content. */
  datatype Detectors = Detectors(
    mimeTable: map<string, FileType>,
    byName: string -> Option<FileType>,
    byContent: Bytes -> Option<FileType>)

  /** The declared MIME type is present, non-empty and a key of the table. */
  predicate DeclaredTypeKnown(file: RemoteFile, table: map<string, FileType>)
  {
    file.mimeType.Some? && file.mimeType.value != "" && file.mimeType.value in table
  }

  /** A detection result that settles the type: some type other than unknown. */
  predicate Conclusive(t: Option<FileType>)
  {
    t.Some? && t.value != UNK
  }

  /** Neither the declared MIME type nor the file name settles the type, so
      the content has to be inspected. */
  predicate SniffsContent(file: RemoteFile, d: Detectors)
  {
    !DeclaredTypeKnown(file, d.mimeTable) && !Conclusive(d.byName(file.uri))
  }

  /** The type of a file: the declared MIME type's table entry, else the type
      detected from the URI, else the type detected from the content. */
  function ResolveFileType(file: RemoteFile, content: Bytes, d: Detectors): (r: Option<FileType>)
    ensures !SniffsContent(file, d) ==> r.Some?
    ensures SniffsContent(file, d) ==> r == d.byContent(content)
    ensures r == d.byName(file.uri) || r == d.byContent(content)
            || (DeclaredTypeKnown(file, d.mimeTable) && r == Some(d.mimeTable[file.mimeType.value]))
  {
    if DeclaredTypeKnown(file, d.mimeTable) then Some(d.mimeTable[file.mimeType.value])
    else if Conclusive(d.byName(file.uri)) then d.byName(file.uri)
    else d.byContent(content)
  }

  /** A known declared MIME type decides the type whatever the URI, the content
      and the detectors say. */
  lemma DeclaredTypeDecides(file: RemoteFile, c1: Bytes, c2: Bytes, d1: Detectors, d2: Detectors)
    requires DeclaredTypeKnown(file, d1.mimeTable)
    requires d2.mimeTable == d1.mimeTable
    ensures ResolveFileType(file, c1, d1) == Some(d1.mimeTable[file.mimeType.value])
    ensures ResolveFileType(file, c1, d1) == ResolveFileType(file, c2, d2)
  {
  }

  /** Otherwise a conclusive name-based detection decides, whatever the content
      and the content detector say. */
  lemma NameDecidesBeforeContent(file: RemoteFile, c1: Bytes, c2: Bytes, d1: Detectors, d2: Detectors)
    requires !DeclaredTypeKnown(file, d1.mimeTable)
    requires Conclusive(d1.byName(file.uri))
    requires d2.mimeTable == d1.mimeTable && d2.byName(file.uri) == d1.byName(file.uri)
    ensures ResolveFileType(file, c1, d1) == d1.byName(file.uri)
    ensures ResolveFileType(file, c1, d1) == ResolveFileType(file, c2, d2)
  {
  }

  /** The content is consulted only as the last resort: two contents lead to
      different types only when neither the MIME type nor the name settled it
      and content detection tells them apart. */
  lemma ContentOnlyAsLastResort(file: RemoteFile, c1: Bytes, c2: Bytes, d: Detectors)
    requires ResolveFileType(file, c1, d) != ResolveFileType(file, c2, d)
    ensures SniffsContent(file, d)
    ensures ResolveFileType(file, c1, d) == d.byContent(c1)
    ensures d.byContent(c1) != d.byContent(c2)
  {
  }

  /** An unknown type from the name never stands: the result is unknown only
      when the MIME table or the content detection says so. */
  lemma UnknownOnlyFromTableOrContent(file: RemoteFile, content: Bytes, d: Detectors)
    requires ResolveFileType(file, content, d) == Some(UNK)
    ensures || (DeclaredTypeKnown(file, d.mimeTable) && d.mimeTable[file.mimeType.value] == UNK)
            || (SniffsContent(file, d) && d.byContent(content) == Some(UNK))
  {
  }
}
