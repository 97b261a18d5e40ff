/** The open binary file the host hands the parser: fixed bytes and a read
    position that `seek` and `read` move. */
module Streams {

  type Bytes = seq<bv8>

  class FileHandle {
    const content: Bytes
    var pos: nat

    ghost predicate Valid()
      reads this
    {
      pos <= |content|
    }

    /** A freshly opened file, positioned at its start. */
    constructor (bytes: Bytes)
      ensures Valid() && content == bytes && pos == 0
    {
      content := bytes;
      pos := 0;
    }

    /** `seek(0)`. */
    method SeekStart()
      requires Valid()
      modifies this
      ensures Valid() && pos == 0
    {
      pos := 0;
    }

    /** `read()`: everything from the position to the end. */
    method Read() returns (data: Bytes)
      requires Valid()
      modifies this
      ensures Valid() && pos == |content|
      ensures data == old(content[pos..])
    {
      data := content[pos..];
      pos := |content|;
    }

    /** The extraction library reading the file: it sees the whole content and
        leaves the position wherever its own reads ended. */
    method ReadByLibrary() returns (data: Bytes)
      requires Valid()
      modifies this
      ensures Valid() && data == content
    {
      data := content;
      var stop: nat :| stop <= |content|;
      pos := stop;
    }
  }
}
