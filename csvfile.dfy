/**
 * The intermediate file and the buffered CSV writer that fills it. The
 * writer holds its output in a 4096-byte buffer and hands it to the file
 * only when the buffer runs full or on Flush; until then a reader of the
 * file sees only what has already been handed over.
 */
module CsvFile {
  import opened Delimited

  /** The buffered writer's capacity in bytes. */
  const BufSize: nat := 4096
  /** The most bytes one character takes in UTF-8. */
  const UtfMax: nat := 4
  /** The writer hands bytes to the file only once the buffered text has
      grown past this many bytes. */
  const DrainThreshold: nat := BufSize - UtfMax

  /** The number of bytes of the UTF-8 encoding of `c`. */
  function CharLen(c: char): (n: nat)
    ensures 1 <= n <= UtfMax
  {
    if c as int < 0x80 then 1 else if c as int < 0x800 then 2 else if c as int < 0x1_0000 then 3 else 4
  }

  /** The number of bytes of the UTF-8 encoding of `s`. */
  function Utf8Len(s: string): nat
  {
    if s == [] then 0 else CharLen(s[0]) + Utf8Len(s[1..])
  }

  /** The byte length of a concatenation is the sum of the byte lengths. */
  lemma {:induction false} Utf8LenAppend(a: string, b: string)
    ensures Utf8Len(a + b) == Utf8Len(a) + Utf8Len(b)
  {
    if a == [] {
      assert a + b == b;
    } else {
      assert (a + b)[0] == a[0];
      assert (a + b)[1..] == a[1..] + b;
      Utf8LenAppend(a[1..], b);
    }
  }

  /** Every character is one to four bytes. */
  lemma {:induction false} Utf8LenBounds(s: string)
    ensures |s| <= Utf8Len(s) <= UtfMax * |s|
  {
    if s != [] {
      Utf8LenBounds(s[1..]);
    }
  }

  /** The text arithmetic of one Write: moving the first `k` characters of
      the grown buffer to the file keeps file and buffer adding up, and the
      written text only grows, in bytes too. */
  lemma WriteStep(file: string, buffer: string, line: string, text: string, k: nat)
    requires file + buffer == text && k <= |buffer + line|
    ensures (file + (buffer + line)[..k]) + (buffer + line)[k..] == text + line
    ensures Utf8Len(text) <= Utf8Len(text + line)
    ensures Utf8Len(buffer + line) <= Utf8Len(text + line)
  {
    var pending := buffer + line;
    assert text + line == file + pending by {
      assert (file + buffer) + line == file + (buffer + line);
    }
    assert (file + pending[..k]) + pending[k..] == file + pending by {
      assert pending[..k] + pending[k..] == pending;
      assert (file + pending[..k]) + pending[k..] == file + (pending[..k] + pending[k..]);
    }
    Utf8LenAppend(text, line);
    Utf8LenAppend(file, pending);
  }

  /** An open file: the text it holds. */
  class File {
    var text: string

    constructor ()
      ensures text == []
    {
      text := [];
    }
  }

  /** The file system: the file at every path. */
  class Disk {
    var files: map<string, File>

    constructor (files: map<string, File>)
      ensures this.files == files
    {
      this.files := files;
    }

    /** Creates the file `path`, truncating it if it exists: from now on the
        path names a new, empty file. */
    method Create(path: string) returns (f: File)
      modifies this
      ensures fresh(f) && f.text == []
      ensures files == old(files)[path := f]
    {
      f := new File();
      files := files[path := f];
    }
  }

  /** A CSV writer with the `;` delimiter over a buffered writer over `file`. */
  class CsvWriter {
    const file: File
    /** The text written but not yet handed to the file. */
    var buffer: string
    /** The text of all records written so far. */
    ghost var text: string
    /** Whether Flush has been called. */
    ghost var flushed: bool

    /** The file and the buffer together hold exactly the text of the
        records written, and before the first Flush the file has received
        something only if that text outgrew the buffer. */
    ghost predicate Valid()
      reads this, file
    {
      file.text + buffer == text
      && (!flushed && file.text != [] ==> Utf8Len(text) > DrainThreshold)
    }

    /** Wraps the empty file `file`. */
    constructor (file: File)
      requires file.text == []
      ensures this.file == file
      ensures Valid() && text == [] && buffer == [] && !flushed
    {
      this.file := file;
      buffer := [];
      text := [];
      flushed := false;
    }

    /** Writes one record. The buffered writer decides how much of its
        buffer reaches the file: `drain` leading characters of it, and only
        when the buffer has grown past DrainThreshold bytes. */
    method Write(record: seq<string>, drain: nat)
      requires Valid()
      modifies this, file
      ensures Valid() && text == old(text) + Line(record) && flushed == old(flushed)
      ensures old(file.text) <= file.text
    {
      var before, line := file.text, Line(record);
      var pending := buffer + line;
      var k := if Utf8Len(pending) <= DrainThreshold then 0 else if drain < |pending| then drain else |pending|;
      WriteStep(before, buffer, line, text, k);
      text := text + line;
      file.text := before + pending[..k];
      buffer := pending[k..];
    }

    /** Hands the whole buffer to the file. */
    method Flush()
      requires Valid()
      modifies this, file
      ensures Valid() && text == old(text) && buffer == [] && flushed
      ensures file.text == text
    {
      file.text := file.text + buffer;
      buffer := [];
      flushed := true;
    }
  }

  /** Writes `records` one after the other, in order, to a fresh writer. */
  method WriteRecords(w: CsvWriter, records: seq<seq<string>>, drain: nat -> nat)
    requires w.Valid() && w.text == []
    modifies w, w.file
    ensures w.Valid() && w.text == Render(records) && w.flushed == old(w.flushed)
  {
    for i := 0 to |records|
      invariant w.Valid() && w.flushed == old(w.flushed)
      invariant w.text == Render(records[..i])
    {
      w.Write(records[i], drain(i));
      assert records[..i + 1][..i] == records[..i];
    }
    assert records[..|records|] == records;
  }
}
