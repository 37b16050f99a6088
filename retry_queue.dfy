/**
 * The collector's retry queue (collector.py, `RetryQueue`): a FIFO of
 * `RemoteFile`s kept in memory and mirrored to the file `retryqueue`, one
 * tab-separated record `url \t filename \t offset \t length \t attempts` per
 * item. The file is given here as its text; opening, reading and writing it
 * are not modelled.
 */
module RetryLedger {
  import opened Common
  import opened Remote

  // ---------------------------------------------------------------------------
  // One record
  // ---------------------------------------------------------------------------

  /** `str(v)` of an optional int: `None` prints as the word itself. */
  function PyStr(v: Option<int>): string
  {
    match v
    case None => "None"
    case Some(n) => IntToString(n)
  }

  /** The five fields `save` writes for an item, in order. */
  function Fields(item: RemoteFile): seq<string>
    requires item.filename.Some?
  {
    [item.url, item.filename.value, PyStr(item.offset), PyStr(item.length), IntToString(item.attempts)]
  }

  /**
   * The record `save` writes for one item: the fields joined by tabs. An item
   * without a local filename cannot be written (`str + None` is a TypeError).
   */
  function Record(item: RemoteFile): (r: Result<string, PyError>)
    ensures r.Ok? <==> item.filename.Some?
    ensures r.Err? ==> r.error == TypeError
    ensures r.Ok? ==> |Split(r.value, '\t')| >= 5
  {
    if item.filename.None? then Err(TypeError)
    else
      var fields := Fields(item);
      assert |Split(Join(fields, '\t'), '\t')| >= 5 by { SplitJoinLength(fields, '\t'); }
      Ok(Join(fields, '\t'))
  }

  /**
   * A line of the file read back: five tab-separated fields (ValueError
   * otherwise), offset, length and attempts converted with `int`.
   */
  function ParseRecord(line: string): (r: Result<RemoteFile, PyError>)
    ensures r.Ok? ==> r.value.filename.Some? && r.value.offset.Some? && r.value.length.Some?
    ensures r.Ok? ==> |Split(line, '\t')| == 5
    ensures r.Err? ==> r.error == ValueError
  {
    var f := Split(line, '\t');
    if |f| != 5 then Err(ValueError)
    else
      match (ParseInt(f[2]), ParseInt(f[3]), ParseInt(f[4]))
      case (Some(off), Some(len), Some(att)) => Ok(RemoteFile(f[0], Some(f[1]), Some(off), Some(len), att))
      case _ => Err(ValueError)
  }

  /** An item the record format can carry: all fields present, no separator inside a string field. */
  ghost predicate Writable(item: RemoteFile)
  {
    && item.filename.Some? && item.offset.Some? && item.length.Some?
    && '\t' !in item.url && '\t' !in item.filename.value
    && '\n' !in item.url && '\n' !in item.filename.value
  }

  /** The separators that never occur inside a field of a writable item. */
  lemma FieldsFreeOf(item: RemoteFile, c: char)
    requires Writable(item) && (c == '\t' || c == '\n')
    ensures FreeOf(Fields(item), c)
  {
    IntToStringFreeOf(item.offset.value, c);
    IntToStringFreeOf(item.length.value, c);
    IntToStringFreeOf(item.attempts, c);
  }

  /** A writable item survives a write and a parse. */
  lemma RecordRoundTrip(item: RemoteFile)
    requires Writable(item)
    ensures Record(item).Ok?
    ensures '\n' !in Record(item).value
    ensures ParseRecord(Record(item).value) == Ok(item)
  {
    var fields := Fields(item);
    FieldsFreeOf(item, '\t');
    FieldsFreeOf(item, '\n');
    SplitJoin(fields, '\t');
    JoinFreeOf(fields, '\t', '\n');
    ParseIntToString(item.offset.value);
    ParseIntToString(item.length.value);
    ParseIntToString(item.attempts);
  }

  // ---------------------------------------------------------------------------
  // The whole file
  // ---------------------------------------------------------------------------

  /**
   * The text `save` leaves in the file: each record followed by
   * `terminator`, up to the first item that cannot be written, and whether
   * the save raised. `save` as written uses no terminator; the corrected
   * save ends every record with a newline.
   */
  function Serialized(q: seq<RemoteFile>, terminator: string): (out: (string, Result<(), PyError>))
    ensures out.1.Ok? <==> forall i :: 0 <= i < |q| ==> q[i].filename.Some?
    ensures out.1.Err? ==> out.1.error == TypeError
  {
    if q == [] then ("", Ok(()))
    else
      match Record(q[0])
      case Err(e) => ("", Err(e))
      case Ok(rec) =>
        var rest := Serialized(q[1..], terminator);
        assert forall i :: 1 <= i < |q| ==> q[1..][i - 1] == q[i];
        (rec + terminator + rest.0, rest.1)
  }

  /** The text of a non-empty queue starts with the record of its head. */
  lemma SerializedCons(q: seq<RemoteFile>, terminator: string)
    requires q != []
    ensures Record(q[0]).Err? ==> Serialized(q, terminator) == ("", Err(Record(q[0]).error))
    ensures Record(q[0]).Ok? ==> var rest := Serialized(q[1..], terminator);
      Serialized(q, terminator) == (Record(q[0]).value + terminator + rest.0, rest.1)
  {
  }

  /** What a corrected save writes is read back as the same queue, in the same order. */
  lemma {:induction false} SaveLoadRoundTrip(q: seq<RemoteFile>)
    requires forall i :: 0 <= i < |q| ==> Writable(q[i])
    ensures Serialized(q, "\n").1 == Ok(())
    ensures ParseAll(Lines(Serialized(q, "\n").0), ParseRecord) == Ok(q)
  {
    if q == [] {
      assert Split("", '\n') == [""];
    } else {
      var item := q[0];
      RecordRoundTrip(item);
      var rec := Record(item).value;
      SaveLoadRoundTrip(q[1..]);
      var rest := Serialized(q[1..], "\n").0;
      SerializedCons(q, "\n");
      LinesCons(rec, rest);
      ParseAllCons(rec, Lines(rest), ParseRecord);
      HeadTail(q);
    }
  }

  /**
   * `save` as written puts every record on one line: a queue of two or more
   * writable items is saved as a single line of `4 * |q| + 1` fields, which
   * no longer unpacks into five.
   */
  lemma AsWrittenSaveIsOneLine(q: seq<RemoteFile>)
    requires |q| >= 2
    requires forall i :: 0 <= i < |q| ==> Writable(q[i])
    ensures var text := Serialized(q, "").0;
      && Lines(text) == [text]
      && |Split(text, '\t')| == 4 * |q| + 1
      && ParseRecord(text) == Err(ValueError)
  {
    var text := Serialized(q, "").0;
    AsWrittenSeparators(q);
    SplitCount(text, '\t');
    assert '\n' !in multiset(text) && text != [];
    LinesOfLine(text);
  }

  /** Counts the separators in the unterminated text, item by item. */
  lemma {:induction false} AsWrittenSeparators(q: seq<RemoteFile>)
    requires forall i :: 0 <= i < |q| ==> Writable(q[i])
    ensures multiset(Serialized(q, "").0)['\n'] == 0
    ensures multiset(Serialized(q, "").0)['\t'] == 4 * |q|
  {
    if q != [] {
      var fields := Fields(q[0]);
      FieldsFreeOf(q[0], '\t');
      FieldsFreeOf(q[0], '\n');
      JoinFreeOf(fields, '\t', '\n');
      JoinCount(fields, '\t');
      AsWrittenSeparators(q[1..]);
      SerializedCons(q, "");
    }
  }

  /**
   * `__init__` as written on an existing file: the first line raises as
   * `LoadLineErrorAsWritten` says, and a file with no lines gets past the
   * loop only to reach `log.info`, which names a module-level `log` that
   * collector.py never defines (its logger is `logger`).
   */
  function LoadAsWritten(lines: seq<string>): (r: Result<seq<RemoteFile>, PyError>)
    ensures r.Err?
    ensures lines == [] ==> r.error == NameError
    ensures lines != [] ==> (r.error == AttributeError <==> ParseRecord(lines[0]).Ok?)
  {
    if lines == [] then Err(NameError) else Err(LoadLineErrorAsWritten(lines[0]))
  }

  /**
   * As written even an empty queue file cannot be loaded, where the
   * corrected load reads it as the empty queue.
   */
  lemma AsWrittenEmptyLoadRaises()
    ensures LoadAsWritten(Lines("")) == Err(NameError)
    ensures ParseAll(Lines(""), ParseRecord) == Ok([])
  {
    assert Lines("") == [];
  }

  /**
   * The error the first line raises in `__init__` as written: its parse
   * errors as usual, and on a line that parses, `self.queue.attempts = ...`
   * sets an attribute on a list (AttributeError).
   */
  function LoadLineErrorAsWritten(line: string): (e: PyError)
    ensures e == AttributeError <==> ParseRecord(line).Ok?
    ensures e != AttributeError ==> e == ValueError
  {
    match ParseRecord(line)
    case Ok(_) => AttributeError
    case Err(err) => err
  }

  /** Every record a save writes makes the load as written raise AttributeError. */
  lemma AsWrittenLoadRejectsEveryRecord(item: RemoteFile, rest: seq<string>)
    requires Writable(item)
    ensures LoadAsWritten([Record(item).value] + rest) == Err(AttributeError)
  {
    RecordRoundTrip(item);
  }

  // ---------------------------------------------------------------------------
  // Separator counting
  // ---------------------------------------------------------------------------

  /** A split has one part more than the string has separators. */
  lemma {:induction false} SplitCount(s: string, c: char)
    ensures |Split(s, c)| == multiset(s)[c] + 1
    decreases |s|
  {
    if c in s {
      var i := IndexOf(s, c);
      SplitCount(s[i + 1..], c);
      assert s == s[..i] + [c] + s[i + 1..];
      assert multiset(s) == multiset(s[..i]) + multiset([c]) + multiset(s[i + 1..]);
    }
  }

  /** Joining separator-free parts adds one separator between each two. */
  lemma {:induction false} JoinCount(parts: seq<string>, c: char)
    requires |parts| >= 1 && FreeOf(parts, c)
    ensures multiset(Join(parts, c))[c] == |parts| - 1
  {
    if |parts| > 1 {
      JoinCount(parts[1..], c);
      assert Join(parts, c) == parts[0] + [c] + Join(parts[1..], c);
      assert multiset(Join(parts, c)) == multiset(parts[0]) + multiset([c]) + multiset(Join(parts[1..], c));
    }
  }

  lemma SplitJoinLength(parts: seq<string>, c: char)
    requires |parts| >= 1
    ensures |Split(Join(parts, c), c)| >= |parts|
  {
    var s := Join(parts, c);
    SplitCount(s, c);
    JoinAtLeast(parts, c);
  }

  lemma {:induction false} JoinAtLeast(parts: seq<string>, c: char)
    requires |parts| >= 1
    ensures multiset(Join(parts, c))[c] >= |parts| - 1
  {
    if |parts| > 1 {
      JoinAtLeast(parts[1..], c);
      assert multiset(Join(parts, c)) == multiset(parts[0]) + multiset([c]) + multiset(Join(parts[1..], c));
    }
  }

  // ---------------------------------------------------------------------------
  // The queue object
  // ---------------------------------------------------------------------------

  class RetryQueue {
    /** `self.queue`, oldest first. */
    var queue: seq<RemoteFile>
    /** The text of the `retryqueue` file. */
    var file: string

    constructor (items: seq<RemoteFile>, file: string)
      ensures queue == items && this.file == file
    {
      queue := items;
      this.file := file;
    }

    /** `add`: the item goes to the tail. */
    method Add(item: RemoteFile)
      modifies this`queue
      ensures queue == old(queue) + [item]
    {
      queue := queue + [item];
    }

    /**
     * `save` corrected: writes the records one by one, each followed by the
     * newline that collector.py:231 leaves out; an item without a filename
     * stops the write there and raises TypeError.
     */
    method Save() returns (r: Result<(), PyError>)
      modifies this`file
      ensures file == Serialized(queue, "\n").0
      ensures r == Serialized(queue, "\n").1
    {
      var text := "";
      var i := 0;
      assert queue[0..] == queue;
      while i < |queue|
        invariant 0 <= i <= |queue|
        invariant Serialized(queue, "\n").0 == text + Serialized(queue[i..], "\n").0
        invariant Serialized(queue, "\n").1 == Serialized(queue[i..], "\n").1
      {
        assert queue[i..][1..] == queue[i + 1..];
        SerializedCons(queue[i..], "\n");
        var rec := Record(queue[i]);
        if rec.Err? {
          file := text;
          return Err(rec.error);
        }
        Regroup(text, rec.value, "\n", Serialized(queue[i + 1..], "\n").0);
        text := text + rec.value + "\n";
        i := i + 1;
      }
      file := text;
      return Ok(());
    }

    /**
     * `process`: nothing on an empty queue; otherwise the head is taken off
     * (and handed back for download) and the rest is saved.
     */
    method Process() returns (head: Option<RemoteFile>, r: Result<(), PyError>)
      modifies this
      ensures old(queue) == [] ==> head == None && queue == [] && file == old(file) && r == Ok(())
      ensures old(queue) != [] ==> head == Some(old(queue)[0]) && queue == old(queue)[1..]
      ensures old(queue) != [] ==> file == Serialized(queue, "\n").0 && r == Serialized(queue, "\n").1
    {
      if |queue| == 0 {
        return None, Ok(());
      }
      head := Some(queue[0]);
      queue := queue[1..];
      r := Save();
    }
  }

  /**
   * `RetryQueue()`: with no readable `retryqueue` file the queue starts
   * empty; otherwise it holds the file's records in file order, and a line
   * that does not parse raises its error.
   */
  method OpenRetryQueue(file: Option<string>) returns (r: Result<RetryQueue, PyError>)
    ensures file.None? ==> r.Ok? && r.value.queue == []
    ensures file.Some? ==> (r.Ok? <==> ParseAll(Lines(file.value), ParseRecord).Ok?)
    ensures file.Some? && r.Ok? ==> r.value.queue == ParseAll(Lines(file.value), ParseRecord).value
    ensures file.Some? && r.Err? ==> r.error == ParseAll(Lines(file.value), ParseRecord).error
    ensures r.Ok? ==> fresh(r.value)
  {
    if file.None? {
      var q := new RetryQueue([], "");
      return Ok(q);
    }
    var items := ParseLines(Lines(file.value), ParseRecord);
    if items.Err? {
      return Err(items.error);
    }
    var q := new RetryQueue(items.value, file.value);
    return Ok(q);
  }
}
