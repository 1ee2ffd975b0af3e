/**
 * The parse layer of engine/imdb_reader.go: the quote-rewriting reader, the
 * header check, the capped row loop, the two record processors that fill the
 * shared title map, and the fixed order of the two passes.
 *
 * Decompression and tab splitting are not modelled: a file reaches this
 * module as a TsvStream, the records the tokeniser would hand out in order,
 * followed by how the stream ends (end of file, or a read error).
 */
module ImdbReader {
  import opened Results
  import opened Title

  // ---------------------------------------------------------------------
  // The quote-rewriting reader (engine/imdb_reader.go:69-88)
  // ---------------------------------------------------------------------

  newtype Byte = x: int | 0 <= x < 256

  /** The byte value of `"`. */
  const DoubleQuote: Byte := 34
  /** The byte value of `'`. */
  const SingleQuote: Byte := 39

  function SanitizeByte(b: Byte): Byte
  {
    if b == DoubleQuote then SingleQuote else b
  }

  /** The rewrite of a whole chunk, byte by byte, in order. */
  function Sanitize(s: seq<Byte>): (r: seq<Byte>)
    ensures |r| == |s|
  {
    if s == [] then [] else Sanitize(s[..|s| - 1]) + [SanitizeByte(s[|s| - 1])]
  }

  /** Each byte of the rewritten chunk is the rewrite of the byte at that place. */
  lemma {:induction false} SanitizeAt(s: seq<Byte>, i: nat)
    requires i < |s|
    ensures Sanitize(s)[i] == SanitizeByte(s[i])
  {
    if i < |s| - 1 {
      SanitizeAt(s[..|s| - 1], i);
    }
  }

  /**
   * After the rewrite no byte is a double quote, every former double quote is
   * a single quote, and every other byte is what it was.
   */
  lemma SanitizeSpec(s: seq<Byte>)
    ensures |Sanitize(s)| == |s|
    ensures forall i :: 0 <= i < |s| ==> Sanitize(s)[i] != DoubleQuote
    ensures forall i :: 0 <= i < |s| && s[i] == DoubleQuote ==> Sanitize(s)[i] == SingleQuote
    ensures forall i :: 0 <= i < |s| && s[i] != DoubleQuote ==> Sanitize(s)[i] == s[i]
  {
    forall i | 0 <= i < |s|
      ensures Sanitize(s)[i] == SanitizeByte(s[i])
    {
      SanitizeAt(s, i);
    }
  }

  /** Rewriting an already rewritten chunk changes nothing. */
  lemma {:induction false} SanitizeIdempotent(s: seq<Byte>)
    ensures Sanitize(Sanitize(s)) == Sanitize(s)
  {
    if s != [] {
      var init := s[..|s| - 1];
      SanitizeIdempotent(init);
      assert Sanitize(s)[..|s| - 1] == Sanitize(init);
    }
  }

  /** The error an underlying read may return beside its byte count. */
  datatype ReadError = EOF | IoFailure(message: string)

  /**
   * The buffer after the quote rewrite of its first `count` bytes; the bytes
   * at or after `count` are left as they were.
   */
  function RewriteFirst(buffer: seq<Byte>, count: nat): (r: seq<Byte>)
    requires count <= |buffer|
    ensures |r| == |buffer|
  {
    Sanitize(buffer[..count]) + buffer[count..]
  }

  /**
   * The rewrite loop of the reader: the first `count` bytes of `p` are
   * rewritten in place, the rest untouched.
   */
  method RewriteQuotes(p: array<Byte>, count: nat)
    requires count <= p.Length
    modifies p
    ensures p[..] == RewriteFirst(old(p[..]), count)
  {
    for i := 0 to count
      invariant p[..i] == Sanitize(old(p[..i]))
      invariant p[i..] == old(p[i..])
    {
      assert old(p[..i + 1])[..i] == old(p[..i]);
      if p[i] == DoubleQuote {
        p[i] := SingleQuote;
      }
      assert p[..i + 1] == p[..i] + [p[i]];
    }
    assert p[..] == p[..count] + p[count..];
    assert old(p[..])[..count] == old(p[..count]);
  }

  /**
   * What the reader leaves in the caller's buffer, as written: when the
   * underlying read reports an error, the buffer is handed back untouched.
   */
  function AfterRead(buffer: seq<Byte>, count: nat, err: Option<ReadError>): (r: seq<Byte>)
    requires count <= |buffer|
  {
    if err.Some? then buffer else RewriteFirst(buffer, count)
  }

  /**
   * sanitizingReader.Read. `p` holds what the underlying reader placed in the
   * caller's buffer and `count`, `err` are what it returned (it never reports
   * more bytes than the buffer holds). The count and the error are passed on
   * unchanged.
   */
  method SanitizingRead(p: array<Byte>, count: nat, err: Option<ReadError>) returns (n: nat, e: Option<ReadError>)
    requires count <= p.Length
    modifies p
    ensures n == count && e == err
    ensures p[..] == AfterRead(old(p[..]), count, err)
  {
    n, e := count, err;
    if err.Some? {
      return;
    }
    RewriteQuotes(p, count);
  }

  /**
   * A read without error delivers no double quote in its first `count`
   * bytes, has rewritten each one to a single quote, and leaves every other
   * byte as it was; a read with an error leaves the whole buffer as it was.
   */
  lemma {:induction false} AfterReadSpec(buffer: seq<Byte>, count: nat, err: Option<ReadError>)
    requires count <= |buffer|
    ensures |AfterRead(buffer, count, err)| == |buffer|
    ensures err.Some? ==> AfterRead(buffer, count, err) == buffer
    ensures err.None? ==> forall i :: 0 <= i < count ==> AfterRead(buffer, count, err)[i] != DoubleQuote
    ensures err.None? ==> forall i :: 0 <= i < count ==> AfterRead(buffer, count, err)[i] == SanitizeByte(buffer[i])
    ensures forall i :: count <= i < |buffer| ==> AfterRead(buffer, count, err)[i] == buffer[i]
  {
    if err.None? {
      var prefix := buffer[..count];
      SanitizeSpec(prefix);
      forall i | 0 <= i < count
        ensures AfterRead(buffer, count, err)[i] == SanitizeByte(buffer[i])
      {
        SanitizeAt(prefix, i);
      }
    }
  }

  /** A second pass of the rewrite over the same bytes changes nothing. */
  lemma {:induction false} RewriteTwiceIsOnce(buffer: seq<Byte>, count: nat)
    requires count <= |buffer|
    ensures RewriteFirst(RewriteFirst(buffer, count), count) == RewriteFirst(buffer, count)
  {
    var once := RewriteFirst(buffer, count);
    assert once[..count] == Sanitize(buffer[..count]);
    assert once[count..] == buffer[count..];
    SanitizeIdempotent(buffer[..count]);
  }

  /**
   * An underlying reader may hand over its last bytes together with the end
   * of file; the reader as written then passes a double quote through.
   */
  lemma QuoteSurvivesFinalChunk()
    ensures AfterRead([DoubleQuote], 1, Some(EOF))[0] == DoubleQuote
  {
  }

  /**
   * The reader as evidently intended: every byte the underlying read
   * delivered is rewritten, whether or not an error came with it.
   */
  method SanitizingReadAll(p: array<Byte>, count: nat, err: Option<ReadError>) returns (n: nat, e: Option<ReadError>)
    requires count <= p.Length
    modifies p
    ensures n == count && e == err
    ensures p[..] == RewriteFirst(old(p[..]), count)
  {
    RewriteQuotes(p, count);
    n, e := count, err;
  }

  /** With the intended reader no delivered byte is a double quote. */
  lemma {:induction false} RewriteFirstDeliversNoQuote(buffer: seq<Byte>, count: nat)
    requires count <= |buffer|
    ensures forall i :: 0 <= i < count ==> RewriteFirst(buffer, count)[i] != DoubleQuote
    ensures forall i :: count <= i < |buffer| ==> RewriteFirst(buffer, count)[i] == buffer[i]
  {
    SanitizeSpec(buffer[..count]);
  }

  // ---------------------------------------------------------------------
  // Records, errors and the header check (engine/imdb_reader.go:92-126)
  // ---------------------------------------------------------------------

  /** How a tokenised stream ends once its records are used up. */
  datatype StreamEnd = AtEof | Broken(message: string)

  /**
   * One file as the tokeniser delivers it: its records in file order (the
   * header first), then its end. A failure to open or decompress the file is
   * a stream with no records that ends Broken.
   */
  datatype TsvStream = TsvStream(rows: seq<seq<string>>, end: StreamEnd)

  /**
   * The tokeniser's guarantee: every record has as many fields as the first
   * one (a record that does not is reported as a read error instead).
   */
  predicate WellFormed(s: TsvStream)
  {
    forall i :: 0 <= i < |s.rows| ==> |s.rows[i]| == |s.rows[0]|
  }

  /** The result of one call to read the next record. */
  datatype Record = Fields(fields: seq<string>) | EndOfFile | ReadFailure(message: string)

  /** The result of the k-th read (counting from 0) on a stream. */
  function ReadRecord(s: TsvStream, k: nat): Record
  {
    if k < |s.rows| then Fields(s.rows[k])
    else if s.end.AtEof? then EndOfFile
    else ReadFailure(s.end.message)
  }

  /** The fatal conditions of the parse layer. */
  datatype ParseError =
    | EmptyFile
    | ReadFailed(message: string)
    | ColumnCount(expected: nat, found: nat)
    | ColumnName(column: nat, expectedName: string, foundName: string)
    | BadRating(text: string)
    | BadRatingCount(text: string)

  /** The cap on data rows read from one file. */
  const MaxDataRows: nat := 100000

  const RatingsColumns: seq<string> := ["tconst", "averageRating", "numVotes"]

  const BasicsColumns: seq<string> :=
    ["tconst", "titleType", "primaryTitle", "originalTitle", "isAdult",
     "startYear", "endYear", "runtimeMinutes", "genres"]

  /**
   * The verdict on the columns from position `from` on, for a header of the
   * expected length: the first differing column, numbered from 1, or Pass.
   */
  function FirstMismatch(header: seq<string>, expected: seq<string>, from: nat): (r: Outcome<ParseError>)
    requires |header| == |expected| && from <= |expected|
    ensures r.Pass? <==> header[from..] == expected[from..]
    ensures r.Fail? ==>
      && r.error.ColumnName?
      && from < r.error.column <= |expected|
      && r.error.expectedName == expected[r.error.column - 1]
      && r.error.foundName == header[r.error.column - 1]
      && r.error.expectedName != r.error.foundName
      && header[from..r.error.column - 1] == expected[from..r.error.column - 1]
    decreases |expected| - from
  {
    if from == |expected| then Pass
    else if header[from] != expected[from] then Fail(ColumnName(from + 1, expected[from], header[from]))
    else
      var rest := FirstMismatch(header, expected, from + 1);
      assert header[from..] == [header[from]] + header[from + 1..];
      assert expected[from..] == [expected[from]] + expected[from + 1..];
      rest
  }

  /**
   * The header check: the column count first, then the names column by
   * column. It passes exactly when the header is the expected column list.
   */
  function HeaderVerdict(header: seq<string>, expected: seq<string>): (r: Outcome<ParseError>)
    ensures r.Pass? <==> header == expected
    ensures |header| != |expected| ==> r == Fail(ColumnCount(|expected|, |header|))
    ensures r.Fail? && |header| == |expected| ==> r.error.ColumnName? && 0 < r.error.column <= |expected|
  {
    if |header| != |expected| then Fail(ColumnCount(|expected|, |header|))
    else FirstMismatch(header, expected, 0)
  }

  /** The header check as the source runs it: a count test, then a loop over the expected columns. */
  method CheckHeader(header: seq<string>, expected: seq<string>) returns (r: Outcome<ParseError>)
    ensures r == HeaderVerdict(header, expected)
  {
    if |header| != |expected| {
      return Fail(ColumnCount(|expected|, |header|));
    }
    for index := 0 to |expected|
      invariant FirstMismatch(header, expected, index) == FirstMismatch(header, expected, 0)
    {
      if header[index] != expected[index] {
        return Fail(ColumnName(index + 1, expected[index], header[index]));
      }
    }
    return Pass;
  }

  // ---------------------------------------------------------------------
  // The record processors (engine/imdb_reader.go:30-67)
  // ---------------------------------------------------------------------

  /**
   * The number parsers the ratings processor relies on, left abstract: a
   * 64-bit float parser (which may yield the not-a-number value) and a
   * base-10 parser into the 32-bit range. None is a parse error.
   */
  datatype NumberParsers = NumberParsers(parseFloat: string -> Option<Rating>, parseInt32: string -> Option<Int32>)

  /** The two record processors, ratings and basics. */
  datatype Processor = RatingsProcessor | BasicsProcessor

  /** The number of columns a processor reads. */
  function Arity(p: Processor): nat
  {
    if p.RatingsProcessor? then |RatingsColumns| else |BasicsColumns|
  }

  /**
   * addPartialTitleFromRating on map values: the entry for the row's id is
   * created or overwritten with the parsed rating and count and blank
   * metadata; a number that does not parse is fatal.
   */
  function AddRating(titles: map<string, Title>, record: seq<string>, parsers: NumberParsers): (r: Result<map<string, Title>, ParseError>)
    requires |record| == 3
    ensures r.Failure? <==> parsers.parseFloat(record[1]).None? || parsers.parseInt32(record[2]).None?
    ensures r.Failure? ==>
      r.error == if parsers.parseFloat(record[1]).None? then BadRating(record[1]) else BadRatingCount(record[2])
    ensures r.Success? ==> r.value.Keys == titles.Keys + {record[0]}
    ensures r.Success? ==>
      var t := r.value[record[0]];
      && t.tconst == record[0]
      && t.titleType == "" && t.primaryTitle == "" && t.runtimeMinutes == "" && t.genres == ""
      && t.rating == parsers.parseFloat(record[1]).value
      && t.ratingCount == parsers.parseInt32(record[2]).value
    ensures r.Success? ==> forall k :: k in titles && k != record[0] ==> r.value[k] == titles[k]
  {
    match parsers.parseFloat(record[1])
    case None => Failure(BadRating(record[1]))
    case Some(rating) =>
      match parsers.parseInt32(record[2])
      case None => Failure(BadRatingCount(record[2]))
      case Some(count) => Success(titles[record[0] := Title(record[0], "", "", "", "", rating, count)])
  }

  /**
   * updatePrimaryTitleFromTitleBasicsRecord on map values: an existing entry
   * takes its type, display name, runtime and genres from columns 1, 2, 7
   * and 8; an id with no entry is dropped.
   */
  function UpdateFromBasics(titles: map<string, Title>, record: seq<string>): (r: map<string, Title>)
    requires |record| == 9
    ensures r.Keys == titles.Keys
    ensures record[0] !in titles ==> r == titles
    ensures record[0] in titles ==>
      var before, after := titles[record[0]], r[record[0]];
      && after.tconst == before.tconst
      && after.rating == before.rating
      && after.ratingCount == before.ratingCount
      && after.titleType == record[1]
      && after.primaryTitle == record[2]
      && after.runtimeMinutes == record[7]
      && after.genres == record[8]
    ensures forall k :: k in titles && k != record[0] ==> r[k] == titles[k]
  {
    var tconst := record[0];
    if tconst in titles then
      titles[tconst := titles[tconst].(titleType := record[1], primaryTitle := record[2],
                                       runtimeMinutes := record[7], genres := record[8])]
    else titles
  }

  /** One processor applied to one record. */
  function ApplyRecord(proc: Processor, titles: map<string, Title>, record: seq<string>, parsers: NumberParsers): Result<map<string, Title>, ParseError>
    requires |record| == Arity(proc)
  {
    if proc.RatingsProcessor? then AddRating(titles, record, parsers)
    else Success(UpdateFromBasics(titles, record))
  }

  predicate RowsFit(rows: seq<seq<string>>, proc: Processor)
  {
    forall i :: 0 <= i < |rows| ==> |rows[i]| == Arity(proc)
  }

  /** A processor applied to the rows in order, stopping at the first fatal row. */
  function ProcessRows(titles: map<string, Title>, rows: seq<seq<string>>, proc: Processor, parsers: NumberParsers): Result<map<string, Title>, ParseError>
    requires RowsFit(rows, proc)
    decreases |rows|
  {
    if rows == [] then Success(titles)
    else match ApplyRecord(proc, titles, rows[0], parsers)
      case Failure(e) => Failure(e)
      case Success(next) => ProcessRows(next, rows[1..], proc, parsers)
  }

  /**
   * The data rows handed to the processor: the records after the header, in
   * file order, no more than MaxDataRows of them.
   */
  function ProcessedRows(s: TsvStream): (rows: seq<seq<string>>)
    ensures |rows| <= MaxDataRows
    ensures |s.rows| > 0 ==> |rows| == if |s.rows| - 1 < MaxDataRows then |s.rows| - 1 else MaxDataRows
    ensures forall i :: 0 <= i < |rows| ==> i + 1 < |s.rows| && rows[i] == s.rows[i + 1]
  {
    if |s.rows| <= 1 then []
    else if |s.rows| - 1 <= MaxDataRows then s.rows[1..]
    else s.rows[1..MaxDataRows + 1]
  }

  /**
   * processTsvGzFile on map values: a missing header is fatal, a header that
   * is not the expected column list is fatal before any row, then at most
   * MaxDataRows rows go through the processor; the end of file stops the
   * loop, a read error before the cap is fatal.
   */
  function ProcessFile(titles: map<string, Title>, s: TsvStream, expected: seq<string>, proc: Processor, parsers: NumberParsers): (r: Result<map<string, Title>, ParseError>)
    requires WellFormed(s) && |expected| == Arity(proc)
    ensures r.Success? ==> |s.rows| > 0 && s.rows[0] == expected
    ensures |s.rows| == 0 ==> r.Failure? && r.error == if s.end.AtEof? then EmptyFile else ReadFailed(s.end.message)
    ensures |s.rows| > 0 && s.rows[0] != expected ==> r == Failure(HeaderVerdict(s.rows[0], expected).error)
  {
    if |s.rows| == 0 then Failure(if s.end.AtEof? then EmptyFile else ReadFailed(s.end.message))
    else match HeaderVerdict(s.rows[0], expected)
      case Fail(e) => Failure(e)
      case Pass =>
        match ProcessRows(titles, ProcessedRows(s), proc, parsers)
        case Failure(e) => Failure(e)
        case Success(m) =>
          if |s.rows| - 1 < MaxDataRows && s.end.Broken? then Failure(ReadFailed(s.end.message))
          else Success(m)
  }

  /** A method's outcome and final map agree with a result on map values. */
  ghost predicate Mirrors(r: Outcome<ParseError>, titles: map<string, Title>, spec: Result<map<string, Title>, ParseError>)
  {
    match spec
    case Success(m) => r == Pass && titles == m
    case Failure(e) => r == Fail(e)
  }

  /** The title map that the two passes fill in place. */
  class TitleTable {
    var titles: map<string, Title>

    constructor ()
      ensures titles == map[]
    {
      titles := map[];
    }

    /** addPartialTitleFromRating (engine/imdb_reader.go:45-67). */
    method AddPartialTitleFromRating(record: seq<string>, parsers: NumberParsers) returns (r: Outcome<ParseError>)
      requires |record| == 3
      modifies this
      ensures Mirrors(r, titles, AddRating(old(titles), record, parsers))
      ensures r.Fail? ==> titles == old(titles)
    {
      var tconst := record[0];
      var parsedRating := parsers.parseFloat(record[1]);
      if parsedRating.None? {
        return Fail(BadRating(record[1]));
      }
      var parsedRatingCount := parsers.parseInt32(record[2]);
      if parsedRatingCount.None? {
        return Fail(BadRatingCount(record[2]));
      }
      titles := titles[tconst := Title(record[0], "", "", "", "", parsedRating.value, parsedRatingCount.value)];
      return Pass;
    }

    /** updatePrimaryTitleFromTitleBasicsRecord (engine/imdb_reader.go:30-39). */
    method UpdatePrimaryTitleFromTitleBasicsRecord(record: seq<string>)
      requires |record| == 9
      modifies this
      ensures titles == UpdateFromBasics(old(titles), record)
    {
      var tconst := record[0];
      if tconst in titles {
        var title := titles[tconst];
        title := title.(titleType := record[1], primaryTitle := record[2],
                        runtimeMinutes := record[7], genres := record[8]);
        titles := titles[tconst := title];
      }
    }

    /** A call through the processor value. */
    method Process(proc: Processor, record: seq<string>, parsers: NumberParsers) returns (r: Outcome<ParseError>)
      requires |record| == Arity(proc)
      modifies this
      ensures Mirrors(r, titles, ApplyRecord(proc, old(titles), record, parsers))
    {
      if proc.RatingsProcessor? {
        r := AddPartialTitleFromRating(record, parsers);
      } else {
        UpdatePrimaryTitleFromTitleBasicsRecord(record);
        r := Pass;
      }
    }

    /** processTsvGzFile (engine/imdb_reader.go:92-139) from the tokenised stream on. */
    method ProcessTsvGzFile(s: TsvStream, expectedColumns: seq<string>, proc: Processor, parsers: NumberParsers) returns (r: Outcome<ParseError>)
      requires WellFormed(s) && |expectedColumns| == Arity(proc)
      modifies this
      ensures Mirrors(r, titles, ProcessFile(old(titles), s, expectedColumns, proc, parsers))
    {
      var header := ReadRecord(s, 0);
      if header.EndOfFile? {
        return Fail(EmptyFile);
      }
      if header.ReadFailure? {
        return Fail(ReadFailed(header.message));
      }
      r := CheckHeader(header.fields, expectedColumns);
      if r.Fail? {
        return;
      }
      ghost var rows := ProcessedRows(s);
      assert RowsFit(rows, proc);
      ghost var spec := ProcessRows(titles, rows, proc, parsers);
      var i := 0;
      while i < MaxDataRows
        invariant i <= |rows|
        invariant RowsFit(rows[i..], proc)
        invariant spec == ProcessRows(titles, rows[i..], proc, parsers)
      {
        var record := ReadRecord(s, i + 1);
        if record.EndOfFile? {
          break;
        }
        if record.ReadFailure? {
          return Fail(ReadFailed(record.message));
        }
        assert rows[i..][0] == record.fields && rows[i..][1..] == rows[i + 1..];
        r := Process(proc, record.fields, parsers);
        if r.Fail? {
          return;
        }
        i := i + 1;
      }
      return Pass;
    }
  }

  /** The two local dataset files, as tokenised streams. */
  datatype TitleFiles = TitleFiles(basics: TsvStream, ratings: TsvStream)

  /** Both passes on map values: ratings into an empty map, then basics. */
  function ReadTitles(files: TitleFiles, parsers: NumberParsers): Result<map<string, Title>, ParseError>
    requires WellFormed(files.ratings) && WellFormed(files.basics)
  {
    match ProcessFile(map[], files.ratings, RatingsColumns, RatingsProcessor, parsers)
    case Failure(e) => Failure(e)
    case Success(rated) => ProcessFile(rated, files.basics, BasicsColumns, BasicsProcessor, parsers)
  }

  /** ReadImdbTitleFiles (engine/imdb_reader.go:14-24): the ratings pass, then the basics pass, on one map. */
  method ReadImdbTitleFiles(files: TitleFiles, parsers: NumberParsers) returns (r: Result<map<string, Title>, ParseError>)
    requires WellFormed(files.ratings) && WellFormed(files.basics)
    ensures r == ReadTitles(files, parsers)
  {
    var table := new TitleTable();
    var outcome := table.ProcessTsvGzFile(files.ratings, RatingsColumns, RatingsProcessor, parsers);
    if outcome.Fail? {
      return Failure(outcome.error);
    }
    outcome := table.ProcessTsvGzFile(files.basics, BasicsColumns, BasicsProcessor, parsers);
    if outcome.Fail? {
      return Failure(outcome.error);
    }
    return Success(table.titles);
  }
  // ---------------------------------------------------------------------
  // What the two passes build
  // ---------------------------------------------------------------------

  /** The ids in the first column of the rows. */
  function IdsOf(rows: seq<seq<string>>): (ids: set<string>)
    requires forall i :: 0 <= i < |rows| ==> |rows[i]| > 0
    ensures forall id :: id in ids <==> exists i :: 0 <= i < |rows| && rows[i][0] == id
  {
    if rows == [] then {}
    else
      var rest := IdsOf(rows[1..]);
      assert forall i :: 1 <= i < |rows| ==> rows[1..][i - 1] == rows[i];
      {rows[0][0]} + rest
  }

  /** Every entry of the map is stored under its own id. */
  ghost predicate KeyedByTconst(titles: map<string, Title>)
  {
    forall k :: k in titles ==> titles[k].tconst == k
  }

  /**
   * A ratings pass that succeeds adds exactly the ids of its rows to the
   * keys, and keeps every entry stored under its own id.
   */
  lemma {:induction false} RatingsPassKeys(titles: map<string, Title>, rows: seq<seq<string>>, parsers: NumberParsers)
    requires RowsFit(rows, RatingsProcessor)
    ensures ProcessRows(titles, rows, RatingsProcessor, parsers).Success? ==>
      ProcessRows(titles, rows, RatingsProcessor, parsers).value.Keys == titles.Keys + IdsOf(rows)
    ensures ProcessRows(titles, rows, RatingsProcessor, parsers).Success? && KeyedByTconst(titles) ==>
      KeyedByTconst(ProcessRows(titles, rows, RatingsProcessor, parsers).value)
    decreases |rows|
  {
    if rows != [] {
      var step := AddRating(titles, rows[0], parsers);
      if step.Success? {
        assert RowsFit(rows[1..], RatingsProcessor);
        RatingsPassKeys(step.value, rows[1..], parsers);
      }
    }
  }

  /**
   * A basics pass never fails, keeps the key set, and leaves each entry's
   * id, rating and rating count as they were.
   */
  lemma {:induction false} BasicsPassKeepsRatings(titles: map<string, Title>, rows: seq<seq<string>>, parsers: NumberParsers)
    requires RowsFit(rows, BasicsProcessor)
    ensures ProcessRows(titles, rows, BasicsProcessor, parsers).Success?
    ensures
      var m := ProcessRows(titles, rows, BasicsProcessor, parsers).value;
      && m.Keys == titles.Keys
      && forall k :: k in m ==>
           m[k].tconst == titles[k].tconst && m[k].rating == titles[k].rating && m[k].ratingCount == titles[k].ratingCount
    decreases |rows|
  {
    if rows != [] {
      assert RowsFit(rows[1..], BasicsProcessor);
      BasicsPassKeepsRatings(UpdateFromBasics(titles, rows[0]), rows[1..], parsers);
    }
  }

  /**
   * Had the basics pass run first, on the empty map, it would have created
   * nothing: the entries come from the ratings pass alone.
   */
  lemma BasicsAloneCreatesNothing(rows: seq<seq<string>>, parsers: NumberParsers)
    requires RowsFit(rows, BasicsProcessor)
    ensures ProcessRows(map[], rows, BasicsProcessor, parsers) == Success(map[])
  {
    BasicsPassKeepsRatings(map[], rows, parsers);
  }

  /**
   * The parse result holds an entry for exactly the ids of the ratings rows
   * that were processed, each stored under its own id: an id found only in
   * the basics file never appears.
   */
  lemma ReadTitlesKeys(files: TitleFiles, parsers: NumberParsers)
    requires WellFormed(files.ratings) && WellFormed(files.basics)
    ensures ReadTitles(files, parsers).Success? ==>
      && RowsFit(ProcessedRows(files.ratings), RatingsProcessor)
      && ReadTitles(files, parsers).value.Keys == IdsOf(ProcessedRows(files.ratings))
      && KeyedByTconst(ReadTitles(files, parsers).value)
  {
    var ratingsPass := ProcessFile(map[], files.ratings, RatingsColumns, RatingsProcessor, parsers);
    if ratingsPass.Success? {
      var rows := ProcessedRows(files.ratings);
      assert RowsFit(rows, RatingsProcessor);
      RatingsPassKeys(map[], rows, parsers);
      var basicsPass := ProcessFile(ratingsPass.value, files.basics, BasicsColumns, BasicsProcessor, parsers);
      if basicsPass.Success? {
        var basicsRows := ProcessedRows(files.basics);
        assert RowsFit(basicsRows, BasicsProcessor);
        BasicsPassKeepsRatings(ratingsPass.value, basicsRows, parsers);
      }
    }
  }

  /**
   * Rows after the cap are never looked at: a file with exactly MaxDataRows
   * data rows gives the same result whatever rows or read error follow them.
   */
  lemma RowsBeyondCapIgnored(titles: map<string, Title>, s: TsvStream, extra: seq<seq<string>>, end: StreamEnd,
                             expected: seq<string>, proc: Processor, parsers: NumberParsers)
    requires |s.rows| == MaxDataRows + 1 && WellFormed(s)
    requires forall i :: 0 <= i < |extra| ==> |extra[i]| == |s.rows[0]|
    requires |expected| == Arity(proc)
    ensures WellFormed(TsvStream(s.rows + extra, end))
    ensures ProcessFile(titles, TsvStream(s.rows + extra, end), expected, proc, parsers)
         == ProcessFile(titles, s, expected, proc, parsers)
  {
    var longer := TsvStream(s.rows + extra, end);
    assert ProcessedRows(longer) == ProcessedRows(s);
  }

  /**
   * Once the header matches, how the stream ends decides the outcome: the end
   * of file, or reaching the cap, ends the row loop with the processors'
   * result; a read error before the cap is fatal, after any fatal row
   * reported first.
   */
  lemma ProcessFileEnd(titles: map<string, Title>, s: TsvStream, expected: seq<string>, proc: Processor, parsers: NumberParsers)
    requires WellFormed(s) && |expected| == Arity(proc)
    requires |s.rows| > 0 && s.rows[0] == expected
    ensures RowsFit(ProcessedRows(s), proc)
    ensures s.end.AtEof? || |s.rows| - 1 >= MaxDataRows ==>
      ProcessFile(titles, s, expected, proc, parsers) == ProcessRows(titles, ProcessedRows(s), proc, parsers)
    ensures s.end.Broken? && |s.rows| - 1 < MaxDataRows ==> ProcessFile(titles, s, expected, proc, parsers).Failure?
    ensures s.end.Broken? && |s.rows| - 1 < MaxDataRows && ProcessRows(titles, ProcessedRows(s), proc, parsers).Success? ==>
      ProcessFile(titles, s, expected, proc, parsers) == Failure(ReadFailed(s.end.message))
  {
    assert HeaderVerdict(s.rows[0], expected) == Pass;
  }

  /** Row `i` is the last row whose id is `id`. */
  ghost predicate LastRowFor(rows: seq<seq<string>>, id: string, i: int)
  {
    && 0 <= i < |rows|
    && |rows[i]| > 0 && rows[i][0] == id
    && forall j :: i < j < |rows| && |rows[j]| > 0 ==> rows[j][0] != id
  }

  /** The entry is the ratings-only title that a ratings row creates. */
  ghost predicate FromRatingsRow(t: Title, row: seq<string>, parsers: NumberParsers)
    requires |row| == 3
  {
    && t.tconst == row[0]
    && t.titleType == "" && t.primaryTitle == "" && t.runtimeMinutes == "" && t.genres == ""
    && parsers.parseFloat(row[1]) == Some(t.rating)
    && parsers.parseInt32(row[2]) == Some(t.ratingCount)
  }

  /** The entry carries the metadata columns of a basics row. */
  ghost predicate MetadataFromBasicsRow(t: Title, row: seq<string>)
    requires |row| == 9
  {
    t.titleType == row[1] && t.primaryTitle == row[2] && t.runtimeMinutes == row[7] && t.genres == row[8]
  }

  /**
   * After a ratings pass that succeeds, an id of its rows holds the title
   * created from the last row with that id (a later row overwrites an earlier
   * one); every other entry is as it was.
   */
  lemma {:induction false} RatingsPassLastRowWins(titles: map<string, Title>, rows: seq<seq<string>>, parsers: NumberParsers, k: string)
    requires RowsFit(rows, RatingsProcessor)
    requires ProcessRows(titles, rows, RatingsProcessor, parsers).Success?
    requires k in ProcessRows(titles, rows, RatingsProcessor, parsers).value
    ensures
      var m := ProcessRows(titles, rows, RatingsProcessor, parsers).value;
      if k in IdsOf(rows) then exists i :: LastRowFor(rows, k, i) && FromRatingsRow(m[k], rows[i], parsers)
      else k in titles && m[k] == titles[k]
    decreases |rows|
  {
    if rows != [] {
      var step := AddRating(titles, rows[0], parsers);
      var rest := rows[1..];
      assert RowsFit(rest, RatingsProcessor);
      RatingsPassLastRowWins(step.value, rest, parsers, k);
      if k in IdsOf(rest) {
        var i :| LastRowFor(rest, k, i) && FromRatingsRow(ProcessRows(step.value, rest, RatingsProcessor, parsers).value[k], rest[i], parsers);
        assert LastRowFor(rows, k, i + 1);
      } else if k == rows[0][0] {
        assert LastRowFor(rows, k, 0);
      }
    }
  }

  /**
   * A basics pass gives an entry whose id occurs in its rows the metadata of
   * the last such row, and leaves every other entry as it was.
   */
  lemma {:induction false} BasicsPassLastRowWins(titles: map<string, Title>, rows: seq<seq<string>>, parsers: NumberParsers, k: string)
    requires RowsFit(rows, BasicsProcessor)
    requires k in titles
    ensures
      var r := ProcessRows(titles, rows, BasicsProcessor, parsers);
      && r.Success? && k in r.value
      && if k in IdsOf(rows) then exists i :: LastRowFor(rows, k, i) && MetadataFromBasicsRow(r.value[k], rows[i])
         else r.value[k] == titles[k]
    decreases |rows|
  {
    if rows != [] {
      var step := UpdateFromBasics(titles, rows[0]);
      var rest := rows[1..];
      assert RowsFit(rest, BasicsProcessor);
      BasicsPassLastRowWins(step, rest, parsers, k);
      if k in IdsOf(rest) {
        var i :| LastRowFor(rest, k, i) && MetadataFromBasicsRow(ProcessRows(step, rest, BasicsProcessor, parsers).value[k], rest[i]);
        assert LastRowFor(rows, k, i + 1);
      } else if k == rows[0][0] {
        assert LastRowFor(rows, k, 0);
      }
    }
  }

  /**
   * Each entry of the parse result: its id, rating and count come from the
   * last processed ratings row with that id; its type, display name, runtime
   * and genres come from the last processed basics row with that id, and
   * stay blank when there is none.
   */
  lemma ReadTitlesEntry(files: TitleFiles, parsers: NumberParsers, k: string)
    requires WellFormed(files.ratings) && WellFormed(files.basics)
    requires ReadTitles(files, parsers).Success? && k in ReadTitles(files, parsers).value
    ensures RowsFit(ProcessedRows(files.ratings), RatingsProcessor)
    ensures RowsFit(ProcessedRows(files.basics), BasicsProcessor)
    ensures
      var t, rated := ReadTitles(files, parsers).value[k], ProcessedRows(files.ratings);
      exists i :: LastRowFor(rated, k, i) && t.tconst == k
        && parsers.parseFloat(rated[i][1]) == Some(t.rating)
        && parsers.parseInt32(rated[i][2]) == Some(t.ratingCount)
    ensures
      var t, described := ReadTitles(files, parsers).value[k], ProcessedRows(files.basics);
      if k in IdsOf(described) then exists i :: LastRowFor(described, k, i) && MetadataFromBasicsRow(t, described[i])
      else t.titleType == "" && t.primaryTitle == "" && t.runtimeMinutes == "" && t.genres == ""
  {
    var ratingsPass := ProcessFile(map[], files.ratings, RatingsColumns, RatingsProcessor, parsers);
    var rated := ProcessedRows(files.ratings);
    assert RowsFit(rated, RatingsProcessor);
    var basicsPass := ProcessFile(ratingsPass.value, files.basics, BasicsColumns, BasicsProcessor, parsers);
    var described := ProcessedRows(files.basics);
    assert RowsFit(described, BasicsProcessor);
    BasicsPassKeepsRatings(ratingsPass.value, described, parsers);
    BasicsPassLastRowWins(ratingsPass.value, described, parsers, k);
    RatingsPassKeys(map[], rated, parsers);
    RatingsPassLastRowWins(map[], rated, parsers, k);
  }
  /**
   * A worked example: one ratings row, then a basics row for the same id and
   * one for an id without ratings. The result holds a single entry that
   * combines both rows; the id without ratings is dropped.
   */
  lemma ExampleFiles(parsers: NumberParsers)
    requires parsers.parseFloat("5.6") == Some(Rated(5.6))
    requires parsers.parseInt32("1668") == Some(1668)
    ensures
      var ratings := TsvStream([RatingsColumns, ["tt0000001", "5.6", "1668"]], AtEof);
      var basics := TsvStream(
        [BasicsColumns,
         ["tt0000001", "movie", "Example", "Example", "0", "2000", "\\N", "90", "Drama"],
         ["tt0000002", "short", "Unrated", "Unrated", "0", "1894", "\\N", "1", "Short"]],
        AtEof);
      && WellFormed(ratings) && WellFormed(basics)
      && ReadTitles(TitleFiles(basics, ratings), parsers)
         == Success(map["tt0000001" := Title("tt0000001", "movie", "Example", "90", "Drama", Rated(5.6), 1668)])
  {
    var ratings := TsvStream([RatingsColumns, ["tt0000001", "5.6", "1668"]], AtEof);
    var basics := TsvStream(
      [BasicsColumns,
       ["tt0000001", "movie", "Example", "Example", "0", "2000", "\\N", "90", "Drama"],
       ["tt0000002", "short", "Unrated", "Unrated", "0", "1894", "\\N", "1", "Short"]],
      AtEof);
    var rated := map["tt0000001" := Title("tt0000001", "", "", "", "", Rated(5.6), 1668)];
    var ratingRow := ["tt0000001", "5.6", "1668"];
    assert ProcessedRows(ratings) == [ratingRow];
    assert HeaderVerdict(ratings.rows[0], RatingsColumns) == Pass;
    assert AddRating(map[], ratingRow, parsers) == Success(rated);
    assert ProcessRows(rated, [ratingRow][1..], RatingsProcessor, parsers) == Success(rated);
    assert ProcessRows(map[], [ratingRow], RatingsProcessor, parsers) == Success(rated);
    assert ProcessFile(map[], ratings, RatingsColumns, RatingsProcessor, parsers) == Success(rated);
    var row1, row2 := basics.rows[1], basics.rows[2];
    var described := UpdateFromBasics(rated, row1);
    assert described == map["tt0000001" := Title("tt0000001", "movie", "Example", "90", "Drama", Rated(5.6), 1668)];
    assert UpdateFromBasics(described, row2) == described;
    assert ProcessedRows(basics) == [row1, row2];
    assert HeaderVerdict(basics.rows[0], BasicsColumns) == Pass;
    assert ProcessRows(described, [row2], BasicsProcessor, parsers) == Success(described);
    assert ProcessRows(rated, [row1, row2], BasicsProcessor, parsers) == Success(described);
  }
}
