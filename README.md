# movie-suggester core, modelled in Dafny

movie-suggester suggests one movie the user has not seen yet. It reads two
IMDb dataset files: `title.ratings` (id, average rating, vote count) and
`title.basics` (id, type, display name, runtime, genres and other columns).
It builds a map from title id to `Title`. It keeps the titles that are movies,
that meet a minimum rating and a minimum vote count, and whose display name is
not on the user's already-seen list. Then it picks one of them at random.

This project models the `engine` package's core in four modules:

- `Results` (`results.dfy`): `Option`, `Outcome` and `Result`. These stand in
  for the program's `log.Fatal` exits.
- `Title` (`title.dfy`): the `Title` record and the rating with its
  not-a-number "unrated" sentinel. `AtLeast` is the float `>=`, which is false
  when either side is not a number. `RandTitle` is the random pick, with the
  draw passed in as an index.
- `ImdbReader` (`imdb_reader.dfy`): the reader that rewrites `"` to `'` in the
  caller's buffer, the header check, and the row loop capped at 100000 data
  rows. It also holds the two record processors, which update a shared title
  map in place (a `TitleTable` object), and `ReadImdbTitleFiles`, which runs the
  ratings pass before the basics pass. Each imperative member is proved against
  a function on values: `RewriteFirst`, `HeaderVerdict`, `AddRating`,
  `UpdateFromBasics`, `ProcessFile` or `ReadTitles`. The lemmas about the result
  are stated on those functions.
- `Suggest` (`suggest.dfy`): the three filters as loops that append, each
  proved equal to `Filter` with its test. `Suggest` runs the parse, the three
  filters, the emptiness check and the pick.

Files come in already decompressed and split into records, as a `TsvStream`:
the records in file order, then how the stream ends (end of file or a read
error). The two number parsers are passed in as a `NumberParsers` value. The
random draw is passed in as a number.

## Model

| member | source | states |
|---|---|---|
| `Title.RandTitle` | engine/title.go:29-32 | for a draw in range of a non-empty list, the pick is an element of that list |
| `Title.EveryTitleReachable` | engine/title_test.go:18-34 | every element of the list is the pick for some draw |
| `Title.AtLeast` | engine/suggest.go:46 | the float `>=`: true only when both sides are numbers, and then exactly when the first is at least the second |
| `Title.UnratedComparesFalse` | engine/title.go:8-10 | the unrated sentinel is never `>=` any threshold, and no rating is `>=` an unrated threshold |
| `ImdbReader.SanitizeAt` | engine/imdb_reader.go:82-86 | each rewritten byte is the rewrite of the byte at the same place |
| `ImdbReader.SanitizeSpec` | engine/imdb_reader.go:82-86 | after the rewrite: no `"` is left, each former `"` is `'`, every other byte is unchanged, the length is kept |
| `ImdbReader.SanitizeIdempotent` | engine/imdb_reader.go:82-86 | rewriting a second time changes nothing |
| `ImdbReader.RewriteQuotes` | engine/imdb_reader.go:82-86 | the in-place loop rewrites the first `count` bytes of the buffer and leaves the bytes at or after `count` untouched |
| `ImdbReader.RewriteTwiceIsOnce` | engine/imdb_reader.go:82-86 | running the rewrite loop twice over a buffer gives the same bytes as running it once |
| `ImdbReader.SanitizingRead` | engine/imdb_reader.go:77-88 | the count and error of the underlying read are returned unchanged; after an error the buffer is untouched, otherwise its first `count` bytes are rewritten |
| `ImdbReader.AfterReadSpec` | engine/imdb_reader.go:77-88 | after a read without error, none of the first `count` bytes is `"`; bytes at or after `count` never change; after an error the whole buffer is unchanged |
| `ImdbReader.QuoteSurvivesFinalChunk` | engine/imdb_reader.go:78-81 | a `"` delivered together with end of file comes out unchanged |
| `ImdbReader.SanitizingReadAll` | engine/imdb_reader.go:77-88 | corrected reader: the first `count` bytes are rewritten whatever error the read returned |
| `ImdbReader.RewriteFirstDeliversNoQuote` | engine/imdb_reader.go:82-86 | with the corrected reader, no delivered byte is `"` and the bytes after `count` are untouched |
| `ImdbReader.FirstMismatch` | engine/imdb_reader.go:121-126 | the column scan passes iff the remaining columns are equal; otherwise it reports the first differing column, numbered from 1, with the expected and the found name |
| `ImdbReader.HeaderVerdict` | engine/imdb_reader.go:118-126 | the header is accepted iff it equals the expected column list; a different column count is reported as a count error |
| `ImdbReader.CheckHeader` | engine/imdb_reader.go:118-126 | the count test followed by the column loop gives exactly that verdict |
| `ImdbReader.AddRating` | engine/imdb_reader.go:45-67 | fails iff either number does not parse, with the rating checked first; on success the row's id holds its id, the parsed rating and count, and blank metadata; any previous entry for the id is overwritten; the key set grows by the id alone and other keys are unchanged |
| `ImdbReader.UpdateFromBasics` | engine/imdb_reader.go:30-39 | the key set is unchanged; an absent id leaves the map unchanged; a present id takes type, display name, runtime and genres from columns 1, 2, 7 and 8, and keeps its id, rating and count; other keys are unchanged |
| `ImdbReader.TitleTable.constructor` | engine/imdb_reader.go:15 | the shared title map starts empty |
| `ImdbReader.TitleTable.AddPartialTitleFromRating` | engine/imdb_reader.go:45-67 | the map becomes what `AddRating` gives, or the matching parse error is returned and the map is unchanged |
| `ImdbReader.TitleTable.UpdatePrimaryTitleFromTitleBasicsRecord` | engine/imdb_reader.go:30-39 | the map becomes what `UpdateFromBasics` gives |
| `ImdbReader.TitleTable.Process` | engine/imdb_reader.go:137 | a call through the processor value has the effect of the chosen processor |
| `ImdbReader.TitleTable.ProcessTsvGzFile` | engine/imdb_reader.go:92-139 | the outcome and the new map are those of `ProcessFile` on the old map |
| `ImdbReader.ProcessedRows` | engine/imdb_reader.go:128-138 | the processor sees the data rows after the header in file order, `min(rows after header, 100000)` of them |
| `ImdbReader.ProcessFile` | engine/imdb_reader.go:110-138 | success only with a header equal to the expected columns; an empty file fails with the empty-file error; a wrong header fails with the header verdict's error and no data row counts; how the stream ends is stated by `ImdbReader.ProcessFileEnd` |
| `ImdbReader.ProcessFileEnd` | engine/imdb_reader.go:128-138 | with the expected header, the end of file or reaching the 100000-row cap ends the loop with no error of its own, and the outcome is the processors' result over the rows; a read error before the cap is fatal, and when every row before it went through, the outcome is that read error |
| `ImdbReader.RowsBeyondCapIgnored` | engine/imdb_reader.go:128-138 | with 100000 data rows, any further rows and any read error after them change nothing |
| `ImdbReader.ReadImdbTitleFiles` | engine/imdb_reader.go:14-24 | the result is the ratings pass on an empty map followed by the basics pass on that map |
| `ImdbReader.RatingsPassKeys` | engine/imdb_reader.go:45-67 | a successful ratings pass adds exactly the ids of its rows to the keys and keeps every entry stored under its own id |
| `ImdbReader.BasicsPassKeepsRatings` | engine/imdb_reader.go:30-39 | a basics pass never fails, keeps the key set, and keeps each entry's id, rating and count |
| `ImdbReader.BasicsAloneCreatesNothing` | engine/imdb_reader.go:14-24 | a basics pass on the empty map leaves it empty, so entries come only from the ratings pass |
| `ImdbReader.ReadTitlesKeys` | engine/imdb_reader.go:14-24 | the result's keys are exactly the ids of the processed ratings rows, each entry under its own id; an id found only in the basics file never appears |
| `ImdbReader.RatingsPassLastRowWins` | engine/imdb_reader.go:58-66 | after a successful ratings pass, an id of its rows holds the title built from the last row with that id; other entries are as before |
| `ImdbReader.BasicsPassLastRowWins` | engine/imdb_reader.go:32-38 | after a basics pass, an entry whose id occurs in its rows has the metadata of the last such row; other entries are as before |
| `ImdbReader.ReadTitlesEntry` | engine/imdb_reader.go:14-24 | each entry's rating and count come from the last processed ratings row with its id; its metadata comes from the last processed basics row with its id, or is blank if there is none |
| `ImdbReader.ExampleFiles` | engine/imdb_reader.go:26-44 | a ratings row `tt0000001 5.6 1668` plus a basics row for the same id gives one entry combining both; a basics-only id is dropped |
| `Suggest.FilterMembership` | engine/suggest.go:44-50 | a filter keeps an element iff it occurs in the input and passes the test |
| `Suggest.FilterIsSubsequence` | engine/suggest.go:44-50 | a filter's output is a subsequence of its input, in the same relative order |
| `Suggest.FilterIdempotent` | engine/suggest.go:44-50 | filtering again with the same test changes nothing |
| `Suggest.FilterKeepsAll` | engine/suggest.go:56-66 | a test that passes every element returns the input unchanged |
| `Suggest.FilterFilter` | engine/suggest.go:21-23 | filtering by one test and then another equals one filter by both tests |
| `Suggest.FilterNonMovies` | engine/suggest.go:33-41 | the loop visits every key of the map exactly once, in some order, and returns the type filter along that order |
| `Suggest.CountAlong` | engine/suggest.go:33-41 | along distinct keys of the map, a filter of their values yields one title per key whose title passes |
| `Suggest.CountAll` | engine/suggest.go:33-41 | when the visiting order lists every key once, a filter of the values has as many titles as the map has passing keys |
| `Suggest.MovieFilterSpec` | engine/suggest.go:33-41 | the type filter returns exactly the map's values whose type is exactly `movie`, one per key, and never more titles than the map holds |
| `Suggest.FilterByRating` | engine/suggest.go:43-51 | the loop returns the rating filter of its input, in order |
| `Suggest.RatingFilterSpec` | engine/suggest.go:43-51 | a title is kept iff its rating is `>=` the minimum and its count `>=` the minimum count, boundaries included; an unrated title is never kept; the result keeps input order; the filter is idempotent |
| `Suggest.FilterAlreadySeen` | engine/suggest.go:53-67 | the nested loop with the labelled continue returns the exclusion filter of its input, in order |
| `Suggest.UnseenFilterSpec` | engine/suggest.go:53-67 | a title is dropped iff its display name equals an entry of the seen list; an empty list returns the input unchanged; the result keeps input order; the filter is idempotent |
| `Suggest.PipelineSpec` | engine/suggest.go:19-23 | whatever order the map is visited in, the unseen candidates are exactly the map's values that are movies, meet both thresholds and are not seen |
| `Suggest.ReportedKeys` | engine/suggest.go:25 | the keys passing the combined tests are the ones the report counts |
| `Suggest.PipelineCounts` | engine/suggest.go:19-25 | whatever order the map is visited in, the candidates number the map's entries that are movies meeting both thresholds, and the unseen candidates number its qualifying entries |
| `Suggest.Suggest` | engine/suggest.go:15-31 | a parse error is passed through; the run ends with "seen it all" iff no title in the map qualifies; a suggestion is a value of the map that is a movie, meets both thresholds and is not seen; the reported counts are the number of qualifying map entries and the number of map entries that are movies meeting both thresholds, on success and inside "seen it all" alike |

## Left out

- `engine/imdb_downloader.go` is not part of this model. It does HTTP downloads, follows redirects, creates and copies files, checks the 24-hour freshness window against the clock, and names temp files. All of it is I/O and time.
- `cmd/root.go` is not part of this model. It binds command-line flags, finds and writes the config file, prints the suggestion, and appends it to the seen list. All of this goes through libraries that are not shown.
- Opening the file and gzip decompression are not modelled. An open or decompression failure is a stream that ends with an error before any record.
- CSV/TSV tokenising is not modelled: the tab separator, lazy quotes, and field-count checking. Records arrive already split. The tokeniser's guarantee that every record has as many fields as the first one is the precondition `WellFormed`.
- `strconv.ParseFloat` and `strconv.ParseInt` are abstract arrows that return `Option`. The float parser may return `Unrated`, as parsing `NaN` does. The integer parser returns values in the 32-bit range, so the conversion to `int32` is exact.
- IEEE floating point is not modelled: ratings are reals, plus the not-a-number case. Rounding and the infinities are left out.
- `math/rand` is not modelled. The draw is a parameter: an index in `RandTitle`, and a number reduced modulo the list length in `Suggest`. Uniformity cannot be stated here.
- `Suggest.FilterNonMovies`: Go's map iteration order is unspecified. The model picks keys in an unspecified order and returns that order as a ghost value. It does not fix an order.
- `log.Printf` is not modelled. The two counts it prints are returned as a `Report`. The `log.Fatal` exits are `Failure` results.
- `ImdbReader.TitleTable.ProcessTsvGzFile`: after a fatal error the contract states only the error, not what the map holds. The program exits at that point, so the map is never read.
- `ImdbReader.SanitizingRead`: the underlying `io.Reader` call is not modelled. The buffer contents it wrote, its count and its error are inputs.
- The `Unrated` variable in engine/title.go is never assigned by the core. An unrated title arises only when the float parser returns not-a-number.
- The basics pass only updates entries that already exist (engine/imdb_reader.go:32), so no metadata-only entry is ever created. `ImdbReader.ReadTitlesKeys` states this.

## Findings

| source | as written | input that shows it | evidently intended | confidence | as-written member | corrected member |
|---|---|---|---|---|---|---|
| engine/imdb_reader.go:78-81 | when the underlying read returns bytes together with an error, the bytes are passed on without the quote rewrite | an underlying read that returns `count = 1`, the byte `"`, and `io.EOF`. A gzip reader returns its last bytes this way; the CSV reader's buffering keeps them | every delivered byte is rewritten before the error is passed on | medium, not executed: only the final chunk of a file is affected, and it is reached only when the file has fewer data rows than the 100000-row cap | `ImdbReader.SanitizingRead`, `ImdbReader.QuoteSurvivesFinalChunk` | `ImdbReader.SanitizingReadAll`, `ImdbReader.RewriteFirstDeliversNoQuote` |
