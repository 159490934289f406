# DnaCensus in Dafny

DnaCensus is a map-reduce job that counts how often a query sequence occurs in DNA
sequence records. The records are spread over text files on many cluster nodes. The
job reports one line per sequence identifier, with the highest count first and ties
broken by identifier. This project models the job's logic in `DnaCensus.java` and
proves properties of it:

- **The mapper** (`MyMapper`), module `Mapping`, file `mapping.dfy`. Class
  `Mapping.Mapper` has the fields the Java object updates across `map` calls: the
  current identifier (`None` stands for Java's `null`) and the record buffer. It also
  has the query it was started with. A line containing `>` anywhere is a header. A
  header first counts the open record, if there is one. It then opens the record named
  by the characters from index 1 up to the first space. Any other line is appended to
  the buffer. `Finish` counts the last open record. The pure functions `Step`, `Run`,
  `Finalize` and `Census` say what these calls do. A Java exception is the outcome
  `Threw`, and it carries the state the exception leaves behind.
- **Overlapping counting** (`performPatternMatch`), module `Matching`, file
  `matching.dfy`. The search restarts one position after the start of each match.
  `Find` stands for `Matcher.find(from)` with a literal query. It returns the leftmost
  match, no match, or the out-of-bounds exception. `CountOverlapping` is the number of
  start positions at which the query occurs.
- **The combiner** (`combiner.add(id, ONE)`), module `Combining`, file
  `combining.dfy`. Class `Combining.Combiner` holds the running sums per identifier.
  `AddCount` is the effect of adding one `n` times. A key appears only once something
  has been added to it.
- **The reference parser**, module `RecordStream`, file `records.dfy`. It cuts a
  stream of lines into records at its header lines. `Tally` adds each record's count
  to its identifier's sum. `CensusIsTallyOfRecords` proves that the line-by-line
  mapper computes exactly this tally. It also proves the mapper returns normally
  exactly when the query is non-empty and every header has a usable space. Module
  `StreamExamples` works through concrete streams.
- **The ranking** (`MyCustomizer.comesBefore`), module `Ranking`, file `ranking.dfy`.
  Higher count comes first. Equal counts are ordered by Java's `String.compareTo`,
  modelled as `CompareTo`. Its contract says that `CompareTo(a, b) < 0` is
  lexicographic order. The lemmas prove that `ComesBefore` is a strict total order on
  distinct entries, and that a ranked report of a given set of entries is unique.
- **Argument checks** (start of `main`), module `Arguments`, file `arguments.dfy`.
  With fewer than three arguments, `usage` throws. `Usage(message)` is that outcome.
  Otherwise the query and the directory are the first two arguments, and the node
  array is filled with the rest, in order.

The model follows what the code does in places where a FASTA reader might expect
something else:

- A line is a header when `>` appears anywhere in it, not only at index 0.
- The name always starts at index 1, whatever is at index 0.
- The name ends at the first space character. Other whitespace does not end it.
- A header without a space throws (`substring(1, -1)`), and so does one whose first
  space is at index 0. `Census` then ends in `Threw`; see
  `StreamExamples.HeaderWithoutSpaceThrows`.
- When the open record is counted at a header and the header then throws, the counts
  already added stay added.
- `finish` counts the buffer even when no header was ever read. Such matches are
  added under the null identifier.
- Data lines before the first header are dropped when that header arrives.

## Model

| member | source | states |
|---|---|---|
| `Matching.Find` | DnaCensus.java:132 | `find(from)` throws exactly when `from` is past the end; otherwise it returns the leftmost match at or after `from`, or reports that there is none |
| `Matching.CountOverlapping` | DnaCensus.java:125-135 | the overlapping count is zero exactly when a search from index 0 finds no match, and it is at most one per start position |
| `Matching.CountBound` | DnaCensus.java:125-135 | a non-empty query is counted at most once per start position where it still fits, and never when it is longer than the text |
| `Matching.EmptyQueryCount` | DnaCensus.java:132-135 | an empty query matches at every position, the end of the text included |
| `Matching.SingleCharCount` | DnaCensus.java:125-135 | for a one-character query, the overlapping count equals the number of times that character occurs |
| `Matching.OverlapExamples` | DnaCensus.java:132-134 | "AA" occurs 3 times in "AAAA" (overlapping), "AB" 2 times in "ABAB", and "A" never in "" |
| `Combining.AddCount` | DnaCensus.java:79-133 | `n` additions of `ONE` raise that key's sum by `n`, leave every other sum alone, and create the key only when `n > 0` |
| `Combining.AddOneMore` | DnaCensus.java:133 | one more `add(key, ONE)` after `n` of them equals `n + 1` of them |
| `Combining.Combiner.Add` | DnaCensus.java:133 | the key's sum grows by the added value; no other sum changes |
| `Mapping.IndexOf` | DnaCensus.java:102 | `indexOf` returns -1 exactly when the character is absent, and otherwise the index of its first occurrence |
| `Mapping.HeaderName` | DnaCensus.java:102 | `substring(1, indexOf(" "))` succeeds exactly when the line has a space and its first space is not at index 0; the name is the text between index 1 and that space, and contains no space |
| `Mapping.HeaderIsIndexOf` | DnaCensus.java:95 | `contains(">")` holds exactly when `indexOf(">")` finds the marker |
| `Mapping.PatternMatch` | DnaCensus.java:122-136 | `performPatternMatch` adds the overlapping count of the query in the buffer to the current identifier's sum, leaves every other sum, the identifier and the buffer alone, and throws exactly when the query is empty |
| `Mapping.CountOneMatch` | DnaCensus.java:132-134 | each match `find(index)` reports is one more `add(id, ONE)`, and the next search starts past it |
| `Mapping.NothingLeft` | DnaCensus.java:132-135 | once `find(index)` reports no match, every match has been counted, and the query is non-empty |
| `Mapping.Step` | DnaCensus.java:91-108 | `map` appends a data line to the buffer; on a header it throws exactly when the open record's count throws or `substring` does, and otherwise opens the named record with an empty buffer; only the open identifier's sum can change, and it never shrinks |
| `Mapping.Run` | DnaCensus.java:91-108 | over a sequence of `map` calls no sum ever shrinks, and no sum is ever zero if none was at the start |
| `Mapping.ThrowsOnlyAtHeader` | DnaCensus.java:95-106 | a run of `map` calls can throw only if one of its lines is a header |
| `Mapping.Finalize` | DnaCensus.java:112-114 | `finish` adds the buffer's overlapping count under the current identifier, null included, and throws exactly when the query is empty |
| `Mapping.Census` | DnaCensus.java:85-114 | a mapper with an empty query always throws, and every identifier in its combiner has a positive sum |
| `Mapping.DataLineAppends` | DnaCensus.java:105-106 | a line without `>` is appended verbatim to the buffer; identifier and sums stay |
| `Mapping.HeaderOpensRecord` | DnaCensus.java:95-103 | a header with a usable space counts the open record only if an identifier is set, then opens the named record with an empty buffer |
| `Mapping.MalformedHeaderThrows` | DnaCensus.java:98-102 | a header without a usable space throws after the open record has been counted; identifier and buffer are unchanged |
| `Mapping.Mapper.constructor` | DnaCensus.java:80-88 | a started mapper has the query, no identifier and an empty buffer |
| `Mapping.Mapper.Map` | DnaCensus.java:91-108 | `map` changes the fields and the combiner exactly as `Step` says, and reports whether it threw |
| `Mapping.Mapper.Finish` | DnaCensus.java:112-114 | `finish` counts the open record whether or not an identifier is set |
| `Mapping.Mapper.PerformPatternMatch` | DnaCensus.java:122-136 | the restart-at-`start + 1` loop adds exactly `CountOverlapping(buffer, query)` to the open identifier's sum and throws exactly when the query is empty |
| `RecordStream.Blocks` | DnaCensus.java:95-107 | once a record is open, the rest of the stream yields one record per header plus the open one, and every one of them has an identifier |
| `RecordStream.Records` | DnaCensus.java:95-114 | a stream yields one record per header, or a single record when it has no header |
| `RecordStream.BlocksOfData` | DnaCensus.java:105-114 | an open record followed only by data lines is one record holding all of them |
| `RecordStream.BlocksAtHeader` | DnaCensus.java:95-106 | a header after the open record's data lines closes that record and opens the one it names |
| `RecordStream.RecordsAtHeader` | DnaCensus.java:95-103 | a stream that starts with a header has exactly the records that header opens |
| `RecordStream.TwoBlocks` | DnaCensus.java:95-114 | an open record and one later header, each followed by data lines, make exactly two records |
| `RecordStream.TwoRecords` | DnaCensus.java:95-114 | two headers, each followed by data lines, make exactly two records, named by the headers and holding their data lines joined |
| `RecordStream.TallyGet` | DnaCensus.java:133 | each identifier's final sum is its starting sum plus the occurrences in its own records, and it is present only if it had a sum or at least one occurrence |
| `RecordStream.DataRun` | DnaCensus.java:105-106 | a run of data lines concatenates them, in order and with no separator, onto the buffer |
| `RecordStream.DataThenRest` | DnaCensus.java:105-106 | the data lines ahead of the first header only fill the buffer, and the run goes on from that header |
| `RecordStream.RunFrom` | DnaCensus.java:91-108 | a run goes on from the state its first line leaves when that line returns normally |
| `RecordStream.MalformedStops` | DnaCensus.java:102 | a stream holding a header without a usable space always ends in an exception |
| `RecordStream.OpenRecordTally` | DnaCensus.java:95-114 | from an open record, the mapper counts each later record exactly once: on the next header, or at `finish` for the last one |
| `RecordStream.FirstHeaderTally` | DnaCensus.java:98-103 | the first header counts nothing and discards the data read before it |
| `RecordStream.CensusIsTallyOfRecords` | DnaCensus.java:91-136 | the mapper over a stream returns normally exactly when the query is non-empty and every header has a usable space; its combiner then holds the tally of the stream's records |
| `RecordStream.CensusPerIdentifier` | DnaCensus.java:98-133 | each identifier's final sum is the total occurrence count of its records, and an identifier with no occurrences is absent |
| `RecordStream.OrphanDataIgnored` | DnaCensus.java:98-103 | data lines ahead of the first header do not change the outcome |
| `RecordStream.NoHeaderCountsUnderNull` | DnaCensus.java:112-114 | without any header, `finish` counts all data under the null identifier |
| `RecordStream.NoHeaderRun` | DnaCensus.java:105-106 | without any header, `map` only joins the lines into the buffer, and no identifier is set |
| `StreamExamples.TwoRecordsExample` | DnaCensus.java:95-114 | the stream cuts into the records seq1 with text "AAAACC" and seq2 with text "GG"; the mapper counts 4 "A"s for seq1, and seq2 has none and never appears |
| `StreamExamples.TwoRecordsParse` | DnaCensus.java:95-106 | the wrapped lines "AAAA" and "CC" are joined into the one text of seq1 |
| `StreamExamples.TwoRecordsCensus` | DnaCensus.java:91-114 | line by line, the mapper ends with seq2 open and 4 counted for seq1 |
| `StreamExamples.OverlappingRecordExample` | DnaCensus.java:125-135 | a record "x" with text "AAAA" and query "AA" ends with sum 3 for "x" |
| `StreamExamples.HeaderWithoutSpaceThrows` | DnaCensus.java:102 | a header line ">seq1" without a space makes the mapper throw |
| `StreamExamples.MarkerAnywhereExample` | DnaCensus.java:95-102 | "AC>GT x" is a header and names the record "C>GT" |
| `Ranking.CompareTo` | DnaCensus.java:151 | `compareTo(a, b) < 0` exactly when `a` is a proper prefix of `b` or is smaller at the first difference, and `compareTo` is zero exactly for equal strings |
| `Ranking.CompareToAntisymmetric` | DnaCensus.java:151 | swapping the arguments of `compareTo` negates the result |
| `Ranking.CompareToTransitive` | DnaCensus.java:151 | `compareTo(_, _) < 0` is transitive |
| `Ranking.ComesBefore` | DnaCensus.java:146-152 | an entry comes before another exactly when its count is higher, or the counts are equal and its key is lexicographically smaller |
| `Ranking.ComesBeforeIrreflexive` | DnaCensus.java:146-152 | no entry comes before itself |
| `Ranking.ComesBeforeAsymmetric` | DnaCensus.java:146-152 | if one entry comes before another, the other does not come before it |
| `Ranking.ComesBeforeTransitive` | DnaCensus.java:146-152 | the order is transitive |
| `Ranking.ComesBeforeExactlyOne` | DnaCensus.java:146-152 | of two distinct entries, exactly one comes before the other |
| `Ranking.TieBreakExample` | DnaCensus.java:146-152 | ("beta", 7) precedes ("alpha", 5), and ("alpha", 5) precedes ("zeta", 5) |
| `Ranking.RankedIsUnique` | DnaCensus.java:146-152 | two reports of the same entries that are both ranked by `comesBefore` are identical |
| `Arguments.ParseArgs` | DnaCensus.java:40-54 | fewer than two arguments, or exactly two, give the matching usage error; otherwise the query is `args[0]`, the directory `args[1]`, and the nodes are `args[2..]` in order |

## Left out

- Mapping.Mapper.PerformPatternMatch: the query is a literal string, not a regular expression, because `java.util.regex` is a foreign library. Its compile errors (`PatternSyntaxException`) are left out for the same reason. The empty literal query is modelled exactly: it matches at every position, and then `find(length + 1)` throws.
- Matching.Find: only a literal query's leftmost-match search is modelled, not the regex engine's.
- Job wiring (`threads()`, `mapperTask`, `TextDirectorySource`, `reducerTask`, `runInJobProcess`, `startJob`, lines 57-69) is left out. It covers placement, file discovery, scheduling and multi-threaded mappers, which are concurrency and calls into the framework. One `Mapper` sees the lines of its files in order. `Run` stops at the first exception, because the exception ends the mapper task.
- The framework's merge of combiners across threads and nodes, and the reducer's sort, are left out: they live in the `edu.rit.pjmr` library, which is not part of this model. Only `comesBefore` is modelled, and `RankedIsUnique` shows the order it imposes fixes the report.
- Printing (`MyReducer.reduce`, lines 161-164) and the usage text on `System.err` (lines 170-190) are output. Only the fact that `usage` throws is kept, as the `Usage` outcome of `ParseArgs`.
- Combining.AddCount: sums are unbounded naturals; the 64-bit wrap-around of `LongVbl` (and of the `int` index in `performPatternMatch`) is not modelled, since neither can be reached by texts of realistic size.
- Ranking.CompareTo: characters are Unicode scalar values, not UTF-16 code units. So `compareTo` on strings with characters beyond the Basic Multilingual Plane is not modelled.
- Mapping.IndexOf: indices count Unicode scalar values, whereas Java's `indexOf` counts UTF-16 code units. On a line with a character beyond the Basic Multilingual Plane before the first space, the two indices differ.
- Mapping.HeaderName: for the same reason, `substring(1, …)` in Java can split a surrogate pair, and the model's name can differ from Java's on such a line. For example, on "😀>x y" Java's name is "\uDE00>x", while the model's is ">x".
- Matching.Find: match positions count Unicode scalar values, not the UTF-16 code units `Matcher.find` counts.
- Matching.CountOverlapping: start positions are Unicode scalar values, while the Java loop restarts one UTF-16 code unit after each match start. The count is therefore not modelled for texts with characters beyond the Basic Multilingual Plane.
- Ranking.ComesBefore: keys are strings. A null key, which `finish` can create, would make `compareTo` throw on a count tie; that case is not modelled.
- Arguments.ParseArgs: the arguments are an immutable sequence and the result's node list is the filled array's contents. The later use of the nodes as mapper placements is job wiring (above).
