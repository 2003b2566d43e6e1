# Sorted scan aggregation, modelled in Dafny

This project models `process_file` in `process_sorted.py`. The function makes one pass over a
zmap scan file that is already sorted on its address column. It skips header lines and counts
each data line's flag token in a histogram. Consecutive lines with the same address are merged
into an open group (`last_ip`, `total_len`, `total_packets`). When the address changes, the
group is written as a summary line `"<bytes> <addr> <packets>\n"` and added to six counters:
bytes, packets and addresses over all groups, and the same three over the groups whose byte
total is strictly above `size`. After the last line, the open group is flushed once more,
unless the last line read has address `saddr`.

Files:

- `text.dfy`: `str.split` with a one-character separator, and its inverse `Join`. Also `int()`
  on a length field (restricted to decimal digit strings) and `"%d"`.
- `summary.dfy`: the reference definitions the pass is proved against. `Groups` is the
  run-length grouping of a record sequence; `Tally` gives the six counters of a list of summary
  lines; `Histogram` counts tokens; `Render` prints a summary line.
- `process_sorted.dfy`: the pass as written. `Step`, `Fold` and `FinalFlush` define it and
  `Pass` is the whole pass. `ProcessFile` is the imperative loop, proved equal to `Pass`.
  `PassDone`, `PassFails` and `PassFailsAt` give the closed form on every input.
- `scenarios.dfy`: concrete files. They include the single-group, final-flush and threshold
  examples, and the three inputs on which the pass misreports.
- `corrected.dfy`: the pass with headers skipped wherever they stand and an unconditional final
  flush of `last_ip`. It is proved to write exactly the run-length groups of the data
  lines, and it agrees with the pass as written on clean files.

The input file is the sequence of lines that `readline()` returns, each with its line break;
an empty file is the empty sequence. The output file is the sequence of groups written; a
failing pass also reports the groups written before the exception.

The code itself shows what it is meant to do. The test at `process_sorted.py:48` is commented
"skip csv format line": header lines are meant to be skipped wherever they stand. The guard
`ip != "saddr"` at line 70 only makes sense as protection against writing a summary line for
the zmap header. Yet the pass seeds the open group from the first line even when that line is a
header, skips the final flush after a `saddr` line (dropping the last real group, since the sort
puts the zmap header last), and writes the final group under the last line's address rather
than `last_ip`. `Pass` and `ProcessFile` follow the code as written. The three differences are
under "## Findings", and `Corrected.CorrectedPass` is the pass with them put right.

## Model

| member | source | states |
|---|---|---|
| Text.Split | process_sorted.py:47 | `line.split(d)` yields at least one field and no field contains the separator |
| Text.JoinSplit | process_sorted.py:47 | joining the fields of a line with the separator gives the line back |
| Text.SplitJoin | process_sorted.py:47 | splitting a join of separator-free fields gives the fields back |
| Text.SplitFieldCount | process_sorted.py:39 | a line unpacks into five fields exactly when it holds four separators |
| Text.ParseDecimal | process_sorted.py:55 | `int(length)` succeeds exactly on a non-empty digit string |
| Text.Decimal | process_sorted.py:58 | `"%d"` of a count is a non-empty digit string |
| Text.ParseDecimalOfDecimal | process_sorted.py:58 | reading a printed count back gives the count |
| Summary.RunLength | process_sorted.py:54-56 | the run of lines sharing the first address is maximal: all share it and the next line differs |
| Summary.Extend | process_sorted.py:54-68 | one record either merges into the last group or opens a new one under its address: at most one more group, the last one carrying the record's address; `GroupsSnoc` proves folding it is the run-length grouping |
| Summary.Groups | process_sorted.py:54-68 | grouping yields at most one group per record, starting with the first record's address |
| Summary.GroupsMaximal | process_sorted.py:54-68 | every group holds at least one line and adjacent groups have different addresses |
| Summary.GroupsLast | process_sorted.py:54-68 | the last group carries the last record's address |
| Summary.GroupsSnoc | process_sorted.py:54-68 | adding a record one step at a time (merge into the last group or open a new one) is the run-length grouping |
| Summary.GroupsOneRun | process_sorted.py:54-56 | records that all share one address form one group with their summed bytes and one packet per record |
| Summary.AbsorbSnoc | process_sorted.py:42-44 | with an open group seeded in front, one more record is still one left step |
| Summary.AbsorbExtend | process_sorted.py:42-44 | absorbing the seed group commutes with adding one more record to the grouping |
| Summary.AbsorbEmpty | process_sorted.py:42-44 | a zero seed group with the first record's address disappears into the first group |
| Summary.GroupsConserve | process_sorted.py:59-60 | the groups' bytes and packets sum to the records' bytes and count |
| Summary.GroupedOneGroupPerAddress | process_sorted.py:54-68 | on input sorted by address, group addresses are pairwise distinct and number the distinct addresses |
| Summary.Amplifying | process_sorted.py:62 | the amplifying groups are at most all groups and each has bytes strictly above `size` |
| Summary.AmplifyingMembers | process_sorted.py:62-65 | a group is counted as amplifying exactly when it is written and its bytes exceed `size` |
| Summary.TallySnoc | process_sorted.py:58-65 | the flush's six counter updates turn the tally of the lines written into the tally with one more line |
| Summary.AddGroup | process_sorted.py:59-65 | the counter updates of one flush (also lines 72-78); `TallySnoc` proves they carry the tally of the lines written to the tally with one more line |
| Summary.TallyMonotone | process_sorted.py:59-65 | writing more lines never decreases any counter |
| Summary.TallyBounds | process_sorted.py:59-65 | the amplifying bytes, packets and addresses never exceed the all-address ones |
| Summary.Bump | process_sorted.py:51-53 | counting a token adds it as a key, raises its count by one and leaves other counts alone |
| Summary.Count | process_sorted.py:51-53 | a token's count is positive exactly when the token occurs |
| Summary.Histogram | process_sorted.py:51-53 | the histogram's keys are exactly the tokens seen and each maps to its number of occurrences |
| Summary.HistogramSnoc | process_sorted.py:51-53 | one more token bumps that token's count |
| Summary.HistogramSum | process_sorted.py:51-53 | the histogram's counts sum to the number of tokens |
| Summary.RenderRoundTrip | process_sorted.py:58 | a summary line of a space-free address parses back to its bytes, address and packets |
| Summary.Render | process_sorted.py:58 | the `"%d %s %d\n"` summary line (also line 71); `RenderRoundTrip` proves it reads back as its group |
| ProcessSorted.IsHeader | process_sorted.py:48 | a line is a header when its address is `addr` or its length is `len`; `HeaderAddsNothing` and `HeaderInsideIgnored` show such lines add nothing |
| ProcessSorted.Start | process_sorted.py:38-44 | the first line must unpack into five fields, else `FieldCount(0)` with nothing written; otherwise it seeds the open group with its address and zero totals, with no counters, flags or lines yet |
| ProcessSorted.Step | process_sorted.py:47-68 | one loop iteration; `StepTracks` proves a good line keeps the invariant against `Groups`, `Tally` and `Histogram`, and `StepFails` gives the error and exactly what a bad line leaves written |
| ProcessSorted.Data | process_sorted.py:51-68 | a parsed data line bumps its flag, leaves its address open, and writes the previous open group exactly when the address changed |
| ProcessSorted.FinalFlush | process_sorted.py:70-78 | the final flush adds one line exactly when the last address read is not `saddr`, that line being the open totals under that address, and keeps counters equal to the tally of the lines written |
| ProcessSorted.Pass | process_sorted.py:18-82 | the whole pass as a function; `PassDone`, `PassFails` and `PassFailsAt` give its closed form and `ProcessFile` is proved to compute it |
| ProcessSorted.ProcessFile | process_sorted.py:18-82 | the loop computes `Pass`: the same counters, histogram, summary lines and errors |
| ProcessSorted.Flush | process_sorted.py:58-65 | closing a group appends its summary line, adds its bytes, packets and one address to the totals, and to the amplifying ones only when its bytes exceed `size`; counters equal to the tally of the lines written stay so |
| ProcessSorted.CountDataLine | process_sorted.py:51-68 | a data line fails exactly when its length does not parse, having written the open group first when the address changed; otherwise it bumps the flag count and merges the record into the open group or closes that group and opens a new one |
| ProcessSorted.Finish | process_sorted.py:70-82 | the final flush writes and counts the open group under the last address read unless that address is `saddr`, and returns the counters and flag histogram |
| ProcessSorted.CloseLastFlush | process_sorted.py:70-71 | on the written lines followed by the open group, the final flush drops the open group after `saddr` and otherwise relabels it with the last address read |
| ProcessSorted.DataExtends | process_sorted.py:51-68 | a data record extends the written lines plus the open group by one run-length step and keeps the counters equal to the tally of the lines written |
| ProcessSorted.DataTracks | process_sorted.py:51-68 | a data record keeps the loop invariant: seed plus grouping of the records read, tally of the lines written, histogram of the tokens read |
| ProcessSorted.FoldAbortedStays | process_sorted.py:47-55 | once a line raises, nothing after it is read |
| ProcessSorted.StepFails | process_sorted.py:47-66 | a line that raises stops the loop with its error; a wrong field count (line 47) writes nothing more, and a bad length writes the open group exactly when the address changed, since line 58 runs before `int(length)` fails at line 66 (on the same address it fails at line 55 with nothing written) |
| ProcessSorted.FirstBad | process_sorted.py:45-69 | the first line that raises: all lines before it are fine |
| ProcessSorted.StepTracks | process_sorted.py:47-68 | one good line keeps the loop invariant against the reference grouping, tally and histogram |
| ProcessSorted.DataStepTracks | process_sorted.py:51-68 | one good data line merges into the open group or closes it, keeping the invariant |
| ProcessSorted.FoldTracks | process_sorted.py:38-69 | after k good lines, written lines plus the open group are the seed absorbed into the grouping, with the counters and histogram matching |
| ProcessSorted.PassDone | process_sorted.py:18-82 | on a well-formed file the pass returns the tally and histogram of `Emitted`: the grouping with the seed in front and the last group relabelled or dropped |
| ProcessSorted.PassFailsAt | process_sorted.py:39-66 | a file with a bad line fails with the first bad line's error; it has written the groups closed before that line, plus the open group exactly when that line has a bad length under a new address; a bad first line writes nothing |
| ProcessSorted.PassFails | process_sorted.py:37-69 | the pass fails exactly on files that are not well formed; an empty file fails on line 0 with nothing written |
| ProcessSorted.TokensMatchRecords | process_sorted.py:51-56 | every data line contributes one flag token and one record |
| ProcessSorted.EmittedClean | process_sorted.py:70-71 | on a clean file, the summary lines are exactly the run-length groups of the data lines |
| ProcessSorted.PassClean | process_sorted.py:18-82 | on a clean file the pass returns the groups of the data lines, their tally and the histogram of their flags |
| ProcessSorted.PassCleanTotals | process_sorted.py:51-65 | on a clean file, bytes and packets over all addresses match the data lines, and the histogram sums to the packet count; on sorted input there is one line per address |
| ProcessSorted.PassCounters | process_sorted.py:51-78 | on every well-formed file, the amplifying counters stay within the totals, `total_ips` counts the lines written, amplification is strict, and the flag histogram sums to the number of data lines |
| ProcessSorted.HeaderAddsNothing | process_sorted.py:48-50 | a header line adds no record and no flag token |
| ProcessSorted.InsertHeaderWellFormed | process_sorted.py:48-50 | inserting a header line keeps a file well formed |
| ProcessSorted.HeaderInsideIgnored | process_sorted.py:48-50 | a header strictly between the first and last lines leaves the outcome unchanged |
| Scenarios.OneDataLine | process_sorted.py:70-78 | a one-line file writes that line's group, via the final flush |
| Scenarios.OneAddressTwoLines | process_sorted.py:54-56 | on a clean file of two data lines with one address and one flag, the pass writes one group with the summed bytes and two packets and counts the flag twice |
| Scenarios.SingleGroup | process_sorted.py:47-82 | `10,100` and `10,50` with threshold 0 give `"150 10 2"`, one amplifying address and `{S: 2}` |
| Scenarios.SingleGroupLines | process_sorted.py:47-82 | the single-group scenario holds of two actual lines, built by joining its fields with commas |
| Scenarios.FinalFlushSingleLine | process_sorted.py:70-78 | `10,5` with threshold 10 gives `"5 10 1"` and no amplifying address |
| Scenarios.ThresholdBoundary | process_sorted.py:62 | a total of 100 is not amplifying at threshold 100 and is amplifying at 99 |
| Scenarios.DataThenHeader | process_sorted.py:70-71 | a data line then a header writes the group under the header's address, or nothing after `saddr` |
| Scenarios.HeaderThenData | process_sorted.py:38-44 | a header then a data line writes an empty group under the header's address before the data group |
| Scenarios.HeaderThenRecord | process_sorted.py:38-44 | a header followed by one record under another address yields the header's empty group and then the record's group, tallied |
| Scenarios.SaddrLastDropsLastGroup | process_sorted.py:70 | a sorted file ending in the zmap header reports nothing for its one address |
| Scenarios.AddrHeaderLastMislabels | process_sorted.py:71 | a file ending in an `addr` header writes its group under the address `addr` |
| Scenarios.HeaderFirstWritesEmptyGroup | process_sorted.py:38-44 | a file starting with the header writes `"0 saddr 0"` and counts two addresses |
| Corrected.FixFoldTracks | process_sorted.py:45-69 | the corrected loop keeps written lines plus the open group equal to the run-length grouping |
| Corrected.FixStepTracks | process_sorted.py:45-68 | one good line keeps the corrected loop's invariant: a header changes nothing, a data line extends the run-length grouping, tally and histogram |
| Corrected.CorrectedPass | process_sorted.py:45-78 | the pass with headers skipped anywhere and the open group flushed under its own address; `CorrectedPassGroups` proves it writes exactly the run-length groups of the data lines |
| Corrected.CorrectedPassGroups | process_sorted.py:70-78 | the corrected pass writes exactly the run-length groups of the data lines, with their tally and flag histogram |
| Corrected.CorrectedIgnoresHeaders | process_sorted.py:48-50 | in the corrected pass a header at any position, first and last included, changes nothing |
| Corrected.PassAgreesWhenClean | process_sorted.py:18-82 | on a clean file the pass as written equals the corrected pass |
| Corrected.CorrectedScenarios | process_sorted.py:70-71 | the corrected pass reports the one group of each finding's input under its own address |

A clean file is well formed, starts and ends with a data line, and its last address is not
`saddr`.

## Left out

- Progress reporting (`get_len`, `tqdm`, the `wc -l` subprocess, the `print` calls): these only
  report progress and do not affect the result.
- Opening the input and naming and opening the output file: the input is given as its lines and
  the output as the groups written, one `Render`-ed line each. I/O errors are not modelled.
- `get_args`, the script entry point, `stats.py`, `scan_all.py` and the external sort: these are
  outside the aggregation pass. Sortedness is a hypothesis (`Summary.Grouped`) where a lemma
  needs it.
- Text.ParseDecimal: accepts only ASCII digit strings. Python's `int()` also accepts surrounding
  whitespace, a sign, underscores and other Unicode digits; such length fields are modelled as a
  `BadLength` error, so negative lengths do not occur.
- Text.Split: the separator is one character. Python's `split` also accepts a longer separator
  string.
- ProcessSorted.ProcessFile: requires every line to be non-empty, as `readline()` guarantees
  before end of file. A line's text is a sequence of characters, with no encoding.
- The exceptions: each `ValueError` (wrong field count on unpacking, `int()` failing) is
  modelled as `FieldCount` or `BadLength` with the 0-based line index, without its message. The
  counters and histogram of a failed pass are not returned, as in the source.
- Corrected.CorrectedPass: errors are not modelled for the corrected pass; it is defined on
  well-formed files only.

## Findings

| source | as written | input that shows it | evidently intended | confidence | as-written member | corrected member |
|---|---|---|---|---|---|---|
| process_sorted.py:70 | the final flush is skipped when the last line read has address `saddr` | `10,5,_,A,_` followed by the zmap header `saddr,len,payloadlen,flags,validation_type`, which sorts after numeric addresses | the last open group is always written and counted | not executed | Scenarios.SaddrLastDropsLastGroup | Corrected.CorrectedPassGroups |
| process_sorted.py:71 | the final flush writes `ip`, the last line's address, rather than `last_ip` | `10,5,_,A,_` followed by `addr,len,_,flags,_` | the last group is written under its own address | not executed | Scenarios.AddrHeaderLastMislabels | Corrected.CorrectedPassGroups |
| process_sorted.py:38-44 | the open group is seeded from the first line even when it is a header | the zmap header followed by `10,5,_,A,_` | a header as the first line is skipped like any other header, so no empty group is written | not executed | Scenarios.HeaderFirstWritesEmptyGroup | Corrected.CorrectedPassGroups |
