/** The pass with header lines skipped wherever they stand (the intent of the
    "skip csv format line" test at process_sorted.py:48), the first data line
    opening the first group, and the group still open at the end of the file
    written under its own address (last_ip) whatever the last line was. On a well-formed file it writes exactly the run-length groups of
    the data lines; the pass as written agrees with it on clean files only. */
module Corrected {
  import opened Text
  import opened Summary
  import opened ProcessSorted
  import opened Scenarios

  /** The loop's variables: the open group, if a data line has been read. */
  datatype FixState = FixState(
    open: Option<Group>, info: Info, flags: map<string, nat>, out: seq<Group>)

  /** A data record is counted and either joins the open group or closes it
      and opens its own. */
  function FixData(st: FixState, r: Record, t: string, size: int): FixState {
    var flags := Bump(st.flags, t);
    match st.open
    case None => st.(open := Some(Group(r.addr, r.len, 1)), flags := flags)
    case Some(g) =>
      if g.addr == r.addr then
        st.(open := Some(Group(g.addr, g.len + r.len, g.packets + 1)), flags := flags)
      else
        FixState(Some(Group(r.addr, r.len, 1)), AddGroup(st.info, g, size), flags, st.out + [g])
  }

  /** One line that raises nothing: a header changes nothing. */
  function FixStep(st: FixState, line: string, size: int, d: char): FixState
    requires |Split(line, d)| == 5
    requires IsHeader(Split(line, d)) || IsDigits(Split(line, d)[1])
  {
    var fields := Split(line, d);
    if IsHeader(fields) then st
    else FixData(st, Record(fields[0], DigitsValue(fields[1])), fields[3], size)
  }

  /** The state after the first k lines of a file none of whose lines raises. */
  function FixFold(lines: seq<string>, k: nat, size: int, d: char): FixState
    requires k <= |lines| && LinesOk(lines, k, d)
    decreases k
  {
    if k == 0 then FixState(None, NoTraffic, map[], [])
    else
      assert LineError(lines[k - 1], k - 1, d).None?;
      FixStep(FixFold(lines, k - 1, size, d), lines[k - 1], size, d)
  }

  /** The corrected pass over a well-formed file: the final flush writes the
      open group, if any, under its own address. */
  function CorrectedPass(lines: seq<string>, size: int, d: char): Outcome
    requires WellFormed(lines, d)
  {
    var st := FixFold(lines, |lines|, size, d);
    match st.open
    case None => Done(st.info, st.flags, st.out)
    case Some(g) => Done(AddGroup(st.info, g, size), st.flags, st.out + [g])
  }

  /** The corrected loop's invariant: the lines written followed by the open
      group are the run-length groups of the data records read. */
  lemma {:induction false} FixFoldTracks(lines: seq<string>, k: nat, size: int, d: char)
    requires k <= |lines| && LinesOk(lines, k, d)
    ensures FixTracks(FixFold(lines, k, size, d), size,
      DataRecords(lines[..k], d), FlagTokens(lines[..k], d))
    decreases k
  {
    if k == 0 {
      assert lines[..0] == [];
    } else {
      FixFoldTracks(lines, k - 1, size, d);
      DataOfPrefix(lines, k, d);
      assert LineError(lines[k - 1], k - 1, d).None?;
      FixStepTracks(FixFold(lines, k - 1, size, d), lines[k - 1], size, d,
        DataRecords(lines[..k - 1], d), FlagTokens(lines[..k - 1], d));
    }
  }

  /** The corrected loop's invariant after the records and tokens read. */
  predicate FixTracks(st: FixState, size: int, recs: seq<Record>, tokens: seq<string>) {
    && (st.open.None? <==> recs == [])
    && (st.open.Some? ==> st.out + [st.open.value] == Groups(recs))
    && (st.open.None? ==> st.out == [])
    && st.info == Tally(st.out, size)
    && st.flags == Histogram(tokens)
  }

  /** A data record after the first one extends the lines written followed by
      the open group by that record, and keeps the counters equal to the tally
      of the lines written. */
  lemma {:induction false} FixDataExtends(st: FixState, r: Record, t: string, size: int)
    requires st.open.Some? && st.info == Tally(st.out, size)
    ensures var st' := FixData(st, r, t, size);
      && st'.open.Some?
      && st'.out + [st'.open.value] == Extend(st.out + [st.open.value], r)
      && st'.info == Tally(st'.out, size)
  {
    var g := st.open.value;
    ExtendOpen(st.out, g, r);
    if g.addr != r.addr {
      TallySnoc(st.out, g, size);
    }
  }

  /** A data record keeps the corrected loop's invariant. */
  lemma {:induction false} FixDataTracks(st: FixState, r: Record, t: string, size: int,
                      recs: seq<Record>, tokens: seq<string>)
    requires FixTracks(st, size, recs, tokens)
    ensures FixTracks(FixData(st, r, t, size), size, recs + [r], tokens + [t])
  {
    HistogramSnoc(tokens, t);
    GroupsSnoc(recs, r);
    if st.open.None? {
      assert Groups(recs) == [];
    } else {
      FixDataExtends(st, r, t, size);
    }
  }

  /** One line keeps the corrected loop's invariant. */
  lemma {:induction false} FixStepTracks(st: FixState, line: string, size: int, d: char,
                      recs: seq<Record>, tokens: seq<string>)
    requires |Split(line, d)| == 5
    requires IsHeader(Split(line, d)) || IsDigits(Split(line, d)[1])
    requires FixTracks(st, size, recs, tokens)
    ensures FixTracks(FixStep(st, line, size, d), size,
      recs + LineRecords(line, d), tokens + LineTokens(line, d))
  {
    var fields := Split(line, d);
    if IsHeader(fields) {
      assert LineRecords(line, d) == [] && LineTokens(line, d) == [];
      assert recs + [] == recs && tokens + [] == tokens;
    } else {
      var r := Record(fields[0], DigitsValue(fields[1]));
      assert LineRecords(line, d) == [r] && LineTokens(line, d) == [fields[3]];
      FixDataTracks(st, r, fields[3], size, recs, tokens);
    }
  }

  /** The corrected pass writes exactly the run-length groups of the data
      records, tallies them, and counts the flag tokens of the data lines. */
  lemma {:induction false} CorrectedPassGroups(lines: seq<string>, size: int, d: char)
    requires WellFormed(lines, d)
    ensures var recs := DataRecords(lines, d);
      CorrectedPass(lines, size, d) ==
        Done(Tally(Groups(recs), size), Histogram(FlagTokens(lines, d)), Groups(recs))
  {
    FixFoldTracks(lines, |lines|, size, d);
    assert lines[..|lines|] == lines;
    var st := FixFold(lines, |lines|, size, d);
    if st.open.Some? {
      TallySnoc(st.out, st.open.value, size);
    }
  }

  /** A header line inserted anywhere, first and last place included, leaves
      the corrected pass unchanged. */
  lemma {:induction false} CorrectedIgnoresHeaders(lines: seq<string>, j: nat, h: string, size: int, d: char)
    requires WellFormed(lines, d)
    requires j <= |lines|
    requires |Split(h, d)| == 5 && IsHeader(Split(h, d))
    ensures WellFormed(lines[..j] + [h] + lines[j..], d)
    ensures CorrectedPass(lines[..j] + [h] + lines[j..], size, d) == CorrectedPass(lines, size, d)
  {
    InsertHeaderWellFormed(lines, j, h, d);
    HeaderAddsNothing(lines[..j], lines[j..], h, d);
    assert lines[..j] + lines[j..] == lines;
    CorrectedPassGroups(lines, size, d);
    CorrectedPassGroups(lines[..j] + [h] + lines[j..], size, d);
  }

  /** On a clean file (first and last lines data lines, last address not
      "saddr") the pass as written computes what the corrected pass does. */
  lemma {:induction false} PassAgreesWhenClean(lines: seq<string>, size: int, d: char)
    requires Clean(lines, d)
    ensures Pass(lines, size, d) == CorrectedPass(lines, size, d)
  {
    PassClean(lines, size, d);
    CorrectedPassGroups(lines, size, d);
  }

  /** The files of the scenarios on which the pass as written goes wrong:
      the corrected pass reports the one record each of them holds, under its
      own address, as its one summary line. */
  lemma {:induction false} CorrectedScenarios(data: string, saddr: string, addr: string)
    requires Split(data, ',') == ["10", "5", "_", "A", "_\n"]
    requires Split(saddr, ',') == SaddrFields
    requires Split(addr, ',') == ["addr", "len", "_", "flags", "_\n"]
    ensures WellFormed([data, saddr], ',') && WellFormed([data, addr], ',') && WellFormed([saddr, data], ',')
    ensures var fixed := Done(Info(5, 1, 5, 1, 1, 1), map["A" := 1], [Group("10", 5, 1)]);
      && CorrectedPass([data, saddr], 0, ',') == fixed
      && CorrectedPass([data, addr], 0, ',') == fixed
      && CorrectedPass([saddr, data], 0, ',') == fixed
  {
    DigitValues();
    DataLineFacts(data, ',', "10", "5", "A", 0);
    DataLineFacts(data, ',', "10", "5", "A", 1);
    HeaderLineFacts(saddr, ',', 0);
    HeaderLineFacts(saddr, ',', 1);
    HeaderLineFacts(addr, ',', 1);
    assert WellFormed([data], ',');
    CorrectedIgnoresHeaders([data], 1, saddr, 0, ',');
    CorrectedIgnoresHeaders([data], 1, addr, 0, ',');
    CorrectedIgnoresHeaders([data], 0, saddr, 0, ',');
    assert [data][..1] + [saddr] + [data][1..] == [data, saddr];
    assert [data][..1] + [addr] + [data][1..] == [data, addr];
    assert [data][..0] + [saddr] + [data][0..] == [saddr, data];
    CorrectedPassGroups([data], 0, ',');
    OneLine(data, ',');
    HistogramOne("A");
    GroupsOne(Record("10", 5));
    TallyOne(Group("10", 5, 1), 0);
  }
}
