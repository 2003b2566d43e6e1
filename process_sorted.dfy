/** The single pass of process_file in process_sorted.py, as written: it reads
    a scan file already sorted on its address column, skips header lines,
    counts flag tokens, merges consecutive lines of one address into an open
    group and writes and tallies each group as it closes.

    The input is the sequence of lines readline() returns (each one non-empty,
    with its line break); the output file is the sequence of groups written,
    one Render-ed line each. */
module ProcessSorted {
  import opened Text
  import opened Summary

  /** Why a pass stops (a ValueError in the source): a line that does not split
      into exactly five fields, or a data line whose length field is not a
      decimal number. Lines are numbered from 0. */
  datatype Error = FieldCount(line: nat) | BadLength(line: nat)

  /** What process_file ends with: the counters and flag histogram it returns
      and the summary lines it wrote; or the error it raised and the summary
      lines written before it. */
  datatype Outcome =
    | Done(info: Info, flags: map<string, nat>, out: seq<Group>)
    | Failed(error: Error, written: seq<Group>)

  /** The loop's variables between two lines: the open group (last_ip,
      total_len, total_packets), the address field of the last line read (ip),
      the counters, the histogram and the lines written so far. */
  datatype State = State(
    open: Group, ip: string, info: Info, flags: map<string, nat>, out: seq<Group>)

  datatype Run = Running(st: State) | Aborted(error: Error, written: seq<Group>)

  /** The zmap header line's address column; the final flush is skipped when the
      last line read carries it. */
  const SaddrHeader := "saddr"

  /** A header line: its address field is "addr" or its length field is "len". */
  predicate IsHeader(fields: seq<string>)
    requires |fields| == 5
  {
    fields[0] == "addr" || fields[1] == "len"
  }

  /** The first readline(): the empty string for an empty file. */
  function FirstLine(lines: seq<string>): string {
    if lines == [] then "" else lines[0]
  }

  /** The address field of a line. */
  function Addr(line: string, d: char): string {
    Split(line, d)[0]
  }

  /** Lines 38-44: the first line must split into five fields (before the
      output file is opened) and seeds the open group with its address and
      zero totals, whether or not it is a header. */
  function Start(lines: seq<string>, d: char): (r: Run)
    ensures r.Running? <==> |Split(FirstLine(lines), d)| == 5
    ensures r.Aborted? ==> r == Aborted(FieldCount(0), [])
    ensures r.Running? ==>
      && lines != []
      && r.st.open == Group(Addr(lines[0], d), 0, 0) && r.st.ip == r.st.open.addr
      && r.st.out == [] && r.st.info == NoTraffic && r.st.flags == map[]
  {
    var fields := Split(FirstLine(lines), d);
    if |fields| != 5 then Aborted(FieldCount(0), [])
    else Running(State(Group(fields[0], 0, 0), fields[0], NoTraffic, map[], []))
  }

  /** One iteration of the loop (lines 47-68) on line number i. */
  function Step(st: State, line: string, i: nat, size: int, d: char): Run {
    var fields := Split(line, d);
    if |fields| != 5 then Aborted(FieldCount(i), st.out)
    else
      var ip := fields[0];
      if IsHeader(fields) then Running(st.(ip := ip))
      else
        var length := ParseDecimal(fields[1]);
        if length.None? then
          // a closing group is written before int(length) can fail
          Aborted(BadLength(i), if ip == st.open.addr then st.out else st.out + [st.open])
        else Running(Data(st, Record(ip, length.value), fields[3], size))
  }

  /** Lines 52-68 on a data line that parsed into record r with flag token t:
      count the token, then either add r to the open group or write and tally
      the open group and open a new one with r. */
  function Data(st: State, r: Record, t: string, size: int): (st': State)
    ensures st'.ip == r.addr && st'.open.addr == r.addr && st'.open.packets >= 1
    ensures st'.flags == Bump(st.flags, t)
    ensures st'.out == st.out <==> r.addr == st.open.addr
    ensures st'.out == st.out || st'.out == st.out + [st.open]
  {
    var flags := Bump(st.flags, t);
    if r.addr == st.open.addr then
      st.(open := Group(r.addr, st.open.len + r.len, st.open.packets + 1),
          ip := r.addr, flags := flags)
    else
      State(Group(r.addr, r.len, 1), r.addr, AddGroup(st.info, st.open, size),
            flags, st.out + [st.open])
  }

  /** The state after the first k lines went through the loop. */
  function Fold(lines: seq<string>, k: nat, size: int, d: char): Run
    requires k <= |lines|
    decreases k
  {
    if k == 0 then Start(lines, d)
    else match Fold(lines, k - 1, size, d)
      case Aborted(e, w) => Aborted(e, w)
      case Running(st) => Step(st, lines[k - 1], k - 1, size, d)
  }

  /** Lines 70-78: unless the last line read has address "saddr", the open group
      is written under that last line's address (ip, not last_ip) and tallied. */
  function FinalFlush(st: State, size: int): (fin: State)
    ensures fin.flags == st.flags
    ensures |fin.out| == |st.out| + 1 <==> st.ip != SaddrHeader
    ensures fin.out == st.out || fin.out == st.out + [Group(st.ip, st.open.len, st.open.packets)]
    ensures st.info == Tally(st.out, size) ==> fin.info == Tally(fin.out, size)
  {
    if st.ip != SaddrHeader then
      var g := st.open.(addr := st.ip);
      TallySnoc(st.out, g, size);
      st.(out := st.out + [g], info := AddGroup(st.info, g, size))
    else st
  }

  /** The whole of process_file on the given lines. */
  function Pass(lines: seq<string>, size: int, d: char): Outcome {
    match Fold(lines, |lines|, size, d)
    case Aborted(e, w) => Failed(e, w)
    case Running(st) =>
      var fin := FinalFlush(st, size);
      Done(fin.info, fin.flags, fin.out)
  }

  // ---------------------------------------------------------------------------
  // The loop itself
  // ---------------------------------------------------------------------------

  /** process_file, lines 18-82: one forward pass over the lines. */
  method ProcessFile(lines: seq<string>, size: int, d: char) returns (r: Outcome)
    requires forall i | 0 <= i < |lines| :: lines[i] != ""
    ensures r == Pass(lines, size, d)
  {
    var info := NoTraffic;
    var flags: map<string, nat> := map[];
    var line := if |lines| > 0 then lines[0] else "";
    var fields := Split(line, d);
    if |fields| != 5 {
      FoldAbortedStays(lines, 0, |lines|, size, d);
      return Failed(FieldCount(0), []);
    }
    var ip := fields[0];
    var out: seq<Group> := [];
    var lastIp := ip;
    var totalLen: nat := 0;
    var totalPackets: nat := 0;
    var i := 0;
    while line != ""
      invariant 0 <= i <= |lines|
      invariant line == if i < |lines| then lines[i] else ""
      invariant Fold(lines, i, size, d) ==
        Running(State(Group(lastIp, totalLen, totalPackets), ip, info, flags, out))
      decreases |lines| - i
    {
      ghost var before := State(Group(lastIp, totalLen, totalPackets), ip, info, flags, out);
      FoldNext(lines, i, size, d, before);
      fields := Split(line, d);
      if |fields| != 5 {
        FoldAbortedStays(lines, i + 1, |lines|, size, d);
        return Failed(FieldCount(i), out);
      }
      ip := fields[0];
      var length := fields[1];
      var pktflags := fields[3];
      if ip == "addr" || length == "len" {
        HeaderStep(before, line, i, size, d);
        i := i + 1;
        line := if i < |lines| then lines[i] else "";
        continue;
      }
      ParsedStep(before, line, i, size, d);
      var ok;
      ok, lastIp, totalLen, totalPackets, info, flags, out :=
        CountDataLine(lastIp, totalLen, totalPackets, info, flags, out, ip, length, pktflags, size);
      if !ok {
        FoldAbortedStays(lines, i + 1, |lines|, size, d);
        return Failed(BadLength(i), out);
      }
      i := i + 1;
      line := if i < |lines| then lines[i] else "";
    }
    r := Finish(lastIp, totalLen, totalPackets, ip, info, flags, out, size);
  }

  /** Lines 70-82: unless the last line read was a "saddr" header, write and
      tally the open group under the last line's address; then return the
      counters and the histogram. */
  method Finish(lastIp: string, totalLen: nat, totalPackets: nat, ip: string,
                info: Info, flags: map<string, nat>, out: seq<Group>, size: int)
    returns (r: Outcome)
    ensures var fin := FinalFlush(State(Group(lastIp, totalLen, totalPackets), ip, info, flags, out), size);
      r == Done(fin.info, fin.flags, fin.out)
  {
    var info, out := info, out;
    if ip != SaddrHeader {
      out, info := Flush(out, info, Group(ip, totalLen, totalPackets), size);
    }
    r := Done(info, flags, out);
  }

  /** Lines 52-68 on a data line with address ip, length field length and flag
      token pktflags: count the token; then, if ip is the open group's address,
      parse the length and add the line to the group; otherwise write and tally
      the open group first and open a new one with this line. ok is false when
      the length does not parse (a ValueError), and out' then holds the lines
      written before it. */
  method CountDataLine(lastIp: string, totalLen: nat, totalPackets: nat,
                  info: Info, flags: map<string, nat>, out: seq<Group>,
                  ip: string, length: string, pktflags: string, size: int)
    returns (ok: bool, lastIp': string, totalLen': nat, totalPackets': nat,
             info': Info, flags': map<string, nat>, out': seq<Group>)
    ensures ok <==> ParseDecimal(length).Some?
    ensures ok ==>
      var st := State(Group(lastIp, totalLen, totalPackets), ip, info, flags, out);
      State(Group(lastIp', totalLen', totalPackets'), ip, info', flags', out') ==
        Data(st, Record(ip, ParseDecimal(length).value), pktflags, size)
    ensures !ok ==>
      out' == if ip == lastIp then out else out + [Group(lastIp, totalLen, totalPackets)]
  {
    lastIp', totalLen', totalPackets', info', out' := lastIp, totalLen, totalPackets, info, out;
    flags' := flags;
    if pktflags !in flags' {
      flags' := flags'[pktflags := 0];
    }
    flags' := flags'[pktflags := flags'[pktflags] + 1];
    assert flags' == Bump(flags, pktflags);
    if ip == lastIp {
      var n := ParseDecimal(length);
      if n.None? {
        return false, lastIp', totalLen', totalPackets', info', flags', out';
      }
      totalLen' := totalLen + n.value;
      totalPackets' := totalPackets + 1;
    } else {
      out', info' := Flush(out, info, Group(lastIp, totalLen, totalPackets), size);
      var n := ParseDecimal(length);
      if n.None? {
        return false, lastIp', totalLen', totalPackets', info', flags', out';
      }
      totalLen' := n.value;
      totalPackets' := 1;
      lastIp' := ip;
    }
    ok := true;
  }

  /** Closing a group (lines 58-65, repeated at 71-78): write its summary line,
      add it to the all-address counters and, when its byte total is strictly
      above size, to the amplifying ones. Written and counted groups stay in
      step: the counters are the tally of the lines written. */
  method Flush(out: seq<Group>, info: Info, g: Group, size: int)
    returns (out': seq<Group>, info': Info)
    ensures out' == out + [g]
    ensures info' == AddGroup(info, g, size)
    ensures info == Tally(out, size) ==> info' == Tally(out', size)
  {
    out' := out + [g];
    info' := info.(bytesAll := info.bytesAll + g.len);
    info' := info'.(packetsAll := info'.packetsAll + g.packets);
    info' := info'.(ips := info'.ips + 1);
    if g.len > size {
      info' := info'.(bytesAmp := info'.bytesAmp + g.len);
      info' := info'.(packetsAmp := info'.packetsAmp + g.packets);
      info' := info'.(ampIps := info'.ampIps + 1);
    }
    TallySnoc(out, g, size);
  }

  /** A header line only changes the address last read. */
  lemma {:induction false} HeaderStep(st: State, line: string, i: nat, size: int, d: char)
    requires |Split(line, d)| == 5 && IsHeader(Split(line, d))
    ensures Step(st, line, i, size, d) == Running(st.(ip := Split(line, d)[0]))
  {
  }

  /** A data line counts its record when its length parses, and otherwise
      stops the loop. */
  lemma {:induction false} ParsedStep(st: State, line: string, i: nat, size: int, d: char)
    requires |Split(line, d)| == 5 && !IsHeader(Split(line, d))
    ensures var fields := Split(line, d);
      var length := ParseDecimal(fields[1]);
      && (length.Some? ==>
        Step(st, line, i, size, d) == Running(Data(st, Record(fields[0], length.value), fields[3], size)))
      && (length.None? ==> Step(st, line, i, size, d).Aborted?)
  {
  }

  /** The state after one more line is that line's step from the state before. */
  lemma {:induction false} FoldNext(lines: seq<string>, i: nat, size: int, d: char, st: State)
    requires i < |lines| && Fold(lines, i, size, d) == Running(st)
    ensures Fold(lines, i + 1, size, d) == Step(st, lines[i], i, size, d)
  {
  }

  /** Once the pass has stopped, later lines change nothing. */
  lemma {:induction false} FoldAbortedStays(lines: seq<string>, j: nat, n: nat, size: int, d: char)
    requires j <= n <= |lines|
    requires Fold(lines, j, size, d).Aborted?
    ensures Fold(lines, n, size, d) == Fold(lines, j, size, d)
    decreases n - j
  {
    if n > j {
      FoldAbortedStays(lines, j, n - 1, size, d);
    }
  }

  // ---------------------------------------------------------------------------
  // What the pass computes, in closed form
  // ---------------------------------------------------------------------------

  /** The error a line raises when it is read as line number i, if any: it must
      split into five fields, and unless it is a header its length field must
      be a decimal number. */
  function LineError(line: string, i: nat, d: char): Option<Error> {
    var fields := Split(line, d);
    if |fields| != 5 then Some(FieldCount(i))
    else if !IsHeader(fields) && !IsDigits(fields[1]) then Some(BadLength(i))
    else None
  }

  /** The first k lines raise nothing. */
  predicate LinesOk(lines: seq<string>, k: nat, d: char)
    requires k <= |lines|
  {
    forall i | 0 <= i < k :: LineError(lines[i], i, d).None?
  }

  /** A file the pass gets through: not empty, and no line raises. */
  predicate WellFormed(lines: seq<string>, d: char) {
    |lines| > 0 && LinesOk(lines, |lines|, d)
  }

  /** The index of the first line from `from` on that raises, or |lines|. */
  function FirstBad(lines: seq<string>, d: char, from: nat): (k: nat)
    requires from <= |lines|
    ensures from <= k <= |lines|
    ensures forall i | from <= i < k :: LineError(lines[i], i, d).None?
    ensures k < |lines| ==> LineError(lines[k], k, d).Some?
    decreases |lines| - from
  {
    if from == |lines| || LineError(lines[from], from, d).Some? then from
    else FirstBad(lines, d, from + 1)
  }

  /** The record a data line contributes to the grouping (none for a header or
      a malformed line). */
  function LineRecords(line: string, d: char): seq<Record> {
    var fields := Split(line, d);
    if |fields| == 5 && !IsHeader(fields) && IsDigits(fields[1]) then
      [Record(fields[0], DigitsValue(fields[1]))]
    else []
  }

  /** The flag token a data line contributes to the histogram. */
  function LineTokens(line: string, d: char): seq<string> {
    var fields := Split(line, d);
    if |fields| == 5 && !IsHeader(fields) then [fields[3]] else []
  }

  /** The records of the data lines, in file order. */
  function DataRecords(lines: seq<string>, d: char): seq<Record>
    decreases |lines|
  {
    if lines == [] then []
    else DataRecords(lines[..|lines| - 1], d) + LineRecords(lines[|lines| - 1], d)
  }

  /** The flag tokens of the data lines, in file order. */
  function FlagTokens(lines: seq<string>, d: char): seq<string>
    decreases |lines|
  {
    if lines == [] then []
    else FlagTokens(lines[..|lines| - 1], d) + LineTokens(lines[|lines| - 1], d)
  }

  /** The group the first line opens: its address with nothing counted. */
  function Seed(lines: seq<string>, d: char): Group
    requires lines != []
  {
    Group(Addr(lines[0], d), 0, 0)
  }

  /** The summary lines the pass writes on a well-formed file: the run-length
      grouping of the data records behind the seed group of the first line;
      every group but the last as it is, and the last one only when the last
      line's address is not "saddr", and then under that address. */
  function Emitted(lines: seq<string>, d: char): seq<Group>
    requires lines != []
  {
    CloseLast(Absorb(Seed(lines, d), Groups(DataRecords(lines, d))), Addr(lines[|lines| - 1], d))
  }

  /** The final flush on the groups: the open (last) group is dropped when
      the last address read is "saddr", and otherwise written under that
      address. */
  function CloseLast(all: seq<Group>, last: string): seq<Group>
    requires all != []
  {
    if last == SaddrHeader then all[..|all| - 1]
    else all[..|all| - 1] + [all[|all| - 1].(addr := last)]
  }

  /** The final flush on the lines written followed by the open group. */
  lemma {:induction false} CloseLastFlush(out: seq<Group>, open: Group, last: string)
    ensures CloseLast(out + [open], last) ==
      if last == SaddrHeader then out else out + [open.(addr := last)]
  {
    var all := out + [open];
    assert all[..|all| - 1] == out && all[|all| - 1] == open;
  }

  /** The final flush leaves the groups as they are when the last address
      read is the open group's own and not "saddr". */
  lemma {:induction false} CloseLastOwn(all: seq<Group>, last: string)
    requires all != [] && all[|all| - 1].addr == last && last != SaddrHeader
    ensures CloseLast(all, last) == all
  {
    assert all[|all| - 1].(addr := last) == all[|all| - 1];
    assert all[..|all| - 1] + [all[|all| - 1]] == all;
  }

  lemma {:induction false} DataOfPrefix(lines: seq<string>, k: nat, d: char)
    requires 0 < k <= |lines|
    ensures DataRecords(lines[..k], d) == DataRecords(lines[..k - 1], d) + LineRecords(lines[k - 1], d)
    ensures FlagTokens(lines[..k], d) == FlagTokens(lines[..k - 1], d) + LineTokens(lines[k - 1], d)
  {
    assert lines[..k][..k - 1] == lines[..k - 1];
  }

  /** Extending the written lines followed by the open group with one record. */
  lemma {:induction false} ExtendOpen(out: seq<Group>, open: Group, r: Record)
    ensures r.addr == open.addr ==>
      Extend(out + [open], r) == out + [Group(r.addr, open.len + r.len, open.packets + 1)]
    ensures r.addr != open.addr ==>
      Extend(out + [open], r) == (out + [open]) + [Group(r.addr, r.len, 1)]
  {
    var all := out + [open];
    assert all[..|all| - 1] == out && all[|all| - 1] == open;
  }

  /** What the loop does with a good data line: it reads one record and one
      flag token. */
  lemma {:induction false} DataStep(st: State, line: string, i: nat, size: int, d: char)
    requires LineError(line, i, d).None?
    requires !IsHeader(Split(line, d))
    ensures var fields := Split(line, d);
      var r := Record(fields[0], DigitsValue(fields[1]));
      && LineRecords(line, d) == [r]
      && LineTokens(line, d) == [fields[3]]
      && Step(st, line, i, size, d) == Running(Data(st, r, fields[3], size))
  {
  }

  /** A data record extends the lines written followed by the open group by
      that record, and keeps the counters equal to the tally of the lines
      written. */
  lemma {:induction false} DataExtends(st: State, r: Record, t: string, size: int)
    requires st.info == Tally(st.out, size)
    ensures var st' := Data(st, r, t, size);
      && st'.out + [st'.open] == Extend(st.out + [st.open], r)
      && st'.info == Tally(st'.out, size)
      && st'.flags == Bump(st.flags, t)
      && st'.ip == r.addr
  {
    ExtendOpen(st.out, st.open, r);
    if r.addr != st.open.addr {
      TallySnoc(st.out, st.open, size);
    }
  }

  /** A data record keeps the reference invariant: the lines written followed
      by the open group are the seed absorbed into the grouping of the records
      read, the counters are the tally of the lines written, and the histogram
      counts the tokens read. */
  lemma {:induction false} DataTracks(st: State, r: Record, t: string, size: int,
                   seed: Group, recs: seq<Record>, tokens: seq<string>)
    requires st.out + [st.open] == Absorb(seed, Groups(recs))
    requires st.info == Tally(st.out, size)
    requires st.flags == Histogram(tokens)
    ensures var st' := Data(st, r, t, size);
      && st'.out + [st'.open] == Absorb(seed, Groups(recs + [r]))
      && st'.info == Tally(st'.out, size)
      && st'.flags == Histogram(tokens + [t])
      && st'.ip == r.addr
  {
    DataExtends(st, r, t, size);
    HistogramSnoc(tokens, t);
    AbsorbSnoc(seed, recs, r);
  }

  /** One good data line keeps the reference invariant. */
  lemma {:induction false} DataStepTracks(st: State, line: string, i: nat, size: int, d: char,
                       seed: Group, recs: seq<Record>, tokens: seq<string>)
    requires LineError(line, i, d).None?
    requires !IsHeader(Split(line, d))
    requires st.out + [st.open] == Absorb(seed, Groups(recs))
    requires st.info == Tally(st.out, size)
    requires st.flags == Histogram(tokens)
    ensures Step(st, line, i, size, d).Running?
    ensures var st' := Step(st, line, i, size, d).st;
      && st'.out + [st'.open] == Absorb(seed, Groups(recs + LineRecords(line, d)))
      && st'.info == Tally(st'.out, size)
      && st'.flags == Histogram(tokens + LineTokens(line, d))
      && st'.ip == Addr(line, d)
  {
    var fields := Split(line, d);
    DataStep(st, line, i, size, d);
    DataTracks(st, Record(fields[0], DigitsValue(fields[1])), fields[3], size, seed, recs, tokens);
  }

  /** One good line keeps the reference invariant: the lines written followed
      by the open group are the seed absorbed into the grouping of the records
      read, the counters are the tally of the lines written, and the histogram
      counts the tokens read. */
  lemma {:induction false} StepTracks(st: State, line: string, i: nat, size: int, d: char,
                   seed: Group, recs: seq<Record>, tokens: seq<string>)
    requires LineError(line, i, d).None?
    requires st.out + [st.open] == Absorb(seed, Groups(recs))
    requires st.info == Tally(st.out, size)
    requires st.flags == Histogram(tokens)
    ensures Step(st, line, i, size, d).Running?
    ensures var st' := Step(st, line, i, size, d).st;
      && st'.out + [st'.open] == Absorb(seed, Groups(recs + LineRecords(line, d)))
      && st'.info == Tally(st'.out, size)
      && st'.flags == Histogram(tokens + LineTokens(line, d))
      && st'.ip == Addr(line, d)
  {
    if IsHeader(Split(line, d)) {
      assert LineRecords(line, d) == [] && LineTokens(line, d) == [];
      assert recs + [] == recs;
      assert tokens + [] == tokens;
    } else {
      DataStepTracks(st, line, i, size, d, seed, recs, tokens);
    }
  }

  /** The loop invariant in terms of the reference definitions, after the
      first k lines of a file none of whose first k lines raises. */
  lemma {:induction false} FoldTracks(lines: seq<string>, k: nat, size: int, d: char)
    requires 0 < |lines| && k <= |lines|
    requires |Split(lines[0], d)| == 5
    requires LinesOk(lines, k, d)
    ensures Fold(lines, k, size, d).Running?
    ensures var st := Fold(lines, k, size, d).st;
      && st.out + [st.open] == Absorb(Seed(lines, d), Groups(DataRecords(lines[..k], d)))
      && st.info == Tally(st.out, size)
      && st.flags == Histogram(FlagTokens(lines[..k], d))
      && st.ip == Addr(lines[if k == 0 then 0 else k - 1], d)
    decreases k
  {
    if k == 0 {
      assert lines[..0] == [];
    } else {
      FoldTracks(lines, k - 1, size, d);
      var st, line := Fold(lines, k - 1, size, d).st, lines[k - 1];
      assert LineError(line, k - 1, d).None?;
      StepTracks(st, line, k - 1, size, d,
        Seed(lines, d), DataRecords(lines[..k - 1], d), FlagTokens(lines[..k - 1], d));
      DataOfPrefix(lines, k, d);
      FoldNext(lines, k - 1, size, d, st);
    }
  }

  /** On a well-formed file the pass ends with the closed form: the summary
      lines of Emitted, the counters tallied from them, and the histogram of
      the data lines' flag tokens. */
  lemma {:induction false} PassDone(lines: seq<string>, size: int, d: char)
    requires WellFormed(lines, d)
    ensures Pass(lines, size, d) ==
      Done(Tally(Emitted(lines, d), size), Histogram(FlagTokens(lines, d)), Emitted(lines, d))
  {
    assert LineError(lines[0], 0, d).None?;
    FoldTracks(lines, |lines|, size, d);
    assert lines[..|lines|] == lines;
    var st := Fold(lines, |lines|, size, d).st;
    CloseLastFlush(st.out, st.open, st.ip);
    if st.ip != SaddrHeader {
      TallySnoc(st.out, st.open.(addr := st.ip), size);
    }
  }

  /** A line that raises stops the loop with that line's error. */
  lemma {:induction false} StepFails(st: State, line: string, i: nat, size: int, d: char)
    requires LineError(line, i, d).Some?
    ensures Step(st, line, i, size, d).Aborted?
    ensures Step(st, line, i, size, d).error == LineError(line, i, d).value
    ensures var w := Step(st, line, i, size, d).written;
      w == if LineError(line, i, d).value.BadLength? && Addr(line, d) != st.open.addr
           then st.out + [st.open] else st.out
  {
  }

  /** A file with a bad line fails with the error of its first bad line. */
  lemma {:induction false} PassFailsAt(lines: seq<string>, size: int, d: char)
    requires lines != []
    requires FirstBad(lines, d, 0) < |lines|
    ensures Pass(lines, size, d).Failed?
    ensures var k := FirstBad(lines, d, 0);
      Pass(lines, size, d).error == LineError(lines[k], k, d).value
    ensures var k, w := FirstBad(lines, d, 0), Pass(lines, size, d).written;
      && (k == 0 ==> w == [])
      && (k > 0 ==>
        var all := Absorb(Seed(lines, d), Groups(DataRecords(lines[..k], d)));
        w == if LineError(lines[k], k, d).value.BadLength? && Addr(lines[k], d) != all[|all| - 1].addr
             then all else all[..|all| - 1])
  {
    var k := FirstBad(lines, d, 0);
    if |Split(lines[0], d)| != 5 {
      assert k == 0;
      FoldAbortedStays(lines, 0, |lines|, size, d);
    } else {
      FoldTracks(lines, k, size, d);
      var st := Fold(lines, k, size, d).st;
      StepFails(st, lines[k], k, size, d);
      FoldNext(lines, k, size, d, st);
      FoldAbortedStays(lines, k + 1, |lines|, size, d);
      if k == 0 {
        assert st.out == [] && st.open.addr == Addr(lines[0], d);
      } else {
        var all := st.out + [st.open];
        assert all[..|all| - 1] == st.out && all[|all| - 1] == st.open;
      }
    }
  }

  /** The pass fails exactly on files that are not well formed, and then with
      the error of the first offending line (an empty file fails on its one
      empty first line). */
  lemma {:induction false} PassFails(lines: seq<string>, size: int, d: char)
    ensures Pass(lines, size, d).Failed? <==> !WellFormed(lines, d)
    ensures lines == [] ==> Pass(lines, size, d) == Failed(FieldCount(0), [])
    ensures lines != [] && !WellFormed(lines, d) ==>
      var k := FirstBad(lines, d, 0);
      k < |lines| && Pass(lines, size, d).error == LineError(lines[k], k, d).value
  {
    if lines == [] {
      assert Split("", d) == [[]];
    } else if FirstBad(lines, d, 0) == |lines| {
      assert WellFormed(lines, d);
      PassDone(lines, size, d);
    } else {
      PassFailsAt(lines, size, d);
    }
  }

  // ---------------------------------------------------------------------------
  // Consequences on well-formed files
  // ---------------------------------------------------------------------------

  /** Dropping the last line of a concatenation drops the last line of its
      second part. */
  lemma {:induction false} SplitLast(a: seq<string>, b: seq<string>)
    requires b != []
    ensures (a + b)[..|a + b| - 1] == a + b[..|b| - 1]
    ensures (a + b)[|a + b| - 1] == b[|b| - 1]
  {
  }

  /** The records of a concatenation are the records of its parts. */
  lemma {:induction false} DataRecordsAppend(a: seq<string>, b: seq<string>, d: char)
    ensures DataRecords(a + b, d) == DataRecords(a, d) + DataRecords(b, d)
    decreases |b|
  {
    if b == [] {
      assert a + b == a;
    } else {
      var b', line := b[..|b| - 1], b[|b| - 1];
      DataRecordsAppend(a, b', d);
      SplitLast(a, b);
      var x, y, z := DataRecords(a, d), DataRecords(b', d), LineRecords(line, d);
      assert x + (y + z) == (x + y) + z;
    }
  }


  /** The flag tokens of a concatenation are the tokens of its parts. */
  lemma {:induction false} FlagTokensAppend(a: seq<string>, b: seq<string>, d: char)
    ensures FlagTokens(a + b, d) == FlagTokens(a, d) + FlagTokens(b, d)
    decreases |b|
  {
    if b == [] {
      assert a + b == a;
    } else {
      var b', line := b[..|b| - 1], b[|b| - 1];
      FlagTokensAppend(a, b', d);
      SplitLast(a, b);
      var x, y, z := FlagTokens(a, d), FlagTokens(b', d), LineTokens(line, d);
      assert x + (y + z) == (x + y) + z;
    }
  }


  /** A data line: five fields, not a header, a decimal length. */
  predicate DataLine(line: string, d: char) {
    var fields := Split(line, d);
    |fields| == 5 && !IsHeader(fields) && IsDigits(fields[1])
  }

  /** Every data line contributes one record and one flag token. */
  lemma {:induction false} TokensMatchRecords(lines: seq<string>, k: nat, d: char)
    requires k <= |lines| && LinesOk(lines, k, d)
    ensures |FlagTokens(lines[..k], d)| == |DataRecords(lines[..k], d)|
    decreases k
  {
    if k == 0 {
      assert lines[..0] == [];
    } else {
      TokensMatchRecords(lines, k - 1, d);
      DataOfPrefix(lines, k, d);
      assert LineError(lines[k - 1], k - 1, d).None?;
    }
  }

  /** A well-formed file whose first and last lines are data lines and whose
      last address is not "saddr": the input the pass is meant for. */
  predicate Clean(lines: seq<string>, d: char) {
    && WellFormed(lines, d)
    && DataLine(lines[0], d)
    && DataLine(lines[|lines| - 1], d)
    && Addr(lines[|lines| - 1], d) != SaddrHeader
  }

  /** A file that starts with a data line has that line's record first. */
  lemma {:induction false} FirstRecord(lines: seq<string>, d: char)
    requires lines != [] && DataLine(lines[0], d)
    ensures var recs := DataRecords(lines, d);
      recs != [] && recs[0].addr == Addr(lines[0], d)
  {
    var first := Split(lines[0], d);
    DataRecordsAppend([lines[0]], lines[1..], d);
    assert [lines[0]] + lines[1..] == lines;
    assert [lines[0]][..0] == [];
    assert DataRecords([lines[0]], d) == [Record(first[0], DigitsValue(first[1]))];
  }

  /** A file that ends with a data line has that line's record last. */
  lemma {:induction false} LastRecord(lines: seq<string>, d: char)
    requires lines != [] && DataLine(lines[|lines| - 1], d)
    ensures var recs := DataRecords(lines, d);
      recs != [] && recs[|recs| - 1].addr == Addr(lines[|lines| - 1], d)
  {
    var last := Split(lines[|lines| - 1], d);
    assert LineRecords(lines[|lines| - 1], d) == [Record(last[0], DigitsValue(last[1]))];
  }

  /** On a clean file the seed and the relabelling of the last group vanish:
      the summary lines are exactly the run-length groups of the data records. */
  lemma {:induction false} EmittedClean(lines: seq<string>, d: char)
    requires Clean(lines, d)
    ensures Emitted(lines, d) == Groups(DataRecords(lines, d))
  {
    var recs := DataRecords(lines, d);
    FirstRecord(lines, d);
    LastRecord(lines, d);
    AbsorbEmpty(Addr(lines[0], d), Groups(recs));
    GroupsLast(recs);
    CloseLastOwn(Groups(recs), Addr(lines[|lines| - 1], d));
  }

  /** The pass on a clean file: the run-length groups of the data records,
      their tally and the histogram of the flag tokens. */
  lemma {:induction false} PassClean(lines: seq<string>, size: int, d: char)
    requires Clean(lines, d)
    ensures var recs := DataRecords(lines, d);
      Pass(lines, size, d) ==
        Done(Tally(Groups(recs), size), Histogram(FlagTokens(lines, d)), Groups(recs))
  {
    PassDone(lines, size, d);
    EmittedClean(lines, d);
  }

  /** Conservation on a clean file: the byte and packet totals are those of the
      data lines, the histogram counts one token per data line, and on a file
      sorted by address there is one summary line per distinct address. */
  lemma {:induction false} PassCleanTotals(lines: seq<string>, size: int, d: char)
    requires Clean(lines, d)
    ensures var recs, o := DataRecords(lines, d), Pass(lines, size, d);
      && o.Done?
      && o.info.bytesAll == RecordBytes(recs)
      && o.info.packetsAll == |recs|
      && MapSum(o.flags) == |recs|
      && (Grouped(recs) ==> o.info.ips == |Addrs(recs)|)
  {
    var recs := DataRecords(lines, d);
    PassClean(lines, size, d);
    GroupsConserve(recs);
    TokensMatchRecords(lines, |lines|, d);
    assert lines[..|lines|] == lines;
    HistogramSum(FlagTokens(lines, d));
    if Grouped(recs) {
      GroupedOneGroupPerAddress(recs);
    }
  }

  /** On every file the pass gets through, the amplifying counters stay within
      the all-address ones, and a summary line is counted as amplifying exactly
      when its byte total is strictly above size. */
  lemma {:induction false} PassCounters(lines: seq<string>, size: int, d: char)
    requires WellFormed(lines, d)
    ensures var o := Pass(lines, size, d);
      && o.Done?
      && o.info.bytesAmp <= o.info.bytesAll
      && o.info.packetsAmp <= o.info.packetsAll
      && o.info.ampIps <= o.info.ips
      && o.info.ips == |o.out|
      && o.info.ampIps == |Amplifying(o.out, size)|
      && MapSum(o.flags) == |DataRecords(lines, d)|
  {
    PassDone(lines, size, d);
    TallyBounds(Emitted(lines, d), size);
    TokensMatchRecords(lines, |lines|, d);
    assert lines[..|lines|] == lines;
    HistogramSum(FlagTokens(lines, d));
  }

  /** A header line between two parts adds no record and no flag token. */
  lemma {:induction false} HeaderAddsNothing(a: seq<string>, b: seq<string>, h: string, d: char)
    requires |Split(h, d)| == 5 && IsHeader(Split(h, d))
    ensures DataRecords(a + [h] + b, d) == DataRecords(a + b, d)
    ensures FlagTokens(a + [h] + b, d) == FlagTokens(a + b, d)
  {
    DataRecordsAppend(a, [h], d);
    DataRecordsAppend(a + [h], b, d);
    DataRecordsAppend(a, b, d);
    FlagTokensAppend(a, [h], d);
    FlagTokensAppend(a + [h], b, d);
    FlagTokensAppend(a, b, d);
    assert [h][..0] == [];
    assert DataRecords([h], d) == [] && FlagTokens([h], d) == [];
    assert DataRecords(a, d) + [] == DataRecords(a, d);
    assert FlagTokens(a, d) + [] == FlagTokens(a, d);
  }

  /** Inserting a header line keeps a file well formed. */
  lemma {:induction false} InsertHeaderWellFormed(lines: seq<string>, j: nat, h: string, d: char)
    requires WellFormed(lines, d)
    requires j <= |lines|
    requires |Split(h, d)| == 5 && IsHeader(Split(h, d))
    ensures WellFormed(lines[..j] + [h] + lines[j..], d)
  {
    var lines' := lines[..j] + [h] + lines[j..];
    forall i | 0 <= i < |lines'| ensures LineError(lines'[i], i, d).None? {
      if i < j {
        assert lines'[i] == lines[i];
        assert LineError(lines[i], i, d).None?;
      } else if i > j {
        assert lines'[i] == lines[i - 1];
        assert LineError(lines[i - 1], i - 1, d).None?;
      }
    }
  }

  /** A header line anywhere strictly between the first and the last line
      changes nothing: it adds no record and no token, and it is neither the
      line that seeds the open group nor the one whose address the final flush
      uses. */
  lemma {:induction false} HeaderInsideIgnored(lines: seq<string>, j: nat, h: string, size: int, d: char)
    requires WellFormed(lines, d)
    requires 0 < j < |lines|
    requires |Split(h, d)| == 5 && IsHeader(Split(h, d))
    ensures Pass(lines[..j] + [h] + lines[j..], size, d) == Pass(lines, size, d)
  {
    var lines' := lines[..j] + [h] + lines[j..];
    InsertHeaderWellFormed(lines, j, h, d);
    HeaderAddsNothing(lines[..j], lines[j..], h, d);
    assert lines[..j] + lines[j..] == lines;
    assert lines'[0] == lines[0];
    assert lines'[|lines'| - 1] == lines[|lines| - 1];
    assert Seed(lines', d) == Seed(lines, d);
    assert Emitted(lines', d) == Emitted(lines, d);
    PassDone(lines, size, d);
    PassDone(lines', size, d);
  }
}
