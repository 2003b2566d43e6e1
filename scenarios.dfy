/** Concrete runs of the pass: the small inputs a reader would try first, and
    the inputs on which the pass as written reports something other than the
    per-address totals of its data lines. Each line is given by the five
    fields it splits into on ','. */
module Scenarios {
  import opened Text
  import opened Summary
  import opened ProcessSorted

  /** The fields of the zmap header line; the sort puts it after every
      numeric address. */
  const SaddrFields := ["saddr", "len", "payloadlen", "flags", "validation_type\n"]

  /** What the pass reads off a data line. */
  lemma {:induction false} DataLineFacts(l: string, d: char, addr: string, len: string, flag: string, i: nat)
    requires |Split(l, d)| == 5
    requires Split(l, d)[0] == addr && Split(l, d)[1] == len && Split(l, d)[3] == flag
    requires addr != "addr" && len != "len" && IsDigits(len)
    ensures DataLine(l, d) && LineError(l, i, d).None?
    ensures LineRecords(l, d) == [Record(addr, DigitsValue(len))]
    ensures LineTokens(l, d) == [flag]
    ensures Addr(l, d) == addr
  {
  }

  /** What the pass reads off a header line. */
  lemma {:induction false} HeaderLineFacts(l: string, d: char, i: nat)
    requires |Split(l, d)| == 5 && IsHeader(Split(l, d))
    ensures LineError(l, i, d).None?
    ensures LineRecords(l, d) == [] && LineTokens(l, d) == []
  {
  }

  lemma {:induction false} DigitValues()
    ensures IsDigits("5") && DigitsValue("5") == 5
    ensures IsDigits("50") && DigitsValue("50") == 50
    ensures IsDigits("100") && DigitsValue("100") == 100
  {
    assert "50"[..1] == "5";
    assert "100"[..2] == "10";
    assert "10"[..1] == "1";
    assert "5"[..0] == "" && "1"[..0] == "";
  }

  /** The numbers the scenarios print. */
  lemma {:induction false} DecimalValues()
    ensures Decimal(1) == "1" && Decimal(2) == "2" && Decimal(5) == "5"
    ensures Decimal(150) == "150"
  {
    assert DigitChar(0) == '0' && DigitChar(1) == '1' && DigitChar(5) == '5';
    assert Decimal(15) == Decimal(1) + ['5'];
    assert Decimal(150) == Decimal(15) + ['0'];
  }

  /** The summary lines the scenarios write. */
  lemma {:induction false} RenderValues()
    ensures Render(Group("10", 150, 2)) == "150 10 2\n"
    ensures Render(Group("10", 5, 1)) == "5 10 1\n"
  {
    DecimalValues();
    assert "150" + " " + "10" + " " + "2" + "\n" == "150 10 2\n";
    assert "5" + " " + "10" + " " + "1" + "\n" == "5 10 1\n";
  }

  /** Two lines that raise nothing make a well-formed file. */
  lemma {:induction false} TwoGood(l1: string, l2: string, d: char)
    requires LineError(l1, 0, d).None? && LineError(l2, 1, d).None?
    ensures WellFormed([l1, l2], d)
  {
  }

  /** A run of one record is one group. */
  lemma {:induction false} GroupsOne(r: Record)
    ensures Groups([r]) == [Group(r.addr, r.len, 1)]
  {
    assert [r][..1] == [r] && [r][1..] == [];
    assert RunLength([r]) == 1;
    assert RecordBytes([r]) == r.len;
  }

  /** The tally of a single summary line. */
  lemma {:induction false} TallyOne(g: Group, size: int)
    ensures Tally([g], size) ==
      if g.len > size then Info(g.len, g.packets, g.len, g.packets, 1, 1)
      else Info(g.len, g.packets, 0, 0, 1, 0)
  {
    assert [g][1..] == [];
    assert Bytes([g]) == g.len && Packets([g]) == g.packets;
    if g.len > size {
      assert Amplifying([g], size) == [g];
    } else {
      assert Amplifying([g], size) == [];
    }
  }

  /** A file of one data line: one summary line, the line's own. */
  lemma {:induction false} OneDataLine(l: string, size: int, addr: string, len: string, flag: string)
    requires |Split(l, ',')| == 5
    requires Split(l, ',')[0] == addr && Split(l, ',')[1] == len && Split(l, ',')[3] == flag
    requires addr != "addr" && addr != SaddrHeader && len != "len" && IsDigits(len)
    ensures var g := Group(addr, DigitsValue(len), 1);
      Pass([l], size, ',') == Done(Tally([g], size), map[flag := 1], [g])
  {
    DataLineFacts(l, ',', addr, len, flag, 0);
    assert WellFormed([l], ',');
    PassClean([l], size, ',');
    OneLine(l, ',');
    HistogramOne(flag);
    GroupsOne(Record(addr, DigitsValue(len)));
  }

  /** The records and tokens of a two-line file are those of its lines. */
  lemma {:induction false} TwoLines(l1: string, l2: string, d: char)
    ensures DataRecords([l1, l2], d) == LineRecords(l1, d) + LineRecords(l2, d)
    ensures FlagTokens([l1, l2], d) == LineTokens(l1, d) + LineTokens(l2, d)
  {
    assert [l1, l2][..1] == [l1];
    assert [l1][..0] == [];
    assert DataRecords([l1], d) == LineRecords(l1, d);
    assert FlagTokens([l1], d) == LineTokens(l1, d);
  }

  /** The records and tokens of a one-line file are those of its line. */
  lemma {:induction false} OneLine(l: string, d: char)
    ensures DataRecords([l], d) == LineRecords(l, d)
    ensures FlagTokens([l], d) == LineTokens(l, d)
  {
    assert [l][..0] == [];
  }

  lemma {:induction false} HistogramOne(t: string)
    ensures Histogram([t]) == map[t := 1]
  {
    assert [t][..0] == [];
  }

  /** Two records of one address form one group. */
  lemma {:induction false} GroupsSameTwo(r1: Record, r2: Record)
    requires r1.addr == r2.addr
    ensures Groups([r1, r2]) == [Group(r1.addr, r1.len + r2.len, 2)]
  {
    var recs := [r1, r2];
    assert RunLength(recs[1..]) == 1;
    assert RunLength(recs) == 2;
    assert recs[..2] == recs && recs[2..] == [];
    assert recs[1..] == [r2] && [r2][1..] == [];
    assert RecordBytes([r2]) == r2.len;
    assert RecordBytes(recs) == r1.len + r2.len;
  }

  /** One token seen twice. */
  lemma {:induction false} HistogramTwice(t: string)
    ensures Histogram([t, t]) == map[t := 2]
  {
    assert [t, t][..1] == [t];
    HistogramOne(t);
  }

  /** A clean file whose two data lines share an address: one summary line. */
  lemma {:induction false} OneAddressTwoLines(l1: string, l2: string, size: int,
                           r1: Record, r2: Record, flag: string)
    requires Clean([l1, l2], ',')
    requires DataRecords([l1, l2], ',') == [r1, r2]
    requires FlagTokens([l1, l2], ',') == [flag, flag]
    requires r1.addr == r2.addr
    ensures var g := Group(r1.addr, r1.len + r2.len, 2);
      Pass([l1, l2], size, ',') == Done(Tally([g], size), map[flag := 2], [g])
  {
    GroupsSameTwo(r1, r2);
    HistogramTwice(flag);
    PassClean([l1, l2], size, ',');
  }

  /** One address on two lines, threshold 0: one summary line "150 10 2",
      counted as amplifying, and the flag S seen twice. */
  lemma {:induction false} SingleGroup(l1: string, l2: string)
    requires Split(l1, ',') == ["10", "100", "_", "S", "_\n"]
    requires Split(l2, ',') == ["10", "50", "_", "S", "_\n"]
    ensures Pass([l1, l2], 0, ',') ==
      Done(Info(150, 2, 150, 2, 1, 1), map["S" := 2], [Group("10", 150, 2)])
    ensures Render(Group("10", 150, 2)) == "150 10 2\n"
  {
    var r1, r2 := Record("10", 100), Record("10", 50);
    assert Clean([l1, l2], ',') && DataRecords([l1, l2], ',') == [r1, r2]
        && FlagTokens([l1, l2], ',') == ["S", "S"] by {
      DigitValues();
      DataLineFacts(l1, ',', "10", "100", "S", 0);
      DataLineFacts(l2, ',', "10", "50", "S", 1);
      TwoGood(l1, l2, ',');
      TwoLines(l1, l2, ',');
    }
    OneAddressTwoLines(l1, l2, 0, r1, r2, "S");
    TallyOne(Group("10", 150, 2), 0);
    RenderValues();
  }

  /** The lines of the single-group scenario exist: joining its fields with
      commas gives two lines that split back into them. */
  lemma {:induction false} SingleGroupLines()
    ensures var l1, l2 := Join(["10", "100", "_", "S", "_\n"], ','), Join(["10", "50", "_", "S", "_\n"], ',');
      Pass([l1, l2], 0, ',') == Done(Info(150, 2, 150, 2, 1, 1), map["S" := 2], [Group("10", 150, 2)])
  {
    var f1, f2 := ["10", "100", "_", "S", "_\n"], ["10", "50", "_", "S", "_\n"];
    SplitJoin(f1, ',');
    SplitJoin(f2, ',');
    SingleGroup(Join(f1, ','), Join(f2, ','));
  }

  /** One line with 5 bytes, threshold 10: the final flush writes "5 10 1"
      and the address is not amplifying. */
  lemma {:induction false} FinalFlushSingleLine(l: string)
    requires Split(l, ',') == ["10", "5", "_", "A", "_\n"]
    ensures Pass([l], 10, ',') == Done(Info(5, 1, 0, 0, 1, 0), map["A" := 1], [Group("10", 5, 1)])
    ensures Render(Group("10", 5, 1)) == "5 10 1\n"
  {
    DigitValues();
    OneDataLine(l, 10, "10", "5", "A");
    TallyOne(Group("10", 5, 1), 10);
    RenderValues();
  }

  /** A group whose total equals the threshold is not amplifying; with a
      threshold one byte lower it is. */
  lemma {:induction false} ThresholdBoundary(l: string)
    requires Split(l, ',') == ["10", "100", "_", "A", "_\n"]
    ensures Pass([l], 100, ',') == Done(Info(100, 1, 0, 0, 1, 0), map["A" := 1], [Group("10", 100, 1)])
    ensures Pass([l], 99, ',') == Done(Info(100, 1, 100, 1, 1, 1), map["A" := 1], [Group("10", 100, 1)])
  {
    DigitValues();
    OneDataLine(l, 100, "10", "100", "A");
    OneDataLine(l, 99, "10", "100", "A");
    TallyOne(Group("10", 100, 1), 100);
    TallyOne(Group("10", 100, 1), 99);
  }

  /** A data line followed by a header: the final flush writes the open
      group under the header's address, or nothing when that address is
      "saddr". */
  lemma {:induction false} DataThenHeader(l1: string, l2: string, size: int, addr: string, len: string, flag: string)
    requires |Split(l1, ',')| == 5
    requires Split(l1, ',')[0] == addr && Split(l1, ',')[1] == len && Split(l1, ',')[3] == flag
    requires addr != "addr" && len != "len" && IsDigits(len)
    requires |Split(l2, ',')| == 5 && IsHeader(Split(l2, ','))
    ensures var g := Group(Addr(l2, ','), DigitsValue(len), 1);
      var out := if Addr(l2, ',') == SaddrHeader then [] else [g];
      Pass([l1, l2], size, ',') == Done(Tally(out, size), map[flag := 1], out)
  {
    var lines := [l1, l2];
    DataLineFacts(l1, ',', addr, len, flag, 0);
    HeaderLineFacts(l2, ',', 1);
    TwoGood(l1, l2, ',');
    PassDone(lines, size, ',');
    TwoLines(l1, l2, ',');
    assert DataRecords(lines, ',') == [Record(addr, DigitsValue(len))];
    assert FlagTokens(lines, ',') == [flag];
    HistogramOne(flag);
    var g := Group(addr, DigitsValue(len), 1);
    GroupsOne(Record(addr, DigitsValue(len)));
    assert Seed(lines, ',') == Group(addr, 0, 0);
    AbsorbEmpty(addr, [g]);
    var all := Absorb(Seed(lines, ','), Groups(DataRecords(lines, ',')));
    assert all == [g];
    assert all[..|all| - 1] == [];
    if Addr(l2, ',') == SaddrHeader {
      assert Emitted(lines, ',') == [];
    } else {
      assert Emitted(lines, ',') == [g.(addr := Addr(l2, ','))];
    }
  }

  /** A header followed by a data line: the header seeds an empty group that
      the data line closes. */
  lemma {:induction false} HeaderThenData(l1: string, l2: string, size: int, addr: string, len: string, flag: string)
    requires |Split(l1, ',')| == 5 && IsHeader(Split(l1, ','))
    requires |Split(l2, ',')| == 5
    requires Split(l2, ',')[0] == addr && Split(l2, ',')[1] == len && Split(l2, ',')[3] == flag
    requires addr != "addr" && addr != SaddrHeader && len != "len" && IsDigits(len)
    requires addr != Addr(l1, ',')
    ensures var out := [Group(Addr(l1, ','), 0, 0), Group(addr, DigitsValue(len), 1)];
      Pass([l1, l2], size, ',') == Done(Tally(out, size), map[flag := 1], out)
  {
    var lines := [l1, l2];
    var r := Record(addr, DigitsValue(len));
    HeaderLineFacts(l1, ',', 0);
    DataLineFacts(l2, ',', addr, len, flag, 1);
    assert WellFormed(lines, ',') by {
      TwoGood(l1, l2, ',');
    }
    assert DataRecords(lines, ',') == [r] && FlagTokens(lines, ',') == [flag] by {
      TwoLines(l1, l2, ',');
      assert [] + [r] == [r] && [] + [flag] == [flag];
    }
    HeaderThenRecord(l1, l2, size, r, flag);
  }

  /** A file of two well-formed lines whose only record follows a header
      under another address: the header's empty group is written, then the
      record's. */
  lemma {:induction false} HeaderThenRecord(l1: string, l2: string, size: int, r: Record, flag: string)
    requires WellFormed([l1, l2], ',')
    requires DataRecords([l1, l2], ',') == [r] && FlagTokens([l1, l2], ',') == [flag]
    requires r.addr != Addr(l1, ',') && r.addr == Addr(l2, ',') && r.addr != SaddrHeader
    ensures var out := [Group(Addr(l1, ','), 0, 0), Group(r.addr, r.len, 1)];
      Pass([l1, l2], size, ',') == Done(Tally(out, size), map[flag := 1], out)
  {
    PassDone([l1, l2], size, ',');
    HistogramOne(flag);
    GroupsOne(r);
    CloseLastOwn([Group(Addr(l1, ','), 0, 0), Group(r.addr, r.len, 1)], r.addr);
  }

  /** The tally of two summary lines. */
  lemma {:induction false} TallyTwo(g1: Group, g2: Group, size: int)
    ensures Tally([g1, g2], size) == AddGroup(Tally([g1], size), g2, size)
  {
    assert [g1] + [g2] == [g1, g2];
    TallySnoc([g1], g2, size);
  }

  /** Sorted, the zmap header lands after every numeric address. The last
      line read then has address "saddr", the final flush is skipped and the
      last address's traffic is neither written nor counted: here the file
      holds one record and nothing at all is reported. */
  lemma {:induction false} SaddrLastDropsLastGroup(l1: string, l2: string)
    requires Split(l1, ',') == ["10", "5", "_", "A", "_\n"]
    requires Split(l2, ',') == SaddrFields
    ensures DataRecords([l1, l2], ',') == [Record("10", 5)]
    ensures Pass([l1, l2], 0, ',') == Done(NoTraffic, map["A" := 1], [])
  {
    DigitValues();
    DataThenHeader(l1, l2, 0, "10", "5", "A");
    DataLineFacts(l1, ',', "10", "5", "A", 0);
    HeaderLineFacts(l2, ',', 1);
    TwoLines(l1, l2, ',');
  }

  /** A header whose address column is "addr" as the last line: the final
      flush writes the open group under the header's address instead of the
      group's own. */
  lemma {:induction false} AddrHeaderLastMislabels(l1: string, l2: string)
    requires Split(l1, ',') == ["10", "5", "_", "A", "_\n"]
    requires Split(l2, ',') == ["addr", "len", "_", "flags", "_\n"]
    ensures DataRecords([l1, l2], ',') == [Record("10", 5)]
    ensures Pass([l1, l2], 0, ',') == Done(Info(5, 1, 5, 1, 1, 1), map["A" := 1], [Group("addr", 5, 1)])
  {
    DigitValues();
    DataThenHeader(l1, l2, 0, "10", "5", "A");
    DataLineFacts(l1, ',', "10", "5", "A", 0);
    HeaderLineFacts(l2, ',', 1);
    TwoLines(l1, l2, ',');
    TallyOne(Group("addr", 5, 1), 0);
  }

  /** A header as the first line seeds the open group with the header's
      address; the first data line closes it, so an empty group "0 saddr 0"
      is written and counted as an address. */
  lemma {:induction false} HeaderFirstWritesEmptyGroup(l1: string, l2: string)
    requires Split(l1, ',') == SaddrFields
    requires Split(l2, ',') == ["10", "5", "_", "A", "_\n"]
    ensures DataRecords([l1, l2], ',') == [Record("10", 5)]
    ensures Pass([l1, l2], 0, ',') ==
      Done(Info(5, 1, 5, 1, 2, 1), map["A" := 1], [Group("saddr", 0, 0), Group("10", 5, 1)])
  {
    DigitValues();
    HeaderThenData(l1, l2, 0, "10", "5", "A");
    HeaderLineFacts(l1, ',', 0);
    DataLineFacts(l2, ',', "10", "5", "A", 1);
    TwoLines(l1, l2, ',');
    TallyOne(Group("saddr", 0, 0), 0);
    TallyTwo(Group("saddr", 0, 0), Group("10", 5, 1), 0);
  }
}
