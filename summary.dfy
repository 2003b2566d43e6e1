/** What one pass over the scan file is meant to produce, stated independently
    of the single-pass loop that produces it: the per-address run totals, the six
    global counters and the flag histogram, and the text of a summary line. */
module Summary {
  import opened Text

  /** A data line after parsing: its source address and its length field. */
  datatype Record = Record(addr: string, len: nat)

  /** One address's totals; also one line "<len> <addr> <packets>" of the
      summary file. */
  datatype Group = Group(addr: string, len: nat, packets: nat)

  /** The counters the pass returns: bytes and packets from all addresses,
      bytes and packets from amplifying addresses, and the two address counts. */
  datatype Info = Info(
    bytesAll: nat, packetsAll: nat,
    bytesAmp: nat, packetsAmp: nat,
    ips: nat, ampIps: nat)

  const NoTraffic := Info(0, 0, 0, 0, 0, 0)

  // ---------------------------------------------------------------------------
  // Run-length grouping
  // ---------------------------------------------------------------------------

  /** Sum of the length fields of a list of records. */
  function RecordBytes(recs: seq<Record>): nat
    decreases |recs|
  {
    if recs == [] then 0 else recs[0].len + RecordBytes(recs[1..])
  }

  lemma {:induction false} RecordBytesAppend(a: seq<Record>, b: seq<Record>)
    ensures RecordBytes(a + b) == RecordBytes(a) + RecordBytes(b)
    decreases |a|
  {
    if a == [] {
      assert a + b == b;
    } else {
      assert (a + b)[0] == a[0];
      assert (a + b)[1..] == a[1..] + b;
      RecordBytesAppend(a[1..], b);
    }
  }

  /** How many records at the front share the first record's address. */
  function RunLength(recs: seq<Record>): (m: nat)
    requires recs != []
    ensures 1 <= m <= |recs|
    ensures forall i | 0 <= i < m :: recs[i].addr == recs[0].addr
    ensures m < |recs| ==> recs[m].addr != recs[0].addr
    decreases |recs|
  {
    if |recs| == 1 || recs[1].addr != recs[0].addr then 1
    else 1 + RunLength(recs[1..])
  }

  /** The run length is the only cut with those properties. */
  lemma {:induction false} RunLengthUnique(recs: seq<Record>, m: nat)
    requires 1 <= m <= |recs|
    requires forall i | 0 <= i < m :: recs[i].addr == recs[0].addr
    requires m < |recs| ==> recs[m].addr != recs[0].addr
    ensures RunLength(recs) == m
  {
  }

  /** The reference grouping: one group per maximal run of equal addresses, in
      input order, holding the run's address, the sum of its lengths and its
      number of records. */
  function Groups(recs: seq<Record>): (gs: seq<Group>)
    ensures |gs| <= |recs|
    ensures recs != [] ==> gs != [] && gs[0].addr == recs[0].addr
    decreases |recs|
  {
    if recs == [] then []
    else
      var m := RunLength(recs);
      [Group(recs[0].addr, RecordBytes(recs[..m]), m)] + Groups(recs[m..])
  }

  /** One more record: it joins the last group when the address is the same and
      opens a new group otherwise. */
  function Extend(gs: seq<Group>, r: Record): (gs': seq<Group>)
    ensures |gs| <= |gs'| <= |gs| + 1
    ensures gs' != [] && gs'[|gs'| - 1].addr == r.addr
  {
    if gs != [] && gs[|gs| - 1].addr == r.addr then
      gs[..|gs| - 1] + [Group(r.addr, gs[|gs| - 1].len + r.len, gs[|gs| - 1].packets + 1)]
    else
      gs + [Group(r.addr, r.len, 1)]
  }

  /** The last group holds the last record's address. */
  lemma {:induction false} GroupsLast(recs: seq<Record>)
    requires recs != []
    ensures var gs := Groups(recs); gs != [] && gs[|gs| - 1].addr == recs[|recs| - 1].addr
  {
    var n := |recs| - 1;
    assert recs == recs[..n] + [recs[n]];
    GroupsSnoc(recs[..n], recs[n]);
  }

  /** An open group with nothing in it disappears into a first group of the
      same address. */
  lemma {:induction false} AbsorbEmpty(addr: string, gs: seq<Group>)
    requires gs != [] && gs[0].addr == addr
    ensures Absorb(Group(addr, 0, 0), gs) == gs
  {
  }

  /** Consecutive groups have different addresses and no group is empty: the
      runs are maximal. */
  lemma {:induction false} GroupsMaximal(recs: seq<Record>)
    ensures forall i | 0 <= i < |Groups(recs)| :: Groups(recs)[i].packets >= 1
    ensures forall i | 0 <= i < |Groups(recs)| - 1 :: Groups(recs)[i].addr != Groups(recs)[i + 1].addr
    decreases |recs|
  {
    if recs != [] {
      var m := RunLength(recs);
      GroupsMaximal(recs[m..]);
      var gs := Groups(recs);
      var tail := Groups(recs[m..]);
      assert gs == [Group(recs[0].addr, RecordBytes(recs[..m]), m)] + tail;
      forall i | 0 <= i < |gs| ensures gs[i].packets >= 1 {
        if i > 0 {
          assert gs[i] == tail[i - 1];
        }
      }
      forall i | 0 <= i < |gs| - 1 ensures gs[i].addr != gs[i + 1].addr {
        assert gs[i + 1] == tail[i];
        if i > 0 {
          assert gs[i] == tail[i - 1];
        } else {
          assert tail[0].addr == recs[m..][0].addr == recs[m].addr;
        }
      }
    }
  }

  lemma {:induction false} ExtendCons(g: Group, gs: seq<Group>, r: Record)
    requires gs != []
    ensures Extend([g] + gs, r) == [g] + Extend(gs, r)
  {
    var x := [g] + gs;
    assert x[|x| - 1] == gs[|gs| - 1];
    assert x[..|x| - 1] == [g] + gs[..|gs| - 1];
  }

  /** All records share the first record's address. */
  predicate OneAddress(recs: seq<Record>) {
    recs != [] && forall i | 0 <= i < |recs| :: recs[i].addr == recs[0].addr
  }

  /** A single run makes a single group. */
  lemma {:induction false} GroupsOneRun(recs: seq<Record>)
    requires OneAddress(recs)
    ensures Groups(recs) == [Group(recs[0].addr, RecordBytes(recs), |recs|)]
  {
    RunLengthUnique(recs, |recs|);
    assert recs[..|recs|] == recs && recs[|recs|..] == [];
  }

  /** A record of the run's address lengthens the only group. */
  lemma {:induction false} GroupsSnocSameRun(recs: seq<Record>, r: Record)
    requires OneAddress(recs) && r.addr == recs[0].addr
    ensures Groups(recs + [r]) == Extend(Groups(recs), r)
  {
    var e := recs + [r];
    assert OneAddress(e);
    GroupsOneRun(recs);
    GroupsOneRun(e);
    RecordBytesAppend(recs, [r]);
    assert RecordBytes([r]) == r.len;
  }

  /** A record of another address opens a second group. */
  lemma {:induction false} GroupsSnocNewRun(recs: seq<Record>, r: Record)
    requires OneAddress(recs) && r.addr != recs[0].addr
    ensures Groups(recs + [r]) == Extend(Groups(recs), r)
  {
    var e := recs + [r];
    var m := |recs|;
    RunLengthUnique(e, m);
    assert e[..m] == recs && e[m..] == [r];
    GroupsOneRun(recs);
    assert OneAddress([r]);
    GroupsOneRun([r]);
    assert RecordBytes([r]) == r.len;
  }

  /** The run-length grouping can be computed left to right, one record at a
      time, which is what a single pass does. */
  lemma {:induction false} GroupsSnoc(recs: seq<Record>, r: Record)
    ensures Groups(recs + [r]) == Extend(Groups(recs), r)
    decreases |recs|
  {
    var e := recs + [r];
    if recs == [] {
      assert e == [r] && OneAddress(e);
      GroupsOneRun(e);
      assert RecordBytes([r]) == r.len;
    } else {
      var m := RunLength(recs);
      if m < |recs| {
        RunLengthUnique(e, m);
        assert e[..m] == recs[..m];
        assert e[m..] == recs[m..] + [r];
        GroupsSnoc(recs[m..], r);
        ExtendCons(Group(recs[0].addr, RecordBytes(recs[..m]), m), Groups(recs[m..]), r);
      } else {
        assert OneAddress(recs);
        if r.addr == recs[0].addr {
          GroupsSnocSameRun(recs, r);
        } else {
          GroupsSnocNewRun(recs, r);
        }
      }
    }
  }

  /** Putting an already open group in front of a grouping: it merges with the
      first group when the addresses agree. */
  function Absorb(open: Group, gs: seq<Group>): (r: seq<Group>)
    ensures |r| >= 1
  {
    if gs != [] && gs[0].addr == open.addr then
      [Group(open.addr, open.len + gs[0].len, open.packets + gs[0].packets)] + gs[1..]
    else
      [open] + gs
  }

  /** Putting the open group in front commutes with adding a record at the end. */
  lemma {:induction false} AbsorbExtend(open: Group, gs: seq<Group>, r: Record)
    ensures Absorb(open, Extend(gs, r)) == Extend(Absorb(open, gs), r)
  {
    if |gs| == 1 {
      assert gs[..0] == [];
    } else if |gs| >= 2 {
      var n := |gs|;
      var a := Absorb(open, gs);
      var e := Extend(gs, r);
      assert a[|a| - 1] == gs[n - 1];
      assert e[0] == gs[0];
      if gs[n - 1].addr == r.addr {
        var m := Group(r.addr, gs[n - 1].len + r.len, gs[n - 1].packets + 1);
        assert e[1..] == gs[1..n - 1] + [m];
        assert a[..|a| - 1] + [m] == Absorb(open, e);
      } else {
        assert e[1..] == gs[1..] + [Group(r.addr, r.len, 1)];
        assert a + [Group(r.addr, r.len, 1)] == Absorb(open, e);
      }
    }
  }

  lemma {:induction false} AbsorbSnoc(open: Group, recs: seq<Record>, r: Record)
    ensures Absorb(open, Groups(recs + [r])) == Extend(Absorb(open, Groups(recs)), r)
  {
    GroupsSnoc(recs, r);
    AbsorbExtend(open, Groups(recs), r);
  }

  /** Equal addresses stand next to each other: what sorting on the address
      field guarantees. */
  predicate Grouped(recs: seq<Record>) {
    forall i, j, k | 0 <= i < j < k < |recs| ::
      recs[i].addr == recs[k].addr ==> recs[j].addr == recs[i].addr
  }

  function Addrs(recs: seq<Record>): set<string> {
    set i | 0 <= i < |recs| :: recs[i].addr
  }

  function GroupAddrs(gs: seq<Group>): set<string> {
    set i | 0 <= i < |gs| :: gs[i].addr
  }

  /** Sorting survives dropping a prefix. */
  lemma {:induction false} GroupedSuffix(recs: seq<Record>, m: nat)
    requires Grouped(recs) && m <= |recs|
    ensures Grouped(recs[m..])
  {
    var rest := recs[m..];
    forall i, j, k | 0 <= i < j < k < |rest| && rest[i].addr == rest[k].addr
      ensures rest[j].addr == rest[i].addr
    {
      assert rest[i] == recs[m + i] && rest[j] == recs[m + j] && rest[k] == recs[m + k];
    }
  }

  /** In sorted records the first run's address does not come back after it. */
  lemma {:induction false} RunAddrNotAfter(recs: seq<Record>)
    requires recs != [] && Grouped(recs)
    ensures recs[0].addr !in Addrs(recs[RunLength(recs)..])
  {
    var m := RunLength(recs);
    var rest := recs[m..];
    forall k | 0 <= k < |rest| ensures rest[k].addr != recs[0].addr {
      assert rest[k] == recs[m + k];
      assert recs[m].addr != recs[0].addr;
    }
  }

  /** The addresses of a list are its first run's address and those after it. */
  lemma {:induction false} AddrsSplit(recs: seq<Record>)
    requires recs != []
    ensures Addrs(recs) == {recs[0].addr} + Addrs(recs[RunLength(recs)..])
  {
    var m := RunLength(recs);
    var a := recs[0].addr;
    var rest := recs[m..];
    forall x | x in Addrs(recs) ensures x in {a} + Addrs(rest) {
      var i :| 0 <= i < |recs| && recs[i].addr == x;
      if i >= m {
        assert rest[i - m].addr == x;
      }
    }
    forall x | x in Addrs(rest) ensures x in Addrs(recs) {
      var i :| 0 <= i < |rest| && rest[i].addr == x;
      assert recs[m + i].addr == x;
    }
  }

  lemma {:induction false} GroupAddrsCons(g: Group, gs: seq<Group>)
    ensures GroupAddrs([g] + gs) == {g.addr} + GroupAddrs(gs)
  {
    var x := [g] + gs;
    forall y | y in GroupAddrs(x) ensures y in {g.addr} + GroupAddrs(gs) {
      var i :| 0 <= i < |x| && x[i].addr == y;
      if i > 0 {
        assert gs[i - 1].addr == y;
      }
    }
    assert x[0].addr == g.addr;
    forall y | y in GroupAddrs(gs) ensures y in GroupAddrs(x) {
      var i :| 0 <= i < |gs| && gs[i].addr == y;
      assert x[i + 1].addr == y;
    }
  }

  /** On address-sorted records every address gets exactly one group: the
      groups' addresses are pairwise distinct and are exactly the records'
      addresses, so there are as many groups as distinct addresses. */
  lemma {:induction false} GroupedOneGroupPerAddress(recs: seq<Record>)
    requires Grouped(recs)
    ensures var gs := Groups(recs);
      && (forall i, j | 0 <= i < j < |gs| :: gs[i].addr != gs[j].addr)
      && GroupAddrs(gs) == Addrs(recs)
      && |gs| == |Addrs(recs)|
    decreases |recs|
  {
    if recs != [] {
      var m := RunLength(recs);
      var a := recs[0].addr;
      var rest := recs[m..];
      GroupedSuffix(recs, m);
      GroupedOneGroupPerAddress(rest);
      RunAddrNotAfter(recs);
      AddrsSplit(recs);
      var g := Group(a, RecordBytes(recs[..m]), m);
      var tail := Groups(rest);
      var gs := Groups(recs);
      assert gs == [g] + tail;
      GroupAddrsCons(g, tail);
      DistinctCons(g, tail);
      assert |{a} + Addrs(rest)| == 1 + |Addrs(rest)|;
    }
  }

  lemma {:induction false} DistinctCons(g: Group, gs: seq<Group>)
    requires forall i, j | 0 <= i < j < |gs| :: gs[i].addr != gs[j].addr
    requires g.addr !in GroupAddrs(gs)
    ensures var x := [g] + gs; forall i, j | 0 <= i < j < |x| :: x[i].addr != x[j].addr
  {
    var x := [g] + gs;
    forall i, j | 0 <= i < j < |x| ensures x[i].addr != x[j].addr {
      assert x[j] == gs[j - 1];
      if i == 0 {
        assert gs[j - 1].addr in GroupAddrs(gs);
      } else {
        assert x[i] == gs[i - 1];
      }
    }
  }

  /** Grouping loses no record and no byte. */
  lemma {:induction false} GroupsConserve(recs: seq<Record>)
    ensures Bytes(Groups(recs)) == RecordBytes(recs)
    ensures Packets(Groups(recs)) == |recs|
    decreases |recs|
  {
    if recs != [] {
      var m := RunLength(recs);
      GroupsConserve(recs[m..]);
      assert recs == recs[..m] + recs[m..];
      RecordBytesAppend(recs[..m], recs[m..]);
    }
  }

  // ---------------------------------------------------------------------------
  // The six counters
  // ---------------------------------------------------------------------------

  function Bytes(gs: seq<Group>): nat
    decreases |gs|
  {
    if gs == [] then 0 else gs[0].len + Bytes(gs[1..])
  }

  function Packets(gs: seq<Group>): nat
    decreases |gs|
  {
    if gs == [] then 0 else gs[0].packets + Packets(gs[1..])
  }

  /** The groups, in order, whose byte total exceeds the threshold strictly. */
  function Amplifying(gs: seq<Group>, size: int): (amp: seq<Group>)
    ensures |amp| <= |gs|
    ensures forall i | 0 <= i < |amp| :: amp[i].len > size
    decreases |gs|
  {
    if gs == [] then []
    else if gs[0].len > size then [gs[0]] + Amplifying(gs[1..], size)
    else Amplifying(gs[1..], size)
  }

  /** A group is counted as amplifying exactly when it is one of the groups and
      its total is strictly above the threshold; a total equal to the
      threshold is not amplifying. */
  lemma {:induction false} AmplifyingMembers(gs: seq<Group>, size: int, g: Group)
    ensures g in Amplifying(gs, size) <==> g in gs && g.len > size
    decreases |gs|
  {
    if gs != [] {
      AmplifyingMembers(gs[1..], size, g);
      assert g in gs <==> g == gs[0] || g in gs[1..];
    }
  }

  /** What the counters should read after the given groups were closed. */
  function Tally(gs: seq<Group>, size: int): Info {
    var amp := Amplifying(gs, size);
    Info(Bytes(gs), Packets(gs), Bytes(amp), Packets(amp), |gs|, |amp|)
  }

  /** The counter updates of one group flush: the all-address counters always,
      the amplifying ones only when the total exceeds size strictly. */
  function AddGroup(info: Info, g: Group, size: int): Info {
    var info := info.(
      bytesAll := info.bytesAll + g.len,
      packetsAll := info.packetsAll + g.packets,
      ips := info.ips + 1);
    if g.len > size then
      info.(
        bytesAmp := info.bytesAmp + g.len,
        packetsAmp := info.packetsAmp + g.packets,
        ampIps := info.ampIps + 1)
    else info
  }

  lemma {:induction false} BytesPacketsAppend(a: seq<Group>, b: seq<Group>)
    ensures Bytes(a + b) == Bytes(a) + Bytes(b)
    ensures Packets(a + b) == Packets(a) + Packets(b)
    decreases |a|
  {
    if a == [] {
      assert a + b == b;
    } else {
      assert (a + b)[0] == a[0];
      assert (a + b)[1..] == a[1..] + b;
      BytesPacketsAppend(a[1..], b);
    }
  }

  lemma {:induction false} AmplifyingAppend(a: seq<Group>, b: seq<Group>, size: int)
    ensures Amplifying(a + b, size) == Amplifying(a, size) + Amplifying(b, size)
    decreases |a|
  {
    if a == [] {
      assert a + b == b;
    } else {
      assert (a + b)[0] == a[0];
      assert (a + b)[1..] == a[1..] + b;
      AmplifyingAppend(a[1..], b, size);
    }
  }

  lemma {:induction false} OneGroupTotals(g: Group, size: int)
    ensures Bytes([g]) == g.len && Packets([g]) == g.packets
    ensures Amplifying([g], size) == if g.len > size then [g] else []
  {
    assert [g][1..] == [];
  }

  /** Appending one group adds its totals, and adds it to the amplifying
      groups exactly when its total is above the threshold. */
  lemma {:induction false} GroupsSnocTotals(gs: seq<Group>, g: Group, size: int)
    ensures Bytes(gs + [g]) == Bytes(gs) + g.len
    ensures Packets(gs + [g]) == Packets(gs) + g.packets
    ensures Amplifying(gs + [g], size) ==
      if g.len > size then Amplifying(gs, size) + [g] else Amplifying(gs, size)
  {
    AmplifyingAppend(gs, [g], size);
    BytesPacketsAppend(gs, [g]);
    OneGroupTotals(g, size);
    assert Amplifying(gs, size) + [] == Amplifying(gs, size);
  }

  /** Flushing one more group moves the counters exactly as AddGroup says. */
  lemma {:induction false} TallySnoc(gs: seq<Group>, g: Group, size: int)
    ensures Tally(gs + [g], size) == AddGroup(Tally(gs, size), g, size)
  {
    var amp := Amplifying(gs, size);
    GroupsSnocTotals(gs, g, size);
    if g.len > size {
      GroupsSnocTotals(amp, g, size);
    }
  }

  /** Counters only grow as more groups are closed. */
  lemma {:induction false} TallyMonotone(a: seq<Group>, b: seq<Group>, size: int)
    ensures var before, after := Tally(a, size), Tally(a + b, size);
      && before.bytesAll <= after.bytesAll && before.packetsAll <= after.packetsAll
      && before.bytesAmp <= after.bytesAmp && before.packetsAmp <= after.packetsAmp
      && before.ips <= after.ips && before.ampIps <= after.ampIps
  {
    AmplifyingAppend(a, b, size);
    BytesPacketsAppend(a, b);
    BytesPacketsAppend(Amplifying(a, size), Amplifying(b, size));
  }

  /** The amplifying counters never exceed the all-address ones. */
  lemma {:induction false} TallyBounds(gs: seq<Group>, size: int)
    ensures var t := Tally(gs, size);
      t.bytesAmp <= t.bytesAll && t.packetsAmp <= t.packetsAll && t.ampIps <= t.ips
    decreases |gs|
  {
    if gs != [] {
      TallyBounds(gs[1..], size);
    }
  }

  // ---------------------------------------------------------------------------
  // The flag histogram
  // ---------------------------------------------------------------------------

  /** Counting one more flag token: create the entry at 0 if it is new, then
      add one. */
  function Bump(h: map<string, nat>, t: string): (h': map<string, nat>)
    ensures h'.Keys == h.Keys + {t}
    ensures h'[t] == (if t in h then h[t] else 0) + 1
    ensures forall u | u in h && u != t :: h'[u] == h[u]
  {
    var h0 := if t in h then h else h[t := 0];
    h0[t := h0[t] + 1]
  }

  function Count(tokens: seq<string>, t: string): (c: nat)
    ensures c > 0 <==> t in tokens
    decreases |tokens|
  {
    if tokens == [] then 0
    else
      var prefix := tokens[..|tokens| - 1];
      assert t in tokens <==> t in prefix || t == tokens[|tokens| - 1];
      Count(prefix, t) + (if tokens[|tokens| - 1] == t then 1 else 0)
  }

  /** The histogram of a list of flag tokens, built one token at a time: its
      keys are exactly the tokens that occur, and each maps to its number of
      occurrences. */
  function Histogram(tokens: seq<string>): (h: map<string, nat>)
    ensures forall t :: t in h <==> t in tokens
    ensures forall t | t in h :: h[t] == Count(tokens, t)
    decreases |tokens|
  {
    if tokens == [] then map[]
    else
      var prefix := tokens[..|tokens| - 1];
      assert forall t :: t in tokens <==> t in prefix || t == tokens[|tokens| - 1];
      Bump(Histogram(prefix), tokens[|tokens| - 1])
  }

  /** Counting one more token bumps its count. */
  lemma {:induction false} HistogramSnoc(tokens: seq<string>, t: string)
    ensures Histogram(tokens + [t]) == Bump(Histogram(tokens), t)
  {
    assert (tokens + [t])[..|tokens|] == tokens;
  }

  ghost function Pick(h: map<string, nat>): (k: string)
    requires |h| > 0
    ensures k in h
  {
    assert h.Keys != {};
    var k :| k in h; k
  }

  /** The sum of a histogram's values. */
  ghost function MapSum(h: map<string, nat>): nat
    decreases |h|
  {
    if |h| == 0 then 0
    else
      var k := Pick(h);
      assert |h - {k}| < |h| by {
        assert (h - {k}).Keys == h.Keys - {k};
      }
      h[k] + MapSum(h - {k})
  }

  /** The sum does not depend on which key is taken out first. */
  lemma {:induction false} MapSumRemove(h: map<string, nat>, k: string)
    requires k in h
    ensures MapSum(h) == h[k] + MapSum(h - {k})
    decreases |h|
  {
    var j := Pick(h);
    if j != k {
      assert (h - {j}).Keys == h.Keys - {j};
      assert (h - {k}).Keys == h.Keys - {k};
      MapSumRemove(h - {j}, k);
      MapSumRemove(h - {k}, j);
      assert h - {j} - {k} == h - {k} - {j};
    }
  }

  lemma {:induction false} BumpRemove(h: map<string, nat>, t: string)
    ensures Bump(h, t) - {t} == h - {t}
  {
    var h' := Bump(h, t);
    assert (h' - {t}).Keys == (h - {t}).Keys;
  }

  lemma {:induction false} MapSumBump(h: map<string, nat>, t: string)
    ensures MapSum(Bump(h, t)) == MapSum(h) + 1
  {
    var h' := Bump(h, t);
    MapSumRemove(h', t);
    BumpRemove(h, t);
    if t in h {
      MapSumRemove(h, t);
    } else {
      assert h - {t} == h;
    }
  }

  /** Every token adds exactly one to the histogram, so its values sum to the
      number of tokens counted. */
  lemma {:induction false} HistogramSum(tokens: seq<string>)
    ensures MapSum(Histogram(tokens)) == |tokens|
    decreases |tokens|
  {
    if tokens != [] {
      HistogramSum(tokens[..|tokens| - 1]);
      MapSumBump(Histogram(tokens[..|tokens| - 1]), tokens[|tokens| - 1]);
    }
  }

  // ---------------------------------------------------------------------------
  // The summary line
  // ---------------------------------------------------------------------------

  /** "%d %s %d\n" % (len, addr, packets). */
  function Render(g: Group): string {
    Decimal(g.len) + " " + g.addr + " " + Decimal(g.packets) + "\n"
  }

  /** A strict reader of one summary line: exactly three columns separated by
      single spaces, the first and third decimal counts, and a final line
      break. */
  function ParseSummary(line: string): Option<Group> {
    if |line| == 0 || line[|line| - 1] != '\n' then None
    else
      var cols := Split(line[..|line| - 1], ' ');
      if |cols| != 3 then None
      else match (ParseDecimal(cols[0]), ParseDecimal(cols[2]))
        case (Some(len), Some(packets)) => Some(Group(cols[1], len, packets))
        case _ => None
  }

  /** A summary line reads back as the group it was written from, as long as
      the address holds no space. */
  lemma {:induction false} RenderRoundTrip(g: Group)
    requires ' ' !in g.addr
    ensures ParseSummary(Render(g)) == Some(g)
  {
    var line := Render(g);
    var cols := [Decimal(g.len), g.addr, Decimal(g.packets)];
    assert line[..|line| - 1] == Join(cols, ' ') by {
      assert Join(cols, ' ') == Decimal(g.len) + " " + (g.addr + " " + Join([Decimal(g.packets)], ' '));
    }
    assert ' ' !in Decimal(g.len) && ' ' !in Decimal(g.packets);
    SplitJoin(cols, ' ');
    ParseDecimalOfDecimal(g.len);
    ParseDecimalOfDecimal(g.packets);
  }
}
