/** Text primitives used by the aggregation pass: splitting a line on a
    delimiter (Python's str.split with an explicit separator), reading a
    length field as a decimal number (Python's int() restricted to plain
    digit strings) and printing a number in decimal ("%d"). */
module Text {

  datatype Option<+T> = None | Some(value: T)

  /** str.split(d): every occurrence of d ends a field, empty fields are kept,
      and the empty string splits into one empty field. */
  function Split(s: string, d: char): (fields: seq<string>)
    ensures |fields| >= 1
    ensures forall i | 0 <= i < |fields| :: d !in fields[i]
    decreases |s|
  {
    if s == [] then [[]]
    else
      var rest := Split(s[1..], d);
      if s[0] == d then [[]] + rest
      else [[s[0]] + rest[0]] + rest[1..]
  }

  /** d.join(fields): the inverse of Split. */
  function Join(fields: seq<string>, d: char): string
    requires |fields| >= 1
    decreases |fields|
  {
    if |fields| == 1 then fields[0] else fields[0] + [d] + Join(fields[1..], d)
  }

  /** Number of occurrences of c in s. */
  function Occurrences(s: string, c: char): nat
    decreases |s|
  {
    if s == [] then 0 else (if s[0] == c then 1 else 0) + Occurrences(s[1..], c)
  }

  /** Splitting and joining again gives back the line. */
  lemma {:induction false} JoinSplit(s: string, d: char)
    ensures Join(Split(s, d), d) == s
    decreases |s|
  {
    if s != [] {
      JoinSplit(s[1..], d);
      var rest := Split(s[1..], d);
      if s[0] != d && |rest| > 1 {
        assert ([[s[0]] + rest[0]] + rest[1..])[1..] == rest[1..];
      }
    }
  }

  /** Joining fields that do not contain the delimiter and splitting again
      gives back the fields: Split is a bijection onto such field lists. */
  lemma {:induction false} SplitJoin(fields: seq<string>, d: char)
    requires |fields| >= 1
    requires forall i | 0 <= i < |fields| :: d !in fields[i]
    ensures Split(Join(fields, d), d) == fields
    decreases |fields|, |fields[0]|
  {
    if |fields[0]| > 0 {
      var f := fields[0];
      var tail := [f[1..]] + fields[1..];
      NoDelimiterTail(fields, d);
      SplitJoin(tail, d);
      JoinPeel(fields, d);
      assert Join(fields, d)[1..] == Join(tail, d);
      assert tail[1..] == fields[1..];
      assert [f[0]] + f[1..] == f;
    } else if |fields| > 1 {
      SplitJoin(fields[1..], d);
      assert Join(fields, d) == [d] + Join(fields[1..], d);
      assert Join(fields, d)[1..] == Join(fields[1..], d);
      assert [[]] + fields[1..] == fields;
    }
  }

  /** Joining fields whose first field is not empty starts with that
      field's first character, followed by the join with it removed. */
  lemma {:induction false} JoinPeel(fields: seq<string>, d: char)
    requires |fields| >= 1 && |fields[0]| > 0
    ensures Join(fields, d) == [fields[0][0]] + Join([fields[0][1..]] + fields[1..], d)
  {
    var f := fields[0];
    var tail := [f[1..]] + fields[1..];
    assert [f[0]] + f[1..] == f;
    if |fields| > 1 {
      assert tail[1..] == fields[1..];
    }
  }

  /** Removing the first character of the first field keeps the fields free
      of the delimiter, and that character is not the delimiter. */
  lemma {:induction false} NoDelimiterTail(fields: seq<string>, d: char)
    requires |fields| >= 1 && |fields[0]| > 0
    requires forall i | 0 <= i < |fields| :: d !in fields[i]
    ensures fields[0][0] != d
    ensures var tail := [fields[0][1..]] + fields[1..];
      forall i | 0 <= i < |tail| :: d !in tail[i]
  {
    var f := fields[0];
    var tail := [f[1..]] + fields[1..];
    assert f[0] in fields[0];
    forall i | 0 <= i < |tail| ensures d !in tail[i] {
      if i == 0 {
        assert forall j | 0 <= j < |f[1..]| :: f[1..][j] == f[j + 1];
      } else {
        assert tail[i] == fields[i];
      }
    }
  }


  /** A line has exactly one more field than it has delimiters, so "exactly five
      fields" means "exactly four delimiters". */
  lemma {:induction false} SplitFieldCount(s: string, d: char)
    ensures |Split(s, d)| == Occurrences(s, d) + 1
    decreases |s|
  {
    if s != [] {
      SplitFieldCount(s[1..], d);
    }
  }

  predicate IsDigit(c: char) {
    '0' <= c <= '9'
  }

  /** A non-empty string of decimal digits: the length fields the model accepts. */
  predicate IsDigits(s: string) {
    |s| > 0 && forall i | 0 <= i < |s| :: IsDigit(s[i])
  }

  /** The value of a string of decimal digits, most significant first. */
  function DigitsValue(s: string): nat
    requires forall i | 0 <= i < |s| :: IsDigit(s[i])
    decreases |s|
  {
    if s == [] then 0
    else
      assert IsDigit(s[|s| - 1]);
      DigitsValue(s[..|s| - 1]) * 10 + (s[|s| - 1] as int - '0' as int)
  }

  /** int(s) for a length field: a digit string gives its value, anything else
      raises (None). */
  function ParseDecimal(s: string): (r: Option<nat>)
    ensures r.Some? <==> IsDigits(s)
  {
    if IsDigits(s) then Some(DigitsValue(s)) else None
  }

  function DigitChar(n: nat): (c: char)
    requires n < 10
    ensures IsDigit(c)
  {
    ('0' as int + n) as char
  }

  /** "%d" % n for a non-negative n. */
  function Decimal(n: nat): (s: string)
    ensures IsDigits(s)
    decreases n
  {
    if n < 10 then [DigitChar(n)] else Decimal(n / 10) + [DigitChar(n % 10)]
  }

  /** Reading back a printed number gives the number. */
  lemma {:induction false} ParseDecimalOfDecimal(n: nat)
    ensures ParseDecimal(Decimal(n)) == Some(n)
    decreases n
  {
    var s := Decimal(n);
    if n >= 10 {
      ParseDecimalOfDecimal(n / 10);
      assert s[..|s| - 1] == Decimal(n / 10);
      assert s[|s| - 1] == DigitChar(n % 10);
      assert DigitsValue(s) == (n / 10) * 10 + n % 10;
    }
  }
}
