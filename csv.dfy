/**
 * The optional CSV dump of the samples: a header row and one row of five
 * fields per sample, written with the comma delimiter. No field ever needs
 * quoting (digits, a minus sign, or nothing), so a row is its fields joined
 * by commas. `ParseRow` reads a row back; it is this model's own inverse of
 * the writer.
 */
module Csv {
  import opened Wrappers
  import opened Probe

  const Header: seq<string> := ["ok", "status", "latency_ms", "count", "no_answer"]

  // ---------------------------------------------------------------------
  // Decimal text of integers, as `str(int)` writes it

  predicate IsDigit(c: char) {
    '0' <= c <= '9'
  }

  function DigitChar(d: int): (c: char)
    requires 0 <= d < 10
    ensures IsDigit(c)
  {
    (d + '0' as int) as char
  }

  function NatToString(n: nat): (s: string)
    ensures |s| >= 1
    ensures forall i :: 0 <= i < |s| ==> IsDigit(s[i])
  {
    if n < 10 then [DigitChar(n)] else NatToString(n / 10) + [DigitChar(n % 10)]
  }

  function IntToString(i: int): (s: string)
    ensures |s| >= 1
    ensures ',' !in s
  {
    if i < 0 then "-" + NatToString(-i) else NatToString(i)
  }

  /** Value of a string of decimal digits, most significant first. */
  function DigitsValue(s: string): nat
    requires forall i :: 0 <= i < |s| ==> IsDigit(s[i])
  {
    if s == [] then 0
    else DigitsValue(s[..|s| - 1]) * 10 + DigitValue(s[|s| - 1])
  }

  function DigitValue(c: char): (d: nat)
    requires IsDigit(c)
    ensures d < 10
  {
    c as int - '0' as int
  }

  function ParseNat(s: string): Option<nat> {
    if s != [] && forall i :: 0 <= i < |s| ==> IsDigit(s[i]) then Some(DigitsValue(s)) else None
  }

  function ParseInt(s: string): Option<int> {
    if |s| >= 1 && s[0] == '-' then
      match ParseNat(s[1..])
      case None => None
      case Some(n) => Some(-(n as int))
    else
      match ParseNat(s)
      case None => None
      case Some(n) => Some(n)
  }

  lemma {:induction false} NatRoundTrip(n: nat)
    ensures DigitsValue(NatToString(n)) == n
  {
    var s := NatToString(n);
    if n >= 10 {
      NatRoundTrip(n / 10);
      assert s[..|s| - 1] == NatToString(n / 10);
    }
  }

  /** Reading back the text of an integer gives the integer. */
  lemma IntRoundTrip(i: int)
    ensures ParseInt(IntToString(i)) == Some(i)
  {
    var s := IntToString(i);
    if i < 0 {
      NatRoundTrip(-i);
      assert s[1..] == NatToString(-i);
    } else {
      NatRoundTrip(i);
    }
  }

  // ---------------------------------------------------------------------
  // Rows

  function BoolField(b: bool): string {
    if b then "1" else "0"
  }

  /**
   * The row written for one sample, in header order: `int(ok)`, status,
   * latency, count or "", `int(no_answer)` or "".
   */
  function EncodeRow(s: Sample): (row: seq<string>)
    ensures |row| == |Header| == 5
    ensures row[0] == "0" || row[0] == "1"
    ensures row[3] == "" <==> s.count == None
    ensures row[4] == "" <==> s.noAnswer == None
    ensures forall i :: 0 <= i < |row| ==> ',' !in row[i]
  {
    [ BoolField(s.ok),
      IntToString(s.status),
      IntToString(s.latencyMs),
      match s.count case None => "" case Some(c) => IntToString(c),
      match s.noAnswer case None => "" case Some(b) => BoolField(b) ]
  }

  function ParseBool(f: string): Option<bool> {
    if f == "1" then Some(true) else if f == "0" then Some(false) else None
  }

  /** Reads one row back into a sample; `feedback` is not part of the file. */
  function ParseRow(row: seq<string>): Option<Sample> {
    if |row| != 5 then None
    else
      match (ParseBool(row[0]), ParseInt(row[1]), ParseInt(row[2]))
      case (Some(ok), Some(status), Some(latency)) =>
        var count := if row[3] == "" then Some(None) else
          match ParseInt(row[3]) case None => None case Some(c) => Some(Some(c));
        var noAnswer := if row[4] == "" then Some(None) else
          match ParseBool(row[4]) case None => None case Some(b) => Some(Some(b));
        if count.None? || noAnswer.None? then None
        else Some(Sample(ok, status, latency, count.value, noAnswer.value, None))
      case _ => None
  }

  /** Writing a sample and reading the row back recovers every field the file holds. */
  lemma RowRoundTrip(s: Sample)
    ensures ParseRow(EncodeRow(s)) == Some(s.(feedback := None))
  {
    var row := EncodeRow(s);
    IntRoundTrip(s.status);
    IntRoundTrip(s.latencyMs);
    if s.count.Some? {
      IntRoundTrip(s.count.value);
    }
  }

  // ---------------------------------------------------------------------
  // Lines

  /** Fields joined by the delimiter. */
  function Join(fields: seq<string>): string
    requires |fields| >= 1
  {
    if |fields| == 1 then fields[0] else fields[0] + "," + Join(fields[1..])
  }

  /** The line split at every delimiter. */
  function Split(line: string): (fields: seq<string>)
    ensures |fields| >= 1
  {
    if line == [] then [[]]
    else
      var rest := Split(line[1..]);
      if line[0] == ',' then [[]] + rest
      else [[line[0]] + rest[0]] + rest[1..]
  }

  lemma {:induction false} SplitField(f: string)
    requires ',' !in f
    ensures Split(f) == [f]
  {
    if f != [] {
      SplitField(f[1..]);
      assert [f[0]] + f[1..] == f;
    }
  }

  lemma {:induction false} SplitAfterField(f: string, tail: string)
    requires ',' !in f
    ensures Split(f + "," + tail) == [f] + Split(tail)
  {
    var line := f + "," + tail;
    if f == [] {
      assert line[1..] == tail;
    } else {
      assert line[1..] == f[1..] + "," + tail;
      SplitAfterField(f[1..], tail);
      assert [f[0]] + f[1..] == f;
    }
  }

  /** Splitting a joined line gives back its fields when none contains the delimiter. */
  lemma {:induction false} SplitJoin(fields: seq<string>)
    requires |fields| >= 1
    requires forall i :: 0 <= i < |fields| ==> ',' !in fields[i]
    ensures Split(Join(fields)) == fields
  {
    if |fields| == 1 {
      SplitField(fields[0]);
    } else {
      SplitJoin(fields[1..]);
      SplitAfterField(fields[0], Join(fields[1..]));
      assert [fields[0]] + fields[1..] == fields;
    }
  }

  /** The text of the file, one string per line (the line terminator is left to the writer). */
  function EncodeTable(samples: seq<Sample>): (lines: seq<string>)
    ensures |lines| == |samples| + 1
    ensures lines[0] == Join(Header)
  {
    [Join(Header)] + seq(|samples|, i requires 0 <= i < |samples| => Join(EncodeRow(samples[i])))
  }

  /** Reads a file back: the header line, then one sample per line. */
  function DecodeTable(lines: seq<string>): Option<seq<Sample>> {
    if lines == [] || Split(lines[0]) != Header then None
    else DecodeRows(lines[1..])
  }

  function DecodeRows(lines: seq<string>): (r: Option<seq<Sample>>)
    ensures r.Some? ==> |r.value| == |lines|
  {
    if lines == [] then Some([])
    else
      match (ParseRow(Split(lines[0])), DecodeRows(lines[1..]))
      case (Some(s), Some(rest)) => Some([s] + rest)
      case _ => None
  }

  lemma {:induction false} DecodeEncodedRows(samples: seq<Sample>)
    requires forall i :: 0 <= i < |samples| ==> samples[i].feedback == None
    ensures DecodeRows(seq(|samples|, i requires 0 <= i < |samples| => Join(EncodeRow(samples[i]))))
         == Some(samples)
  {
    var lines := seq(|samples|, i requires 0 <= i < |samples| => Join(EncodeRow(samples[i])));
    if samples != [] {
      var s := samples[0];
      SplitJoin(EncodeRow(s));
      RowRoundTrip(s);
      assert s.(feedback := None) == s;
      DecodeEncodedRows(samples[1..]);
      assert lines[1..] == seq(|samples[1..]|, i requires 0 <= i < |samples[1..]| => Join(EncodeRow(samples[1..][i])));
      assert [s] + samples[1..] == samples;
    }
  }

  /**
   * Writing the samples of a run and reading the file back reproduces the
   * sample list: its length, and every sample's ok flag, status, latency,
   * count and no-answer flag.
   */
  lemma TableRoundTrip(samples: seq<Sample>)
    requires forall i :: 0 <= i < |samples| ==> samples[i].feedback == None
    ensures DecodeTable(EncodeTable(samples)) == Some(samples)
  {
    var lines := EncodeTable(samples);
    SplitJoin(Header);
    assert lines[1..] == seq(|samples|, i requires 0 <= i < |samples| => Join(EncodeRow(samples[i])));
    DecodeEncodedRows(samples);
  }
}
