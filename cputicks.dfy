/** The CPU sample (`getCPUSample` in UtilMonitor.c) and the busy
    percentage `main` derives from two of them. The first line of
    /proc/stat reaches the model as text; `unsigned long long` arithmetic
    is written out modulo 2^64. */
module CpuTicks {
  import opened Wrappers
  import opened CText

  /** 2^64: `unsigned long long` arithmetic is taken modulo this. */
  const U64: nat := 0x1_0000_0000_0000_0000

  /** The size of the `line` buffer handed to `fgets`. */
  const LineBuffer: nat := 256

  /** How many `%llu` conversions the format has. */
  const TickFields: nat := 8

  /** An aggregate reading: idle ticks (idle plus iowait) and all ticks. */
  datatype Snapshot = Snapshot(idle: nat, total: nat)

  predicate ValidSnapshot(s: Snapshot) {
    s.idle < U64 && s.total < U64
  }

  /** What `fgets` copies when at most `budget` characters fit: up to and
      including the first newline. */
  function LineFrom(content: string, budget: nat): (line: string)
    ensures |line| <= budget && |line| <= |content|
    decreases budget
  {
    if budget == 0 || content == [] then []
    else if content[0] == '\n' then ['\n']
    else [content[0]] + LineFrom(content[1..], budget - 1)
  }

  /** `fgets(line, 256, fp)` on a stream holding `content`: NULL at end of
      file, otherwise the first line cut to 255 characters. */
  function Fgets(content: string): Option<string> {
    if content == [] then None else Some(LineFrom(content, LineBuffer - 1))
  }

  /** White space skipped by a blank in a `scanf` format and by `%llu`. */
  function SkipSpace(s: string): (t: string)
    ensures |t| <= |s|
  {
    if s != [] && IsSpace(s[0]) then SkipSpace(s[1..]) else s
  }

  /** Up to `n` further `%llu` conversions, each after optional white
      space; the first one that finds no digit ends the scan. */
  function ScanNumbers(s: string, n: nat): (fields: seq<nat>)
    ensures |fields| <= n
    decreases n
  {
    if n == 0 then []
    else
      var t := SkipSpace(s);
      var d := DigitRun(t);
      if d == 0 then [] else [DigitsValue(t[..d])] + ScanNumbers(t[d..], n - 1)
  }

  /** The numbers `sscanf(line, "cpu  %llu %llu ...")` stores, in order;
      its return value is their count. */
  function ScanTicks(line: string): (fields: seq<nat>)
    ensures |fields| <= TickFields
  {
    if "cpu" <= line then ScanNumbers(line[3..], TickFields) else []
  }

  /** Field `k` of the scan, 0 when the scan stopped before it. */
  function Field(fields: seq<nat>, k: nat): nat {
    if k < |fields| then fields[k] else 0
  }

  /** The exact sum of the first `k` fields. */
  function FieldSum(fields: seq<nat>, k: nat): nat {
    if k == 0 then 0 else FieldSum(fields, k - 1) + Field(fields, k - 1)
  }

  /** `user + nice + ... + steal` as C evaluates it, left to right, every
      addition wrapping at 2^64. */
  function WrappingSum(fields: seq<nat>, k: nat): nat {
    if k == 0 then 0 else (WrappingSum(fields, k - 1) + Field(fields, k - 1) % U64) % U64
  }

  /** The snapshot a scan yields: none when fewer than 4 fields were read;
      idle is `idle_time + iowait` and total the sum of the eight fields,
      both modulo 2^64. */
  function TickSnapshot(fields: seq<nat>): Option<Snapshot> {
    if |fields| < 4 then None
    else Some(Snapshot((Field(fields, 3) % U64 + Field(fields, 4) % U64) % U64,
                       WrappingSum(fields, TickFields)))
  }

  /** `getCPUSample`: `file` is None when /proc/stat cannot be opened. */
  function GetCpuSample(file: Option<string>): Option<Snapshot> {
    match file
    case None => None
    case Some(content) =>
      match Fgets(content)
      case None => None
      case Some(line) => TickSnapshot(ScanTicks(line))
  }

  /** `a - b` on `unsigned long long`. */
  function WrapSub(a: nat, b: nat): (d: nat)
    ensures d < U64
  {
    (a - b) % U64
  }

  /** The busy percentage for `dIdle` idle ticks out of `dTotal`: 0 when
      no tick passed, else `100.0 * (delta_total - delta_idle) /
      delta_total` with the subtraction in `unsigned long long`. */
  function BusyPercent(dIdle: nat, dTotal: nat): real {
    if dTotal == 0 then 0.0 else 100.0 * (WrapSub(dTotal, dIdle) as real) / (dTotal as real)
  }

  /** `cpu_usage` in `main`, from the wrapping deltas of two samples. */
  function CpuUsage(prev: Snapshot, curr: Snapshot): real {
    BusyPercent(WrapSub(curr.idle, prev.idle), WrapSub(curr.total, prev.total))
  }

  // ---------------------------------------------------------------------
  // fgets

  /** The line `fgets` returns is a non-empty prefix of the stream of at
      most 255 characters, with no newline before its last character; it
      stops short of 255 characters and of the stream's end only at a
      newline. */
  lemma {:induction false} FgetsLine(content: string)
    ensures Fgets(content).None? <==> content == []
    ensures Fgets(content).Some? ==>
      var line := Fgets(content).value;
      && 1 <= |line| <= LineBuffer - 1 && line <= content
      && (forall k :: 0 <= k < |line| - 1 ==> line[k] != '\n')
      && (|line| < LineBuffer - 1 && |line| < |content| ==> line[|line| - 1] == '\n')
  {
    if content != [] {
      LineFromShape(content, LineBuffer - 1);
    }
  }

  lemma {:induction false} LineFromShape(content: string, budget: nat)
    requires content != [] && budget > 0
    ensures var line := LineFrom(content, budget);
      && 1 <= |line| && line <= content
      && (forall k :: 0 <= k < |line| - 1 ==> line[k] != '\n')
      && (|line| < budget && |line| < |content| ==> line[|line| - 1] == '\n')
  {
    var line := LineFrom(content, budget);
    if content[0] != '\n' && budget > 1 && |content| > 1 {
      var rest := LineFrom(content[1..], budget - 1);
      LineFromShape(content[1..], budget - 1);
      assert line == [content[0]] + rest;
      forall k | 0 <= k < |line| - 1 ensures line[k] != '\n' {
        if k > 0 { assert line[k] == rest[k - 1]; }
      }
    }
  }

  /** A line with its newline within the buffer comes back whole. */
  lemma {:induction false} LineFromOfLine(s: string, more: string, budget: nat)
    requires '\n' !in s && |s| < budget
    ensures LineFrom(s + "\n" + more, budget) == s + "\n"
  {
    var c := s + "\n" + more;
    if s != [] {
      assert c[0] == s[0] && c[1..] == s[1..] + "\n" + more;
      LineFromOfLine(s[1..], more, budget - 1);
      assert [s[0]] + (s[1..] + "\n") == s + "\n";
    } else {
      assert c[0] == '\n';
    }
  }

  // ---------------------------------------------------------------------
  // The /proc/stat line

  /** The text of the numbers `fields`, each after one blank, as the
      kernel writes them. */
  function FieldsText(fields: seq<nat>): string {
    if fields == [] then [] else " " + Decimal(fields[0]) + FieldsText(fields[1..])
  }

  /** The first line of /proc/stat carrying `fields`: `cpu ` and then
      the blank-separated numbers, newline-terminated. */
  function StatLine(fields: seq<nat>): string {
    "cpu " + FieldsText(fields) + "\n"
  }

  lemma SkipSpaceOfNonSpace(s: string)
    requires s != [] && !IsSpace(s[0])
    ensures SkipSpace(s) == s
  {
  }

  /** `FieldsText` is blanks and digits: never a newline. */
  lemma {:induction false} FieldsTextNoNewline(fields: seq<nat>)
    ensures '\n' !in FieldsText(fields)
  {
    if fields != [] {
      FieldsTextNoNewline(fields[1..]);
      DecimalDigits(fields[0]);
    }
  }

  /** One conversion reads one number written after a blank. */
  lemma ScanNumbersStep(d: string, rest: string, n: nat)
    requires n > 0 && d != [] && AllDigits(d) && (rest == [] || !IsDigit(rest[0]))
    ensures ScanNumbers(" " + d + rest, n) == [DigitsValue(d)] + ScanNumbers(rest, n - 1)
  {
    var s := " " + d + rest;
    assert SkipSpace(s) == d + rest by {
      assert s[1..] == d + rest;
      assert (d + rest)[0] == d[0] && IsDigit(d[0]);
      SkipSpaceOfNonSpace(d + rest);
    }
    DigitRunOfRun(d, rest);
    assert (d + rest)[..|d|] == d && (d + rest)[|d|..] == rest;
  }

  /** Scanning the blank-separated numbers reads them back, up to `n` of
      them, whatever follows that holds no further number. */
  lemma {:induction false} ScanNumbersOfText(fields: seq<nat>, tail: string, n: nat)
    requires DigitRun(SkipSpace(tail)) == 0 && (tail == [] || !IsDigit(tail[0]))
    ensures ScanNumbers(FieldsText(fields) + tail, n) == if n < |fields| then fields[..n] else fields
  {
    if fields == [] {
      assert FieldsText(fields) + tail == tail;
      ScanNumbersOfTail(tail, n);
    } else if n > 0 {
      var more := fields[1..];
      var r := ScanNumbers(FieldsText(more) + tail, n - 1);
      assert r == if n - 1 < |more| then more[..n - 1] else more by {
        ScanNumbersOfText(more, tail, n - 1);
      }
      assert ScanNumbers(FieldsText(fields) + tail, n) == [fields[0]] + r by {
        ScanNumbersHead(fields, tail, n);
      }
      assert (if n < |fields| then fields[..n] else fields) == [fields[0]] + r by {
        PrefixCons(fields, n);
      }
    }
  }

  lemma ScanNumbersOfTail(tail: string, n: nat)
    requires DigitRun(SkipSpace(tail)) == 0
    ensures ScanNumbers(tail, n) == []
  {
  }

  /** The first number of the text is read first. */
  lemma ScanNumbersHead(fields: seq<nat>, tail: string, n: nat)
    requires fields != [] && n > 0 && (tail == [] || !IsDigit(tail[0]))
    ensures ScanNumbers(FieldsText(fields) + tail, n) ==
      [fields[0]] + ScanNumbers(FieldsText(fields[1..]) + tail, n - 1)
  {
    var d := Decimal(fields[0]);
    var rest := FieldsText(fields[1..]) + tail;
    assert FieldsText(fields) + tail == " " + d + rest by {
      assert FieldsText(fields) == " " + d + FieldsText(fields[1..]);
    }
    assert rest == [] || !IsDigit(rest[0]) by {
      FieldsTextStart(fields[1..], tail);
    }
    assert d != [] && AllDigits(d) by {
      DecimalDigits(fields[0]);
    }
    assert DigitsValue(d) == fields[0] by {
      DigitsValueOfDecimal(fields[0]);
    }
    ScanNumbersStep(d, rest, n);
  }

  lemma PrefixCons(fields: seq<nat>, n: nat)
    requires fields != [] && n > 0
    ensures var more := fields[1..];
      (if n < |fields| then fields[..n] else fields) ==
      [fields[0]] + (if n - 1 < |more| then more[..n - 1] else more)
  {
    if n < |fields| {
      assert fields[..n] == [fields[0]] + fields[1..][..n - 1];
    } else {
      assert fields == [fields[0]] + fields[1..];
    }
  }

  /** The text of further numbers starts with a blank, so no digit run
      carries on into it. */
  lemma FieldsTextStart(fields: seq<nat>, tail: string)
    requires tail == [] || !IsDigit(tail[0])
    ensures var rest := FieldsText(fields) + tail; rest == [] || !IsDigit(rest[0])
  {
    if fields != [] {
      assert (FieldsText(fields) + tail)[0] == ' ';
    }
  }

  /** A blank in front changes no scan. */
  lemma ScanNumbersAfterBlank(s: string, n: nat)
    ensures ScanNumbers(" " + s, n) == ScanNumbers(s, n)
  {
    assert (" " + s)[1..] == s;
    assert SkipSpace(" " + s) == SkipSpace(s);
  }

  /** `sscanf` reads the first eight numbers of a /proc/stat line back. */
  lemma ScanTicksOfStatLine(fields: seq<nat>)
    ensures ScanTicks(StatLine(fields)) == if TickFields < |fields| then fields[..TickFields] else fields
  {
    var text := FieldsText(fields) + "\n";
    var line := StatLine(fields);
    assert "cpu" <= line && line[3..] == " " + text;
    ScanNumbersAfterBlank(text, TickFields);
    assert DigitRun(SkipSpace("\n")) == 0 by {
      assert SkipSpace("\n") == SkipSpace([]);
    }
    ScanNumbersOfText(fields, "\n", TickFields);
  }

  /** `getCPUSample` reads a well-formed /proc/stat back: the snapshot of
      the first eight fields (a kernel may write more, such as guest and
      guest_nice), failure when fewer than 4. */
  lemma GetCpuSampleOfStatLine(fields: seq<nat>, more: string)
    requires |StatLine(fields)| < LineBuffer
    ensures GetCpuSample(Some(StatLine(fields) + more)) ==
      TickSnapshot(if TickFields < |fields| then fields[..TickFields] else fields)
  {
    var text := "cpu " + FieldsText(fields);
    FieldsTextNoNewline(fields);
    assert '\n' !in text by {
      assert forall k :: 4 <= k < |text| ==> text[k] == FieldsText(fields)[k - 4];
    }
    LineFromOfLine(text, more, LineBuffer - 1);
    ScanTicksOfStatLine(fields);
  }

  /** A first line that does not start with `cpu` is rejected. */
  lemma NotCpuLineRejected(content: string)
    requires !("cpu" <= content)
    ensures GetCpuSample(Some(content)) == None
  {
    FgetsLine(content);
  }

  // ---------------------------------------------------------------------
  // Unsigned 64-bit sums

  lemma AddMod(a: nat, b: nat)
    ensures (a % U64 + b % U64) % U64 == (a + b) % U64
  {
    var qa, qb := a / U64, b / U64;
    assert a == qa * U64 + a % U64 && b == qb * U64 + b % U64;
    assert a + b == (qa + qb) * U64 + (a % U64 + b % U64);
    MultipleMod(qa + qb, a % U64 + b % U64);
  }

  lemma MultipleMod(q: nat, r: nat)
    ensures (q * U64 + r) % U64 == r % U64
  {
    var m := r / U64;
    assert r == m * U64 + r % U64;
    assert q * U64 + r == (q + m) * U64 + r % U64;
  }

  /** Wrapping after every addition, as C does, is the exact sum modulo
      2^64. */
  lemma {:induction false} WrappingSumIsSumMod(fields: seq<nat>, k: nat)
    ensures WrappingSum(fields, k) == FieldSum(fields, k) % U64
  {
    if k > 0 {
      WrappingSumIsSumMod(fields, k - 1);
      AddMod(FieldSum(fields, k - 1), Field(fields, k - 1));
      assert FieldSum(fields, k - 1) % U64 % U64 == FieldSum(fields, k - 1) % U64;
    }
  }

  /** The idle fields are among those summed. */
  lemma IdleFieldsSummed(fields: seq<nat>)
    ensures Field(fields, 3) + Field(fields, 4) <= FieldSum(fields, TickFields)
  {
    assert FieldSum(fields, 5) == FieldSum(fields, 3) + Field(fields, 3) + Field(fields, 4);
    assert FieldSum(fields, 5) <= FieldSum(fields, 6) <= FieldSum(fields, 7) <= FieldSum(fields, 8);
  }

  /** A scan of fewer than 4 fields fails; otherwise idle is
      `idle_time + iowait` and total the sum of all eight, both modulo
      2^64, and when the sum does not wrap, idle is at most total. */
  lemma TickSnapshotMeaning(fields: seq<nat>)
    ensures TickSnapshot(fields).None? <==> |fields| < 4
    ensures TickSnapshot(fields).Some? ==>
      var snap := TickSnapshot(fields).value;
      && ValidSnapshot(snap)
      && snap.idle == (Field(fields, 3) + Field(fields, 4)) % U64
      && snap.total == FieldSum(fields, TickFields) % U64
      && (FieldSum(fields, TickFields) < U64 ==> snap.idle <= snap.total)
  {
    if |fields| >= 4 {
      var snap := TickSnapshot(fields).value;
      var idle, sum := Field(fields, 3) + Field(fields, 4), FieldSum(fields, TickFields);
      assert snap.idle == idle % U64 by {
        AddMod(Field(fields, 3), Field(fields, 4));
      }
      assert snap.total == sum % U64 by {
        WrappingSumIsSumMod(fields, TickFields);
      }
      if sum < U64 {
        IdleFieldsSummed(fields);
        assert idle < U64 && idle % U64 == idle;
      }
    }
  }

  // ---------------------------------------------------------------------
  // Deltas and the busy percentage

  /** Wrapping subtraction undoes wrapping addition, and is plain
      subtraction when it does not underflow. */
  lemma WrapSubInverse(a: nat, b: nat)
    requires a < U64 && b < U64
    ensures (b + WrapSub(a, b)) % U64 == a
    ensures WrapSub(a, b) == if b <= a then a - b else a - b + U64
  {
  }

  /** The delta from `prev` to `(prev + d) mod 2^64` is `d`: counters that
      wrapped still give the right delta. */
  lemma WrapSubOfWrapAdd(prev: nat, d: nat)
    requires prev < U64 && d < U64
    ensures WrapSub((prev + d) % U64, prev) == d
  {
    if prev + d >= U64 {
      assert (prev + d) % U64 == prev + d - U64;
    }
  }

  /** No tick passed: usage is exactly 0. Otherwise it lies in [0, 100]
      exactly when no more idle than total ticks passed, and is then the
      busy share of the passed ticks; more idle than total ticks wraps the
      numerator and lifts usage above 100. */
  lemma UsageRange(dIdle: nat, dTotal: nat)
    requires dIdle < U64 && dTotal < U64
    ensures dTotal == 0 ==> BusyPercent(dIdle, dTotal) == 0.0
    ensures dTotal > 0 ==> (0.0 <= BusyPercent(dIdle, dTotal) <= 100.0 <==> dIdle <= dTotal)
    ensures dTotal > 0 && dIdle <= dTotal ==>
      BusyPercent(dIdle, dTotal) == 100.0 * ((dTotal - dIdle) as real) / (dTotal as real)
    ensures dTotal > 0 && dIdle > dTotal ==> BusyPercent(dIdle, dTotal) > 100.0
  {
    if dTotal > 0 {
      var busy := WrapSub(dTotal, dIdle);
      if dIdle <= dTotal {
        assert busy == dTotal - dIdle;
        Fraction(busy as real, dTotal as real);
      } else {
        assert busy == dTotal - dIdle + U64;
        FractionAbove(busy as real, dTotal as real);
      }
    }
  }

  lemma Fraction(x: real, y: real)
    requires 0.0 <= x <= y && y > 0.0
    ensures 0.0 <= 100.0 * x / y <= 100.0
  {
    var q := x / y;
    assert q * y == x;
    assert q <= 1.0;
    assert 100.0 * x / y == 100.0 * q;
  }

  lemma FractionAbove(x: real, y: real)
    requires x > y > 0.0
    ensures 100.0 * x / y > 100.0
  {
    var q := x / y;
    assert q * y == x;
    assert q > 1.0;
    assert 100.0 * x / y == 100.0 * q;
  }

  /** Between a snapshot and one `dTotal` ticks later, `dIdle` of them idle,
      usage is the busy share whether or not the counters wrapped. */
  lemma UsageAcrossWrap(prev: Snapshot, dIdle: nat, dTotal: nat)
    requires ValidSnapshot(prev) && dIdle <= dTotal < U64
    ensures var curr := Snapshot((prev.idle + dIdle) % U64, (prev.total + dTotal) % U64);
      CpuUsage(prev, curr) == if dTotal == 0 then 0.0 else 100.0 * ((dTotal - dIdle) as real) / (dTotal as real)
  {
    var curr := Snapshot((prev.idle + dIdle) % U64, (prev.total + dTotal) % U64);
    assert WrapSub(curr.idle, prev.idle) == dIdle by {
      WrapSubOfWrapAdd(prev.idle, dIdle);
    }
    assert WrapSub(curr.total, prev.total) == dTotal by {
      WrapSubOfWrapAdd(prev.total, dTotal);
    }
    UsageRange(dIdle, dTotal);
  }
}
