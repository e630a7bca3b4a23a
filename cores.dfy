/** The cores panel: `getCoresInfo` folds the per-core maximum
    frequencies into one number, and `displayCoresDiagram` prints one
    label per core. The readings reach the model as values: `khz[i]` is
    what `fscanf("%ld")` read from core i's `cpuinfo_max_freq` (None when
    the file is missing or holds no number); `mhz` holds, in order, the
    value of each /proc/cpuinfo line starting with `cpu MHz` (None when
    `sscanf` read nothing), and is empty when that file is missing. */
module Cores {
  import opened Wrappers
  import opened CText

  /** The C `CoresInfo`. */
  datatype CoresInfo = CoresInfo(numCores: int, maxFreqMhz: real)

  /** How many per-core readings the loop `for (i = 0; i < num_cores; i++)` takes. */
  function CoreCount(numCores: int): nat {
    if numCores > 0 then numCores else 0
  }

  /** `freq_khz / 1000.0`. */
  function KhzToMhz(reading: Option<int>): Option<real> {
    match reading
    case Some(khz) => Some(khz as real / 1000.0)
    case None => None
  }

  function MhzOf(khz: seq<Option<int>>): (mhz: seq<Option<real>>)
    ensures |mhz| == |khz|
  {
    seq(|khz|, j requires 0 <= j < |khz| => KhzToMhz(khz[j]))
  }

  /** The running maximum over the first `k` readings, starting at 0.0; a
      reading replaces it only when strictly larger. */
  function FoldMax(readings: seq<Option<real>>, k: nat): real
    requires k <= |readings|
  {
    if k == 0 then 0.0
    else
      var m := FoldMax(readings, k - 1);
      match readings[k - 1]
      case Some(f) => if f > m then f else m
      case None => m
  }

  /** The maximum frequency `getCoresInfo` returns: the kHz fold, or the
      /proc/cpuinfo fold when that came out as exactly 0.0. */
  function MaxFreq(khz: seq<Option<int>>, mhz: seq<Option<real>>): real {
    var fromSys := FoldMax(MhzOf(khz), |khz|);
    if fromSys == 0.0 then FoldMax(mhz, |mhz|) else fromSys
  }

  /** `getCoresInfo`: the per-core loop, then the fallback loop. */
  method GetCoresInfo(numCores: int, khz: seq<Option<int>>, mhz: seq<Option<real>>) returns (info: CoresInfo)
    requires |khz| == CoreCount(numCores)
    ensures info == CoresInfo(numCores, MaxFreq(khz, mhz))
  {
    info := CoresInfo(numCores, 0.0);
    var i := 0;
    while i < numCores
      invariant 0 <= i <= |khz|
      invariant info == CoresInfo(numCores, FoldMax(MhzOf(khz), i))
    {
      match khz[i] {
        case Some(freqKhz) =>
          var freqMhz := freqKhz as real / 1000.0;
          if freqMhz > info.maxFreqMhz {
            info := info.(maxFreqMhz := freqMhz);
          }
        case None =>
      }
      i := i + 1;
    }
    if info.maxFreqMhz == 0.0 {
      var j := 0;
      while j < |mhz|
        invariant 0 <= j <= |mhz|
        invariant info == CoresInfo(numCores, FoldMax(mhz, j))
      {
        match mhz[j] {
          case Some(value) =>
            if value > info.maxFreqMhz {
              info := info.(maxFreqMhz := value);
            }
          case None =>
        }
        j := j + 1;
      }
    }
  }

  /** No reading among the first `k` exceeds `m`. */
  predicate UpperBound(readings: seq<Option<real>>, k: nat, m: real)
    requires k <= |readings|
  {
    forall j :: 0 <= j < k && readings[j].Some? ==> readings[j].value <= m
  }

  /** `m` is one of the first `k` readings. */
  predicate Attained(readings: seq<Option<real>>, k: nat, m: real)
    requires k <= |readings|
  {
    exists j :: 0 <= j < k && readings[j] == Some(m)
  }

  /** The fold is the largest reading when some reading is positive, and
      0.0 otherwise: it is at least 0.0 and every reading, and it is 0.0
      or one of the readings. */
  lemma {:induction false} FoldMaxIsMaximum(readings: seq<Option<real>>, k: nat)
    requires k <= |readings|
    ensures var m := FoldMax(readings, k);
      0.0 <= m && UpperBound(readings, k, m) && (m == 0.0 || Attained(readings, k, m))
  {
    if k > 0 {
      FoldMaxIsMaximum(readings, k - 1);
      var m := FoldMax(readings, k);
      if m != 0.0 && m == FoldMax(readings, k - 1) {
        var j :| 0 <= j < k - 1 && readings[j] == Some(m);
        assert 0 <= j < k && readings[j] == Some(m);
      }
    }
  }

  /** When some core reports a positive frequency, the result is the
      largest per-core frequency; otherwise it comes from /proc/cpuinfo
      and is the largest value there, or 0.0 when none is positive. */
  lemma MaxFreqMeaning(khz: seq<Option<int>>, mhz: seq<Option<real>>)
    ensures var sys, m := MhzOf(khz), MaxFreq(khz, mhz);
      && 0.0 <= m
      && (!UpperBound(sys, |sys|, 0.0) ==> UpperBound(sys, |sys|, m) && Attained(sys, |sys|, m))
      && (UpperBound(sys, |sys|, 0.0) ==> UpperBound(mhz, |mhz|, m) && (m == 0.0 || Attained(mhz, |mhz|, m)))
  {
    var sys := MhzOf(khz);
    FoldMaxIsMaximum(sys, |sys|);
    FoldMaxIsMaximum(mhz, |mhz|);
  }

  // ---------------------------------------------------------------------
  // displayCoresDiagram

  /** One core's label, `[CPU%d] `. */
  function Label(i: nat): string {
    "[CPU" + Decimal(i) + "] "
  }

  /** The labels of cores 0 to n-1 on one line, in order. */
  function LabelLine(n: nat): string {
    if n == 0 then [] else LabelLine(n - 1) + Label(n - 1)
  }

  /** What `displayCoresDiagram` prints: the header (its `%d` count and
      `%.2f` frequency kept as values) and the label line. */
  datatype Diagram = Diagram(numCores: int, maxFreqMhz: real, labels: string)

  method DisplayCoresDiagram(info: CoresInfo) returns (d: Diagram)
    ensures d == Diagram(info.numCores, info.maxFreqMhz, LabelLine(CoreCount(info.numCores)))
  {
    var line := "";
    var i := 0;
    while i < info.numCores
      invariant 0 <= i <= CoreCount(info.numCores)
      invariant line == LabelLine(i)
    {
      line := line + "[CPU" + Decimal(i) + "] ";
      assert line == LabelLine(i) + Label(i);
      i := i + 1;
    }
    assert i == CoreCount(info.numCores);
    d := Diagram(info.numCores, info.maxFreqMhz, line);
  }

  /** Each label holds exactly one '['. */
  lemma LabelBrackets(i: nat)
    ensures Occurrences(Label(i), '[') == 1
  {
    var d := Decimal(i);
    assert Label(i) == "[" + ("CPU" + d + "] ");
    OccurrencesAppend("[", "CPU" + d + "] ", '[');
    assert Occurrences("[", '[') == 1 by {
      assert "["[..0] == [];
    }
    assert Occurrences("CPU" + d + "] ", '[') == 0 by {
      DecimalDigits(i);
      OccurrencesAbsent("CPU" + d + "] ", '[');
    }
  }

  /** The diagram has exactly `n` labels. */
  lemma {:induction false} LabelCount(n: nat)
    ensures Occurrences(LabelLine(n), '[') == n
  {
    if n > 0 {
      LabelCount(n - 1);
      OccurrencesAppend(LabelLine(n - 1), Label(n - 1), '[');
      LabelBrackets(n - 1);
    }
  }

  /** The labels appear in order: the line for `n` cores starts with the
      labels of cores 0 to i-1 followed by core i's label. */
  lemma {:induction false} LabelsInOrder(n: nat, i: nat)
    requires i < n
    ensures LabelLine(i) + Label(i) <= LabelLine(n)
  {
    if i < n - 1 {
      LabelsInOrder(n - 1, i);
      PrefixOfAppend(LabelLine(i) + Label(i), LabelLine(n - 1), Label(n - 1));
    }
  }

  lemma PrefixOfAppend(p: string, s: string, t: string)
    requires p <= s
    ensures p <= s + t
  {
    assert (s + t)[..|p|] == s[..|p|];
  }

  /** Different cores get different labels. */
  lemma LabelsDistinct(i: nat, j: nat)
    requires Label(i) == Label(j)
    ensures i == j
  {
    var li, lj := Label(i), Label(j);
    assert li[4..|li| - 2] == Decimal(i);
    assert lj[4..|lj| - 2] == Decimal(j);
    DecimalInjective(i, j);
  }
}
