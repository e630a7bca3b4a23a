/** The sampling loop of `main` in UtilMonitor.c. The program's
    environment reaches the model as values: `cpu[k]` is what the k-th call
    of `getCPUSample` returns (cpu[0] is the call before the loop, cpu[i+1]
    the call of iteration i; None is the `-1` return, Some the idle and
    total pair), `memUsed[i]` and `selfMem[i]` are what `getMemoryUsage`
    and `getSelfMemoryUsage` return in iteration i, `totalMem` is
    `getTotalMemory()` and `info` is `getCoresInfo()`. */
module Monitor {
  import opened Wrappers
  import opened Arguments
  import opened CpuTicks
  import opened Cores
  import opened Graph
  import opened CText

  /** The memory panel: the current reading, the total and the graph. */
  datatype MemoryPanel = MemoryPanel(current: real, total: real, graph: Graph)

  /** The CPU panel: the current usage and the graph. */
  datatype CpuPanel = CpuPanel(current: real, graph: Graph)

  /** One redraw. The parameter block always shows samples and delay, and
      the tool's own memory when the memory panel is on; each panel is
      present exactly when its category is enabled. */
  datatype Screen = Screen(samples: int, tdelay: int, selfMem: Option<real>,
                           memory: Option<MemoryPanel>, cpu: Option<CpuPanel>, cores: Option<Diagram>)

  /** How a run ends: `return 1` after a failed first CPU read, or the
      redraws and the two averages (each printed only for its category). */
  datatype Outcome =
    | CpuReadFailed
    | Finished(screens: seq<Screen>, memAverage: Option<real>, cpuAverage: Option<real>)

  function Zeros(n: nat): (z: seq<real>)
    ensures |z| == n
  {
    seq(n, _ => 0.0)
  }

  /** The sum the average loops accumulate, first slot first. */
  function Sum(s: seq<real>): real {
    if s == [] then 0.0 else Sum(s[..|s| - 1]) + s[|s| - 1]
  }

  /** The snapshot a successful read gives (the C zero pair otherwise). */
  function Snap(o: Option<Snapshot>): Snapshot {
    if o.Some? then o.value else Snapshot(0, 0)
  }

  /** Usage j is measured between read j and read j+1: `prev` always holds
      the previous read. */
  function CpuSeries(cpu: seq<Option<Snapshot>>, n: nat): (u: seq<real>)
    requires n < |cpu|
    ensures |u| == n
    ensures forall j :: 0 <= j < n ==> u[j] == CpuUsage(Snap(cpu[j]), Snap(cpu[j + 1]))
  {
    seq(n, j requires 0 <= j < n => CpuUsage(Snap(cpu[j]), Snap(cpu[j + 1])))
  }

  /** The loop ran exactly `n` iterations: every CPU read of the first
      `n` iterations succeeded, and it stopped early only because the read
      of iteration `n` failed while the CPU panel is on. */
  predicate Stopped(p: Params, cpu: seq<Option<Snapshot>>, n: nat)
    requires 0 <= p.samples && |cpu| == p.samples + 1
  {
    && n <= p.samples
    && (p.showCpu ==> forall j :: 1 <= j <= n ==> cpu[j].Some?)
    && (n < p.samples ==> p.showCpu && cpu[n + 1].None?)
  }

  /** The screen drawn after slots `mem` and `cpu` have been filled. */
  function Frame(p: Params, totalMem: real, self: real, info: CoresInfo, mem: seq<real>, cpu: seq<real>): Screen
    requires 0 < |mem| && 0 < |cpu|
  {
    Screen(p.samples, p.tdelay,
           if p.showMemory then Some(self) else None,
           if p.showMemory then Some(MemoryPanel(mem[|mem| - 1], totalMem, MemoryGraph(mem, totalMem))) else None,
           if p.showCpu then Some(CpuPanel(cpu[|cpu| - 1], CpuGraph(cpu))) else None,
           if p.showCores then Some(Diagram(info.numCores, info.maxFreqMhz, LabelLine(CoreCount(info.numCores)))) else None)
  }

  /** The first `n` redraws: redraw j graphs the j+1 values written so far. */
  function Screens(p: Params, cpu: seq<Option<Snapshot>>, memUsed: seq<real>, selfMem: seq<real>,
                   totalMem: real, info: CoresInfo, n: nat): (s: seq<Screen>)
    requires n < |cpu| && n <= |memUsed| && n <= |selfMem|
    ensures |s| == n
    ensures forall j :: 0 <= j < n ==>
      s[j] == Frame(p, totalMem, selfMem[j], info, memUsed[..j + 1], CpuSeries(cpu, j + 1))
  {
    seq(n, j requires 0 <= j < n => Frame(p, totalMem, selfMem[j], info, memUsed[..j + 1], CpuSeries(cpu, j + 1)))
  }

  /** The arrays and variables `main` keeps across iterations. */
  class Sampler {
    const params: Params
    const memValues: array<real>
    const cpuValues: array<real>
    var prev: Snapshot
    var selfMem: real

    predicate Valid() {
      && memValues.Length == params.samples
      && cpuValues.Length == params.samples
      && memValues != cpuValues
    }

    /** The two `malloc`s (the model zero-fills) and the first CPU read. */
    constructor (params: Params, prev: Snapshot)
      requires 0 <= params.samples
      ensures Valid()
      ensures this.params == params && this.prev == prev && selfMem == 0.0
      ensures memValues[..] == Zeros(params.samples) && cpuValues[..] == Zeros(params.samples)
      ensures fresh(memValues) && fresh(cpuValues)
    {
      this.params := params;
      memValues := new real[params.samples](_ => 0.0);
      cpuValues := new real[params.samples](_ => 0.0);
      this.prev := prev;
      selfMem := 0.0;
    }

    /** The sampling half of iteration i: false when its CPU read fails.
        It writes slot i of each enabled series and nothing else, and
        rolls `prev` forward to the new read. */
    method Record(i: int, curr: Option<Snapshot>, memUsed: real, self: real) returns (ok: bool)
      requires Valid() && 0 <= i < params.samples
      modifies this, memValues, cpuValues
      ensures ok <==> !(params.showCpu && curr.None?)
      ensures !ok ==> unchanged(this) && unchanged(memValues) && unchanged(cpuValues)
      ensures ok ==>
        && cpuValues[..] == (if params.showCpu then old(cpuValues[..])[i := CpuUsage(old(prev), curr.value)]
                             else old(cpuValues[..]))
        && prev == (if params.showCpu then curr.value else old(prev))
        && memValues[..] == (if params.showMemory then old(memValues[..])[i := memUsed] else old(memValues[..]))
        && selfMem == (if params.showMemory then self else old(selfMem))
    {
      if params.showCpu {
        if curr.None? {
          return false;
        }
        var deltaIdle := WrapSub(curr.value.idle, prev.idle);
        var deltaTotal := WrapSub(curr.value.total, prev.total);
        var usage := 0.0;
        if deltaTotal != 0 {
          usage := 100.0 * (WrapSub(deltaTotal, deltaIdle) as real) / (deltaTotal as real);
        }
        cpuValues[i] := usage;
        prev := curr.value;
      }
      if params.showMemory {
        memValues[i] := memUsed;
        selfMem := self;
      }
      ok := true;
    }

    /** The drawing half of iteration i: the panels of the first i+1 slots. */
    method Draw(i: int, totalMem: real, info: CoresInfo) returns (screen: Screen)
      requires Valid() && 0 <= i < params.samples
      ensures screen == Frame(params, totalMem, selfMem, info, memValues[..i + 1], cpuValues[..i + 1])
    {
      var memory: Option<MemoryPanel> := None;
      if params.showMemory {
        var g := PlotMemoryGraph(memValues, i + 1, totalMem);
        memory := Some(MemoryPanel(memValues[i], totalMem, g));
      }
      var cpu: Option<CpuPanel> := None;
      if params.showCpu {
        var g := PlotCpuGraph(cpuValues, i + 1);
        cpu := Some(CpuPanel(cpuValues[i], g));
      }
      var cores: Option<Diagram> := None;
      if params.showCores {
        var d := DisplayCoresDiagram(info);
        cores := Some(d);
      }
      screen := Screen(params.samples, params.tdelay, if params.showMemory then Some(selfMem) else None,
                       memory, cpu, cores);
    }

    /** The state after `i` completed iterations: the first i redraws,
        slots below i written, and `prev` holding read i. */
    ghost predicate After(cpu: seq<Option<Snapshot>>, memUsed: seq<real>, self: seq<real>, totalMem: real,
                          info: CoresInfo, i: nat, screens: seq<Screen>)
      reads this, memValues, cpuValues
    {
      && Valid() && |cpu| == params.samples + 1 && |memUsed| == params.samples && |self| == params.samples
      && i <= params.samples
      && (params.showCpu ==> (forall j :: 1 <= j <= i ==> cpu[j].Some?) && prev == Snap(cpu[i]))
      && screens == Screens(params, cpu, memUsed, self, totalMem, info, i)
      && memValues[..] == MemContents(params, memUsed, i)
      && cpuValues[..] == CpuContents(params, cpu, i)
    }

    /** The body of the `for` loop: iteration i, or None at the `break`. */
    method Iterate(cpu: seq<Option<Snapshot>>, memUsed: seq<real>, self: seq<real>, totalMem: real,
                   info: CoresInfo, i: nat, ghost screens: seq<Screen>) returns (screen: Option<Screen>)
      requires After(cpu, memUsed, self, totalMem, info, i, screens) && i < params.samples
      modifies this, memValues, cpuValues
      ensures screen.None? ==> params.showCpu && cpu[i + 1].None? && After(cpu, memUsed, self, totalMem, info, i, screens)
      ensures screen.None? ==> unchanged(this) && unchanged(memValues) && unchanged(cpuValues)
      ensures screen.Some? ==> After(cpu, memUsed, self, totalMem, info, i + 1, screens + [screen.value])
    {
      var ok := Record(i, cpu[i + 1], memUsed[i], self[i]);
      if !ok {
        return None;
      }
      ContentsStep(params, cpu, memUsed, i);
      var drawn := Draw(i, totalMem, info);
      ScreenStep(params, cpu, memUsed, self, totalMem, info, i, selfMem, memValues[..], cpuValues[..]);
      screen := Some(drawn);
    }

    /** The `for (i = 0; i < params.samples; i++)` loop with its `break`. */
    method Run(cpu: seq<Option<Snapshot>>, memUsed: seq<real>, self: seq<real>, totalMem: real, info: CoresInfo)
      returns (screens: seq<Screen>)
      requires Valid() && |cpu| == params.samples + 1 && |memUsed| == params.samples && |self| == params.samples
      requires memValues[..] == Zeros(params.samples) && cpuValues[..] == Zeros(params.samples)
      requires params.showCpu ==> cpu[0].Some? && prev == cpu[0].value
      modifies this, memValues, cpuValues
      ensures Stopped(params, cpu, |screens|)
      ensures After(cpu, memUsed, self, totalMem, info, |screens|, screens)
    {
      screens := [];
      var i := 0;
      assert After(cpu, memUsed, self, totalMem, info, 0, screens) by {
        assert memUsed[..0] + Zeros(params.samples) == Zeros(params.samples);
        assert CpuSeries(cpu, 0) + Zeros(params.samples) == Zeros(params.samples);
      }
      while i < params.samples
        invariant 0 <= i <= params.samples && |screens| == i
        invariant After(cpu, memUsed, self, totalMem, info, i, screens)
      {
        var screen := Iterate(cpu, memUsed, self, totalMem, info, i, screens);
        if screen.None? {
          break;
        }
        screens := screens + [screen.value];
        i := i + 1;
      }
    }
  }

  /** The memory array after `n` iterations: the readings, then the
      untouched zero slots (all zero when the panel is off). */
  function MemContents(p: Params, memUsed: seq<real>, n: nat): (m: seq<real>)
    requires n <= p.samples == |memUsed|
    ensures |m| == p.samples
  {
    if p.showMemory then memUsed[..n] + Zeros(p.samples - n) else Zeros(p.samples)
  }

  /** The CPU array after `n` iterations. */
  function CpuContents(p: Params, cpu: seq<Option<Snapshot>>, n: nat): (c: seq<real>)
    requires n <= p.samples && |cpu| == p.samples + 1
    ensures |c| == p.samples
  {
    if p.showCpu then CpuSeries(cpu, n) + Zeros(p.samples - n) else Zeros(p.samples)
  }

  /** Iteration n writes slot n of each enabled array. */
  lemma ContentsStep(p: Params, cpu: seq<Option<Snapshot>>, memUsed: seq<real>, n: nat)
    requires n < p.samples == |memUsed| && |cpu| == p.samples + 1
    ensures MemContents(p, memUsed, n + 1)
      == if p.showMemory then MemContents(p, memUsed, n)[n := memUsed[n]] else MemContents(p, memUsed, n)
    ensures CpuContents(p, cpu, n + 1)
      == if p.showCpu then CpuContents(p, cpu, n)[n := CpuUsage(Snap(cpu[n]), Snap(cpu[n + 1]))]
         else CpuContents(p, cpu, n)
  {
    if p.showMemory {
      FillSlot(memUsed[..n], memUsed[n], p.samples - n);
      assert memUsed[..n] + [memUsed[n]] == memUsed[..n + 1];
    }
    if p.showCpu {
      FillSlot(CpuSeries(cpu, n), CpuUsage(Snap(cpu[n]), Snap(cpu[n + 1])), p.samples - n);
      CpuSeriesSnoc(cpu, n);
    }
  }

  /** The screen drawn from the arrays after iteration n is redraw n. */
  lemma ScreenStep(p: Params, cpu: seq<Option<Snapshot>>, memUsed: seq<real>, selfMem: seq<real>,
                   totalMem: real, info: CoresInfo, n: nat, self: real, mem: seq<real>, usage: seq<real>)
    requires n < p.samples == |memUsed| == |selfMem| && |cpu| == p.samples + 1
    requires mem == MemContents(p, memUsed, n + 1) && usage == CpuContents(p, cpu, n + 1)
    requires p.showMemory ==> self == selfMem[n]
    ensures Screens(p, cpu, memUsed, selfMem, totalMem, info, n) + [Frame(p, totalMem, self, info, mem[..n + 1], usage[..n + 1])]
      == Screens(p, cpu, memUsed, selfMem, totalMem, info, n + 1)
  {
    PrefixOfPadded(memUsed[..n + 1], p.samples - (n + 1));
    PrefixOfPadded(CpuSeries(cpu, n + 1), p.samples - (n + 1));
    FrameOfShown(p, totalMem, info, self, selfMem[n], mem[..n + 1], memUsed[..n + 1],
                 usage[..n + 1], CpuSeries(cpu, n + 1));
    ScreensSnoc(p, cpu, memUsed, selfMem, totalMem, info, n);
  }

  /** Writing slot |a| of `a + Zeros(m)`. */
  lemma FillSlot(a: seq<real>, v: real, m: nat)
    requires 0 < m
    ensures (a + Zeros(m))[|a| := v] == (a + [v]) + Zeros(m - 1)
  {
    assert ((a + Zeros(m))[|a| := v])[..|a| + 1] == a + [v];
  }

  lemma PrefixOfPadded(a: seq<real>, m: nat)
    ensures (a + Zeros(m))[..|a|] == a
  {
  }

  lemma CpuSeriesSnoc(cpu: seq<Option<Snapshot>>, n: nat)
    requires n + 1 < |cpu|
    ensures CpuSeries(cpu, n + 1) == CpuSeries(cpu, n) + [CpuUsage(Snap(cpu[n]), Snap(cpu[n + 1]))]
  {
  }

  lemma ScreensSnoc(p: Params, cpu: seq<Option<Snapshot>>, memUsed: seq<real>, selfMem: seq<real>,
                    totalMem: real, info: CoresInfo, n: nat)
    requires n + 1 < |cpu| && n < |memUsed| && n < |selfMem|
    ensures Screens(p, cpu, memUsed, selfMem, totalMem, info, n + 1)
      == Screens(p, cpu, memUsed, selfMem, totalMem, info, n)
         + [Frame(p, totalMem, selfMem[n], info, memUsed[..n + 1], CpuSeries(cpu, n + 1))]
  {
  }

  /** A screen depends only on the series of the panels it shows. */
  lemma FrameOfShown(p: Params, totalMem: real, info: CoresInfo, self1: real, self2: real,
                     mem1: seq<real>, mem2: seq<real>, cpu1: seq<real>, cpu2: seq<real>)
    requires 0 < |mem1| == |mem2| && 0 < |cpu1| == |cpu2|
    requires p.showMemory ==> self1 == self2 && mem1 == mem2
    requires p.showCpu ==> cpu1 == cpu2
    ensures Frame(p, totalMem, self1, info, mem1, cpu1) == Frame(p, totalMem, self2, info, mem2, cpu2)
  {
  }

  /** The average loop: `sum / params.samples` over every slot. */
  method Average(values: array<real>, samples: int) returns (avg: real)
    requires 0 < samples == values.Length
    ensures avg == Sum(values[..]) / samples as real
  {
    var sum := 0.0;
    var i := 0;
    while i < samples
      invariant 0 <= i <= samples
      invariant sum == Sum(values[..i])
    {
      assert values[..i + 1][..i] == values[..i];
      sum := sum + values[i];
      i := i + 1;
    }
    assert values[..samples] == values[..];
    avg := sum / samples as real;
  }

  /** `main` after the allocations: parse the arguments, take the first
      CPU read (a failure ends the run with status 1), run the loop, then
      print the averages over all `samples` slots. */
  method RunMonitor(argv: seq<string>, cpu: seq<Option<Snapshot>>, memUsed: seq<real>, selfMem: seq<real>,
                    totalMem: real, info: CoresInfo) returns (o: Outcome)
    requires 0 < Parse(argv).samples
    requires |cpu| == Parse(argv).samples + 1 && |memUsed| == Parse(argv).samples && |selfMem| == Parse(argv).samples
    ensures o.CpuReadFailed? <==> Parse(argv).showCpu && cpu[0].None?
    ensures o.Finished? ==>
      var p, n := Parse(argv), |o.screens|;
      && Stopped(p, cpu, n)
      && o.screens == Screens(p, cpu, memUsed, selfMem, totalMem, info, n)
      && o.memAverage == (if p.showMemory then Some(Sum(memUsed[..n]) / p.samples as real) else None)
      && o.cpuAverage == (if p.showCpu then Some(Sum(CpuSeries(cpu, n)) / p.samples as real) else None)
  {
    var params := ParseArguments(argv);
    var prev := Snapshot(0, 0);
    if params.showCpu {
      if cpu[0].None? {
        return CpuReadFailed;
      }
      prev := cpu[0].value;
    }
    var sampler := new Sampler(params, prev);
    var screens := sampler.Run(cpu, memUsed, selfMem, totalMem, info);
    ghost var n := |screens|;
    var memAverage: Option<real> := None;
    if params.showMemory {
      var avg := Average(sampler.memValues, params.samples);
      SumZeros(memUsed[..n], params.samples - n);
      memAverage := Some(avg);
    }
    var cpuAverage: Option<real> := None;
    if params.showCpu {
      var avg := Average(sampler.cpuValues, params.samples);
      SumZeros(CpuSeries(cpu, n), params.samples - n);
      cpuAverage := Some(avg);
    }
    o := Finished(screens, memAverage, cpuAverage);
  }

  // ---------------------------------------------------------------------
  // Properties of a run

  /** The untouched zero slots add nothing to the sum. */
  lemma {:induction false} SumZeros(s: seq<real>, m: nat)
    ensures Sum(s + Zeros(m)) == Sum(s)
  {
    if m > 0 {
      var t := s + Zeros(m);
      assert t[..|t| - 1] == s + Zeros(m - 1) && t[|t| - 1] == 0.0;
      assert Sum(t) == Sum(t[..|t| - 1]) + t[|t| - 1];
      SumZeros(s, m - 1);
    } else {
      assert s + Zeros(m) == s;
    }
  }

  /** A sum of values within [lo, hi] lies within [lo*len, hi*len]. */
  lemma {:induction false} SumBounds(s: seq<real>, lo: real, hi: real)
    requires forall j :: 0 <= j < |s| ==> lo <= s[j] <= hi
    ensures lo * |s| as real <= Sum(s) <= hi * |s| as real
  {
    if s != [] {
      SumBounds(s[..|s| - 1], lo, hi);
    }
  }

  /** The stopping point is determined by the reads: at most one `n`
      satisfies `Stopped`. */
  lemma StoppedUnique(p: Params, cpu: seq<Option<Snapshot>>, n1: nat, n2: nat)
    requires 0 <= p.samples && |cpu| == p.samples + 1
    requires Stopped(p, cpu, n1) && Stopped(p, cpu, n2)
    ensures n1 == n2
  {
  }

  /** Without the CPU panel, or when every read succeeds, the loop runs
      all `samples` iterations; a failing read in iteration n stops it at n
      when every earlier read succeeded. */
  lemma StopPoint(p: Params, cpu: seq<Option<Snapshot>>, n: nat)
    requires 0 <= p.samples && |cpu| == p.samples + 1 && n <= p.samples
    requires p.showCpu ==> forall j :: 1 <= j <= n ==> cpu[j].Some?
    ensures n == p.samples ==> Stopped(p, cpu, n)
    ensures n < p.samples ==> (Stopped(p, cpu, n) <==> p.showCpu && cpu[n + 1].None?)
  {
  }

  /** A complete run over a constant reading averages to that reading. */
  lemma FullRunConstantAverage(s: seq<real>, samples: nat, c: real)
    requires 0 < samples == |s|
    requires forall j :: 0 <= j < |s| ==> s[j] == c
    ensures Sum(s) / samples as real == c
  {
    SumBounds(s, c, c);
  }

  /** After a `break` at iteration n the late slots still count as zero
      while the denominator stays `samples`: with readings in [0, c] the
      average is at most c * n / samples, below c when n < samples and c > 0. */
  lemma EarlyStopAverage(s: seq<real>, n: nat, samples: nat, c: real)
    requires n < samples && n <= |s| && 0.0 <= c
    requires forall j :: 0 <= j < n ==> 0.0 <= s[j] <= c
    ensures 0.0 <= Sum(s[..n]) / samples as real <= c * n as real / samples as real
    ensures 0.0 < c ==> Sum(s[..n]) / samples as real < c
  {
    SumBounds(s[..n], 0.0, c);
    ShareBound(Sum(s[..n]), n, samples, c);
  }

  /** When every measured usage lies in [0, 100] (see
      `CpuTicks.UsageRange`), so does the printed CPU average. */
  lemma CpuAverageInRange(cpu: seq<Option<Snapshot>>, n: nat, samples: nat)
    requires n <= samples && 0 < samples && n < |cpu|
    requires forall j :: 0 <= j < n ==> 0.0 <= CpuUsage(Snap(cpu[j]), Snap(cpu[j + 1])) <= 100.0
    ensures 0.0 <= Sum(CpuSeries(cpu, n)) / samples as real <= 100.0
  {
    var u := CpuSeries(cpu, n);
    assert forall j :: 0 <= j < |u| ==> 0.0 <= u[j] <= 100.0;
    SumBounds(u, 0.0, 100.0);
    ShareBound(Sum(u), n, samples, 100.0);
  }

  /** A total of at most c per counted slot, spread over `samples` slots. */
  lemma ShareBound(t: real, n: nat, samples: nat, c: real)
    requires n <= samples && 0 < samples && 0.0 <= c
    requires 0.0 <= t <= c * n as real
    ensures 0.0 <= t / samples as real <= c * n as real / samples as real <= c
    ensures n < samples && 0.0 < c ==> t / samples as real < c
  {
    var k := samples as real;
    var m := c * n as real;
    var q := t / k;
    var r := m / k;
    assert q * k == t;
    assert r * k == m;
    assert m <= c * k by {
      ScaleUp(n as real, k, c);
    }
    ScaleBack(0.0, q, k);
    ScaleBack(q, r, k);
    ScaleBack(r, c, k);
    if n < samples && 0.0 < c {
      assert m < c * k by {
        assert c * (k - n as real) > 0.0;
      }
      if c <= q {
        ScaleUp(c, q, k);
      }
    }
  }

  /** Dividing out a positive factor keeps an order. */
  lemma ScaleBack(a: real, b: real, k: real)
    requires 0.0 < k && a * k <= b * k
    ensures a <= b
  {
    assert (a - b) * k <= 0.0;
  }

  /** Multiplying by a positive factor keeps an order. */
  lemma ScaleUp(a: real, b: real, k: real)
    requires 0.0 <= k && a <= b
    ensures a * k <= b * k
  {
    assert (b - a) * k >= 0.0;
  }

  /** Redraw j graphs exactly j+1 values, with an axis of j+1 dashes, and
      its current value is the one iteration j measured. */
  lemma RedrawContents(p: Params, cpu: seq<Option<Snapshot>>, memUsed: seq<real>, selfMem: seq<real>,
                       totalMem: real, info: CoresInfo, n: nat, j: nat)
    requires j < n < |cpu| && n <= |memUsed| && n <= |selfMem|
    ensures var screen := Screens(p, cpu, memUsed, selfMem, totalMem, info, n)[j];
      && (screen.memory.Some? <==> p.showMemory)
      && (screen.cpu.Some? <==> p.showCpu)
      && (screen.cores.Some? <==> p.showCores)
      && (p.showMemory ==> screen.memory.value.current == memUsed[j]
                           && screen.memory.value.graph == MemoryGraph(memUsed[..j + 1], totalMem)
                           && Occurrences(screen.memory.value.graph.axis, '-') == j + 1)
      && (p.showCpu ==> screen.cpu.value.current == CpuUsage(Snap(cpu[j]), Snap(cpu[j + 1]))
                        && screen.cpu.value.graph == CpuGraph(CpuSeries(cpu, j + 1))
                        && Occurrences(screen.cpu.value.graph.axis, '-') == j + 1)
  {
    AxisDashes(j + 1);
  }
}
