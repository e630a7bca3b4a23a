# UtilMonitor in Dafny

UtilMonitor is a terminal CPU and memory monitor written in C (`UtilMonitor.c`).
It reads its options from the command line. Then it samples `/proc/stat` and the memory counters a fixed number of times. After each sample it clears the screen and redraws:

- a parameter block;
- an ASCII memory graph;
- an ASCII CPU graph;
- a diagram of the CPU cores.

When the loop ends it prints the average memory and CPU usage.

This project models the logic of that program and proves what the code promises about it. The modules follow the program's parts:

| module | file | models |
|---|---|---|
| `Wrappers` | wrappers.dfy | `Option` |
| `CText` | ctext.dfy | the C text primitives the program relies on: `isspace`, `atoi`, `%d` and character counting |
| `Arguments` | arguments.dfy | `parseArguments`: positionals, prefix-matched flags, and the all-or-named enable rule |
| `CpuTicks` | cputicks.dfy | `getCPUSample`, and the tick deltas and busy percentage of `main` |
| `Cores` | cores.dfy | the max-frequency folds of `getCoresInfo`, and `displayCoresDiagram` |
| `Graph` | graph.dfy | `plotMemoryGraph` and `plotCPUGraph` |
| `Monitor` | monitor.dfy | the sampling loop of `main`: a `Sampler` class that owns the two value arrays, plus `prev`, the `break`, and the averages |

The core is modelled in two styles:

- **Imperative code stays imperative.** `ParseArguments`, `GetCoresInfo`, `DisplayCoresDiagram`, the plot methods and the `Sampler` methods are loops. Each one is proved equal to a pure specification function: `Parse`, `MaxFreq`, `LabelLine`, `Render`, `CpuSeries` / `Screens`, and `Sum`. The properties are proved as lemmas about those functions.
- **Pure parts are functions.** The tick aggregation and the usage expression are functions, with lemmas about them.

The environment is passed in as values:

- the content of `/proc/stat`, or the `getCPUSample` results in the monitor loop;
- the readings of the memory functions;
- the per-core frequency readings;
- `getTotalMemory()` and `getCoresInfo()`.

C `double` becomes `real`. Unsigned 64-bit arithmetic is written out explicitly modulo 2^64.

## Model

| member | source | states |
|---|---|---|
| CText.AtoiOfDecimal | UtilMonitor.c:168 | `atoi` reads back any `%d` rendering of a natural number, whatever non-digit text follows it |
| CText.DigitRunIsLongest | UtilMonitor.c:150 | the digit run `atoi` reads is all digits and is followed by a non-digit or the end |
| CText.DigitsValueOfDecimal | UtilMonitor.c:331 | the value of the `%d` rendering of n is n |
| CText.DecimalInjective | UtilMonitor.c:375 | different numbers have different `%d` renderings |
| CText.Decimal | UtilMonitor.c:331 | `%d` of a natural number: non-empty, starts with a digit, and is one character exactly when the number is below 10 |
| Arguments.PositionalCount | UtilMonitor.c:147-156 | at most two positionals are taken; the first only if `argv[1]` exists and does not start with `-`, the second only if the first was taken and `argv[2]` does not start with `-` |
| Arguments.ParseArguments | UtilMonitor.c:140-184 | the positional checks, the flag loop and the enable rule compute exactly `Parse(argv)` |
| Arguments.DefaultsWithoutArguments | UtilMonitor.c:142-143 | with no arguments: 20 samples, 500000 µs, and all three categories on |
| Arguments.ClassifyEnables | UtilMonitor.c:158-166 | an argument enables a category exactly when it starts with that category's flag (`strncmp` prefix match, so `--cpuX` enables the CPU graph) |
| Arguments.ClassifySets | UtilMonitor.c:167-170 | an argument sets samples or delay exactly when it starts with `--samples=` or `--tdelay=` and matches no category flag; the text after the prefix is what `atoi` reads |
| Arguments.FlagSeen | UtilMonitor.c:157-166 | a category's flag is seen exactly when some argument at or after the first non-positional index starts with it |
| Arguments.EnableRule | UtilMonitor.c:174-182 | a category is shown exactly when no visited argument starts with any category flag, or one starts with its own |
| Arguments.LastTextIsLast | UtilMonitor.c:167-170 | the setting text used is absent exactly when no visited argument sets it; otherwise it comes from a setting argument after which no other sets it |
| Arguments.LastSettingWins | UtilMonitor.c:167-170 | appending `--samples=N` or `--tdelay=N` sets that number to N and leaves everything else unchanged |
| Arguments.AppendedSetting | UtilMonitor.c:157-173 | appending a flag that names no category changes only the number it sets, if any; the category toggle is untouched |
| Arguments.UnrecognisedIgnored | UtilMonitor.c:171-172 | appending an unrecognised `-` argument changes nothing |
| Arguments.IgnoredInserted | UtilMonitor.c:157-172 | an argument that matches no flag, inserted anywhere among the visited arguments (with or without a leading `-`, as long as it does not become a positional: it starts with `-`, follows the first visited argument, or comes after two positionals), changes nothing |
| Arguments.TrailingWordIgnored | UtilMonitor.c:149-172 | `prog 10 500 foo`: with both positionals taken, the word `foo` is visited by the flag loop and changes nothing |
| Arguments.AppendedFlag | UtilMonitor.c:149-157 | an appended argument that starts with `-` is never positional; it is visited by the flag loop, last |
| Arguments.StepFacts | UtilMonitor.c:157-173 | one flag-loop step: the updates it makes to the seen flags, `flagsFound` and the two numbers |
| Arguments.CpuOnly | UtilMonitor.c:161-163 | `prog --cpu` shows only the CPU graph, with default numbers |
| Arguments.CpuOnlyFiveSamples | UtilMonitor.c:167-168 | `prog --cpu --samples=5` gives 5 samples and only the CPU graph |
| Arguments.PositionalWithCpu | UtilMonitor.c:149-152 | `prog 7 --cpu` takes 7 as the sample count and starts flag scanning after it |
| Arguments.SamplesFlagOverridesPositional | UtilMonitor.c:149-168 | `prog 7 --cpu --samples=5`: the flag overrides the positional |
| CpuTicks.FgetsLine | UtilMonitor.c:193-197 | `fgets` into 256 bytes fails only on an empty file; otherwise the line is a non-empty prefix of at most 255 characters that stops at the first newline (kept) when that fits |
| CpuTicks.ScanTicksOfStatLine | UtilMonitor.c:200-201 | on a `cpu` line of numbers the scan yields those numbers, at most eight of them |
| CpuTicks.GetCpuSampleOfStatLine | UtilMonitor.c:187-206 | reading a file whose first line is `cpu` followed by any count of numbers, and fits the 255-character `fgets` buffer, gives the snapshot of the first eight numbers (fewer than four fail) |
| CpuTicks.NotCpuLineRejected | UtilMonitor.c:200-203 | a file that does not start with `cpu` gives the `-1` failure |
| CpuTicks.TickSnapshotMeaning | UtilMonitor.c:202-205 | fewer than 4 fields fail; otherwise idle = (idle_time + iowait) mod 2^64 and total = (sum of the eight fields) mod 2^64, both 64-bit values, with idle <= total when the sum does not wrap |
| CpuTicks.WrappingSumIsSumMod | UtilMonitor.c:205 | summing with wrap-around at every step is the sum taken mod 2^64 |
| CpuTicks.IdleFieldsSummed | UtilMonitor.c:204-205 | the idle fields are part of the total |
| CpuTicks.WrapSub | UtilMonitor.c:78-79 | unsigned 64-bit subtraction; its result is below 2^64 |
| CpuTicks.WrapSubInverse | UtilMonitor.c:78-79 | the wrapped difference added back to the previous value gives the new one, and it equals a - b, or a - b + 2^64 when b > a |
| CpuTicks.WrapSubOfWrapAdd | UtilMonitor.c:78-79 | a counter that advanced by d (possibly wrapping) has delta exactly d |
| CpuTicks.UsageRange | UtilMonitor.c:80-82 | a zero total delta gives exactly 0; otherwise the usage lies in [0, 100] exactly when the idle delta is at most the total delta, it equals 100·(dT−dI)/dT then, and it exceeds 100 when the idle delta is the larger |
| CpuTicks.UsageAcrossWrap | UtilMonitor.c:78-82 | the usage between two snapshots depends only on the true deltas, even across a 64-bit wrap of the counters |
| Cores.GetCoresInfo | UtilMonitor.c:269-304 | the per-core loop and the `/proc/cpuinfo` fallback compute exactly `MaxFreq` |
| Cores.FoldMaxIsMaximum | UtilMonitor.c:274-286 | the strict-`>` fold from 0.0 is non-negative, bounds every reading, and is either 0.0 or one of the readings |
| Cores.MaxFreqMeaning | UtilMonitor.c:274-302 | when some core reports a positive frequency, the result is the maximum per-core MHz; otherwise it is the maximum `cpu MHz` value, or 0.0 |
| Cores.DisplayCoresDiagram | UtilMonitor.c:371-377 | the header keeps the count and the frequency; the label line is `LabelLine(max(num_cores, 0))` |
| Cores.LabelCount | UtilMonitor.c:374-375 | the diagram holds exactly `num_cores` labels |
| Cores.LabelsInOrder | UtilMonitor.c:374-375 | label i comes right after the labels 0..i-1, at the start of the line |
| Cores.LabelBrackets | UtilMonitor.c:375 | each `[CPU%d] ` label has exactly one `[` |
| Cores.LabelsDistinct | UtilMonitor.c:375 | different cores get different labels |
| Graph.PlotGraph | UtilMonitor.c:306-369 | the row, axis and ruler loops shared by both plots produce exactly `Render(values[..count])` |
| Graph.PlotRows | UtilMonitor.c:310-323 | the row loop gives rows 10 down to 0, each labelled (or not) and filled as `RowAt` says |
| Graph.PlotRow | UtilMonitor.c:316-321 | the cell loop writes the glyph where the value reaches the threshold, and a blank elsewhere |
| Graph.PlotAxis | UtilMonitor.c:324-327 | the axis loop gives `       +` followed by `count` dashes |
| Graph.PlotRuler | UtilMonitor.c:328-335 | the ruler loop gives the marks for positions 0..count-1 |
| Graph.PlotMemoryGraph | UtilMonitor.c:306-336 | the memory graph is `#` cells scaled to the total memory |
| Graph.PlotCpuGraph | UtilMonitor.c:339-369 | the CPU graph is `:` cells scaled to 100 |
| Graph.GridShape | UtilMonitor.c:310-315 | 11 rows, for row 10 down to 0; only rows 10, 5 and 0 carry a numeric label, equal to top·row/10; every row has `count` cells |
| Graph.CellRule | UtilMonitor.c:316-320 | cell (row, i) is the glyph exactly when values[i] >= top·row/10, and blank otherwise |
| Graph.BottomAndTopRows | UtilMonitor.c:311-318 | row 0 (threshold 0) is filled for every non-negative value; the top row is filled where a value reaches the top |
| Graph.ColumnsFillFromBottom | UtilMonitor.c:311-318 | with a non-negative scale, a filled cell has every cell below it filled |
| Graph.AxisDashes | UtilMonitor.c:324-326 | the axis has exactly `count` dashes, after eight characters |
| Graph.RulerAligned | UtilMonitor.c:329-334 | up to 100 values, ruler position i shows the digit i/10 when i % 10 == 0 and a blank otherwise, one character per column |
| Graph.RulerAtLeastCount | UtilMonitor.c:329-334 | the ruler is never shorter than the `count` columns |
| Graph.RulerOverrunsPast100 | UtilMonitor.c:329-334 | from 101 values on, `%d` of 10 takes two columns, so the ruler is longer than the axis |
| Monitor.Sampler.Record | UtilMonitor.c:73-91 | iteration i fails exactly when the CPU panel is on and the read fails, and then changes nothing. Otherwise it writes only slot i of each enabled array (usage from `prev` to the new read, and the memory reading), rolls `prev` forward, and records the tool's own memory |
| Monitor.Sampler.Draw | UtilMonitor.c:94-116 | a redraw shows the parameter block and one panel per enabled category; each graph covers the first i+1 slots and shows slot i as the current value |
| Monitor.Sampler.Iterate | UtilMonitor.c:70-117 | one loop iteration either stops at a failed CPU read, leaving the state as it was, or extends the run by one redraw and one written slot |
| Monitor.Sampler.Run | UtilMonitor.c:70-117 | the loop stops exactly where `Stopped` says. The redraws are `Screens`; slots below the stop hold the readings and the rolled-forward usages, and later slots are untouched |
| Monitor.Average | UtilMonitor.c:119-130 | the average is the sum of every slot divided by `samples` |
| Monitor.RunMonitor | UtilMonitor.c:31-137 | a failed first CPU read ends the run with status 1 exactly when the CPU panel is on. Otherwise the redraws are `Screens` up to the stopping point, and each average is the sum of the written slots divided by `samples` |
| Monitor.StoppedUnique | UtilMonitor.c:73-77 | the reads determine the stopping point uniquely |
| Monitor.StopPoint | UtilMonitor.c:70-77 | without the CPU panel, or when all reads succeed, the loop runs all `samples` iterations; otherwise it stops at the first failed read |
| Monitor.RedrawContents | UtilMonitor.c:104-110 | redraw j has a panel exactly for each enabled category; each graph plots exactly j+1 values (its axis has j+1 dashes); the current value is the one iteration j measured |
| Monitor.SumZeros | UtilMonitor.c:121-128 | untouched zero slots add nothing to the sum |
| Monitor.SumBounds | UtilMonitor.c:121-128 | a sum of n values within [lo, hi] lies within [n·lo, n·hi] |
| Monitor.FullRunConstantAverage | UtilMonitor.c:119-124 | a complete run over a constant reading averages to that reading |
| Monitor.EarlyStopAverage | UtilMonitor.c:74-123 | after a `break` at iteration n, readings in [0, c] average to at most c·n/samples, which is strictly below c when c > 0 |
| Monitor.CpuAverageInRange | UtilMonitor.c:125-130 | when every measured usage lies in [0, 100], so does the printed CPU average |
| Monitor.ContentsStep | UtilMonitor.c:83-90 | iteration n changes the arrays only at slot n |
| Monitor.ScreenStep | UtilMonitor.c:104-110 | the screen drawn from the arrays after iteration n is redraw n of the run |

## Left out

- File I/O is not modelled: `fopen`/`fgets`/`fscanf`/`fclose` on `/proc/stat`, `/proc/meminfo`, `/proc/self/status`, `/sys/.../cpuinfo_max_freq` and `/proc/cpuinfo`. The contents or the parsed readings are parameters. The `/proc/meminfo` and `/proc/self/status` readers (`getMemoryUsage`, `getTotalMemory`, `getSelfMemoryUsage`) are not part of this model; their results are inputs of `RunMonitor`.
- `sysconf(_SC_NPROCESSORS_ONLN)` is not modelled; the core count is the `numCores` parameter. Its `-1` error value behaves like any count ≤ 0: no per-core reads and no labels.
- `usleep`, the ANSI clear sequence, `fflush` and the C stream buffering are not modelled, because they do not affect what is computed.
- `printf` formatting of doubles (`%5.2f`, `%5.1f%%`, `%.2f`) is not modelled. Row labels, current values, averages and the cores header keep the number itself, not its text. Only `%d` is rendered as text, because the ruler's alignment depends on its width.
- Graph.Render: the width of a row label is not modelled, so the column offsets it causes are not captured. In the memory graph, a numeric label `%5.2f | ` below 100 is 8 characters, but the blank label `       | ` is 9 (UtilMonitor.c:313-315); rows 10, 5 and 0 therefore start their cells one column left of the other rows. In the CPU graph every label is 9 characters (UtilMonitor.c:346-348), while the axis and ruler prefixes are 8 (UtilMonitor.c:357, 361); every cell therefore sits one column right of its dash and ruler mark. The model keeps each label as a `Threshold` value or `Blank`, and the cells as their own string.
- IEEE floating-point rounding is not modelled: `double` is `real` throughout.
- `malloc` failure and `perror` are not modelled, nor is the `Error reading CPU sample` message written to `stderr` before the program exits or the loop breaks (UtilMonitor.c:63, 74); the model returns `CpuReadFailed` or stops the run instead. The model always allocates both arrays, and only reads the ones whose category is enabled.
- Monitor.Sampler.constructor: the C arrays come from `malloc` and are uninitialised. The model zero-fills them, so the average after an early `break` counts the unwritten slots as 0 (where the C reads indeterminate values). The denominator stays `samples`, as in the code.
- Monitor.RunMonitor: requires a positive `samples`. A non-positive count is left out, because it gives a negative `malloc` size or a division by zero in the averages.
- CText.Atoi: does not model overflow of `int`; values are unbounded integers.
- CpuTicks.ScanNumbers: models `%llu` as a run of decimal digits after optional white space. The model does not cover:
  - a sign before the digits, accepted by `strtoull`;
  - `%llu`'s saturation at 2^64 − 1 on overflow (the model reduces each field modulo 2^64 instead);
  - the difference between `EOF` and a short match count.
- CpuTicks.TickSnapshot: when 4 to 7 fields parse, the C sums uninitialised variables. The model reads the missing fields as 0.
- Cores.GetCoresInfo: `fscanf("%ld")` and `sscanf("cpu MHz\t: %lf")` are not modelled; their results are the `khz` and `mhz` readings. The 256-byte `fgets` splitting of long `/proc/cpuinfo` lines is not modelled either.
- Concurrency does not apply here: the program is single-threaded.
