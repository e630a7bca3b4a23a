/** The command line of the monitor (`parseArguments` in UtilMonitor.c):
    up to two leading positional numbers, then category flags matched by
    prefix and `--samples=`/`--tdelay=` overrides. `argv` includes the
    program name at index 0, as in C. */
module Arguments {
  import opened Wrappers
  import opened CText

  /** The run configuration; the C `show_*` ints are 0 or 1, here bools. */
  datatype Params = Params(samples: int, tdelay: int, showMemory: bool, showCpu: bool, showCores: bool)

  const DefaultSamples: int := 20
  const DefaultDelay: int := 500000

  datatype Category = Memory | Cpu | Cores
  datatype Setting = Samples | Delay

  /** What one argument after the positional numbers means; a setting
      keeps the text after its prefix, which `atoi` turns into the number. */
  datatype Opt = Enable(category: Category) | Set(setting: Setting, text: string) | Ignored

  /** `argv[i][0] != '-'`; an empty argument starts with its terminating
      NUL, which is not '-'. */
  predicate IsPositional(arg: string) {
    arg == [] || arg[0] != '-'
  }

  /** The flag that names a category. */
  function CategoryFlag(c: Category): string {
    match c
    case Memory => "--memory"
    case Cpu => "--cpu"
    case Cores => "--cores"
  }

  /** The prefix that introduces a setting. */
  function SettingPrefix(s: Setting): string {
    match s
    case Samples => "--samples="
    case Delay => "--tdelay="
  }

  /** `strncmp(arg, p, |p|) == 0`: the first |p| characters of the
      argument are p (a shorter argument differs at its NUL). */
  predicate HasPrefix(arg: string, p: string) {
    p <= arg
  }

  /** The if/else-if chain of the flag loop, in the source's order. */
  function Classify(arg: string): Opt {
    if HasPrefix(arg, "--memory") then Enable(Memory)
    else if HasPrefix(arg, "--cpu") then Enable(Cpu)
    else if HasPrefix(arg, "--cores") then Enable(Cores)
    else if HasPrefix(arg, "--samples=") then Set(Samples, arg[10..])
    else if HasPrefix(arg, "--tdelay=") then Set(Delay, arg[9..])
    else Ignored
  }

  /** How many leading positional numbers follow the program name. */
  function PositionalCount(argv: seq<string>): (n: nat)
    ensures n <= 2 && (n > 0 ==> n < |argv|)
    ensures n >= 1 <==> |argv| > 1 && IsPositional(argv[1])
    ensures n == 2 <==> |argv| > 2 && IsPositional(argv[1]) && IsPositional(argv[2])
  {
    if |argv| > 1 && IsPositional(argv[1]) then
      if |argv| > 2 && IsPositional(argv[2]) then 2 else 1
    else 0
  }

  /** The index where flag scanning begins. */
  function FlagStart(argv: seq<string>): nat {
    1 + PositionalCount(argv)
  }

  /** The meanings of `argv[lo..hi]`, in order (empty unless lo < hi <= |argv|). */
  function OptionsBetween(argv: seq<string>, lo: nat, hi: nat): seq<Opt>
    decreases hi
  {
    if hi <= lo || hi > |argv| then [] else OptionsBetween(argv, lo, hi - 1) + [Classify(argv[hi - 1])]
  }

  /** The meanings of the arguments the flag loop visits. */
  function FlagOptions(argv: seq<string>): seq<Opt> {
    OptionsBetween(argv, FlagStart(argv), |argv|)
  }

  predicate Sets(o: Opt, s: Setting) {
    o.Set? && o.setting == s
  }

  predicate Mentions(opts: seq<Opt>, s: Setting) {
    exists k :: 0 <= k < |opts| && Sets(opts[k], s)
  }

  /** The text of the last `Set(s, _)` in `opts`, if there is one. */
  function LastText(opts: seq<Opt>, s: Setting): Option<string> {
    if opts == [] then None
    else if Sets(opts[|opts| - 1], s) then Some(opts[|opts| - 1].text)
    else LastText(opts[..|opts| - 1], s)
  }

  /** The number the last `Set(s, _)` gives, or `default` if none. */
  function SettingValue(opts: seq<Opt>, s: Setting, default: int): int {
    match LastText(opts, s)
    case Some(text) => Atoi(text)
    case None => default
  }

  predicate AnyCategory(opts: seq<Opt>) {
    Enable(Memory) in opts || Enable(Cpu) in opts || Enable(Cores) in opts
  }

  /** The configuration `parseArguments` returns for `argv`. */
  function Parse(argv: seq<string>): Params {
    var n := PositionalCount(argv);
    var opts := FlagOptions(argv);
    var all := !AnyCategory(opts);
    Params(
      SettingValue(opts, Samples, if n >= 1 then Atoi(argv[1]) else DefaultSamples),
      SettingValue(opts, Delay, if n == 2 then Atoi(argv[2]) else DefaultDelay),
      all || Enable(Memory) in opts,
      all || Enable(Cpu) in opts,
      all || Enable(Cores) in opts)
  }

  function Shows(p: Params, c: Category): bool {
    match c
    case Memory => p.showMemory
    case Cpu => p.showCpu
    case Cores => p.showCores
  }

  /** `parseArguments`: the two positional checks, then the flag loop,
      then the all-or-named rule. */
  method ParseArguments(argv: seq<string>) returns (params: Params)
    ensures params == Parse(argv)
  {
    var samples, tdelay := DefaultSamples, DefaultDelay;
    var flagMemory, flagCpu, flagCores := false, false, false;
    var flagsFound := false;
    var posArgIndex := 1;
    if posArgIndex < |argv| && IsPositional(argv[posArgIndex]) {
      samples := Atoi(argv[posArgIndex]);
      posArgIndex := posArgIndex + 1;
    }
    if posArgIndex < |argv| && IsPositional(argv[posArgIndex]) {
      tdelay := Atoi(argv[posArgIndex]);
      posArgIndex := posArgIndex + 1;
    }
    assert posArgIndex == FlagStart(argv);
    ghost var samples0, tdelay0 := samples, tdelay;
    ghost var seen: seq<Opt> := [];
    var i := posArgIndex;
    while i < |argv|
      invariant posArgIndex <= i && (posArgIndex <= |argv| ==> i <= |argv|)
      invariant seen == OptionsBetween(argv, posArgIndex, i)
      invariant flagMemory == (Enable(Memory) in seen)
      invariant flagCpu == (Enable(Cpu) in seen)
      invariant flagCores == (Enable(Cores) in seen)
      invariant flagsFound == AnyCategory(seen)
      invariant samples == SettingValue(seen, Samples, samples0)
      invariant tdelay == SettingValue(seen, Delay, tdelay0)
    {
      var o := Classify(argv[i]);
      StepFacts(seen, o, samples0, tdelay0);
      seen := seen + [o];
      match o {
        case Enable(Memory) => flagMemory, flagsFound := true, true;
        case Enable(Cpu) => flagCpu, flagsFound := true, true;
        case Enable(Cores) => flagCores, flagsFound := true, true;
        case Set(Samples, text) => samples := Atoi(text);
        case Set(Delay, text) => tdelay := Atoi(text);
        case Ignored =>
      }
      i := i + 1;
    }
    assert seen == FlagOptions(argv);
    if flagsFound {
      params := Params(samples, tdelay, flagMemory, flagCpu, flagCores);
    } else {
      params := Params(samples, tdelay, true, true, true);
    }
  }

  /** What one more option does to the facts the flag loop keeps. */
  lemma StepFacts(seen: seq<Opt>, o: Opt, samples0: int, tdelay0: int)
    ensures forall c :: Enable(c) in seen + [o] <==> Enable(c) in seen || o == Enable(c)
    ensures AnyCategory(seen + [o]) <==> AnyCategory(seen) || o.Enable?
    ensures SettingValue(seen + [o], Samples, samples0) ==
      if Sets(o, Samples) then Atoi(o.text) else SettingValue(seen, Samples, samples0)
    ensures SettingValue(seen + [o], Delay, tdelay0) ==
      if Sets(o, Delay) then Atoi(o.text) else SettingValue(seen, Delay, tdelay0)
  {
    LastTextSnoc(seen, o, Samples);
    LastTextSnoc(seen, o, Delay);
    if o.Enable? {
      match o.category { case Memory => case Cpu => case Cores => }
    }
  }

  lemma LastTextSnoc(opts: seq<Opt>, o: Opt, s: Setting)
    ensures LastText(opts + [o], s) == if Sets(o, s) then Some(o.text) else LastText(opts, s)
  {
    assert (opts + [o])[..|opts|] == opts;
  }

  /** `LastText` finds the last setting of `s`: none exactly when `s` is
      never set, otherwise the text of an occurrence with no later one. */
  lemma {:induction false} LastTextIsLast(opts: seq<Opt>, s: Setting)
    ensures LastText(opts, s).None? <==> !Mentions(opts, s)
    ensures LastText(opts, s).Some? ==>
      exists k :: 0 <= k < |opts| && opts[k] == Set(s, LastText(opts, s).value) &&
        forall j :: k < j < |opts| ==> !Sets(opts[j], s)
  {
    if opts != [] {
      var init, last := opts[..|opts| - 1], opts[|opts| - 1];
      if Sets(last, s) {
        assert Mentions(opts, s) by {
          assert Sets(opts[|opts| - 1], s);
        }
      } else {
        assert LastText(opts, s) == LastText(init, s);
        LastTextIsLast(init, s);
        assert Mentions(opts, s) <==> Mentions(init, s) by {
          MentionsInit(opts, s);
        }
        if LastText(init, s).Some? {
          var k :| 0 <= k < |init| && init[k] == Set(s, LastText(init, s).value) &&
            forall j :: k < j < |init| ==> !Sets(init[j], s);
          assert opts[k] == init[k];
        }
      }
    }
  }

  /** A last option that sets nothing adds no mention. */
  lemma MentionsInit(opts: seq<Opt>, s: Setting)
    requires opts != [] && !Sets(opts[|opts| - 1], s)
    ensures Mentions(opts, s) <==> Mentions(opts[..|opts| - 1], s)
  {
    var init := opts[..|opts| - 1];
    if Mentions(opts, s) {
      var k :| 0 <= k < |opts| && Sets(opts[k], s);
      assert init[k] == opts[k];
    }
    if Mentions(init, s) {
      var k :| 0 <= k < |init| && Sets(init[k], s);
      assert opts[k] == init[k];
    }
  }

  /** The options of a prefix of `argv` do not see what is appended. */
  lemma {:induction false} OptionsBetweenAppend(argv: seq<string>, arg: string, lo: nat, hi: nat)
    requires hi <= |argv|
    ensures OptionsBetween(argv + [arg], lo, hi) == OptionsBetween(argv, lo, hi)
  {
    if lo < hi {
      OptionsBetweenAppend(argv, arg, lo, hi - 1);
      assert (argv + [arg])[hi - 1] == argv[hi - 1];
    }
  }

  lemma {:induction false} OptionsBetweenLength(argv: seq<string>, lo: nat, hi: nat)
    requires lo <= hi <= |argv|
    ensures |OptionsBetween(argv, lo, hi)| == hi - lo
  {
    if lo < hi {
      OptionsBetweenLength(argv, lo, hi - 1);
    }
  }

  /** Each option comes from one visited argument, in order. */
  lemma {:induction false} OptionsBetweenAt(argv: seq<string>, lo: nat, hi: nat, k: nat)
    requires lo <= hi <= |argv| && k < hi - lo
    ensures |OptionsBetween(argv, lo, hi)| == hi - lo
    ensures OptionsBetween(argv, lo, hi)[k] == Classify(argv[lo + k])
  {
    OptionsBetweenLength(argv, lo, hi);
    if k < hi - 1 - lo {
      OptionsBetweenAt(argv, lo, hi - 1, k);
    } else {
      OptionsBetweenLength(argv, lo, hi - 1);
    }
  }

  /** The chain's order does not matter: an argument enables a category
      exactly when it starts with that category's flag, so `--cpuX`
      enables the CPU graph. */
  lemma ClassifyEnables(arg: string, c: Category)
    ensures Classify(arg) == Enable(c) <==> HasPrefix(arg, CategoryFlag(c))
  {
    var m, p, o := "--memory", "--cpu", "--cores";
    assert m[2] != p[2] && m[2] != o[2] && p[3] != o[3];
    assert HasPrefix(arg, m) ==> arg[2] == m[2];
    assert HasPrefix(arg, p) ==> arg[2] == p[2] && arg[3] == p[3];
    assert HasPrefix(arg, o) ==> arg[2] == o[2] && arg[3] == o[3];
  }

  /** An argument sets a number exactly when it starts with that setting's
      prefix, and the number is read from the text after the prefix. */
  lemma ClassifySets(arg: string, s: Setting, text: string)
    ensures Classify(arg) == Set(s, text) <==>
      HasPrefix(arg, SettingPrefix(s)) && text == arg[|SettingPrefix(s)|..]
  {
    var m, p, o, n, d := "--memory", "--cpu", "--cores", "--samples=", "--tdelay=";
    assert n[2] != m[2] && n[2] != p[2] && n[2] != o[2] && n[2] != d[2];
    assert d[2] != m[2] && d[2] != p[2] && d[2] != o[2];
    assert HasPrefix(arg, n) ==> arg[2] == n[2];
    assert HasPrefix(arg, d) ==> arg[2] == d[2];
  }

  /** With no arguments at all: 20 samples, 500000 microseconds, every
      category shown. */
  lemma DefaultsWithoutArguments(prog: string)
    ensures Parse([prog]) == Params(20, 500000, true, true, true)
  {
  }

  /** Some visited argument enables `c` exactly when one starts with its flag. */
  lemma FlagSeen(argv: seq<string>, c: Category)
    ensures Enable(c) in FlagOptions(argv) <==>
      exists k :: FlagStart(argv) <= k < |argv| && HasPrefix(argv[k], CategoryFlag(c))
  {
    var lo := FlagStart(argv);
    var opts := FlagOptions(argv);
    if lo <= |argv| {
      OptionsBetweenLength(argv, lo, |argv|);
      if Enable(c) in opts {
        var k :| 0 <= k < |opts| && opts[k] == Enable(c);
        OptionsBetweenAt(argv, lo, |argv|, k);
        ClassifyEnables(argv[lo + k], c);
      }
      if k :| lo <= k < |argv| && HasPrefix(argv[k], CategoryFlag(c)) {
        OptionsBetweenAt(argv, lo, |argv|, k - lo);
        ClassifyEnables(argv[k], c);
      }
    }
  }

  /** The enable rule, in terms of the arguments themselves: a category is
      shown iff no visited argument starts with any category flag, or some
      visited argument starts with its own. */
  lemma EnableRule(argv: seq<string>, c: Category)
    ensures Shows(Parse(argv), c) <==>
      (forall c' :: !exists k :: FlagStart(argv) <= k < |argv| && HasPrefix(argv[k], CategoryFlag(c')))
      || (exists k :: FlagStart(argv) <= k < |argv| && HasPrefix(argv[k], CategoryFlag(c)))
  {
    var opts := FlagOptions(argv);
    var any := AnyCategory(opts);
    assert !any <==> forall c' :: Enable(c') !in opts by {
      forall c' ensures Enable(c') in opts ==> any {
        match c' { case Memory => case Cpu => case Cores => }
      }
    }
    forall c' ensures Enable(c') in opts <==>
      exists k :: FlagStart(argv) <= k < |argv| && HasPrefix(argv[k], CategoryFlag(c')) {
      FlagSeen(argv, c');
    }
  }

  /** Appending an argument that starts with '-' appends its meaning to the
      options and takes no positional. */
  lemma AppendedFlag(argv: seq<string>, arg: string)
    requires |argv| >= 1 && !IsPositional(arg)
    ensures PositionalCount(argv + [arg]) == PositionalCount(argv)
    ensures FlagOptions(argv + [arg]) == FlagOptions(argv) + [Classify(arg)]
  {
    var argv' := argv + [arg];
    assert forall k :: 0 <= k < |argv| ==> argv'[k] == argv[k];
    assert PositionalCount(argv') == PositionalCount(argv);
    OptionsBetweenAppend(argv, arg, FlagStart(argv), |argv|);
    assert argv'[|argv|] == arg;
  }

  /** A further `--samples=N` or `--tdelay=N` decides that number and leaves
      everything else as it was: the last one wins and the category toggle
      is untouched. */
  lemma LastSettingWins(argv: seq<string>, s: Setting, n: nat)
    requires |argv| >= 1
    ensures var p := Parse(argv + [SettingPrefix(s) + Decimal(n)]);
      p == if s == Samples then Parse(argv).(samples := n) else Parse(argv).(tdelay := n)
  {
    var arg := SettingPrefix(s) + Decimal(n);
    assert Classify(arg) == Set(s, Decimal(n)) by {
      ClassifySets(arg, s, Decimal(n));
      assert Decimal(n) == arg[|SettingPrefix(s)|..];
    }
    assert Atoi(Decimal(n)) == n by {
      assert Decimal(n) + [] == Decimal(n);
      AtoiOfDecimal(n, []);
    }
    assert !IsPositional(arg) by {
      assert arg[0] == '-';
    }
    AppendedSetting(argv, arg);
  }

  /** An argument that starts with '-' and names no category changes only
      the setting it names, if any; the category toggle and the other
      number stay as they were. */
  lemma AppendedSetting(argv: seq<string>, arg: string)
    requires |argv| >= 1 && !IsPositional(arg) && !Classify(arg).Enable?
    ensures var p, o := Parse(argv), Classify(arg);
      Parse(argv + [arg]) == p.(samples := if Sets(o, Samples) then Atoi(o.text) else p.samples,
                                tdelay := if Sets(o, Delay) then Atoi(o.text) else p.tdelay)
  {
    AppendedFlag(argv, arg);
    var p := Parse(argv);
    StepFacts(FlagOptions(argv), Classify(arg),
      if PositionalCount(argv) >= 1 then Atoi(argv[1]) else DefaultSamples,
      if PositionalCount(argv) == 2 then Atoi(argv[2]) else DefaultDelay);
  }

  /** An argument that starts with '-' and matches no flag changes nothing. */
  lemma UnrecognisedIgnored(argv: seq<string>, arg: string)
    requires |argv| >= 1 && !IsPositional(arg) && Classify(arg) == Ignored
    ensures Parse(argv + [arg]) == Parse(argv)
  {
    AppendedSetting(argv, arg);
  }

  /** An argument the flag loop does not recognise changes nothing wherever
      it stands among the visited arguments (`prog -x foo`, `prog 10 500 foo`,
      or between two flags). It must not become a positional itself: it
      starts with '-', it comes after the first visited argument, or both
      positionals are already taken. */
  lemma IgnoredInserted(argv: seq<string>, arg: string, i: nat)
    requires |argv| >= 1 && FlagStart(argv) <= i <= |argv| && Classify(arg) == Ignored
    requires !IsPositional(arg) || FlagStart(argv) < i || PositionalCount(argv) == 2
    ensures Parse(argv[..i] + [arg] + argv[i..]) == Parse(argv)
  {
    var argv' := argv[..i] + [arg] + argv[i..];
    assert |argv'| == |argv| + 1 && argv'[i] == arg;
    assert forall k :: 0 <= k < i ==> argv'[k] == argv[k];
    assert forall k :: i < k < |argv'| ==> argv'[k] == argv[k - 1];
    IgnoredInsertedAt(argv, argv', i);
  }

  /** `IgnoredInserted` on the wider argument list, given index by index. */
  lemma IgnoredInsertedAt(argv: seq<string>, wider: seq<string>, i: nat)
    requires |argv| >= 1 && FlagStart(argv) <= i <= |argv| && |wider| == |argv| + 1
    requires forall k :: 0 <= k < i ==> wider[k] == argv[k]
    requires forall k :: i < k < |wider| ==> wider[k] == argv[k - 1]
    requires Classify(wider[i]) == Ignored
    requires !IsPositional(wider[i]) || FlagStart(argv) < i || PositionalCount(argv) == 2
    ensures Parse(wider) == Parse(argv)
  {
    assert PositionalCount(wider) == PositionalCount(argv) &&
      (PositionalCount(argv) >= 1 ==> wider[1] == argv[1]) &&
      (PositionalCount(argv) == 2 ==> wider[2] == argv[2]) by {
      PositionalsKept(argv, wider, i);
    }
    var lo := FlagStart(argv);
    var opts, opts' := FlagOptions(argv), FlagOptions(wider);
    assert |opts| == |argv| - lo by {
      OptionsBetweenLength(argv, lo, |argv|);
    }
    var a, b := opts[..i - lo], opts[i - lo..];
    assert opts == a + b && opts' == a + [Ignored] + b by {
      OptionsBetweenInsert(argv, wider, lo, i, |argv|);
    }
    ParseOfParts(argv, wider, a, b);
  }

  /** `Parse` sees the positionals and the flag options only. */
  lemma ParseOfParts(argv: seq<string>, wider: seq<string>, a: seq<Opt>, b: seq<Opt>)
    requires PositionalCount(wider) == PositionalCount(argv)
    requires PositionalCount(argv) >= 1 ==> wider[1] == argv[1]
    requires PositionalCount(argv) == 2 ==> wider[2] == argv[2]
    requires FlagOptions(argv) == a + b && FlagOptions(wider) == a + [Ignored] + b
    ensures Parse(wider) == Parse(argv)
  {
    LastTextIgnored(a, b, Samples);
    LastTextIgnored(a, b, Delay);
  }

  /** Inserting at or after the flag start keeps the positionals, unless
      the inserted argument itself lands where a positional is read. */
  lemma PositionalsKept(argv: seq<string>, wider: seq<string>, i: nat)
    requires |argv| >= 1 && FlagStart(argv) <= i <= |argv| && |wider| == |argv| + 1
    requires forall k :: 0 <= k < i ==> wider[k] == argv[k]
    requires forall k :: i < k < |wider| ==> wider[k] == argv[k - 1]
    requires !IsPositional(wider[i]) || FlagStart(argv) < i || PositionalCount(argv) == 2
    ensures PositionalCount(wider) == PositionalCount(argv)
    ensures PositionalCount(argv) >= 1 ==> wider[1] == argv[1]
    ensures PositionalCount(argv) == 2 ==> wider[2] == argv[2]
  {
    if i > 2 {
      assert wider[1] == argv[1] && wider[2] == argv[2];
    } else if i == 2 {
      assert wider[1] == argv[1];
    }
  }

  /** `prog 10 500 foo`: after two positionals, `foo` is ignored. */
  lemma TrailingWordIgnored(prog: string)
    ensures Parse([prog, "10", "500", "foo"]) == Parse([prog, "10", "500"])
  {
    var argv := [prog, "10", "500"];
    assert argv[..3] + ["foo"] + argv[3..] == [prog, "10", "500", "foo"];
    IgnoredInserted(argv, "foo", 3);
  }

  /** The options of `argv` with `arg` inserted at index i (`wider`): the
      option of `arg` stands between those of the arguments before and
      after it. */
  lemma {:induction false} OptionsBetweenInsert(argv: seq<string>, wider: seq<string>, lo: nat, i: nat, hi: nat)
    requires lo <= i <= hi <= |argv| && |wider| == |argv| + 1
    requires forall k :: 0 <= k < i ==> wider[k] == argv[k]
    requires forall k :: i < k < |wider| ==> wider[k] == argv[k - 1]
    ensures var opts := OptionsBetween(argv, lo, hi);
      |opts| == hi - lo &&
      OptionsBetween(wider, lo, hi + 1) == opts[..i - lo] + [Classify(wider[i])] + opts[i - lo..]
  {
    OptionsBetweenLength(argv, lo, hi);
    var opts := OptionsBetween(argv, lo, hi);
    assert OptionsBetween(wider, lo, hi + 1) == OptionsBetween(wider, lo, hi) + [Classify(wider[hi])];
    if hi == i {
      OptionsBetweenPrefix(wider, argv, lo, i);
      assert opts[..i - lo] == opts && opts[i - lo..] == [];
    } else {
      OptionsBetweenInsert(argv, wider, lo, i, hi - 1);
      var prev := OptionsBetween(argv, lo, hi - 1);
      var c := Classify(argv[hi - 1]);
      assert opts == prev + [c];
      assert opts[..i - lo] == prev[..i - lo];
      assert opts[i - lo..] == prev[i - lo..] + [c];
      assert wider[hi] == argv[hi - 1];
    }
  }

  /** The options of two argument lists that agree below `hi` agree. */
  lemma {:induction false} OptionsBetweenPrefix(a: seq<string>, b: seq<string>, lo: nat, hi: nat)
    requires hi <= |a| && hi <= |b| && forall k :: 0 <= k < hi ==> a[k] == b[k]
    ensures OptionsBetween(a, lo, hi) == OptionsBetween(b, lo, hi)
  {
    if lo < hi {
      OptionsBetweenPrefix(a, b, lo, hi - 1);
    }
  }

  /** An `Ignored` option does not hide or change the last setting. */
  lemma {:induction false} LastTextIgnored(a: seq<Opt>, b: seq<Opt>, s: Setting)
    ensures LastText(a + [Ignored] + b, s) == LastText(a + b, s)
  {
    if b == [] {
      assert a + [Ignored] + b == a + [Ignored];
      assert a + b == a;
      LastTextSnoc(a, Ignored, s);
    } else {
      var init, last := b[..|b| - 1], b[|b| - 1];
      LastTextIgnored(a, init, s);
      assert a + [Ignored] + b == (a + [Ignored] + init) + [last];
      assert a + b == (a + init) + [last];
      LastTextSnoc(a + [Ignored] + init, last, s);
      LastTextSnoc(a + init, last, s);
    }
  }

  /** A lone trailing `--cpu` after the positionals enables the CPU graph
      and sets nothing. */
  lemma CpuFlagOptions(argv: seq<string>, start: nat)
    requires |argv| == start + 1 && argv[start] == "--cpu" && FlagStart(argv) == start
    ensures FlagOptions(argv) == [Enable(Cpu)]
    ensures LastText(FlagOptions(argv), Samples) == None && LastText(FlagOptions(argv), Delay) == None
  {
    assert OptionsBetween(argv, start, start) == [];
    assert Classify("--cpu") == Enable(Cpu);
    assert [Enable(Cpu)][..0] == [];
  }

  /** The text of `--samples=5`. */
  lemma SamplesFiveText()
    ensures SettingPrefix(Samples) + Decimal(5) == "--samples=5"
  {
    assert Decimal(5) == "5";
  }

  /** `--cpu` alone: only the CPU graph, default numbers. */
  lemma CpuOnly(prog: string)
    ensures Parse([prog, "--cpu"]) == Params(20, 500000, false, true, false)
  {
    var argv := [prog, "--cpu"];
    assert argv[1][0] == '-';
    assert PositionalCount(argv) == 0;
    CpuFlagOptions(argv, 1);
  }

  /** `--cpu --samples=5`: only the CPU graph, 5 samples. */
  lemma CpuOnlyFiveSamples(prog: string)
    ensures Parse([prog, "--cpu", "--samples=5"]) == Params(5, 500000, false, true, false)
  {
    CpuOnly(prog);
    SamplesFiveText();
    assert [prog, "--cpu"] + ["--samples=5"] == [prog, "--cpu", "--samples=5"];
    LastSettingWins([prog, "--cpu"], Samples, 5);
  }

  /** A positional sample count with `--cpu`. */
  lemma PositionalWithCpu(prog: string)
    ensures Parse([prog, "7", "--cpu"]) == Params(7, 500000, false, true, false)
  {
    var argv := [prog, "7", "--cpu"];
    assert PositionalCount(argv) == 1;
    CpuFlagOptions(argv, 2);
    assert "7" == Decimal(7) + [];
    AtoiOfDecimal(7, []);
  }

  /** A positional sample count is overridden by a later `--samples=`. */
  lemma SamplesFlagOverridesPositional(prog: string)
    ensures Parse([prog, "7", "--cpu", "--samples=5"]) == Params(5, 500000, false, true, false)
  {
    PositionalWithCpu(prog);
    SamplesFiveText();
    assert [prog, "7", "--cpu"] + ["--samples=5"] == [prog, "7", "--cpu", "--samples=5"];
    LastSettingWins([prog, "7", "--cpu"], Samples, 5);
  }
}
