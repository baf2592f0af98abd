/** The experiment harness: it builds the planner, runs it with and without speculation for
    each input map, weight and thread count, and reports the speculative run's normalised
    performance per experiment. Running programs, the file system and the conversion of text to
    a floating-point number are parameters (an Environment); times are real numbers. */
module Sweep {
  import opened Wrappers
  import opened Decimal
  import opened ExecTime

  const Binary: string := "xyplan.out"
  const MapPatterns: seq<string> := ["input-obs/Boston_1024_1024_d001.obs"]
  const Weights: seq<int> := [1]
  const NumTests: int := 10

  /** What running one command gives: its exit status and its output, split into lines. */
  datatype Trial = Trial(status: int, output: seq<string>)

  /** The outside world as the harness sees it. */
  datatype Environment = Environment(
    glob: string -> seq<string>,
    run: seq<string> -> Trial,
    binaryExists: bool,
    toFloat: string -> Option<real>,
    basename: string -> string)

  /** Why a run of the harness stops: one of its assertions, or an exception. */
  datatype Failure =
    | CleanFailed(status: int)
    | BuildFailed(status: int)
    | BinaryMissing
    | NoInputMaps
    | TrialFailed(cmd: string, status: int)
    | NoExecTime(cmd: string)
    | NotANumber(token: string)
    | DivisionByZero

  /** What one (map, weight) experiment yields: its title, the plot's file name, the two time
      series (one entry per thread count) and their ratios. */
  datatype Report = Report(
    signature: string,
    fileName: string,
    baseline: seq<real>,
    speculative: seq<real>,
    normPerf: seq<real>)

  /** 2 to the power n. */
  function Pow2(n: nat): (p: nat)
    ensures p >= 1
  {
    if n == 0 then 1 else 2 * Pow2(n - 1)
  }

  /** The thread counts: 2 to the powers 1 through 4. */
  function ThreadAxis(): (ts: seq<int>)
    ensures |ts| == 4
  {
    seq(4, i requires 0 <= i < 4 => Pow2(i + 1))
  }

  predicate IsPowerOfTwo(n: int)
  {
    exists k: nat :: k <= n && n == Pow2(k)
  }

  /** The axis is exactly 2, 4, 8, 16: strictly increasing powers of two. */
  lemma ThreadAxisValues()
    ensures ThreadAxis() == [2, 4, 8, 16]
    ensures forall i, j :: 0 <= i < j < |ThreadAxis()| ==> ThreadAxis()[i] < ThreadAxis()[j]
    ensures forall i :: 0 <= i < |ThreadAxis()| ==> IsPowerOfTwo(ThreadAxis()[i])
  {
  }

  /** The white space shlex splits on. */
  predicate IsShellSpace(c: char)
  {
    c == ' ' || c == '\t' || c == '\r' || c == '\n'
  }

  predicate NoShellSpace(w: string)
  {
    forall k :: 0 <= k < |w| ==> !IsShellSpace(w[k])
  }

  /** No character that shlex treats specially in POSIX mode: no quote and no backslash. */
  predicate NoQuoting(w: string)
  {
    forall k :: 0 <= k < |w| ==> w[k] != '\'' && w[k] != '"' && w[k] != '\\'
  }

  /** Where the word ending at j starts. */
  function WordStart(s: string, j: nat): (i: nat)
    requires j <= |s|
    ensures i <= j
    ensures j > 0 && !IsShellSpace(s[j - 1]) ==> i < j
    ensures forall k :: i <= k < j ==> !IsShellSpace(s[k])
    decreases j
  {
    if j > 0 && !IsShellSpace(s[j - 1]) then WordStart(s, j - 1) else j
  }

  /** shlex.split on text with no quotes or escapes: the maximal runs of non-space
      characters, in order. */
  function Words(s: string): (ws: seq<string>)
    ensures forall k :: 0 <= k < |ws| ==> ws[k] != [] && NoShellSpace(ws[k])
    decreases |s|
  {
    if s == [] then []
    else if IsShellSpace(s[|s| - 1]) then Words(s[..|s| - 1])
    else
      var i := WordStart(s, |s|);
      Words(s[..i]) + [s[i..]]
  }

  lemma {:induction false} WordStartAt(s: string, i: nat, j: nat)
    requires i <= j <= |s|
    requires i == 0 || IsShellSpace(s[i - 1])
    requires forall k :: i <= k < j ==> !IsShellSpace(s[k])
    ensures WordStart(s, j) == i
    decreases j
  {
    if i < j {
      WordStartAt(s, i, j - 1);
    }
  }

  /** A single word splits to itself. */
  lemma WordsOfWord(w: string)
    requires w != [] && NoShellSpace(w)
    ensures Words(w) == [w]
  {
    WordStartAt(w, 0, |w|);
    assert w[..0] == [] && w[0..] == w;
  }

  /** Appending a space and a word to a command appends that word to its split. */
  lemma WordsSnoc(s: string, w: string)
    requires w != [] && NoShellSpace(w)
    ensures Words(s + " " + w) == Words(s) + [w]
  {
    var t := s + " " + w;
    WordStartAt(t, |s| + 1, |t|);
    assert t[..|s| + 1] == s + " ";
    assert t[|s| + 1..] == w;
    assert (s + " ")[..|s|] == s;
  }

  /** `./xyplan.out --map=<file> --num-tests=10 --weight=<w> --threads=<t>` */
  function BaselineCommand(inputFile: string, w: int, t: int): string
  {
    "./" + Binary + " --map=" + inputFile + " --num-tests=" + DecimalString(NumTests) +
    " --weight=" + DecimalString(w) + " --threads=" + DecimalString(t)
  }

  /** The same command with speculation switched on. */
  function SpeculativeCommand(inputFile: string, w: int, t: int): string
  {
    BaselineCommand(inputFile, w, t) + " --speculation"
  }

  lemma NoShellSpaceConcat(a: string, b: string)
    requires NoShellSpace(a) && NoShellSpace(b)
    ensures NoShellSpace(a + b)
  {
  }

  /** A rendered number has no white space. */
  lemma NumberHasNoSpace(n: int)
    ensures NoShellSpace(DecimalString(n))
  {
    DecimalStringChars(n);
  }

  /** Appending a space, a word and a value with no white space appends one word. */
  lemma WordsAfter(s: string, name: string, value: string)
    requires name != [] && NoShellSpace(name) && NoShellSpace(value)
    ensures Words(s + (" " + name) + value) == Words(s) + [name + value]
  {
    NoShellSpaceConcat(name, value);
    assert s + (" " + name) + value == s + " " + (name + value);
    WordsSnoc(s, name + value);
  }

  /** The literal pieces of the planner's command lines: each is a space and then a word. */
  lemma CommandLiterals()
    ensures " --map=" == " " + "--map=" && NoShellSpace("--map=")
    ensures " --num-tests=" == " " + "--num-tests=" && NoShellSpace("--num-tests=")
    ensures " --weight=" == " " + "--weight=" && NoShellSpace("--weight=")
    ensures " --threads=" == " " + "--threads=" && NoShellSpace("--threads=")
    ensures NoShellSpace("./xyplan.out")
  {
  }

  /** The speculation switch: a space and then a word. */
  lemma SpeculationLiteral()
    ensures " --speculation" == " " + "--speculation" && NoShellSpace("--speculation")
  {
  }

  /** The literal pieces of the make command lines. */
  lemma MakeLiterals()
    ensures "make clean" == "make" + (" " + "clean") && NoShellSpace("clean")
    ensures "make performance" == "make" + (" " + "performance") && NoShellSpace("performance")
    ensures NoShellSpace("make")
  {
  }

  /** The speculative command's words are the baseline command's words and then one more,
      `--speculation`. */
  lemma SpeculativeAddsOneWord(inputFile: string, w: int, t: int)
    ensures Words(SpeculativeCommand(inputFile, w, t)) ==
      Words(BaselineCommand(inputFile, w, t)) + ["--speculation"]
  {
    SpeculationLiteral();
    WordsAfter(BaselineCommand(inputFile, w, t), "--speculation", "");
    assert BaselineCommand(inputFile, w, t) + (" " + "--speculation") + "" == SpeculativeCommand(inputFile, w, t);
    assert "--speculation" + "" == "--speculation";
  }

  /** For a map path with no white space, quote or backslash, the baseline command splits into
      the program and its four options. */
  lemma BaselineWords(inputFile: string, w: int, t: int)
    requires NoShellSpace(inputFile) && NoQuoting(inputFile)
    ensures Words(BaselineCommand(inputFile, w, t)) ==
      ["./xyplan.out", "--map=" + inputFile, "--num-tests=10", "--weight=" + DecimalString(w),
       "--threads=" + DecimalString(t)]
  {
    CommandLiterals();
    var program := "./" + Binary;
    assert program == "./xyplan.out";
    WordsOfWord(program);
    var c1 := program + " --map=" + inputFile;
    WordsAfter(program, "--map=", inputFile);
    assert Words(c1) == ["./xyplan.out", "--map=" + inputFile];
    TestsOption();
    var c2 := c1 + " --num-tests=" + DecimalString(NumTests);
    WordsAfter(c1, "--num-tests=", DecimalString(NumTests));
    assert Words(c2) == ["./xyplan.out", "--map=" + inputFile, "--num-tests=10"];
    NumberHasNoSpace(w);
    var c3 := c2 + " --weight=" + DecimalString(w);
    WordsAfter(c2, "--weight=", DecimalString(w));
    assert Words(c3) == ["./xyplan.out", "--map=" + inputFile, "--num-tests=10", "--weight=" + DecimalString(w)];
    NumberHasNoSpace(t);
    WordsAfter(c3, "--threads=", DecimalString(t));
    assert BaselineCommand(inputFile, w, t) == c3 + " --threads=" + DecimalString(t);
  }

  /** The number of tests renders as 10. */
  lemma TestsOption()
    ensures DecimalString(NumTests) == "10" && NoShellSpace(DecimalString(NumTests))
    ensures "--num-tests=" + DecimalString(NumTests) == "--num-tests=10"
  {
  }

  /** The two make invocations split into the program and its target. */
  lemma MakeWords()
    ensures Words("make clean") == ["make", "clean"]
    ensures Words("make performance") == ["make", "performance"]
  {
    MakeLiterals();
    WordsOfWord("make");
    WordsAfter("make", "clean", "");
    WordsAfter("make", "performance", "");
    assert "clean" + "" == "clean" && "performance" + "" == "performance";
    assert "make" + (" " + "clean") + "" == "make clean";
    assert "make" + (" " + "performance") + "" == "make performance";
  }

  /** Running one command and reading its time: a non-zero status, a missing time and a token
      that is not a number each stop the harness. */
  function TrialTime(env: Environment, cmd: string): (r: Result<real, Failure>)
    ensures r.Ok? <==>
      env.run(Words(cmd)).status == 0 && FirstExecTime(env.run(Words(cmd)).output).Some? &&
      env.toFloat(FirstExecTime(env.run(Words(cmd)).output).value).Some?
    ensures r.Ok? ==> Some(r.value) == env.toFloat(FirstExecTime(env.run(Words(cmd)).output).value)
    ensures r.Err? ==> r.error.TrialFailed? || r.error.NoExecTime? || r.error.NotANumber?
  {
    var trial := env.run(Words(cmd));
    if trial.status != 0 then Err(TrialFailed(cmd, trial.status))
    else match FirstExecTime(trial.output)
      case None => Err(NoExecTime(cmd))
      case Some(token) =>
        match env.toFloat(token)
        case None => Err(NotANumber(token))
        case Some(v) => Ok(v)
  }

  /** The harness's way of timing one command in the given environment. */
  function Timing(env: Environment): string -> Result<real, Failure>
  {
    cmd => TrialTime(env, cmd)
  }

  /** The two series after the first n thread counts, each command timed by time: for each
      count, the baseline run and then the speculative run. The first failure, in that order,
      stops the sweep. */
  function Series(time: string -> Result<real, Failure>, inputFile: string, w: int, threads: seq<int>, n: nat)
    : (r: Result<(seq<real>, seq<real>), Failure>)
    requires n <= |threads|
    ensures r.Ok? ==> |r.value.0| == n && |r.value.1| == n
  {
    if n == 0 then Ok(([], []))
    else
      match Series(time, inputFile, w, threads, n - 1)
      case Err(e) => Err(e)
      case Ok((baseline, speculative)) =>
        var t := threads[n - 1];
        match time(BaselineCommand(inputFile, w, t))
        case Err(e) => Err(e)
        case Ok(b) =>
          match time(SpeculativeCommand(inputFile, w, t))
          case Err(e) => Err(e)
          case Ok(s) => Ok((baseline + [b], speculative + [s]))
  }

  /** The series are aligned with the thread counts: entry k of each is the time of the run
      with the k-th count. */
  lemma {:induction false} SeriesAligned(time: string -> Result<real, Failure>, inputFile: string, w: int,
                                         threads: seq<int>, n: nat)
    requires n <= |threads| && Series(time, inputFile, w, threads, n).Ok?
    ensures var (baseline, speculative) := Series(time, inputFile, w, threads, n).value;
      |baseline| == n && |speculative| == n &&
      forall k :: 0 <= k < n ==>
        time(BaselineCommand(inputFile, w, threads[k])) == Ok(baseline[k]) &&
        time(SpeculativeCommand(inputFile, w, threads[k])) == Ok(speculative[k])
  {
    if n > 0 {
      SeriesAligned(time, inputFile, w, threads, n - 1);
    }
  }

  /** Once a run has failed, the sweep's outcome is that failure. */
  lemma {:induction false} SeriesFailureStays(time: string -> Result<real, Failure>, inputFile: string, w: int,
                                              threads: seq<int>, k: nat, n: nat)
    requires k <= n <= |threads| && Series(time, inputFile, w, threads, k).Err?
    ensures Series(time, inputFile, w, threads, n) == Series(time, inputFile, w, threads, k)
    decreases n
  {
    if k < n {
      SeriesFailureStays(time, inputFile, w, threads, k, n - 1);
    }
  }

  /** A failing baseline run stops the sweep before its speculative run matters. */
  lemma BaselineFailureWins(time: string -> Result<real, Failure>, inputFile: string, w: int,
                            threads: seq<int>, n: nat)
    requires 0 < n <= |threads| && Series(time, inputFile, w, threads, n - 1).Ok?
    requires time(BaselineCommand(inputFile, w, threads[n - 1])).Err?
    ensures Series(time, inputFile, w, threads, n) == Err(time(BaselineCommand(inputFile, w, threads[n - 1])).error)
  {
  }

  /** `[j/i for i, j in zip(execTimeRAstar, execTimeBaseline)]`: the baseline time over the
      speculative time, pairwise, as far as the shorter series goes. */
  function NormPerf(speculative: seq<real>, baseline: seq<real>): (r: Result<seq<real>, Failure>)
    ensures r.Ok? <==> forall k :: 0 <= k < |speculative| && k < |baseline| ==> speculative[k] != 0.0
    ensures r.Err? ==> r.error == DivisionByZero
    ensures r.Ok? ==> |r.value| == if |speculative| < |baseline| then |speculative| else |baseline|
    ensures r.Ok? ==> forall k :: 0 <= k < |r.value| ==> r.value[k] == baseline[k] / speculative[k]
  {
    if speculative == [] || baseline == [] then Ok([])
    else if speculative[0] == 0.0 then Err(DivisionByZero)
    else
      match NormPerf(speculative[1..], baseline[1..])
      case Err(e) => Err(e)
      case Ok(rest) => Ok([baseline[0] / speculative[0]] + rest)
  }

  /** For positive times, a ratio above 1 means the speculative run was faster. */
  lemma RatioAboveOneIsSpeedup(speculative: seq<real>, baseline: seq<real>, k: nat)
    requires NormPerf(speculative, baseline).Ok? && k < |NormPerf(speculative, baseline).value|
    requires speculative[k] > 0.0
    ensures NormPerf(speculative, baseline).value[k] > 1.0 <==> speculative[k] < baseline[k]
  {
    QuotientAboveOne(baseline[k], speculative[k]);
  }

  lemma QuotientAboveOne(b: real, s: real)
    requires s > 0.0
    ensures b / s > 1.0 <==> s < b
  {
  }

  /** `map:<basename> numTests:10 weight:<w>` */
  function Signature(mapName: string, w: int): (s: string)
  {
    "map:" + mapName + " numTests:" + DecimalString(NumTests) + " weight:" + DecimalString(w)
  }

  /** str.replace(' ', '_') */
  function ReplaceSpaces(s: string): (r: string)
    ensures |r| == |s| && ' ' !in r
    ensures forall i :: 0 <= i < |s| && s[i] != ' ' ==> r[i] == s[i]
  {
    seq(|s|, i requires 0 <= i < |s| => if s[i] == ' ' then '_' else s[i])
  }

  /** str.replace(':', '') */
  function RemoveColons(s: string): (r: string)
    ensures ':' !in r && |r| <= |s|
    ensures forall c :: c != ':' ==> multiset(r)[c] == multiset(s)[c]
  {
    if s == [] then []
    else
      assert s == [s[0]] + s[1..];
      (if s[0] == ':' then [] else [s[0]]) + RemoveColons(s[1..])
  }

  /** The plot's file name for an experiment. */
  function OutputFileName(signature: string): (name: string)
  {
    "rastar_perf_" + RemoveColons(ReplaceSpaces(signature)) + ".png"
  }

  /** The sanitising in one pass: each space becomes an underscore and each colon is dropped. */
  function Sanitized(s: string): (r: string)
  {
    if s == [] then []
    else (if s[0] == ':' then [] else if s[0] == ' ' then ['_'] else [s[0]]) + Sanitized(s[1..])
  }

  lemma {:induction false} ReplaceThenRemoveIsSanitized(s: string)
    ensures RemoveColons(ReplaceSpaces(s)) == Sanitized(s)
  {
    if s != [] {
      ReplaceThenRemoveIsSanitized(s[1..]);
      assert ReplaceSpaces(s)[1..] == ReplaceSpaces(s[1..]);
    }
  }

  lemma {:induction false} SanitizedHasNoSpaceOrColon(s: string)
    ensures forall k :: 0 <= k < |Sanitized(s)| ==> Sanitized(s)[k] != ' ' && Sanitized(s)[k] != ':'
  {
    if s != [] {
      SanitizedHasNoSpaceOrColon(s[1..]);
    }
  }

  /** The file name is the prefix, the sanitised signature and the extension, and has no space
      and no colon anywhere. */
  lemma FileNameShape(signature: string)
    ensures OutputFileName(signature) == "rastar_perf_" + Sanitized(signature) + ".png"
    ensures forall k :: 0 <= k < |OutputFileName(signature)| ==>
      OutputFileName(signature)[k] != ' ' && OutputFileName(signature)[k] != ':'
  {
    ReplaceThenRemoveIsSanitized(signature);
    SanitizedHasNoSpaceOrColon(signature);
    var mid := Sanitized(signature);
    var name := OutputFileName(signature);
    assert forall k :: 12 <= k < 12 + |mid| ==> name[k] == mid[k - 12];
  }

  /** What one (map, weight) experiment reports, or why it stops. */
  function GroupReport(env: Environment, inputFile: string, w: int): (r: Result<Report, Failure>)
  {
    match Series(Timing(env), inputFile, w, ThreadAxis(), |ThreadAxis()|)
    case Err(e) => Err(e)
    case Ok((baseline, speculative)) =>
      match NormPerf(speculative, baseline)
      case Err(e) => Err(e)
      case Ok(np) =>
        var signature := Signature(env.basename(inputFile), w);
        Ok(Report(signature, OutputFileName(signature), baseline, speculative, np))
  }

  /** A finished experiment has one time per thread count in each series and one ratio per
      thread count, baseline over speculative. */
  lemma GroupReportShape(env: Environment, inputFile: string, w: int)
    requires GroupReport(env, inputFile, w).Ok?
    ensures var rep := GroupReport(env, inputFile, w).value;
      |rep.baseline| == |rep.speculative| == |rep.normPerf| == |ThreadAxis()| &&
      (forall k :: 0 <= k < |ThreadAxis()| ==> rep.normPerf[k] == rep.baseline[k] / rep.speculative[k]) &&
      forall k :: 0 <= k < |ThreadAxis()| ==>
        TrialTime(env, BaselineCommand(inputFile, w, ThreadAxis()[k])) == Ok(rep.baseline[k]) &&
        TrialTime(env, SpeculativeCommand(inputFile, w, ThreadAxis()[k])) == Ok(rep.speculative[k])
    ensures var rep := GroupReport(env, inputFile, w).value;
      rep.signature == Signature(env.basename(inputFile), w) &&
      rep.fileName == OutputFileName(rep.signature)
  {
    SeriesAligned(Timing(env), inputFile, w, ThreadAxis(), |ThreadAxis()|);
  }

  /** One run of a command and the time read from its output. */
  method RunTrial(env: Environment, cmd: string) returns (res: Result<real, Failure>)
    ensures res == TrialTime(env, cmd)
  {
    var trial := env.run(Words(cmd));
    if trial.status != 0 {
      return Err(TrialFailed(cmd, trial.status));
    }
    var extracted := ExtractExecTime(trial.output);
    if extracted.Err? {
      return Err(NoExecTime(cmd));
    }
    var v := env.toFloat(extracted.value);
    if v.None? {
      return Err(NotANumber(extracted.value));
    }
    return Ok(v.value);
  }

  /** The sweep over the thread axis for one map and weight: per thread count, the baseline
      run then the speculative run, each time appended to its series; then the ratios. */
  method RunGroup(env: Environment, inputFile: string, w: int) returns (res: Result<Report, Failure>)
    ensures res == GroupReport(env, inputFile, w)
  {
    var threads := ThreadAxis();
    var baseline: seq<real> := [];
    var speculative: seq<real> := [];
    var signature := Signature(env.basename(inputFile), w);
    var k := 0;
    while k < |threads|
      invariant 0 <= k <= |threads|
      invariant Series(Timing(env), inputFile, w, threads, k) == Ok((baseline, speculative))
    {
      var t := threads[k];
      var cmd := BaselineCommand(inputFile, w, t);
      var b := RunTrial(env, cmd);
      if b.Err? {
        SeriesFailureStays(Timing(env), inputFile, w, threads, k + 1, |threads|);
        return Err(b.error);
      }
      baseline := baseline + [b.value];
      cmd := cmd + " --speculation";
      var s := RunTrial(env, cmd);
      if s.Err? {
        SeriesFailureStays(Timing(env), inputFile, w, threads, k + 1, |threads|);
        return Err(s.error);
      }
      speculative := speculative + [s.value];
      k := k + 1;
    }
    var np := NormPerf(speculative, baseline);
    if np.Err? {
      return Err(np.error);
    }
    return Ok(Report(signature, OutputFileName(signature), baseline, speculative, np.value));
  }

  /** The paths the patterns expand to. */
  ghost predicate Globbed(env: Environment, patterns: seq<string>, f: string)
  {
    exists p :: 0 <= p < |patterns| && f in env.glob(patterns[p])
  }

  /** The input maps: every path any pattern expands to, each once. */
  method CollectInputMaps(env: Environment, patterns: seq<string>) returns (files: set<string>)
    ensures forall f :: f in files <==> Globbed(env, patterns, f)
  {
    files := {};
    var p := 0;
    while p < |patterns|
      invariant 0 <= p <= |patterns|
      invariant forall f :: f in files <==> Globbed(env, patterns[..p], f)
    {
      var found := env.glob(patterns[p]);
      var i := 0;
      while i < |found|
        invariant 0 <= i <= |found|
        invariant forall f :: f in files <==> Globbed(env, patterns[..p], f) || f in found[..i]
      {
        files := files + {found[i]};
        i := i + 1;
      }
      GlobbedSnoc(env, patterns, p);
      assert found[..i] == found;
      p := p + 1;
    }
    assert patterns[..p] == patterns;
  }

  lemma GlobbedSnoc(env: Environment, patterns: seq<string>, p: nat)
    requires p < |patterns|
    ensures forall f :: Globbed(env, patterns[..p + 1], f) <==>
      Globbed(env, patterns[..p], f) || f in env.glob(patterns[p])
  {
  }

  /** The experiments for one map, one per weight in order; the first failure stops them. */
  method RunMap(env: Environment, inputFile: string) returns (res: Result<seq<Report>, Failure>)
    ensures res.Ok? ==> |res.value| == |Weights|
    ensures res.Ok? ==> forall i :: 0 <= i < |Weights| ==> GroupReport(env, inputFile, Weights[i]) == Ok(res.value[i])
    ensures res.Err? ==> exists i :: 0 <= i < |Weights| && GroupReport(env, inputFile, Weights[i]) == Err(res.error)
  {
    var reports: seq<Report> := [];
    var i := 0;
    while i < |Weights|
      invariant 0 <= i <= |Weights| && |reports| == i
      invariant forall i' :: 0 <= i' < i ==> GroupReport(env, inputFile, Weights[i']) == Ok(reports[i'])
    {
      var r := RunGroup(env, inputFile, Weights[i]);
      if r.Err? {
        return Err(r.error);
      }
      reports := reports + [r.value];
      i := i + 1;
    }
    return Ok(reports);
  }

  /** Every report comes from one of the maps and one of the weights. */
  ghost predicate FromExperiment(env: Environment, files: set<string>, rep: Report)
  {
    exists f, w :: f in files && w in Weights && GroupReport(env, f, w) == Ok(rep)
  }

  /** Every weight of map f has its report among reports. */
  ghost predicate MapReported(env: Environment, f: string, reports: seq<Report>)
  {
    forall w :: w in Weights ==> GroupReport(env, f, w).Ok? && GroupReport(env, f, w).value in reports
  }

  /** The clean and the build succeed and the binary exists. */
  predicate StartupPasses(env: Environment)
  {
    env.run(["make", "clean"]).status == 0 && env.run(["make", "performance"]).status == 0 && env.binaryExists
  }

  /** An experiment on one of the input maps with one of the weights stops with failure e. */
  ghost predicate ExperimentFailed(env: Environment, e: Failure)
  {
    exists f, w :: Globbed(env, MapPatterns, f) && w in Weights && GroupReport(env, f, w) == Err(e)
  }

  /** The whole harness: collect the maps, clean and build, check the binary and that there is
      a map, then run every experiment, maps taken from the set in no particular order. The
      result has one report for each map and weight; the first failure stops the harness. */
  method Replicate(env: Environment) returns (res: Result<seq<Report>, Failure>)
    ensures env.run(["make", "clean"]).status != 0 ==> res == Err(CleanFailed(env.run(["make", "clean"]).status))
    ensures env.run(["make", "clean"]).status == 0 && env.run(["make", "performance"]).status != 0 ==>
      res == Err(BuildFailed(env.run(["make", "performance"]).status))
    ensures (env.run(["make", "clean"]).status == 0 && env.run(["make", "performance"]).status == 0 &&
             !env.binaryExists) ==> res == Err(BinaryMissing)
    ensures (env.run(["make", "clean"]).status == 0 && env.run(["make", "performance"]).status == 0 &&
             env.binaryExists && forall f :: !Globbed(env, MapPatterns, f)) ==> res == Err(NoInputMaps)
    ensures res.Ok? ==>
              env.run(["make", "clean"]).status == 0 && env.run(["make", "performance"]).status == 0 &&
              env.binaryExists
    ensures res.Ok? ==>
              exists files: set<string> ::
                (forall f :: f in files <==> Globbed(env, MapPatterns, f)) && files != {} &&
                |res.value| == |files| * |Weights| &&
                (forall rep :: rep in res.value ==> FromExperiment(env, files, rep)) &&
                (forall f :: f in files ==> MapReported(env, f, res.value))
    ensures StartupPasses(env) && (exists f :: Globbed(env, MapPatterns, f)) && res.Err? ==>
              ExperimentFailed(env, res.error)
    ensures StartupPasses(env) && (exists f :: Globbed(env, MapPatterns, f)) &&
            (forall f, w :: Globbed(env, MapPatterns, f) && w in Weights ==> GroupReport(env, f, w).Ok?) ==>
              res.Ok?
  {
    var files := CollectInputMaps(env, MapPatterns);
    MakeWords();
    var clean := env.run(Words("make clean"));
    if clean.status != 0 {
      return Err(CleanFailed(clean.status));
    }
    var build := env.run(Words("make performance"));
    if build.status != 0 {
      return Err(BuildFailed(build.status));
    }
    if !env.binaryExists {
      return Err(BinaryMissing);
    }
    if |files| == 0 {
      assert forall f :: !Globbed(env, MapPatterns, f);
      return Err(NoInputMaps);
    }
    var reports: seq<Report> := [];
    var remaining := files;
    while remaining != {}
      invariant remaining <= files
      invariant |reports| == (|files| - |remaining|) * |Weights|
      invariant forall rep :: rep in reports ==> FromExperiment(env, files, rep)
      invariant forall f :: f in files - remaining ==> MapReported(env, f, reports)
      decreases |remaining|
    {
      var inputFile :| inputFile in remaining;
      var r := RunMap(env, inputFile);
      if r.Err? {
        var i :| 0 <= i < |Weights| && GroupReport(env, inputFile, Weights[i]) == Err(r.error);
        assert Globbed(env, MapPatterns, inputFile) && Weights[i] in Weights;
        return Err(r.error);
      }
      AppendTraced(env, files, inputFile, reports, r.value);
      AppendReported(env, inputFile, reports, r.value);
      reports := reports + r.value;
      remaining := remaining - {inputFile};
    }
    return Ok(reports);
  }

  /** Adding one map's reports keeps every report traced to an experiment. */
  lemma AppendTraced(env: Environment, files: set<string>, f: string, reports: seq<Report>, added: seq<Report>)
    requires f in files && |added| == |Weights|
    requires forall i :: 0 <= i < |Weights| ==> GroupReport(env, f, Weights[i]) == Ok(added[i])
    requires forall rep :: rep in reports ==> FromExperiment(env, files, rep)
    ensures forall rep :: rep in reports + added ==> FromExperiment(env, files, rep)
  {
  }

  /** Adding one map's reports keeps the maps done so far reported, and reports the new one. */
  lemma AppendReported(env: Environment, f: string, reports: seq<Report>, added: seq<Report>)
    requires |added| == |Weights|
    requires forall i :: 0 <= i < |Weights| ==> GroupReport(env, f, Weights[i]) == Ok(added[i])
    ensures forall g :: MapReported(env, g, reports) ==> MapReported(env, g, reports + added)
    ensures MapReported(env, f, reports + added)
  {
    forall w | w in Weights
      ensures GroupReport(env, f, w).Ok? && GroupReport(env, f, w).value in reports + added
    {
      var i :| 0 <= i < |Weights| && Weights[i] == w;
      assert (reports + added)[|reports| + i] == added[i];
    }
  }
}
