/**
 * How the collector turns a result directory into table entries
 * (collector/main.go): the "%d_%d_%d" directory name of an array size, the
 * log-file name patterns and the numbers in them, the "SOR Time: " / "SOR: "
 * line filter, and the per-directory loop that joins one entry per log file.
 *
 * The file system is a parameter: a directory is the list of its entries, each
 * with its name, whether it is a directory, and its contents (None when
 * ReadFile fails). strconv.ParseFloat is the opaque partial function
 * `parseFloat`.
 */
module CollectorFiles {
  import opened Wrappers
  import opened Text
  import opened CollectorTimes
  import opened CollectorResult

  /** fmt.Sprintf("%d_%d_%d", size.I, size.J, size.K) */
  function DirName(size: ArraySize): string {
    Itoa(size.i) + "_" + Itoa(size.j) + "_" + Itoa(size.k)
  }

  /** A Go runtime panic: indexing past the end of a slice or array. */
  datatype Panic = IndexOutOfRange

  /**
   * mustParseArraySize: split at '_' and read the first three pieces with
   * Atoi, ignoring its errors (a bad piece reads as 0); fewer than three
   * pieces index out of range.
   */
  function MustParseArraySize(sizeStr: string): (r: Wrappers.Result<ArraySize, Panic>)
    ensures '_' !in sizeStr ==> r == Err(IndexOutOfRange)
  {
    var numStr := Split(sizeStr, '_');
    assert '_' !in sizeStr ==> numStr == [sizeStr] by {
      if '_' !in sizeStr {
        SplitWithoutSeparator(sizeStr, '_');
      }
    }
    if |numStr| < 3 then Err(IndexOutOfRange)
    else Ok(ArraySize(AtoiOrZero(numStr[0]), AtoiOrZero(numStr[1]), AtoiOrZero(numStr[2])))
  }

  /** Parsing a directory name written by "%d_%d_%d" gives back the array size, for every size. */
  lemma ParseArraySizeRoundTrip(size: ArraySize)
    ensures MustParseArraySize(DirName(size)) == Ok(size)
  {
    var a, b, c := Itoa(size.i), Itoa(size.j), Itoa(size.k);
    ItoaHasNo(size.i, '_');
    ItoaHasNo(size.j, '_');
    ItoaHasNo(size.k, '_');
    assert DirName(size) == a + ['_'] + (b + ['_'] + c);
    SplitAtFirstSeparator(a, b + ['_'] + c, '_');
    SplitAtFirstSeparator(b, c, '_');
    SplitWithoutSeparator(c, '_');
    AtoiItoa(size.i);
    AtoiItoa(size.j);
    AtoiItoa(size.k);
  }

  const RefFileName: string := "c.out"

  /** regexp `^mpi_[0-9]+\.out$`; no match is c.out or an ArgoDSM log name. */
  predicate IsMpiLogName(name: string)
    ensures IsMpiLogName(name) ==> name != RefFileName && !IsArgoLogName(name)
  {
    |name| > 8 && name[..4] == "mpi_" && name[|name| - 4..] == ".out" && AllDigits(name[4..|name| - 4])
  }

  /** regexp `^argo_[0-9]+_[0-9]+_[0-9]+_[0-9]+\.out$`; no match is c.out or a size directory name. */
  predicate IsArgoLogName(name: string)
    ensures IsArgoLogName(name) ==> name != RefFileName && !IsSizeDirName(name)
  {
    assert |name| > 9 && name[..5] == "argo_" ==> !IsSizeDirName(name) by {
      if |name| > 9 && name[..5] == "argo_" {
        assert name == "argo" + ['_'] + name[5..];
        SplitAtFirstSeparator("argo", name[5..], '_');
        assert Split(name, '_')[0] == "argo" && !AllDigits("argo");
        assert "argo" in Split(name, '_');
      }
    }
    && |name| > 9 && name[..5] == "argo_" && name[|name| - 4..] == ".out"
    && var parts := Split(name[5..|name| - 4], '_');
       |parts| == 4 && forall p :: p in parts ==> |p| >= 1 && AllDigits(p)
  }

  /** The numbers mustParseNumbers finds: the values of the digit runs of the name. */
  function ParseNumbers(filename: string): (numbers: seq<int>) {
    Values(DigitRuns(filename))
  }

  /** The values of strings of digits, in order. */
  function Values(runs: seq<string>): (numbers: seq<int>)
    requires forall r :: r in runs ==> AllDigits(r)
  {
    seq(|runs|, k requires 0 <= k < |runs| => DigitsValue(runs[k]))
  }

  /** mustParseNumbers: every match of `[0-9]+`, read with Atoi, in order. */
  method MustParseNumbers(filename: string) returns (numbers: seq<int>)
    ensures |numbers| == |DigitRuns(filename)|
    ensures forall k :: 0 <= k < |numbers| ==> numbers[k] == DigitsValue(DigitRuns(filename)[k]) >= 0
    ensures numbers == ParseNumbers(filename)
  {
    var numStr := DigitRuns(filename);
    numbers := [];
    var i := 0;
    while i < |numStr|
      invariant 0 <= i <= |numStr|
      invariant |numbers| == i
      invariant forall k :: 0 <= k < i ==> numbers[k] == DigitsValue(numStr[k])
    {
      var num := AtoiOrZero(numStr[i]);
      numbers := numbers + [num];
      i := i + 1;
    }
  }

  predicate NoDigit(s: string) {
    forall i :: 0 <= i < |s| ==> !IsDigit(s[i])
  }

  lemma NoDigitRuns(s: string)
    requires NoDigit(s)
    ensures DigitRuns(s) == []
  {
    DigitRunsSkip(s, "");
    assert s + "" == s;
  }

  /** One digit run after a digit-free separator, followed by a non-digit. */
  lemma DigitRunsStep(sep: string, d: string, rest: string)
    requires NoDigit(sep) && |d| >= 1 && AllDigits(d)
    requires rest == [] || !IsDigit(rest[0])
    ensures DigitRuns(sep + (d + rest)) == [d] + DigitRuns(rest)
  {
    DigitRunsSkip(sep, d + rest);
    DigitRunsTake(d, rest);
  }

  lemma Literals()
    ensures NoDigit("mpi_") && NoDigit("argo_") && NoDigit("_") && NoDigit(".out")
  {
  }

  /** "mpi_N.out" matches the MPI pattern. */
  lemma MpiNameMatches(d: string)
    requires |d| >= 1 && AllDigits(d)
    ensures IsMpiLogName("mpi_" + d + ".out")
  {
    var name := "mpi_" + d + ".out";
    assert name[..4] == "mpi_";
    assert name[|name| - 4..] == ".out";
    assert name[4..|name| - 4] == d;
  }

  /** "mpi_N.out" holds the one number N. */
  lemma MpiNameNumbers(n: nat)
    ensures IsMpiLogName("mpi_" + Itoa(n) + ".out")
    ensures ParseNumbers("mpi_" + Itoa(n) + ".out") == [n]
  {
    var d := Itoa(n);
    MpiNameMatches(d);
    Literals();
    assert "mpi_" + d + ".out" == "mpi_" + (d + ".out");
    DigitRunsStep("mpi_", d, ".out");
    NoDigitRuns(".out");
    DigitsValueOfNatToString(n);
  }

  /** The fixed prefix and suffix of an ArgoDSM log name frame its middle. */
  lemma ArgoNameFrame(middle: string)
    requires |middle| >= 1
    ensures var name := "argo_" + middle + ".out";
      && |name| > 9 && name[..5] == "argo_" && name[|name| - 4..] == ".out"
      && name[5..|name| - 4] == middle
  {
    var name := "argo_" + middle + ".out";
    assert name[..5] == "argo_";
    assert name[|name| - 4..] == ".out";
    assert name[5..|name| - 4] == middle;
  }

  /** Four pieces without '_' joined by '_' split back into themselves. */
  lemma SplitFour(a: string, b: string, c: string, d: string)
    requires '_' !in a && '_' !in b && '_' !in c && '_' !in d
    ensures Split(a + ['_'] + (b + ['_'] + (c + ['_'] + d)), '_') == [a, b, c, d]
  {
    SplitAtFirstSeparator(a, b + ['_'] + (c + ['_'] + d), '_');
    SplitAtFirstSeparator(b, c + ['_'] + d, '_');
    SplitAtFirstSeparator(c, d, '_');
    SplitWithoutSeparator(d, '_');
  }

  /** "argo_A_B_C_D.out" matches the ArgoDSM pattern when A, B, C, D are digit strings without '_'. */
  lemma ArgoNameMatches(a: string, b: string, c: string, d: string)
    requires |a| >= 1 && AllDigits(a) && |b| >= 1 && AllDigits(b)
    requires |c| >= 1 && AllDigits(c) && |d| >= 1 && AllDigits(d)
    ensures IsArgoLogName("argo_" + (a + ("_" + (b + ("_" + (c + ("_" + (d + ".out"))))))))
  {
    var middle := a + ['_'] + (b + ['_'] + (c + ['_'] + d));
    var name := "argo_" + (a + ("_" + (b + ("_" + (c + ("_" + (d + ".out")))))));
    assert name == "argo_" + middle + ".out";
    ArgoNameFrame(middle);
    assert '_' !in a && '_' !in b && '_' !in c && '_' !in d;
    SplitFour(a, b, c, d);
  }


  /** A digit-free separator and a run of digits in front of text that starts with a non-digit add that run. */
  lemma RunsCons(u: string, d: string, rest: string, runs: seq<string>)
    requires NoDigit(u) && |u| >= 1 && |d| >= 1 && AllDigits(d)
    requires rest == [] || !IsDigit(rest[0])
    requires DigitRuns(rest) == runs
    ensures DigitRuns(u + (d + rest)) == [d] + runs
    ensures !IsDigit((u + (d + rest))[0])
  {
    DigitRunsStep(u, d, rest);
  }

  lemma OneRun(u: string, d: string, t: string)
    requires NoDigit(u) && |u| >= 1 && NoDigit(t) && |t| >= 1 && |d| >= 1 && AllDigits(d)
    ensures DigitRuns(u + (d + t)) == [d]
    ensures !IsDigit((u + (d + t))[0])
  {
    NoDigitRuns(t);
    RunsCons(u, d, t, []);
  }

  lemma TwoRuns(u: string, c: string, d: string, t: string)
    requires NoDigit(u) && |u| >= 1 && NoDigit(t) && |t| >= 1
    requires |c| >= 1 && AllDigits(c) && |d| >= 1 && AllDigits(d)
    ensures DigitRuns(u + (c + (u + (d + t)))) == [c, d]
    ensures !IsDigit((u + (c + (u + (d + t))))[0])
  {
    OneRun(u, d, t);
    RunsCons(u, c, u + (d + t), [d]);
  }

  lemma ThreeRuns(u: string, b: string, c: string, d: string, t: string)
    requires NoDigit(u) && |u| >= 1 && NoDigit(t) && |t| >= 1
    requires |b| >= 1 && AllDigits(b) && |c| >= 1 && AllDigits(c) && |d| >= 1 && AllDigits(d)
    ensures DigitRuns(u + (b + (u + (c + (u + (d + t)))))) == [b, c, d]
    ensures !IsDigit((u + (b + (u + (c + (u + (d + t))))))[0])
  {
    TwoRuns(u, c, d, t);
    RunsCons(u, b, u + (c + (u + (d + t))), [c, d]);
  }

  /** Four digit runs between digit-free text: the runs are exactly the four numbers. */
  lemma FourRuns(p: string, u: string, t: string, a: string, b: string, c: string, d: string)
    requires NoDigit(p) && |p| >= 1 && NoDigit(u) && |u| >= 1 && NoDigit(t) && |t| >= 1
    requires |a| >= 1 && AllDigits(a) && |b| >= 1 && AllDigits(b)
    requires |c| >= 1 && AllDigits(c) && |d| >= 1 && AllDigits(d)
    ensures DigitRuns(p + (a + (u + (b + (u + (c + (u + (d + t)))))))) == [a] + [b, c, d]
  {
    ThreeRuns(u, b, c, d, t);
    RunsCons(p, a, u + (b + (u + (c + (u + (d + t))))), [b, c, d]);
  }



  /** The digit runs of "argo_A_B_C_D.out" are A, B, C, D. */
  lemma ArgoNameRuns(a: string, b: string, c: string, d: string)
    requires |a| >= 1 && AllDigits(a) && |b| >= 1 && AllDigits(b)
    requires |c| >= 1 && AllDigits(c) && |d| >= 1 && AllDigits(d)
    ensures DigitRuns("argo_" + (a + ("_" + (b + ("_" + (c + ("_" + (d + ".out")))))))) == [a] + [b, c, d]
  {
    Literals();
    FourRuns("argo_", "_", ".out", a, b, c, d);
  }

  /** The ArgoDSM log name format, regrouped to the right. */
  lemma ArgoNameRegroup(a: string, b: string, c: string, d: string)
    ensures "argo_" + a + "_" + b + "_" + c + "_" + d + ".out"
         == "argo_" + (a + ("_" + (b + ("_" + (c + ("_" + (d + ".out")))))))
  {
  }

  /** A sequence of four elements is the display of its elements. */
  lemma FourElements<T>(s: seq<T>, w: T, x: T, y: T, z: T)
    requires |s| == 4 && s[0] == w && s[1] == x && s[2] == y && s[3] == z
    ensures s == [w, x, y, z]
  {
  }

  /** Four digit strings have their four values. */
  lemma FourValues(runs: seq<string>, a: string, b: string, c: string, d: string)
    requires AllDigits(a) && AllDigits(b) && AllDigits(c) && AllDigits(d)
    requires runs == [a] + [b, c, d]
    ensures Values(runs) == [DigitsValue(a), DigitsValue(b), DigitsValue(c), DigitsValue(d)]
  {
    var ns := Values(runs);
    assert runs[0] == a && runs[1] == b && runs[2] == c && runs[3] == d;
    FourElements(ns, DigitsValue(a), DigitsValue(b), DigitsValue(c), DigitsValue(d));
  }



  /** An ArgoDSM log name built from four digit strings matches the pattern and holds their values. */
  lemma ArgoNameDigits(a: string, b: string, c: string, d: string)
    requires |a| >= 1 && AllDigits(a) && |b| >= 1 && AllDigits(b)
    requires |c| >= 1 && AllDigits(c) && |d| >= 1 && AllDigits(d)
    ensures var name := "argo_" + (a + ("_" + (b + ("_" + (c + ("_" + (d + ".out")))))));
      && IsArgoLogName(name)
      && ParseNumbers(name) == [DigitsValue(a), DigitsValue(b), DigitsValue(c), DigitsValue(d)]
  {
    var name := "argo_" + (a + ("_" + (b + ("_" + (c + ("_" + (d + ".out")))))));
    ArgoNameMatches(a, b, c, d);
    ArgoNameRuns(a, b, c, d);
    FourValues(DigitRuns(name), a, b, c, d);
  }

  /** "argo_V_N_X_Y.out" matches the ArgoDSM pattern and holds the numbers V, N, X, Y. */
  lemma ArgoNameNumbers(v: nat, n: nat, x: nat, y: nat)
    ensures IsArgoLogName("argo_" + Itoa(v) + "_" + Itoa(n) + "_" + Itoa(x) + "_" + Itoa(y) + ".out")
    ensures ParseNumbers("argo_" + Itoa(v) + "_" + Itoa(n) + "_" + Itoa(x) + "_" + Itoa(y) + ".out") == [v, n, x, y]
  {
    ArgoNameRegroup(Itoa(v), Itoa(n), Itoa(x), Itoa(y));
    ArgoNameDigits(Itoa(v), Itoa(n), Itoa(x), Itoa(y));
    DigitsValueOfNatToString(v);
    DigitsValueOfNatToString(n);
    DigitsValueOfNatToString(x);
    DigitsValueOfNatToString(y);
  }


  /** The Meta of c.out. */
  function RefMeta(optimize: bool): Meta {
    Meta(MethodRef, optimize, 1, 0, 0)
  }

  /** The Meta of mpi_N.out: N is the first number of the name. */
  function MpiMeta(optimize: bool, metaNumbers: seq<int>): Meta
    requires |metaNumbers| >= 1
  {
    Meta(MethodMPI, optimize, metaNumbers[0], 0, 0)
  }

  /**
   * The Meta of argo_V_N_X_Y.out: Method ArgoV1 + V - 1 with the optimization
   * flag of version V; a V outside 1..3 indexes the three flags out of range.
   */
  function ArgoMeta(optimizationFlags: seq<bool>, metaNumbers: seq<int>): (r: Wrappers.Result<Meta, Panic>)
    requires |optimizationFlags| == 3 && |metaNumbers| >= 4
    ensures r.Ok? <==> 1 <= metaNumbers[0] <= 3
    ensures r.Ok? ==> MethodArgoV1 <= r.value.methodType <= MethodArgoV3
    ensures r.Ok? ==> [r.value.nodeCount, r.value.dsmNX, r.value.dsmNY] == metaNumbers[1..4]
  {
    var v := metaNumbers[0];
    if 1 <= v <= 3 then
      Ok(Meta(MethodArgoV1 + v - 1, optimizationFlags[v - 1], metaNumbers[1], metaNumbers[2], metaNumbers[3]))
    else Err(IndexOutOfRange)
  }

  /**
   * The line filter of collectFrom*File: the lines that contain `prefix`,
   * with every occurrence of it removed, that ParseFloat accepts, in order.
   */
  function TimesFromLines(lines: seq<string>, prefix: string, parseFloat: string -> Option<real>): (times: seq<real>)
    requires |prefix| > 0
    ensures |times| <= |lines|
    decreases |lines|
  {
    if lines == [] then []
    else
      var line := lines[|lines| - 1];
      var earlier := TimesFromLines(lines[..|lines| - 1], prefix, parseFloat);
      if Contains(line, prefix) && parseFloat(RemoveAll(line, prefix)).Some? then
        earlier + [parseFloat(RemoveAll(line, prefix)).value]
      else earlier
  }

  /**
   * Every collected time comes from a line holding the prefix, and the lines
   * contribute in order: the times of a concatenation are the concatenation
   * of the times.
   */
  lemma {:induction false} TimesFromLinesSound(lines: seq<string>, prefix: string, parseFloat: string -> Option<real>)
    requires |prefix| > 0
    ensures |TimesFromLines(lines, prefix, parseFloat)| <= |lines|
    ensures forall t :: t in TimesFromLines(lines, prefix, parseFloat) ==>
      exists line :: line in lines && Contains(line, prefix) && parseFloat(RemoveAll(line, prefix)) == Some(t)
    decreases |lines|
  {
    if lines != [] {
      var prefixLines := lines[..|lines| - 1];
      TimesFromLinesSound(prefixLines, prefix, parseFloat);
      forall t | t in TimesFromLines(lines, prefix, parseFloat)
        ensures exists line :: line in lines && Contains(line, prefix) && parseFloat(RemoveAll(line, prefix)) == Some(t)
      {
        if t in TimesFromLines(prefixLines, prefix, parseFloat) {
          var line :| line in prefixLines && Contains(line, prefix) && parseFloat(RemoveAll(line, prefix)) == Some(t);
          assert line in lines;
        } else {
          assert lines[|lines| - 1] in lines;
        }
      }
    }
  }

  lemma {:induction false} TimesFromLinesAppend(a: seq<string>, b: seq<string>, prefix: string, parseFloat: string -> Option<real>)
    requires |prefix| > 0
    ensures TimesFromLines(a + b, prefix, parseFloat) ==
      TimesFromLines(a, prefix, parseFloat) + TimesFromLines(b, prefix, parseFloat)
    decreases |b|
  {
    if b == [] {
      assert a + b == a;
    } else {
      assert (a + b)[..|a + b| - 1] == a + b[..|b| - 1];
      TimesFromLinesAppend(a, b[..|b| - 1], prefix, parseFloat);
    }
  }

  lemma {:induction false} RemoveAllAbsent(s: string, pat: string)
    requires |pat| > 0 && !Contains(s, pat)
    ensures RemoveAll(s, pat) == s
    decreases |s|
  {
    if |s| >= |pat| {
      RemoveAllAbsent(s[1..], pat);
      assert [s[0]] + s[1..] == s;
    }
  }

  /** A timing line "<prefix><value>" yields exactly the parsed value. */
  lemma TimingLine(prefix: string, value: string, parseFloat: string -> Option<real>)
    requires |prefix| > 0 && !Contains(value, prefix)
    requires parseFloat(value).Some?
    ensures TimesFromLines([prefix + value], prefix, parseFloat) == [parseFloat(value).value]
  {
    var line := prefix + value;
    assert line[..|prefix|] == prefix;
    assert line[|prefix|..] == value;
    RemoveAllAbsent(value, prefix);
    assert [line][..0] == [];
  }

  /** The times of one log file's contents. */
  function FileTimes(data: string, prefix: string, parseFloat: string -> Option<real>): seq<real>
    requires |prefix| > 0
  {
    TimesFromLines(Split(data, '\n'), prefix, parseFloat)
  }

  const RefPrefix: string := "SOR Time: "
  const ArgoPrefix: string := "SOR: "

  /** The loop shared by the three collectFrom*File functions: the times of the file. */
  method ParseTimes(data: string, prefix: string, parseFloat: string -> Option<real>) returns (times: seq<real>)
    requires |prefix| > 0
    ensures times == FileTimes(data, prefix, parseFloat)
  {
    var lines := Split(data, '\n');
    times := [];
    var i := 0;
    while i < |lines|
      invariant 0 <= i <= |lines|
      invariant times == TimesFromLines(lines[..i], prefix, parseFloat)
    {
      var line := lines[i];
      assert lines[..i + 1][..i] == lines[..i];
      if Contains(line, prefix) {
        var timeStr := RemoveAll(line, prefix);
        var t := parseFloat(timeStr);
        if t.Some? {
          times := times + [t.value];
        }
      }
      i := i + 1;
    }
    assert lines[..|lines|] == lines;
  }

  /** collectFromRefFile: a readable c.out joins its times under RefMeta. */
  method CollectFromRefFile(result: CollectorResult.Result, data: Option<string>, size: ArraySize, optimize: bool,
                            parseFloat: string -> Option<real>)
    modifies result
    ensures data.None? ==> result.items == old(result.items)
    ensures data.Some? ==>
      result.items == Join(old(result.items), size, RefMeta(optimize),
                           Fresh(FileTimes(data.value, RefPrefix, parseFloat)))
  {
    if data.None? {
      return;
    }
    var times := ParseTimes(data.value, RefPrefix, parseFloat);
    result.JoinItem(size, RefMeta(optimize), Fresh(times));
  }

  /** collectFromMpiFile: a readable mpi_N.out joins its times under MpiMeta. */
  method CollectFromMpiFile(result: CollectorResult.Result, data: Option<string>, size: ArraySize, optimize: bool,
                            metaNumbers: seq<int>, parseFloat: string -> Option<real>)
    requires |metaNumbers| >= 1
    modifies result
    ensures data.None? ==> result.items == old(result.items)
    ensures data.Some? ==>
      result.items == Join(old(result.items), size, MpiMeta(optimize, metaNumbers),
                           Fresh(FileTimes(data.value, RefPrefix, parseFloat)))
  {
    if data.None? {
      return;
    }
    var times := ParseTimes(data.value, RefPrefix, parseFloat);
    result.JoinItem(size, MpiMeta(optimize, metaNumbers), Fresh(times));
  }

  /**
   * collectFromArgoFile: a readable argo log joins its "SOR: " times under
   * ArgoMeta, or panics when the version number is outside 1..3. An
   * unreadable file returns before the version is looked at.
   */
  method CollectFromArgoFile(result: CollectorResult.Result, data: Option<string>, size: ArraySize, optimizationFlags: seq<bool>,
                             metaNumbers: seq<int>, parseFloat: string -> Option<real>)
    returns (panicked: bool)
    requires |optimizationFlags| == 3 && |metaNumbers| >= 4
    modifies result
    ensures panicked <==> data.Some? && ArgoMeta(optimizationFlags, metaNumbers).Err?
    ensures data.None? || panicked ==> result.items == old(result.items)
    ensures data.Some? && !panicked ==>
      result.items == Join(old(result.items), size, ArgoMeta(optimizationFlags, metaNumbers).value,
                           Fresh(FileTimes(data.value, ArgoPrefix, parseFloat)))
  {
    if data.None? {
      return false;
    }
    var times := ParseTimes(data.value, ArgoPrefix, parseFloat);
    var meta := ArgoMeta(optimizationFlags, metaNumbers);
    if meta.Err? {
      return true;
    }
    result.JoinItem(size, meta.value, Fresh(times));
    return false;
  }

  /** An entry of a directory listing: its name, whether it is a directory, and its contents (None when unreadable). */
  datatype DirEntry = DirEntry(name: string, isDir: bool, data: Option<string>)

  /** Which branch of collectFromBaseDir's if-chain an entry takes. */
  datatype LogKind = NotALog | RefLog | MpiLog | ArgoLog

  /** The branch of the if-chain an entry takes. */
  function Classify(entry: DirEntry): LogKind {
    if entry.isDir then NotALog
    else if entry.name == RefFileName then RefLog
    else if IsMpiLogName(entry.name) then MpiLog
    else if IsArgoLogName(entry.name) then ArgoLog
    else NotALog
  }

  /**
   * The three name patterns do not overlap, so a file takes the branch of
   * the pattern its name matches, whatever the order of the chain, and only
   * directories and unmatched names are skipped.
   */
  lemma ClassifyKinds(entry: DirEntry)
    ensures entry.isDir ==> Classify(entry) == NotALog
    ensures !entry.isDir && entry.name == RefFileName ==> Classify(entry) == RefLog
    ensures !entry.isDir && IsMpiLogName(entry.name) ==> Classify(entry) == MpiLog
    ensures !entry.isDir && IsArgoLogName(entry.name) ==> Classify(entry) == ArgoLog
    ensures Classify(entry) == NotALog ==>
      entry.isDir || (entry.name != RefFileName && !IsMpiLogName(entry.name) && !IsArgoLogName(entry.name))
  {
  }

  /** How a collection step ends: normally, with an error returned, or with a panic. */
  datatype Outcome = Completed | Failed | Panicked

  datatype Collected = Collected(items: Items, outcome: Outcome)

  /** What one entry of a base directory adds to the table. */
  function EntryEffect(items: Items, entry: DirEntry, size: ArraySize, flags: seq<bool>,
                       parseFloat: string -> Option<real>): Collected
    requires |flags| == MethodEndTag
  {
    match Classify(entry)
    case NotALog => Collected(items, Completed)
    case RefLog =>
      if entry.data.None? then Collected(items, Completed)
      else Collected(Join(items, size, RefMeta(flags[MethodRef]),
                          Fresh(FileTimes(entry.data.value, RefPrefix, parseFloat))), Completed)
    case MpiLog =>
      MpiNameCount(entry.name);
      if entry.data.None? then Collected(items, Completed)
      else Collected(Join(items, size, MpiMeta(flags[MethodMPI], ParseNumbers(entry.name)),
                          Fresh(FileTimes(entry.data.value, RefPrefix, parseFloat))), Completed)
    case ArgoLog =>
      ArgoNameCount(entry.name);
      if entry.data.None? then Collected(items, Completed)
      else match ArgoMeta(flags[MethodArgoV1..], ParseNumbers(entry.name))
        case Err(_) => Collected(items, Panicked)
        case Ok(meta) =>
          Collected(Join(items, size, meta, Fresh(FileTimes(entry.data.value, ArgoPrefix, parseFloat))), Completed)
  }

  /** The entries of a base directory in listing order, stopping at the first panic. */
  function CollectEntries(items: Items, entries: seq<DirEntry>, size: ArraySize, flags: seq<bool>,
                          parseFloat: string -> Option<real>): Collected
    requires |flags| == MethodEndTag
    decreases |entries|
  {
    if entries == [] then Collected(items, Completed)
    else
      var before := CollectEntries(items, entries[..|entries| - 1], size, flags, parseFloat);
      if before.outcome != Completed then before
      else EntryEffect(before.items, entries[|entries| - 1], size, flags, parseFloat)
  }

  /**
   * The file system below one root directory: the names it lists (None when
   * ReadDir fails) and the readable sub-directories by name.
   */
  datatype RootDir = RootDir(names: Option<seq<string>>, dirs: map<string, seq<DirEntry>>)

  /** collectFromBaseDir: the directory named after the size, or an error when it cannot be listed. */
  function CollectBase(items: Items, root: RootDir, size: ArraySize, flags: seq<bool>,
                       parseFloat: string -> Option<real>): (c: Collected)
    requires |flags| == MethodEndTag
    ensures c.outcome == Failed <==> DirName(size) !in root.dirs
    ensures c.outcome == Failed ==> c.items == items
  {
    CollectEntriesFrame(items, if DirName(size) in root.dirs then root.dirs[DirName(size)] else [], size, flags, parseFloat);
    var baseDir := DirName(size);
    if baseDir !in root.dirs then Collected(items, Failed)
    else CollectEntries(items, root.dirs[baseDir], size, flags, parseFloat)
  }

  /** One more entry: when the earlier ones completed, its effect comes next. */
  lemma CollectEntriesStep(items: Items, entries: seq<DirEntry>, i: nat, current: Items, size: ArraySize,
                           flags: seq<bool>, parseFloat: string -> Option<real>)
    requires |flags| == MethodEndTag && i < |entries|
    requires CollectEntries(items, entries[..i], size, flags, parseFloat) == Collected(current, Completed)
    ensures CollectEntries(items, entries[..i + 1], size, flags, parseFloat) == EntryEffect(current, entries[i], size, flags, parseFloat)
  {
    assert entries[..i + 1][..i] == entries[..i];
  }

  /** Once an entry stops the loop, the later entries change nothing. */
  lemma {:induction false} CollectEntriesStops(items: Items, entries: seq<DirEntry>, j: nat, size: ArraySize,
                                               flags: seq<bool>, parseFloat: string -> Option<real>)
    requires |flags| == MethodEndTag && j <= |entries|
    requires j == |entries| || CollectEntries(items, entries[..j], size, flags, parseFloat).outcome != Completed
    ensures CollectEntries(items, entries, size, flags, parseFloat)
         == CollectEntries(items, entries[..j], size, flags, parseFloat)
    decreases |entries| - j
  {
    if j < |entries| {
      assert entries[..j + 1][..j] == entries[..j];
      CollectEntriesStops(items, entries, j + 1, size, flags, parseFloat);
    } else {
      assert entries[..j] == entries;
    }
  }

  /** The body of collectFromBaseDir's loop for one entry. */
  method CollectEntry(result: CollectorResult.Result, entry: DirEntry, size: ArraySize, flags: seq<bool>,
                      parseFloat: string -> Option<real>) returns (outcome: Outcome)
    requires |flags| == MethodEndTag
    modifies result
    ensures Collected(result.items, outcome) == EntryEffect(old(result.items), entry, size, flags, parseFloat)
  {
    var kind := Classify(entry);
    outcome := Completed;
    if kind == RefLog {
      CollectFromRefFile(result, entry.data, size, flags[MethodRef], parseFloat);
    } else if kind == MpiLog {
      MpiNameCount(entry.name);
      var numbers := MustParseNumbers(entry.name);
      CollectFromMpiFile(result, entry.data, size, flags[MethodMPI], numbers, parseFloat);
    } else if kind == ArgoLog {
      ArgoNameCount(entry.name);
      var numbers := MustParseNumbers(entry.name);
      var panicked := CollectFromArgoFile(result, entry.data, size, flags[MethodArgoV1..], numbers, parseFloat);
      if panicked {
        outcome := Panicked;
      }
    }
  }

  /** collectFromBaseDir: the loop over the base directory's listing. */
  method CollectFromBaseDir(result: CollectorResult.Result, root: RootDir, size: ArraySize, flags: seq<bool>,
                            parseFloat: string -> Option<real>) returns (outcome: Outcome)
    requires |flags| == MethodEndTag
    modifies result
    ensures Collected(result.items, outcome) == CollectBase(old(result.items), root, size, flags, parseFloat)
  {
    var baseDir := DirName(size);
    if baseDir !in root.dirs {
      return Failed;
    }
    var baseDirInfo := root.dirs[baseDir];
    var i := 0;
    outcome := Completed;
    while i < |baseDirInfo| && outcome == Completed
      invariant 0 <= i <= |baseDirInfo|
      invariant CollectEntries(old(result.items), baseDirInfo[..i], size, flags, parseFloat) == Collected(result.items, outcome)
    {
      CollectEntriesStep(old(result.items), baseDirInfo, i, result.items, size, flags, parseFloat);
      outcome := CollectEntry(result, baseDirInfo[i], size, flags, parseFloat);
      i := i + 1;
    }
    CollectEntriesStops(old(result.items), baseDirInfo, i, size, flags, parseFloat);
  }


  /** regexp `^[0-9]+_[0-9]+_[0-9]+$` */
  predicate IsSizeDirName(name: string) {
    var parts := Split(name, '_');
    |parts| == 3 && forall p :: p in parts ==> |p| >= 1 && AllDigits(p)
  }

  /** The array sizes of the matching names, in listing order. */
  function SizesOf(names: seq<string>): (sizes: seq<ArraySize>)
    decreases |names|
  {
    if names == [] then []
    else
      var name := names[|names| - 1];
      var earlier := SizesOf(names[..|names| - 1]);
      if IsSizeDirName(name) then earlier + [MustParseArraySize(name).value] else earlier
  }

  /** The base directories of the sizes in order, stopping at the first error or panic. */
  function CollectSizes(items: Items, root: RootDir, sizes: seq<ArraySize>, flags: seq<bool>,
                        parseFloat: string -> Option<real>): Collected
    requires |flags| == MethodEndTag
    decreases |sizes|
  {
    if sizes == [] then Collected(items, Completed)
    else
      var before := CollectSizes(items, root, sizes[..|sizes| - 1], flags, parseFloat);
      if before.outcome != Completed then before
      else CollectBase(before.items, root, sizes[|sizes| - 1], flags, parseFloat)
  }

  /** Once a directory stops the loop, the later sizes change nothing. */
  lemma {:induction false} CollectSizesStops(items: Items, root: RootDir, sizes: seq<ArraySize>, j: nat,
                                             flags: seq<bool>, parseFloat: string -> Option<real>)
    requires |flags| == MethodEndTag && j <= |sizes|
    requires j == |sizes| || CollectSizes(items, root, sizes[..j], flags, parseFloat).outcome != Completed
    ensures CollectSizes(items, root, sizes, flags, parseFloat) == CollectSizes(items, root, sizes[..j], flags, parseFloat)
    decreases |sizes| - j
  {
    if j < |sizes| {
      assert sizes[..j + 1][..j] == sizes[..j];
      CollectSizesStops(items, root, sizes, j + 1, flags, parseFloat);
    } else {
      assert sizes[..j] == sizes;
    }
  }

  /** One more size: when the earlier ones completed, its base directory is collected next. */
  lemma CollectSizesStep(items: Items, root: RootDir, sizes: seq<ArraySize>, k: nat, current: Items,
                         flags: seq<bool>, parseFloat: string -> Option<real>)
    requires |flags| == MethodEndTag && k < |sizes|
    requires CollectSizes(items, root, sizes[..k], flags, parseFloat) == Collected(current, Completed)
    ensures CollectSizes(items, root, sizes[..k + 1], flags, parseFloat) == CollectBase(current, root, sizes[k], flags, parseFloat)
  {
    assert sizes[..k + 1][..k] == sizes[..k];
  }

  /** The first loop of collectFromRootDir: the sizes of the names that match `^\d+_\d+_\d+$`. */
  method SizeDirs(targetDirInfo: seq<string>) returns (arraySizes: seq<ArraySize>)
    ensures arraySizes == SizesOf(targetDirInfo)
  {
    arraySizes := [];
    var i := 0;
    while i < |targetDirInfo|
      invariant 0 <= i <= |targetDirInfo|
      invariant arraySizes == SizesOf(targetDirInfo[..i])
    {
      assert targetDirInfo[..i + 1][..i] == targetDirInfo[..i];
      if IsSizeDirName(targetDirInfo[i]) {
        var size := MustParseArraySize(targetDirInfo[i]);
        arraySizes := arraySizes + [size.value];
      }
      i := i + 1;
    }
    assert targetDirInfo[..|targetDirInfo|] == targetDirInfo;
  }

  /** The second loop of collectFromRootDir: the base directory of each size, until one does not complete. */
  method CollectEachSize(result: CollectorResult.Result, root: RootDir, arraySizes: seq<ArraySize>, flags: seq<bool>,
                         parseFloat: string -> Option<real>) returns (outcome: Outcome)
    requires |flags| == MethodEndTag
    modifies result
    ensures Collected(result.items, outcome) == CollectSizes(old(result.items), root, arraySizes, flags, parseFloat)
  {
    var k := 0;
    outcome := Completed;
    while k < |arraySizes| && outcome == Completed
      invariant 0 <= k <= |arraySizes|
      invariant CollectSizes(old(result.items), root, arraySizes[..k], flags, parseFloat) == Collected(result.items, outcome)
    {
      CollectSizesStep(old(result.items), root, arraySizes, k, result.items, flags, parseFloat);
      outcome := CollectFromBaseDir(result, root, arraySizes[k], flags, parseFloat);
      k := k + 1;
    }
    CollectSizesStops(old(result.items), root, arraySizes, k, flags, parseFloat);
  }


  /** collectFromRootDir: list the root, parse the size directories, collect each of them. */
  method CollectFromRootDir(result: CollectorResult.Result, root: RootDir, flags: seq<bool>,
                            parseFloat: string -> Option<real>) returns (outcome: Outcome)
    requires |flags| == MethodEndTag
    modifies result
    ensures root.names.None? ==> outcome == Failed && result.items == old(result.items)
    ensures root.names.Some? ==>
      var c := CollectSizes(old(result.items), root, SizesOf(root.names.value), flags, parseFloat);
      outcome == c.outcome && result.items == c.items
  {
    if root.names.None? {
      return Failed;
    }
    var arraySizes := SizeDirs(root.names.value);
    outcome := CollectEachSize(result, root, arraySizes, flags, parseFloat);
  }



  /** A name of the MPI pattern holds exactly one number. */
  lemma MpiNameCount(name: string)
    requires IsMpiLogName(name)
    ensures |ParseNumbers(name)| == 1
  {
    var d := name[4..|name| - 4];
    assert name == "mpi_" + (d + ".out");
    Literals();
    DigitRunsStep("mpi_", d, ".out");
    NoDigitRuns(".out");
  }

  /** A name framed by "argo_" and ".out" is the frame around its middle. */
  lemma ArgoNameUnframe(name: string)
    requires |name| > 9 && name[..5] == "argo_" && name[|name| - 4..] == ".out"
    ensures name == "argo_" + name[5..|name| - 4] + ".out"
  {
    assert name == name[..5] + name[5..|name| - 4] + name[|name| - 4..];
  }

  /** A name made of four digit strings between the ArgoDSM frame holds four numbers. */
  lemma ArgoNameOfParts(a: string, b: string, c: string, d: string, middle: string, name: string)
    requires |a| >= 1 && AllDigits(a) && |b| >= 1 && AllDigits(b)
    requires |c| >= 1 && AllDigits(c) && |d| >= 1 && AllDigits(d)
    requires middle == a + ("_" + (b + ("_" + (c + ("_" + d)))))
    requires name == "argo_" + middle + ".out"
    ensures |ParseNumbers(name)| == 4
  {
    assert name == "argo_" + (a + ("_" + (b + ("_" + (c + ("_" + (d + ".out")))))));
    ArgoNameRuns(a, b, c, d);
  }

  /** A name of the ArgoDSM pattern holds exactly four numbers. */
  lemma ArgoNameCount(name: string)
    requires IsArgoLogName(name)
    ensures |ParseNumbers(name)| == 4
  {
    var middle := name[5..|name| - 4];
    var p := Split(middle, '_');
    SplitJoin(middle);
    ArgoNameUnframe(name);
    assert p[0] in p && p[1] in p && p[2] in p && p[3] in p;
    ArgoNameOfParts(p[0], p[1], p[2], p[3], middle, name);
  }

  /** Joining the pieces of a split with the separator. */
  function JoinWith(parts: seq<string>, sep: char): string
    requires |parts| >= 1
    decreases |parts|
  {
    if |parts| == 1 then parts[0] else parts[0] + [sep] + JoinWith(parts[1..], sep)
  }

  /** Joining the pieces of a split with the separator restores the string. */
  lemma {:induction false} SplitJoinWith(s: string, sep: char)
    ensures JoinWith(Split(s, sep), sep) == s
    decreases |s|
  {
    if s != [] {
      SplitJoinWith(s[1..], sep);
      var rest := Split(s[1..], sep);
      if s[0] == sep {
        assert Split(s, sep)[1..] == rest;
      } else {
        var first := [s[0]] + rest[0];
        var parts := [first] + rest[1..];
        if |rest| > 1 {
          assert parts[1..] == rest[1..];
          assert JoinWith(rest, sep) == rest[0] + [sep] + JoinWith(rest[1..], sep);
        }
      }
    }
  }

  lemma SplitJoin(s: string)
    requires |Split(s, '_')| == 4
    ensures var p := Split(s, '_'); s == p[0] + ("_" + (p[1] + ("_" + (p[2] + ("_" + p[3])))))
  {
    var p := Split(s, '_');
    SplitJoinWith(s, '_');
    assert p[1..][1..][1..] == [p[3]];
    assert JoinWith(p[1..][1..], '_') == p[2] + "_" + p[3];
    assert JoinWith(p[1..], '_') == p[1] + "_" + (p[2] + "_" + p[3]);
  }

  /** A readable mpi_N.out is joined under the MPI method with node count N. */
  lemma MpiEntryEffect(items: Items, n: nat, data: string, size: ArraySize, flags: seq<bool>,
                       parseFloat: string -> Option<real>)
    requires |flags| == MethodEndTag
    ensures EntryEffect(items, DirEntry("mpi_" + Itoa(n) + ".out", false, Some(data)), size, flags, parseFloat)
         == Collected(Join(items, size, Meta(MethodMPI, flags[MethodMPI], n, 0, 0),
                           Fresh(FileTimes(data, RefPrefix, parseFloat))), Completed)
  {
    var name := "mpi_" + Itoa(n) + ".out";
    MpiNameNumbers(n);
    assert name[0] == 'm' != RefFileName[0];
  }

  /**
   * A readable argo_V_N_X_Y.out is joined under ArgoDSM version V with node
   * count N and an X by Y process grid when V is 1, 2 or 3, and panics otherwise.
   */
  lemma ArgoEntryEffect(items: Items, v: nat, n: nat, x: nat, y: nat, data: string, size: ArraySize,
                        flags: seq<bool>, parseFloat: string -> Option<real>)
    requires |flags| == MethodEndTag
    ensures var name := "argo_" + Itoa(v) + "_" + Itoa(n) + "_" + Itoa(x) + "_" + Itoa(y) + ".out";
      var c := EntryEffect(items, DirEntry(name, false, Some(data)), size, flags, parseFloat);
      && (1 <= v <= 3 ==> c == Collected(Join(items, size, Meta(MethodArgoV1 + v - 1, flags[MethodArgoV1 + v - 1], n, x, y),
                                              Fresh(FileTimes(data, ArgoPrefix, parseFloat))), Completed))
      && (v == 0 || v > 3 ==> c == Collected(items, Panicked))
  {
    ArgoNameNumbers(v, n, x, y);
    ArgoNamedEntry(items, "argo_" + Itoa(v) + "_" + Itoa(n) + "_" + Itoa(x) + "_" + Itoa(y) + ".out",
                   v, n, x, y, data, size, flags, parseFloat);
  }

  /** A readable entry classified as an ArgoDSM log is joined under the Meta its numbers give, or panics. */
  lemma ArgoLogEffect(items: Items, entry: DirEntry, size: ArraySize, flags: seq<bool>,
                      parseFloat: string -> Option<real>)
    requires |flags| == MethodEndTag && Classify(entry) == ArgoLog && entry.data.Some?
    ensures |ParseNumbers(entry.name)| == 4
    ensures EntryEffect(items, entry, size, flags, parseFloat)
         == match ArgoMeta(flags[MethodArgoV1..], ParseNumbers(entry.name))
            case Err(_) => Collected(items, Panicked)
            case Ok(meta) => Collected(Join(items, size, meta, Fresh(FileTimes(entry.data.value, ArgoPrefix, parseFloat))), Completed)
  {
    ArgoNameCount(entry.name);
  }

  /** The Meta of the numbers V, N, X, Y: ArgoDSM version V with its flag, or an index error. */
  lemma ArgoMetaOf(flags: seq<bool>, v: int, n: int, x: int, y: int)
    requires |flags| == MethodEndTag
    ensures 1 <= v <= 3 ==> ArgoMeta(flags[MethodArgoV1..], [v, n, x, y])
                            == Ok(Meta(MethodArgoV1 + v - 1, flags[MethodArgoV1 + v - 1], n, x, y))
    ensures v < 1 || v > 3 ==> ArgoMeta(flags[MethodArgoV1..], [v, n, x, y]).Err?
  {
  }

  /** The effect of a readable entry whose name matches the ArgoDSM pattern with the numbers V, N, X, Y. */
  lemma ArgoNamedEntry(items: Items, name: string, v: int, n: int, x: int, y: int, data: string, size: ArraySize,
                       flags: seq<bool>, parseFloat: string -> Option<real>)
    requires |flags| == MethodEndTag
    requires IsArgoLogName(name) && ParseNumbers(name) == [v, n, x, y]
    ensures var c := EntryEffect(items, DirEntry(name, false, Some(data)), size, flags, parseFloat);
      && (1 <= v <= 3 ==> c == Collected(Join(items, size, Meta(MethodArgoV1 + v - 1, flags[MethodArgoV1 + v - 1], n, x, y),
                                              Fresh(FileTimes(data, ArgoPrefix, parseFloat))), Completed))
      && (v < 1 || v > 3 ==> c == Collected(items, Panicked))
  {
    ArgoClassify(name, data);
    ArgoLogEffect(items, DirEntry(name, false, Some(data)), size, flags, parseFloat);
    ArgoMetaOf(flags, v, n, x, y);
  }



  lemma ArgoClassify(name: string, data: string)
    requires IsArgoLogName(name)
    ensures Classify(DirEntry(name, false, Some(data))) == ArgoLog
  {
    assert name[..5][0] == 'a';
    assert name[0] == 'a';
    assert name != RefFileName;
    assert name[..4][0] == 'a';
    assert !IsMpiLogName(name);
  }

  /** c.out is joined under the reference method with node count 1. */
  lemma RefEntryEffect(items: Items, data: string, size: ArraySize, flags: seq<bool>,
                       parseFloat: string -> Option<real>)
    requires |flags| == MethodEndTag
    ensures EntryEffect(items, DirEntry("c.out", false, Some(data)), size, flags, parseFloat)
         == Collected(Join(items, size, Meta(MethodRef, flags[MethodRef], 1, 0, 0),
                           Fresh(FileTimes(data, RefPrefix, parseFloat))), Completed)
  {
  }

  /** `after` differs from `items` at most under `size`. */
  predicate OnlyUnder(items: Items, after: Items, size: ArraySize) {
    && after.Keys <= items.Keys + {size}
    && forall s :: s in items && s != size ==> s in after && after[s] == items[s]
  }

  lemma OnlyUnderJoin(items: Items, size: ArraySize, meta: Meta, times: SorTimes)
    ensures OnlyUnder(items, Join(items, size, meta, times), size)
  {
  }

  lemma OnlyUnderTrans(a: Items, b: Items, c: Items, size: ArraySize)
    requires OnlyUnder(a, b, size) && OnlyUnder(b, c, size)
    ensures OnlyUnder(a, c, size)
  {
  }

  /** One entry adds at most under its directory's size and never returns an error. */
  lemma EntryEffectFrame(items: Items, entry: DirEntry, size: ArraySize, flags: seq<bool>,
                         parseFloat: string -> Option<real>)
    requires |flags| == MethodEndTag
    ensures var c := EntryEffect(items, entry, size, flags, parseFloat);
      c.outcome != Failed && OnlyUnder(items, c.items, size)
  {
    var c := EntryEffect(items, entry, size, flags, parseFloat);
    if c.items != items {
      assert entry.data.Some?;
      var times := if Classify(entry) == ArgoLog then ArgoPrefix else RefPrefix;
      var meta :| c.items == Join(items, size, meta, Fresh(FileTimes(entry.data.value, times, parseFloat)));
      OnlyUnderJoin(items, size, meta, Fresh(FileTimes(entry.data.value, times, parseFloat)));
    }
  }

  /**
   * A base directory only adds entries under its own array size, never
   * returns an error, and stops only on a panic.
   */
  lemma {:induction false} CollectEntriesFrame(items: Items, entries: seq<DirEntry>, size: ArraySize, flags: seq<bool>,
                                               parseFloat: string -> Option<real>)
    requires |flags| == MethodEndTag
    ensures var c := CollectEntries(items, entries, size, flags, parseFloat);
      && c.outcome != Failed
      && c.items.Keys <= items.Keys + {size}
      && forall s :: s in items && s != size ==> s in c.items && c.items[s] == items[s]
    decreases |entries|
  {
    if entries != [] {
      var init := entries[..|entries| - 1];
      CollectEntriesFrame(items, init, size, flags, parseFloat);
      var before := CollectEntries(items, init, size, flags, parseFloat);
      assert OnlyUnder(items, before.items, size);
      if before.outcome == Completed {
        EntryEffectFrame(before.items, entries[|entries| - 1], size, flags, parseFloat);
        OnlyUnderTrans(items, before.items, EntryEffect(before.items, entries[|entries| - 1], size, flags, parseFloat).items, size);
      }
    }
  }


  /** Every directory name "%d_%d_%d" writes for non-negative sizes has the size-directory form. */
  lemma DirNameIsSizeDirName(size: ArraySize)
    requires size.i >= 0 && size.j >= 0 && size.k >= 0
    ensures IsSizeDirName(DirName(size))
  {
    var a, b, c := Itoa(size.i), Itoa(size.j), Itoa(size.k);
    ItoaHasNo(size.i, '_');
    ItoaHasNo(size.j, '_');
    ItoaHasNo(size.k, '_');
    assert DirName(size) == a + ['_'] + (b + ['_'] + c);
    SplitAtFirstSeparator(a, b + ['_'] + c, '_');
    SplitAtFirstSeparator(b, c, '_');
    SplitWithoutSeparator(c, '_');
  }

  lemma SplitOfLeadingZeroName()
    ensures Split("01_2_3", '_') == ["01", "2", "3"]
  {
    assert "01_2_3" == "01" + ['_'] + ("2" + ['_'] + "3");
    SplitAtFirstSeparator("01", "2" + ['_'] + "3", '_');
    SplitAtFirstSeparator("2", "3", '_');
    SplitWithoutSeparator("3", '_');
  }

  /**
   * A listed name with leading zeros, such as "0512_512_256", is parsed to a
   * size whose "%d_%d_%d" name is a different directory, so the base
   * directory is looked up under a name that was not listed.
   */
  lemma LeadingZeroDirName()
    ensures IsSizeDirName("01_2_3")
    ensures MustParseArraySize("01_2_3") == Ok(ArraySize(1, 2, 3))
    ensures DirName(ArraySize(1, 2, 3)) != "01_2_3"
  {
    SplitOfLeadingZeroName();
    assert "01"[..1] == "0";
    assert "0"[..0] == "";
    assert DigitsValue("0") == 0;
    assert DigitsValue("01") == 1;
    assert AllDigits("01");
    assert Atoi("01") == Some(1);
    assert AtoiOrZero("01") == 1;
    assert AtoiOrZero("2") == 2;
    assert AtoiOrZero("3") == 3;
    assert Itoa(1) == "1";
    assert DirName(ArraySize(1, 2, 3))[0] == '1';
  }
}
