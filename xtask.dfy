/** The development command line of xtask/src/main.rs, reduced to its decisions: which log
    file `watch-log` follows (`find_log`), how `build` resolves its flags into a build
    configuration, and how `generate-installer` fills the package version into the NSIS
    template. The directory listing, the environment and the template text are inputs. */
module Xtask {
  import opened Wrappers
  import opened MachineInts
  import opened Decimal

  // ---------------------------------------------------------------------------------------
  // Log-file selection (`find_log`)

  /** One entry of the logs directory: its file name and whether it is a regular file. */
  datatype DirEntry = DirEntry(name: string, isFile: bool)

  /** The index of the last '.' in `s`, if any. */
  function LastDot(s: string): (r: Option<nat>)
    ensures r.Some? ==> r.value < |s| && s[r.value] == '.'
    ensures r.Some? ==> forall j :: r.value < j < |s| ==> s[j] != '.'
    ensures r.None? ==> forall j :: 0 <= j < |s| ==> s[j] != '.'
  {
    if s == [] then None
    else if s[|s| - 1] == '.' then Some(|s| - 1)
    else LastDot(s[..|s| - 1])
  }

  /** `Path::extension` of a file name: what follows the last '.', except that ".." and
      names whose only '.' is the leading one have no extension. */
  function Extension(name: string): (ext: Option<string>)
    ensures ext.Some? ==> exists i :: 0 < i < |name| && name[i] == '.' && ext.value == name[i + 1..]
    ensures ext.Some? ==> forall c :: c in ext.value ==> c != '.'
    ensures ext.None? && name != ".." ==> forall i :: 0 < i < |name| ==> name[i] != '.'
    ensures name == ".." ==> ext.None?
  {
    if name == ".." then None
    else match LastDot(name)
      case None => None
      case Some(i) => if i == 0 then None else Some(name[i + 1..])
  }

  /** The file name up to its first '.' (`name.split('.').next()`). */
  function Stem(name: string): (stem: string)
    ensures stem <= name
    ensures forall c :: c in stem ==> c != '.'
    ensures |stem| < |name| ==> name[|stem|] == '.'
  {
    if name == [] || name[0] == '.' then [] else [name[0]] + Stem(name[1..])
  }

  /** `u64::from_str`: an optional '+', then one or more ASCII digits (leading zeros allowed)
      whose value fits in 64 bits. */
  function ParseU64(s: string): (r: Option<u64>)
    ensures r.Some? ==> 0 < |s| && s[0] != '-'
    ensures r.Some? ==> var digits := if s[0] == '+' then s[1..] else s;
                        digits != [] && AllDigits(digits) && DigitsValue(digits) == r.value as int
    // and conversely every such text whose value fits is accepted, leading zeros included
    ensures s != [] ==> var digits := if s[0] == '+' then s[1..] else s;
                        digits != [] && AllDigits(digits) && DigitsValue(digits) < TWO_TO_THE_64 ==> r.Some?
  {
    var digits := if s != [] && s[0] == '+' then s[1..] else s;
    if s != [] && digits != [] && AllDigits(digits) && DigitsValue(digits) < TWO_TO_THE_64
    then Some(DigitsValue(digits) as u64)
    else None
  }

  /** Every number below 2^64 is read back from its decimal spelling, with or without '+'. */
  lemma ParseU64OfDecimal(n: u64)
    ensures ParseU64(NatToString(n as nat)) == Some(n)
    ensures ParseU64("+" + NatToString(n as nat)) == Some(n)
  {
    DigitsValueOfNatToString(n as nat);
    assert ("+" + NatToString(n as nat))[1..] == NatToString(n as nat);
  }

  /** A zero-padded spelling is read as the same number, so "05" and "5" tie. */
  lemma ParseU64OfPadded(n: u64)
    ensures ParseU64("0" + NatToString(n as nat)) == Some(n)
  {
    DigitsValueOfNatToString(n as nat);
    DigitsValueLeadingZero(NatToString(n as nat));
  }

  /** The number a log file name carries, when the name has the extension "log" and its
      stem parses as a `u64`. */
  function LogFileNumber(name: string): Option<u64> {
    if Extension(name) == Some("log") then ParseU64(Stem(name)) else None
  }

  /** The filter of `find_log`: a regular file named by a number with the extension "log". */
  predicate IsLogFile(e: DirEntry) {
    e.isFile && LogFileNumber(e.name).Some?
  }

  /** A name carries a number only when it ends in ".log" after a non-empty stem. */
  lemma LogFileNameEndsInLog(name: string)
    requires LogFileNumber(name).Some?
    ensures |name| >= 5 && name[|name| - 4..] == ".log"
  {
    var i :| 0 < i < |name| && name[i] == '.' && "log" == name[i + 1..];
    assert name[|name| - 4..] == [name[i]] + name[i + 1..];
  }

  /** A name "<stem>.log" whose stem has no '.' carries exactly the number its stem spells. */
  lemma LogFileNumberOfStem(name: string)
    requires |name| >= 5 && name[|name| - 4..] == ".log"
    requires forall j :: 0 <= j < |name| - 4 ==> name[j] != '.'
    ensures LogFileNumber(name) == ParseU64(name[..|name| - 4])
  {
    var d := |name| - 4;
    assert name[d] == '.';
    assert name[d + 1..] == "log";
    assert LastDot(name) == Some(d);
    var stem := Stem(name);
    assert forall j :: 0 <= j < |stem| ==> name[j] == stem[j] && stem[j] in stem;
    assert |stem| == d;
    assert stem == name[..d];
  }

  /** A regular file named by a number in decimal followed by ".log" passes the filter and
      carries that number. */
  lemma NumberedLogFile(e: DirEntry, n: u64)
    requires e.isFile && e.name == NatToString(n as nat) + ".log"
    ensures IsLogFile(e) && Num(e) == n
  {
    var digits := NatToString(n as nat);
    assert e.name[|e.name| - 4..] == ".log";
    assert e.name[..|e.name| - 4] == digits;
    LogFileNumberOfStem(e.name);
    ParseU64OfDecimal(n);
  }

  /** A path that passed the filter, with its sort key. */
  datatype LogCandidate = LogCandidate(name: string, number: u64)

  function Candidate(e: DirEntry): LogCandidate
    requires IsLogFile(e)
  {
    LogCandidate(e.name, LogFileNumber(e.name).value)
  }

  /** `idx` lists, in increasing order, exactly the positions of `xs` whose element satisfies
      `p`. */
  ghost predicate IndexesPassing<T>(xs: seq<T>, p: T -> bool, idx: seq<nat>) {
    && (forall k :: 0 <= k < |idx| ==> idx[k] < |xs| && p(xs[idx[k]]))
    && (forall k, l :: 0 <= k < l < |idx| ==> idx[k] < idx[l])
    && (forall j :: 0 <= j < |xs| && p(xs[j]) ==> j in idx)
  }

  /** The positions of `xs` whose element satisfies `p`, in increasing order. */
  ghost function PassingIndices<T>(xs: seq<T>, p: T -> bool): (idx: seq<nat>)
    ensures IndexesPassing(xs, p, idx)
  {
    if xs == [] then []
    else
      var rest := PassingIndices(xs[..|xs| - 1], p);
      ExtendIndices(xs, p, rest);
      rest + (if p(xs[|xs| - 1]) then [|xs| - 1] else [])
  }

  /** The positions for all but the last element, followed by the last one's when it passes. */
  lemma ExtendIndices<T>(xs: seq<T>, p: T -> bool, rest: seq<nat>)
    requires xs != [] && IndexesPassing(xs[..|xs| - 1], p, rest)
    ensures IndexesPassing(xs, p, rest + (if p(xs[|xs| - 1]) then [|xs| - 1] else []))
  {
    var init := xs[..|xs| - 1];
    var last := |xs| - 1;
    var idx := rest + (if p(xs[last]) then [last] else []);
    forall k | 0 <= k < |idx|
      ensures idx[k] < |xs| && p(xs[idx[k]])
    {
      if k < |rest| {
        assert idx[k] == rest[k] && xs[rest[k]] == init[rest[k]];
      }
    }
    forall k, l | 0 <= k < l < |idx|
      ensures idx[k] < idx[l]
    {
      assert idx[k] == rest[k];
      if l < |rest| {
        assert idx[l] == rest[l];
      }
    }
    forall j | 0 <= j < |xs| && p(xs[j])
      ensures j in idx
    {
      if j < last {
        assert xs[j] == init[j];
        assert j in rest;
      } else {
        assert idx[|idx| - 1] == last;
      }
    }
  }

  /** The positions of the entries that pass the filter, in directory order. */
  ghost function LogIndices(entries: seq<DirEntry>): (idx: seq<nat>)
    ensures IndexesPassing(entries, IsLogFile, idx)
  {
    PassingIndices(entries, IsLogFile)
  }

  /** `cs` holds one candidate per entry that passes the filter, in the order of the listing. */
  ghost predicate CandidatesInOrder(entries: seq<DirEntry>, cs: seq<LogCandidate>) {
    var idx := LogIndices(entries);
    |cs| == |idx| && forall k :: 0 <= k < |cs| ==> cs[k] == Candidate(entries[idx[k]])
  }

  /** The entries that pass the filter, in directory order. */
  function Candidates(entries: seq<DirEntry>): (cs: seq<LogCandidate>)
    ensures |cs| <= |entries|
    ensures forall e :: e in entries && IsLogFile(e) ==> Candidate(e) in cs
    ensures forall c :: c in cs ==> exists e :: e in entries && IsLogFile(e) && c == Candidate(e)
  {
    if entries == [] then []
    else
      var init := entries[..|entries| - 1];
      var e := entries[|entries| - 1];
      assert entries == init + [e];
      Candidates(init) + (if IsLogFile(e) then [Candidate(e)] else [])
  }

  /** The candidates are the passing entries in the order of the listing, each once: the
      `k`-th candidate comes from the `k`-th passing position. */
  lemma {:induction false} CandidatesKeepOrder(entries: seq<DirEntry>)
    ensures CandidatesInOrder(entries, Candidates(entries))
  {
    if entries != [] {
      var init := entries[..|entries| - 1];
      CandidatesKeepOrder(init);
      ExtendCandidates(entries, Candidates(init));
      assert Candidates(entries) == Candidates(init) + (if IsLogFile(entries[|entries| - 1]) then [Candidate(entries[|entries| - 1])] else []);
    }
  }

  /** The candidates of all but the last entry, followed by the last one's when it passes. */
  lemma ExtendCandidates(entries: seq<DirEntry>, prev: seq<LogCandidate>)
    requires entries != [] && CandidatesInOrder(entries[..|entries| - 1], prev)
    ensures var e := entries[|entries| - 1];
            CandidatesInOrder(entries, prev + (if IsLogFile(e) then [Candidate(e)] else []))
  {
    var init := entries[..|entries| - 1];
    var e := entries[|entries| - 1];
    var rest := LogIndices(init);
    assert LogIndices(entries) == rest + (if IsLogFile(e) then [|entries| - 1] else []) by {
      assert PassingIndices(entries, IsLogFile) == PassingIndices(init, IsLogFile) + (if IsLogFile(e) then [|entries| - 1] else []);
    }
    forall k | 0 <= k < |rest|
      ensures entries[rest[k]] == init[rest[k]]
    {
    }
  }

  predicate SortedByNumber(cs: seq<LogCandidate>) {
    forall i, j :: 0 <= i < j < |cs| ==> cs[i].number <= cs[j].number
  }

  /** Where `Insert` puts a new element: just after the last element whose number is not
      greater than the new one's, or at the front when there is none. */
  ghost function InsertPosition(s: seq<LogCandidate>, c: LogCandidate): (k: nat)
    ensures k <= |s|
    ensures forall m :: k <= m < |s| ==> s[m].number > c.number
    ensures k > 0 ==> s[k - 1].number <= c.number
  {
    if s == [] || s[|s| - 1].number <= c.number then |s| else InsertPosition(s[..|s| - 1], c)
  }

  /** Inserts `c` into `s` after the trailing elements whose number is greater, so that
      equal numbers keep their order of arrival. */
  function Insert(s: seq<LogCandidate>, c: LogCandidate): (r: seq<LogCandidate>)
    ensures |r| == |s| + 1
    ensures multiset(r) == multiset(s) + multiset{c}
    ensures r[|r| - 1] == if s != [] && s[|s| - 1].number > c.number then s[|s| - 1] else c
  {
    if s == [] then [c]
    else if s[|s| - 1].number <= c.number then s + [c]
    else
      var init := s[..|s| - 1];
      assert s == init + [s[|s| - 1]];
      Insert(init, c) + [s[|s| - 1]]
  }

  /** `Insert` puts the new element at `InsertPosition` and keeps the others in order: after
      every element whose number is not greater that precedes the greater ones at the end. */
  lemma {:induction false} InsertPlacement(s: seq<LogCandidate>, c: LogCandidate)
    ensures Insert(s, c) == s[..InsertPosition(s, c)] + [c] + s[InsertPosition(s, c)..]
  {
    if s == [] {
    } else if s[|s| - 1].number <= c.number {
      assert s[..|s|] == s;
    } else {
      InsertPlacement(s[..|s| - 1], c);
      InsertPlacementStep(s, c);
    }
  }

  /** The step of `InsertPlacement` past a trailing element greater than the new one. */
  lemma InsertPlacementStep(s: seq<LogCandidate>, c: LogCandidate)
    requires s != [] && s[|s| - 1].number > c.number
    requires var init := s[..|s| - 1];
             Insert(init, c) == init[..InsertPosition(init, c)] + [c] + init[InsertPosition(init, c)..]
    ensures Insert(s, c) == s[..InsertPosition(s, c)] + [c] + s[InsertPosition(s, c)..]
  {
    var init := s[..|s| - 1];
    var top := s[|s| - 1];
    var k := InsertPosition(init, c);
    assert InsertPosition(s, c) == k;
    assert Insert(s, c) == Insert(init, c) + [top];
    InsertBeforeLast(s, k, c);
  }

  /** Putting `c` at `k` in all but the last element, then appending the last element, puts
      `c` at `k` in the whole sequence. */
  lemma InsertBeforeLast<T>(s: seq<T>, k: nat, c: T)
    requires k < |s|
    ensures s[..|s| - 1][..k] + [c] + s[..|s| - 1][k..] + [s[|s| - 1]] == s[..k] + [c] + s[k..]
  {
    var init := s[..|s| - 1];
    assert s[..k] == init[..k];
    assert s[k..] == init[k..] + [s[|s| - 1]];
  }

  /** Inserting an element no greater than a bound into elements no greater than the bound
      gives elements no greater than the bound. */
  lemma {:induction false} InsertBounded(s: seq<LogCandidate>, c: LogCandidate, bound: u64)
    requires forall k :: 0 <= k < |s| ==> s[k].number <= bound
    requires c.number <= bound
    ensures forall k :: 0 <= k < |Insert(s, c)| ==> Insert(s, c)[k].number <= bound
  {
    if s != [] && s[|s| - 1].number > c.number {
      var init := s[..|s| - 1];
      InsertBounded(init, c, bound);
      assert Insert(s, c) == Insert(init, c) + [s[|s| - 1]];
    }
  }

  /** Inserting into a sorted sequence keeps it sorted. */
  lemma {:induction false} InsertSorted(s: seq<LogCandidate>, c: LogCandidate)
    requires SortedByNumber(s)
    ensures SortedByNumber(Insert(s, c))
  {
    if s != [] && s[|s| - 1].number > c.number {
      var init := s[..|s| - 1];
      var top := s[|s| - 1];
      assert SortedByNumber(init);
      InsertSorted(init, c);
      InsertBounded(init, c, top.number);
      var front := Insert(init, c);
      assert Insert(s, c) == front + [top];
    } else if s != [] {
      assert Insert(s, c) == s + [c];
    }
  }

  /** `sort_by_key` on the number: a stable sort, here by insertion. */
  function SortByNumber(cs: seq<LogCandidate>): (r: seq<LogCandidate>)
    ensures |r| == |cs|
    ensures multiset(r) == multiset(cs)
    ensures SortedByNumber(r)
  {
    if cs == [] then []
    else
      var init := cs[..|cs| - 1];
      assert cs == init + [cs[|cs| - 1]];
      InsertSorted(SortByNumber(init), cs[|cs| - 1]);
      Insert(SortByNumber(init), cs[|cs| - 1])
  }

  /** The number of an entry that passed the filter. */
  function Num(e: DirEntry): u64
    requires IsLogFile(e)
  {
    LogFileNumber(e.name).value
  }

  /** Entry `i` is a log file with the greatest number, and no later log file has as great a
      number: the last of the greatest in directory order. */
  predicate IsLastGreatest(entries: seq<DirEntry>, i: int) {
    && 0 <= i < |entries|
    && IsLogFile(entries[i])
    && (forall j :: 0 <= j < |entries| && IsLogFile(entries[j]) ==> Num(entries[j]) <= Num(entries[i]))
    && (forall j :: i < j < |entries| && IsLogFile(entries[j]) ==> Num(entries[j]) < Num(entries[i]))
  }

  /** Appending an entry that is not a log file, or one with a smaller number, keeps the
      last of the greatest. */
  lemma KeepLastGreatest(init: seq<DirEntry>, e: DirEntry, i: int)
    requires IsLastGreatest(init, i)
    requires IsLogFile(e) ==> Num(e) < Num(init[i])
    ensures IsLastGreatest(init + [e], i)
  {
    var entries := init + [e];
    assert entries[i] == init[i];
    forall j | 0 <= j < |entries| && IsLogFile(entries[j])
      ensures Num(entries[j]) <= Num(entries[i])
    {
      if j < |init| {
        assert entries[j] == init[j];
      }
    }
    forall j | i < j < |entries| && IsLogFile(entries[j])
      ensures Num(entries[j]) < Num(entries[i])
    {
      if j < |init| {
        assert entries[j] == init[j];
      }
    }
  }

  /** Appending a log file whose number is at least the greatest so far makes it the last
      of the greatest. */
  lemma NewLastGreatest(init: seq<DirEntry>, e: DirEntry, i: int)
    requires IsLastGreatest(init, i) && IsLogFile(e) && Num(init[i]) <= Num(e)
    ensures IsLastGreatest(init + [e], |init|)
  {
    var entries := init + [e];
    assert entries[|init|] == e;
    forall j | 0 <= j < |entries| && IsLogFile(entries[j])
      ensures Num(entries[j]) <= Num(e)
    {
      if j < |init| {
        assert entries[j] == init[j];
      }
    }
  }

  /** Without candidates, no entry is a log file. */
  lemma {:induction false} NoCandidatesNoLogFiles(entries: seq<DirEntry>)
    requires Candidates(entries) == []
    ensures forall j :: 0 <= j < |entries| ==> !IsLogFile(entries[j])
  {
    if entries != [] {
      var init := entries[..|entries| - 1];
      NoCandidatesNoLogFiles(init);
      assert forall j :: 0 <= j < |entries| - 1 ==> entries[j] == init[j];
    }
  }

  /** Appending the first log file makes it the last of the greatest. */
  lemma FirstLastGreatest(init: seq<DirEntry>, e: DirEntry)
    requires forall j :: 0 <= j < |init| ==> !IsLogFile(init[j])
    requires IsLogFile(e)
    ensures IsLastGreatest(init + [e], |init|)
  {
    var entries := init + [e];
    assert entries[|init|] == e;
    forall j | 0 <= j < |init|
      ensures !IsLogFile(entries[j])
    {
      assert entries[j] == init[j];
    }
  }

  /** The last of the sorted candidates. */
  function LastSorted(entries: seq<DirEntry>): LogCandidate
    requires Candidates(entries) != []
  {
    var sorted := SortByNumber(Candidates(entries));
    sorted[|sorted| - 1]
  }

  /** Appending a log file to a listing that already has candidates: the new last sorted
      candidate is the old one if its number is greater, otherwise the new file. */
  lemma LastSortedAppend(init: seq<DirEntry>, e: DirEntry)
    requires Candidates(init) != [] && IsLogFile(e)
    ensures Candidates(init + [e]) != []
    ensures LastSorted(init + [e]) ==
              if LastSorted(init).number > Candidate(e).number then LastSorted(init) else Candidate(e)
  {
    var entries := init + [e];
    assert entries[..|entries| - 1] == init;
    var cs := Candidates(init);
    assert Candidates(entries) == cs + [Candidate(e)];
    assert (cs + [Candidate(e)])[..|cs|] == cs;
    assert SortByNumber(Candidates(entries)) == Insert(SortByNumber(cs), Candidate(e));
  }

  /** The last sorted candidate is the log file with the greatest number, the last such in
      directory order. */
  lemma {:induction false} LastSortedIsLastGreatest(entries: seq<DirEntry>)
    requires Candidates(entries) != []
    ensures exists i :: IsLastGreatest(entries, i) && LastSorted(entries) == Candidate(entries[i])
  {
    var n := |entries|;
    var init := entries[..n - 1];
    var e := entries[n - 1];
    assert entries == init + [e];
    if !IsLogFile(e) {
      assert Candidates(entries) == Candidates(init);
      LastSortedIsLastGreatest(init);
      var i :| IsLastGreatest(init, i) && LastSorted(init) == Candidate(init[i]);
      KeepLastGreatest(init, e, i);
      assert entries[i] == init[i];
    } else if Candidates(init) == [] {
      assert Candidates(entries) == [Candidate(e)];
      NoCandidatesNoLogFiles(init);
      FirstLastGreatest(init, e);
    } else {
      LastSortedIsLastGreatest(init);
      var i :| IsLastGreatest(init, i) && LastSorted(init) == Candidate(init[i]);
      LastSortedAppend(init, e);
      if Num(init[i]) > Num(e) {
        KeepLastGreatest(init, e, i);
        assert entries[i] == init[i];
      } else {
        NewLastGreatest(init, e, i);
      }
    }
  }

  /** `find_log`: the name of the log file with the greatest number, the last such in
      directory order; None when no entry passes the filter. */
  function FindLog(entries: seq<DirEntry>): (r: Option<string>)
    ensures r.None? <==> forall e :: e in entries ==> !IsLogFile(e)
    ensures r.Some? ==> exists i :: IsLastGreatest(entries, i) && entries[i].name == r.value
  {
    var sorted := SortByNumber(Candidates(entries));
    if sorted == [] then
      NoCandidatesNoLogFiles(entries);
      None
    else
      LastSortedIsLastGreatest(entries);
      Some(sorted[|sorted| - 1].name)
  }

  // ---------------------------------------------------------------------------------------
  // Build configuration (`build`)

  /** The `--release` and `--log` flags. */
  datatype BuildArgs = BuildArgs(release: bool, log: Option<bool>)

  /** The one refusal: logging cannot be enabled in a release build. */
  datatype BuildError = LoggingInRelease

  /** What `build` derives from its flags before running CMake: whether the plugin logs, the
      build directory's name, the CMake build-type argument and the build's environment. */
  datatype BuildPlan = BuildPlan(enableLog: bool, buildName: string, buildType: string, envs: map<string, string>)

  /** "release" and "debug" with an upper-case first letter. */
  function Capitalized(word: string): (r: string)
    ensures |r| == |word|
    ensures word != [] && 'a' <= word[0] <= 'z' ==> r[0] as int == word[0] as int - 32
    ensures word != [] ==> r[1..] == word[1..]
  {
    if word == [] then []
    else if 'a' <= word[0] <= 'z' then [(word[0] as int - 32) as char] + word[1..]
    else word
  }

  /** `build`'s flag resolution, given the inherited environment `vars` and whether the
      terminal wants colour. */
  function PlanBuild(args: BuildArgs, vars: map<string, string>, colorize: bool): (r: Result<BuildPlan, BuildError>)
    // the only error, and exactly when it happens
    ensures r.Failure? <==> args.release && args.log == Some(true)
    ensures r.Success? ==> !(args.release && r.value.enableLog)
    // logging follows --log when given, otherwise it is on exactly in debug builds
    ensures r.Success? && args.log.None? ==> r.value.enableLog == !args.release
    ensures r.Success? && args.log.Some? ==> r.value.enableLog == args.log.value
    // the directory and the CMake build type both follow --release, and agree
    ensures r.Success? ==> (r.value.buildName == "release" <==> args.release)
    ensures r.Success? ==> (r.value.buildName == "debug" <==> !args.release)
    ensures r.Success? ==> r.value.buildType == "-DCMAKE_BUILD_TYPE=" + Capitalized(r.value.buildName)
    // the environment is the inherited one plus the two switches
    ensures r.Success? && r.value.enableLog ==> "RUST_VST_LOG" in r.value.envs && r.value.envs["RUST_VST_LOG"] == "1"
    ensures r.Success? && colorize ==> "CLICOLOR_FORCE" in r.value.envs && r.value.envs["CLICOLOR_FORCE"] == "1"
    ensures r.Success? ==> forall k :: k in vars && k != "RUST_VST_LOG" && k != "CLICOLOR_FORCE" ==>
                                       k in r.value.envs && r.value.envs[k] == vars[k]
    ensures r.Success? && !r.value.enableLog && !colorize ==> r.value.envs == vars
    // no other key is added, and a switch that stays off keeps its inherited value
    ensures r.Success? ==> r.value.envs.Keys == vars.Keys + (if r.value.enableLog then {"RUST_VST_LOG"} else {})
                                                         + (if colorize then {"CLICOLOR_FORCE"} else {})
    ensures r.Success? && !r.value.enableLog && "RUST_VST_LOG" in vars ==>
              "RUST_VST_LOG" in r.value.envs && r.value.envs["RUST_VST_LOG"] == vars["RUST_VST_LOG"]
    ensures r.Success? && !colorize && "CLICOLOR_FORCE" in vars ==>
              "CLICOLOR_FORCE" in r.value.envs && r.value.envs["CLICOLOR_FORCE"] == vars["CLICOLOR_FORCE"]
  {
    var enableLog := args.log.GetOr(!args.release);
    if args.release && enableLog then Failure(LoggingInRelease)
    else
      var withLog := if enableLog then vars["RUST_VST_LOG" := "1"] else vars;
      var envs := if colorize then withLog["CLICOLOR_FORCE" := "1"] else withLog;
      var buildName := if args.release then "release" else "debug";
      var buildType := "-DCMAKE_BUILD_TYPE=" + (if args.release then "Release" else "Debug");
      Success(BuildPlan(enableLog, buildName, buildType, envs))
  }

  // ---------------------------------------------------------------------------------------
  // Installer script (`generate_installer`)

  predicate MatchAt(s: string, i: nat, pat: string) {
    i + |pat| <= |s| && s[i..i + |pat|] == pat
  }

  /** `str::replace`: every non-overlapping occurrence of `pat`, scanned left to right,
      replaced by `rep`. */
  function Replace(s: string, pat: string, rep: string): (r: string)
    requires pat != []
    // a text without an occurrence of the pattern is left as it is
    ensures (forall i :: 0 <= i < |s| ==> !MatchAt(s, i, pat)) ==> r == s
    decreases |s|
  {
    if |s| < |pat| then s
    else if s[..|pat|] == pat then
      assert MatchAt(s, 0, pat);
      rep + Replace(s[|pat|..], pat, rep)
    else
      MatchesOfTail(s, pat);
      [s[0]] + Replace(s[1..], pat, rep)
  }

  /** Dropping the first character shifts every match one place to the left. */
  lemma MatchAtTail(t: string, i: nat, pat: string)
    requires t != []
    ensures MatchAt(t[1..], i, pat) <==> MatchAt(t, i + 1, pat)
  {
    if i + |pat| <= |t| - 1 {
      assert t[1..][i..i + |pat|] == t[i + 1..i + 1 + |pat|];
    }
  }

  /** `MatchAtTail` at every position. */
  lemma MatchesOfTail(t: string, pat: string)
    requires t != []
    ensures forall i :: 0 <= i < |t| - 1 ==> (MatchAt(t[1..], i, pat) <==> MatchAt(t, i + 1, pat))
  {
    forall i | 0 <= i < |t| - 1
      ensures MatchAt(t[1..], i, pat) <==> MatchAt(t, i + 1, pat)
    {
      MatchAtTail(t, i, pat);
    }
  }

  /** A match that fits inside `u` does not see what follows `u`. */
  lemma MatchAtPrefix(u: string, v: string, i: nat, pat: string)
    requires i + |pat| <= |u|
    ensures MatchAt(u + v, i, pat) <==> MatchAt(u, i, pat)
  {
    assert (u + v)[i..i + |pat|] == u[i..i + |pat|];
  }

  /** A prefix in which no occurrence of the pattern starts is copied unchanged. */
  lemma {:induction false} ReplaceSkipsPrefix(p: string, s: string, pat: string, rep: string)
    requires pat != []
    requires forall i :: 0 <= i < |p| ==> !MatchAt(p + s, i, pat)
    ensures Replace(p + s, pat, rep) == p + Replace(s, pat, rep)
    decreases |p|
  {
    if p == [] {
      assert p + s == s;
    } else {
      var t := p + s;
      assert !MatchAt(t, 0, pat);
      if |t| >= |pat| {
        assert t[..|pat|] == t[0..|pat|];
        assert t[1..] == p[1..] + s;
        forall i | 0 <= i < |p| - 1
          ensures !MatchAt(p[1..] + s, i, pat)
        {
          MatchAtTail(t, i, pat);
        }
        ReplaceSkipsPrefix(p[1..], s, pat, rep);
        assert Replace(t, pat, rep) == [t[0]] + Replace(p[1..] + s, pat, rep);
        assert p == [p[0]] + p[1..];
      } else {
        assert Replace(s, pat, rep) == s;
      }
    }
  }

  /** The texts joined with `sep` between them. */
  function Join(parts: seq<string>, sep: string): string
    requires parts != []
  {
    if |parts| == 1 then parts[0] else parts[0] + sep + Join(parts[1..], sep)
  }

  /** A text made of segments separated by the pattern, where no occurrence of the pattern
      starts inside a segment, comes out as the segments separated by the replacement. */
  lemma {:induction false} ReplaceJoin(parts: seq<string>, pat: string, rep: string)
    requires pat != [] && parts != []
    requires forall k, i :: 0 <= k < |parts| && 0 <= i < |parts[k]| ==> !MatchAt(parts[k] + pat, i, pat)
    ensures Replace(Join(parts, pat), pat, rep) == Join(parts, rep)
    decreases |parts|
  {
    var p := parts[0];
    if |parts| == 1 {
      forall i | 0 <= i < |p|
        ensures !MatchAt(p + [], i, pat)
      {
        assert !MatchAt(p + pat, i, pat);
        assert p + [] == p;
        if i + |pat| <= |p| {
          MatchAtPrefix(p, pat, i, pat);
        }
      }
      ReplaceSkipsPrefix(p, [], pat, rep);
      assert p + [] == p;
    } else {
      var rest := Join(parts[1..], pat);
      var tail := pat + rest;
      assert p + tail == (p + pat) + rest;
      forall i | 0 <= i < |p|
        ensures !MatchAt(p + tail, i, pat)
      {
        assert !MatchAt(p + pat, i, pat);
        MatchAtPrefix(p + pat, rest, i, pat);
      }
      ReplaceSkipsPrefix(p, tail, pat, rep);
      assert tail[..|pat|] == pat && tail[|pat|..] == rest;
      ReplaceJoin(parts[1..], pat, rep);
    }
  }

  const VERSION_PLACEHOLDER: string := "{version}"

  /** The NSIS script written from the template for the package `version`. */
  function InstallerScript(template: string, version: string): (script: string)
    ensures (forall i :: 0 <= i < |template| ==> !MatchAt(template, i, VERSION_PLACEHOLDER)) ==> script == template
    ensures template == VERSION_PLACEHOLDER ==> script == version
  {
    if template == VERSION_PLACEHOLDER then
      assert Replace(template[|VERSION_PLACEHOLDER|..], VERSION_PLACEHOLDER, version) == [];
      Replace(template, VERSION_PLACEHOLDER, version)
    else
      Replace(template, VERSION_PLACEHOLDER, version)
  }

  /** An occurrence of "{version}" cannot begin inside a segment and run into the
      placeholder that follows it: only its first character is '{'. */
  lemma PlaceholderDoesNotStraddle(p: string, i: nat)
    requires i < |p|
    requires forall j :: 0 <= j <= |p| ==> !MatchAt(p, j, VERSION_PLACEHOLDER)
    ensures !MatchAt(p + VERSION_PLACEHOLDER, i, VERSION_PLACEHOLDER)
  {
    var pat := VERSION_PLACEHOLDER;
    var t := p + pat;
    if i + |pat| <= |p| {
      MatchAtPrefix(p, pat, i, pat);
    } else {
      var d := |p| - i;
      assert t[i..i + |pat|][d] == t[|p|] == '{';
      assert pat[d] != '{';
    }
  }

  /** Every "{version}" in the template is replaced by the version and nothing else changes:
      a template written as segments without the placeholder, joined by placeholders, becomes
      the same segments joined by the version. */
  lemma InstallerScriptFillsVersion(segments: seq<string>, version: string)
    requires segments != []
    requires forall k, j :: 0 <= k < |segments| && 0 <= j <= |segments[k]| ==>
               !MatchAt(segments[k], j, VERSION_PLACEHOLDER)
    ensures InstallerScript(Join(segments, VERSION_PLACEHOLDER), version) == Join(segments, version)
  {
    forall k, i | 0 <= k < |segments| && 0 <= i < |segments[k]|
      ensures !MatchAt(segments[k] + VERSION_PLACEHOLDER, i, VERSION_PLACEHOLDER)
    {
      PlaceholderDoesNotStraddle(segments[k], i);
    }
    ReplaceJoin(segments, VERSION_PLACEHOLDER, version);
  }
}
