/**
 * The test runner of runner.py: Django's test options translated into
 * pytest's command line. The runner keeps the options it was made with and
 * builds the argument list flag by flag, the test labels last; handing the
 * list to pytest is outside the model.
 */
module Runner {

  /** The flag a verbosity level asks for: 0, 2 and 3 have one, every other level none. */
  function VerbosityFlags(verbosity: int): seq<string>
  {
    if verbosity == 0 then ["--quiet"]
    else if verbosity == 2 then ["--verbose"]
    else if verbosity == 3 then ["-vv"]
    else []
  }

  /** The pytest flags for a set of options, in the order the runner appends them. */
  function Flags(verbosity: int, failfast: bool, keepdb: bool, nomigration: bool): seq<string>
  {
    VerbosityFlags(verbosity)
      + (if failfast then ["--exitfirst"] else [])
      + (if keepdb then ["--reuse-db"] else [])
      + (if nomigration then ["--nomigration"] else [])
  }

  class PytestTestRunner {
    const verbosity: int
    const failfast: bool
    const keepdb: bool
    const nomigration: bool

    /** `__init__`: the four options are kept; any other keyword argument is ignored. */
    constructor (verbosity: int, failfast: bool, keepdb: bool, nomigration: bool)
      ensures this.verbosity == verbosity && this.failfast == failfast
      ensures this.keepdb == keepdb && this.nomigration == nomigration
    {
      this.verbosity := verbosity;
      this.failfast := failfast;
      this.keepdb := keepdb;
      this.nomigration := nomigration;
    }

    /** The argument list `run_tests` passes to pytest: the option flags, then the labels. */
    method RunTests(testLabels: seq<string>) returns (argv: seq<string>)
      ensures argv == Flags(verbosity, failfast, keepdb, nomigration) + testLabels
    {
      argv := [];
      if verbosity == 0 {
        argv := argv + ["--quiet"];
      }
      if verbosity == 2 {
        argv := argv + ["--verbose"];
      }
      if verbosity == 3 {
        argv := argv + ["-vv"];
      }
      assert argv == VerbosityFlags(verbosity);
      if failfast {
        argv := argv + ["--exitfirst"];
      }
      assert argv == VerbosityFlags(verbosity) + (if failfast then ["--exitfirst"] else []);
      if keepdb {
        argv := argv + ["--reuse-db"];
      }
      assert argv == VerbosityFlags(verbosity) + (if failfast then ["--exitfirst"] else [])
        + (if keepdb then ["--reuse-db"] else []);
      if nomigration {
        argv := argv + ["--nomigration"];
      }
      assert argv == Flags(verbosity, failfast, keepdb, nomigration);
      argv := argv + testLabels;
    }
  }

  // ---------------------------------------------------------------- lemmas

  /** Exactly one verbosity flag for 0, 2 and 3, the right one, and none otherwise. */
  lemma VerbosityFlagsSpec(verbosity: int)
    ensures |VerbosityFlags(verbosity)| == (if verbosity in {0, 2, 3} then 1 else 0)
    ensures "--quiet" in VerbosityFlags(verbosity) <==> verbosity == 0
    ensures "--verbose" in VerbosityFlags(verbosity) <==> verbosity == 2
    ensures "-vv" in VerbosityFlags(verbosity) <==> verbosity == 3
  {
  }

  /** The position of a flag in the fixed order: verbosity, exitfirst, reuse-db, nomigration. */
  function Rank(flag: string): nat
  {
    if flag == "--exitfirst" then 1
    else if flag == "--reuse-db" then 2
    else if flag == "--nomigration" then 3
    else 0
  }

  /** Each option's flag is there exactly when the option is set. */
  lemma FlagsPresence(verbosity: int, failfast: bool, keepdb: bool, nomigration: bool)
    ensures "--exitfirst" in Flags(verbosity, failfast, keepdb, nomigration) <==> failfast
    ensures "--reuse-db" in Flags(verbosity, failfast, keepdb, nomigration) <==> keepdb
    ensures "--nomigration" in Flags(verbosity, failfast, keepdb, nomigration) <==> nomigration
    ensures "--quiet" in Flags(verbosity, failfast, keepdb, nomigration) <==> verbosity == 0
    ensures "--verbose" in Flags(verbosity, failfast, keepdb, nomigration) <==> verbosity == 2
    ensures "-vv" in Flags(verbosity, failfast, keepdb, nomigration) <==> verbosity == 3
  {
    VerbosityFlagsSpec(verbosity);
  }

  /** The flags come in the fixed order, each at most once. */
  lemma FlagsOrdered(verbosity: int, failfast: bool, keepdb: bool, nomigration: bool)
    ensures var f := Flags(verbosity, failfast, keepdb, nomigration);
      forall i, j :: 0 <= i < j < |f| ==> Rank(f[i]) < Rank(f[j])
  {
    var v := VerbosityFlags(verbosity);
    var a := if failfast then ["--exitfirst"] else [];
    var b := if keepdb then ["--reuse-db"] else [];
    var c := if nomigration then ["--nomigration"] else [];
    var f := v + a + b + c;
    assert forall k :: 0 <= k < |v| ==> Rank(v[k]) == 0;
    forall i, j | 0 <= i < j < |f| ensures Rank(f[i]) < Rank(f[j])
    {
      assert forall k :: 0 <= k < |f| ==>
        Rank(f[k]) == (if k < |v| then 0
                       else if k < |v| + |a| then 1
                       else if k < |v| + |a| + |b| then 2
                       else 3);
    }
  }

  /** The list holds one flag per set option, and the labels after them, unchanged and in order. */
  lemma ArgvShape(verbosity: int, failfast: bool, keepdb: bool, nomigration: bool, testLabels: seq<string>)
    ensures var argv := Flags(verbosity, failfast, keepdb, nomigration) + testLabels;
      |argv| == (if verbosity in {0, 2, 3} then 1 else 0) + (if failfast then 1 else 0)
                + (if keepdb then 1 else 0) + (if nomigration then 1 else 0) + |testLabels| &&
      argv[|argv| - |testLabels|..] == testLabels
  {
    VerbosityFlagsSpec(verbosity);
    var f := Flags(verbosity, failfast, keepdb, nomigration);
    assert (f + testLabels)[|f|..] == testLabels;
  }

  /** The default runner passes the labels alone. */
  lemma DefaultOptions(testLabels: seq<string>)
    ensures Flags(1, false, false, false) + testLabels == testLabels
  {
  }
}
