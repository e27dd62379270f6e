/** The argument loop of `main`, identical in both scripts, and the ways a run
    of a script can end. */
module Cli {
  import opened Py
  import opened PyText

  /** How the argument handling of `main` ends. */
  datatype Command =
    | ShowUsage(status: int)   // `usage(status)`: usage text, then `sys.exit(status)`
    | Fail(error: Exception)   // an uncaught exception
    | Select(state: string)    // go on to fetch this state

  /** `if state:` — None and the empty string are false. */
  predicate Truthy(state: Option<string>) {
    state.Some? && state.value != ""
  }

  /** What the loop does with the remaining arguments and the state chosen so far. */
  function ArgLoop(args: seq<string>, state: Option<string>): Command
    decreases |args|
  {
    if args == [] || !StartsWithDash(args[0]) then
      if Truthy(state) then Select(state.value) else ShowUsage(1)
    else if args[0] == "-h" then ShowUsage(0)
    else if args[0] == "-s" then
      if |args| < 2 then Fail(IndexError) else ArgLoop(args[2..], Some(args[1]))
    else ShowUsage(1)
  }

  /** `main` up to the fetch: pop leading flags from `sys.argv[1:]`, then
      check that a state was chosen. */
  method ParseArguments(argv: seq<string>) returns (cmd: Command)
    ensures cmd == ArgLoop(argv, None)
  {
    var state: Option<string> := None;
    var arguments := argv;
    while arguments != [] && StartsWithDash(arguments[0])
      invariant ArgLoop(arguments, state) == ArgLoop(argv, None)
      decreases |arguments|
    {
      var argument := arguments[0];
      arguments := arguments[1..];
      if argument == "-h" {
        return ShowUsage(0);
      } else if argument == "-s" {
        if arguments == [] {
          return Fail(IndexError);
        }
        state := Some(arguments[0]);
        arguments := arguments[1..];
      } else {
        return ShowUsage(1);
      }
    }
    if Truthy(state) {
      cmd := Select(state.value);
    } else {
      cmd := ShowUsage(1);
    }
  }

  /** The number of leading tokens that form complete "-s STATE" pairs. */
  function SelectPairs(args: seq<string>): (n: nat)
    ensures n <= |args| && n % 2 == 0
    ensures forall i :: 0 <= i < n && i % 2 == 0 ==> args[i] == "-s"
    ensures !(n + 2 <= |args| && args[n] == "-s")
  {
    if |args| >= 2 && args[0] == "-s" then 2 + SelectPairs(args[2..]) else 0
  }

  /** The outcome read off the arguments directly: after the leading
      "-s STATE" pairs, the last of which holds the state, the next token
      decides. */
  function Verdict(args: seq<string>, state: Option<string>): Command {
    var n := SelectPairs(args);
    var chosen := if n == 0 then state else Some(args[n - 1]);
    if n == |args| || !StartsWithDash(args[n]) then
      if Truthy(chosen) then Select(chosen.value) else ShowUsage(1)
    else if args[n] == "-h" then ShowUsage(0)
    else if args[n] == "-s" then Fail(IndexError)
    else ShowUsage(1)
  }

  /** The loop agrees with the direct reading of the arguments. */
  lemma {:induction false} ArgLoopVerdict(args: seq<string>, state: Option<string>)
    ensures ArgLoop(args, state) == Verdict(args, state)
    decreases |args|
  {
    if |args| >= 2 && args[0] == "-s" {
      ArgLoopVerdict(args[2..], Some(args[1]));
      var n := SelectPairs(args[2..]);
      assert SelectPairs(args) == n + 2;
      assert args[2..][n..] == args[n + 2..];
      if n > 0 {
        assert args[2..][n - 1] == args[n + 1];
      }
    }
  }

  /** A state is selected exactly when the leading "-s STATE" pairs end at
      the end of the arguments or at a token without a dash, and the last
      pair names a non-empty state; that token is taken verbatim. */
  lemma SelectIff(argv: seq<string>, s: string)
    ensures ArgLoop(argv, None) == Select(s) <==>
      var n := SelectPairs(argv);
      && n >= 2 && argv[n - 2] == "-s" && argv[n - 1] == s && s != ""
      && (n == |argv| || !StartsWithDash(argv[n]))
  {
    ArgLoopVerdict(argv, None);
  }

  /** `-h` exits with status 0 exactly when it is the first token after the
      leading "-s STATE" pairs. */
  lemma HelpIff(argv: seq<string>)
    ensures ArgLoop(argv, None) == ShowUsage(0) <==>
      SelectPairs(argv) < |argv| && argv[SelectPairs(argv)] == "-h"
  {
    ArgLoopVerdict(argv, None);
  }

  /** The only exception is IndexError, raised exactly when the leading
      "-s STATE" pairs are followed by a final `-s`. */
  lemma CrashIff(argv: seq<string>)
    ensures ArgLoop(argv, None).Fail? ==> ArgLoop(argv, None).error == IndexError
    ensures ArgLoop(argv, None).Fail? <==>
      SelectPairs(argv) == |argv| - 1 && argv[|argv| - 1] == "-s"
  {
    ArgLoopVerdict(argv, None);
  }

  /** Any other dash token after the leading pairs, and a missing or empty
      state, end in usage with status 1. */
  lemma UsageErrorIff(argv: seq<string>)
    ensures ArgLoop(argv, None) == ShowUsage(1) <==>
      var n := SelectPairs(argv);
      if n == |argv| || !StartsWithDash(argv[n]) then n == 0 || argv[n - 1] == ""
      else argv[n] != "-h" && argv[n] != "-s"
  {
    ArgLoopVerdict(argv, None);
  }

  /** A later `-s` overrides whatever the earlier pairs chose. */
  lemma {:induction false} LastSelectionWins(pairs: seq<string>, y: string, rest: seq<string>,
                                             earlier: Option<string>, other: Option<string>)
    requires SelectPairs(pairs) == |pairs|
    ensures ArgLoop(pairs + ["-s", y] + rest, earlier) == ArgLoop(["-s", y] + rest, other)
    decreases |pairs|
  {
    if pairs != [] {
      var tail := pairs[2..];
      assert SelectPairs(tail) == |tail|;
      assert (pairs + ["-s", y] + rest)[2..] == tail + ["-s", y] + rest;
      LastSelectionWins(tail, y, rest, Some(pairs[1]), other);
    }
  }

  /** Parsing stops at the first token without a dash after the leading
      pairs: it and everything after it are ignored. */
  lemma {:induction false} OperandEndsParsing(pairs: seq<string>, operand: string, rest: seq<string>,
                                              state: Option<string>)
    requires SelectPairs(pairs) == |pairs|
    requires !StartsWithDash(operand)
    ensures ArgLoop(pairs + [operand] + rest, state) == ArgLoop(pairs, state)
    decreases |pairs|
  {
    if pairs != [] {
      var tail := pairs[2..];
      assert SelectPairs(tail) == |tail|;
      assert (pairs + [operand] + rest)[2..] == tail + [operand] + rest;
      OperandEndsParsing(tail, operand, rest, Some(pairs[1]));
    }
  }

  /** How a run of a script ends. */
  datatype Ending =
    | UsageExit(status: int)   // usage text, then `sys.exit(status)`
    | Completed                // `main` returned: exit status 0
    | Crashed(error: Exception)
    | NoContent                // the page was rejected; what the HTML parser does with None is not modelled

  /** What a run prints (one string per `print` call) and how it ends. */
  datatype Execution = Execution(printed: seq<string>, ending: Ending)
}
