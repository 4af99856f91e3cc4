/**
  How the build hook decides what to do: two switches, one to increase every
  version and one to reset every version to 1, each read from the process
  arguments and from an environment variable.
 */
module Flags {

  /** The two switches of one run. Reset ("fresh") wins over increase when both are on. */
  datatype Mode = Mode(shouldIncrease: bool, shouldFresh: bool) {
    /** A run does any work only when at least one switch is on. */
    predicate Active() {
      shouldIncrease || shouldFresh
    }
  }

  /** `Array.prototype.includes` on the argument vector: a left-to-right search. */
  function Includes(xs: seq<string>, x: string): (r: bool)
    ensures r <==> x in xs
    decreases |xs|
  {
    |xs| > 0 && (xs[0] == x || Includes(xs[1..], x))
  }

  /** `env.KEY === value`: an unset variable is `undefined`, which equals no string. */
  predicate EnvIs(env: map<string, string>, key: string, value: string) {
    key in env && env[key] == value
  }

  predicate ShouldIncrease(args: seq<string>, env: map<string, string>) {
    Includes(args, "--increase") || Includes(args, "--bump") || EnvIs(env, "BUMP", "true")
  }

  predicate ShouldFresh(args: seq<string>, env: map<string, string>) {
    Includes(args, "--fresh") || EnvIs(env, "FRESH", "true")
  }

  function DeriveMode(args: seq<string>, env: map<string, string>): Mode {
    Mode(ShouldIncrease(args, env), ShouldFresh(args, env))
  }

  /** Which arguments and variables switch each mode on, stated with plain membership. */
  lemma DeriveModeSpec(args: seq<string>, env: map<string, string>)
    ensures DeriveMode(args, env).shouldIncrease <==>
      "--increase" in args || "--bump" in args || ("BUMP" in env && env["BUMP"] == "true")
    ensures DeriveMode(args, env).shouldFresh <==>
      "--fresh" in args || ("FRESH" in env && env["FRESH"] == "true")
    ensures !DeriveMode(args, env).Active() <==>
      "--increase" !in args && "--bump" !in args && "--fresh" !in args
      && !("BUMP" in env && env["BUMP"] == "true") && !("FRESH" in env && env["FRESH"] == "true")
  {
  }

  /** The hook does not know `--reset`: adding it to the arguments switches nothing on. */
  lemma ResetNotRecognised(args: seq<string>, env: map<string, string>)
    ensures DeriveMode(args + ["--reset"], env) == DeriveMode(args, env)
  {
    assert forall x :: x in args + ["--reset"] <==> x in args || x == "--reset";
  }
}
