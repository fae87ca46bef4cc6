/**
 * `isTruthy` / `isFalsey`, shared by the import commands and the send-email
 * command, and the way a command reads a yes/no option with them.
 */
module Flags {
  import opened Wrappers
  import opened Php

  /** A PHP scalar as it can appear in the literal lists of `isTruthy` and `isFalsey`. */
  datatype Scalar = SBool(b: bool) | SInt(n: int) | SStr(s: string)

  /** `in_array($needle, $list, true)`: strict comparison, so the type must match too. */
  predicate InArrayStrict(needle: Scalar, list: seq<Scalar>) {
    exists i :: 0 <= i < |list| && list[i] == needle
  }

  const TruthyList: seq<Scalar> := [SBool(true), SStr("true"), SStr("yes"), SStr("y"), SInt(1), SStr("1")]
  const FalseyList: seq<Scalar> := [SBool(false), SStr("false"), SStr("no"), SStr("n"), SInt(0), SStr("0")]

  /** `isTruthy($value)`: `strtolower` returns a string, which is compared strictly
      against the list. */
  predicate IsTruthy(value: string) {
    InArrayStrict(SStr(Lower(value)), TruthyList)
  }

  /** `isFalsey($value)`. */
  predicate IsFalsey(value: string) {
    InArrayStrict(SStr(Lower(value)), FalseyList)
  }

  /** Only the four string entries of the list can ever match: the boolean `true`
      and the integer `1` are dead entries under strict comparison. */
  lemma IsTruthyIff(value: string)
    ensures IsTruthy(value) <==> Lower(value) in ["true", "yes", "y", "1"]
  {
    if Lower(value) in ["true", "yes", "y", "1"] {
      var i :| 0 <= i < 4 && ["true", "yes", "y", "1"][i] == Lower(value);
      var j := [1, 2, 3, 5][i];
      assert TruthyList[j] == SStr(Lower(value));
    }
  }

  lemma IsFalseyIff(value: string)
    ensures IsFalsey(value) <==> Lower(value) in ["false", "no", "n", "0"]
  {
    if Lower(value) in ["false", "no", "n", "0"] {
      var i :| 0 <= i < 4 && ["false", "no", "n", "0"][i] == Lower(value);
      var j := [1, 2, 3, 5][i];
      assert FalseyList[j] == SStr(Lower(value));
    }
  }

  /** No option value is both truthy and falsey. */
  lemma TruthyFalseyExclusive(value: string)
    ensures !(IsTruthy(value) && IsFalsey(value))
  {
    IsTruthyIff(value);
    IsFalseyIff(value);
  }

  /** A yes/no option: `isTruthy($option)` when the option is set (the console
      framework hands a command an option's default, so an option that was not
      given carries its default value), otherwise the command's own fallback. */
  function FlagOption(option: Option<string>, fallback: bool): (on: bool)
    ensures option.Some? ==> (on <==> Lower(option.value) in ["true", "yes", "y", "1"])
    ensures option.None? ==> on == fallback
  {
    if option.Some? then
      IsTruthyIff(option.value);
      IsTruthy(option.value)
    else fallback
  }
}
