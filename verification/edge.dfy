/** The edge-triggered `satisfied` state of a constraint. The user callback is
    represented by the log of the values it has been called with. */
module Edge {

  /** The callback log after the setter is given `value` while the state is
      `current`: the callback runs, with the new value, only on an actual change. */
  function Assign(current: bool, value: bool, log: seq<bool>): (r: seq<bool>)
    ensures |r| == |log| + 1 <==> current != value
    ensures |log| <= |r| <= |log| + 1 && r[..|log|] == log
    ensures |r| > |log| ==> r[|log|] == value
  {
    if current != value then log + [value] else log
  }

  /** The history a constraint can have: it starts unsatisfied with an empty
      log, so the callback has seen true, false, true, ... and the current state
      is true exactly when it has been called an odd number of times. */
  ghost predicate Consistent(satisfied: bool, log: seq<bool>) {
    (forall i :: 0 <= i < |log| ==> log[i] == (i % 2 == 0)) &&
    satisfied == (|log| % 2 == 1)
  }

  lemma AssignKeepsConsistent(current: bool, value: bool, log: seq<bool>)
    requires Consistent(current, log)
    ensures Consistent(value, Assign(current, value, log))
  {
  }

  /** In a consistent history no two successive callbacks carry the same value,
      and the last one carries the current state. */
  lemma ConsistentAlternates(satisfied: bool, log: seq<bool>)
    requires Consistent(satisfied, log)
    ensures forall i :: 0 < i < |log| ==> log[i] != log[i - 1]
    ensures log != [] ==> log[|log| - 1] == satisfied
  {
  }

  /** The state and log after the setter is given each of `values` in turn
      (`satisfy` gives true, `fail` false, `check` the clause's result). */
  function Run(current: bool, log: seq<bool>, values: seq<bool>): (bool, seq<bool>)
    decreases |values|
  {
    if values == [] then (current, log)
    else Run(values[0], Assign(current, values[0], log), values[1..])
  }

  /** How many of `values` differ from the value before them. */
  function Flips(current: bool, values: seq<bool>): nat
    decreases |values|
  {
    if values == [] then 0
    else (if values[0] != current then 1 else 0) + Flips(values[0], values[1..])
  }

  /** The callback runs once per change of state and at no other time; the log
      only grows, and the final state is the last value given. */
  lemma {:induction false} RunFiresOnFlips(current: bool, log: seq<bool>, values: seq<bool>)
    ensures |Run(current, log, values).1| == |log| + Flips(current, values)
    ensures Run(current, log, values).1[..|log|] == log
    ensures Run(current, log, values).0 == if values == [] then current else values[|values| - 1]
    decreases |values|
  {
    if values != [] {
      var next := Assign(current, values[0], log);
      RunFiresOnFlips(values[0], next, values[1..]);
      assert Run(values[0], next, values[1..]).1[..|next|] == next;
      assert next[..|log|] == log;
    }
  }

  /** Repeating the same value (satisfy twice, fail twice, check with an
      unchanged clause result) fires the callback at most once, and only when
      the value differs from the starting state. */
  lemma {:induction false} RepeatFiresAtMostOnce(current: bool, log: seq<bool>, v: bool, values: seq<bool>)
    requires forall i :: 0 <= i < |values| ==> values[i] == v
    ensures Flips(current, values) == if values != [] && current != v then 1 else 0
    ensures |Run(current, log, values).1| <= |log| + 1
    decreases |values|
  {
    RunFiresOnFlips(current, log, values);
    if values != [] {
      RepeatFiresAtMostOnce(v, log, v, values[1..]);
    }
  }

  /** Any sequence of setter calls keeps the history consistent. */
  lemma {:induction false} RunKeepsConsistent(current: bool, log: seq<bool>, values: seq<bool>)
    requires Consistent(current, log)
    ensures Consistent(Run(current, log, values).0, Run(current, log, values).1)
    decreases |values|
  {
    if values != [] {
      AssignKeepsConsistent(current, values[0], log);
      RunKeepsConsistent(values[0], Assign(current, values[0], log), values[1..]);
    }
  }
}
