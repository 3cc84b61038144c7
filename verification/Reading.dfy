/**
 Results of reading from bytes, and how the loops that read a counted list
 relate to the recursive definition of such a list.
 */
module Reading {
  import opened Bytes

  /** Something read, and how many bytes it took. */
  datatype Got<T> = Got(what: T, size: nat)

  /** What a count-driven loop still has to read, put behind what it has read. */
  ghost function Joined<T>(done: seq<T>, used: nat, rest: Option<Got<seq<T>>>): (r: Option<Got<seq<T>>>) {
    if rest.None? then None else Some(Got(done + rest.value.what, used + rest.value.size))
  }

  lemma JoinedNothing<T>(rest: Option<Got<seq<T>>>)
    ensures Joined([], 0, rest) == rest
  {
    if rest.Some? {
      assert [] + rest.value.what == rest.value.what;
    }
  }

  lemma JoinedStep<T>(done: seq<T>, used: nat, x: T, size: nat, rest: Option<Got<seq<T>>>)
    ensures Joined(done, used, Joined([x], size, rest)) == Joined(done + [x], used + size, rest)
  {
    if rest.Some? {
      assert done + ([x] + rest.value.what) == done + [x] + rest.value.what;
    }
  }

  /** Skipping what was just read leaves the rest. */
  lemma Skip<T>(a: seq<T>, b: seq<T>, rest: seq<T>)
    ensures (a + b) + rest == a + (b + rest)
    ensures (a + (b + rest))[|a|..] == b + rest
  {
  }
}
