/** The polling loops `while not is_shutdown() and not <condition>: rate.sleep()`.

    A run of such a loop is described by a sequence of polls: poll k holds what
    the shutdown query answers at the k-th evaluation of the loop condition and,
    should the loop go on, the callbacks the middleware delivers during the
    sleep that follows.  The state seen by check k is therefore the start state
    with the arrivals of polls 0 .. k-1 applied in order.
 */
module Polling {

  datatype Poll<E> = Poll(shutdown: bool, arrivals: seq<E>)

  /** Every arrival of the given polls, in delivery order. */
  function Flatten<E>(polls: seq<Poll<E>>): (r: seq<E>)
    ensures polls == [] ==> r == []
  {
    if polls == [] then [] else Flatten(polls[..|polls| - 1]) + polls[|polls| - 1].arrivals
  }

  /** A state that every callback replaces wholesale: after the arrivals it
      holds the most recent one, or its value before them when there were none. */
  function Latest<T>(current: T, arrivals: seq<T>): (r: T)
    ensures r == current || r in arrivals
  {
    if arrivals == [] then current else arrivals[|arrivals| - 1]
  }

  /** Arrivals delivered in two batches leave what the second batch leaves
      when started from what the first left. */
  lemma LatestAppend<T>(current: T, a: seq<T>, b: seq<T>)
    ensures Latest(current, a + b) == Latest(Latest(current, a), b)
  {
    if b == [] {
      assert a + b == a;
    }
  }

  /** The arrivals seen before check k + 1 are those seen before check k and
      those of poll k. */
  lemma FlattenStep<E>(polls: seq<Poll<E>>, k: nat)
    requires k < |polls|
    ensures Flatten(polls[..k + 1]) == Flatten(polls[..k]) + polls[k].arrivals
  {
    assert polls[..k + 1][..k] == polls[..k];
  }
}
