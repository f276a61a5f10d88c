/** Plans of writes, one after another. The empty plan is singled out, so that it leaves no trace. */
module Plans {
  function Then<T>(a: seq<T>, b: seq<T>): seq<T> {
    if |a| == 0 then b else a + b
  }

  lemma ThenIsConcatenation<T>(a: seq<T>, b: seq<T>)
    ensures Then(a, b) == a + b
  {
  }
}
