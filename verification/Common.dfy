/** Failure-carrying datatypes shared by the other modules. */
module Common {
  datatype Option<+T> = None | Some(value: T) {
    predicate IsFailure() { None? }

    function PropagateFailure<U>(): Option<U>
      requires None?
    {
      None
    }

    function Extract(): T
      requires Some?
    {
      value
    }
  }

  datatype Result<+T, +E> = Success(value: T) | Failure(error: E) {
    predicate IsFailure() { Failure? }

    function PropagateFailure<U>(): Result<U, E>
      requires Failure?
    {
      Failure(error)
    }

    function Extract(): T
      requires Success?
    {
      value
    }
  }

  // Ranges of the machine integers.
  const TWO_32: nat := 0x1_0000_0000
  const TWO_63: nat := 0x8000_0000_0000_0000
  const TWO_64: nat := 0x1_0000_0000_0000_0000

  // The latest of a sequence of totals; 0 before the first one.
  function Last(totals: seq<nat>): nat {
    if totals == [] then 0 else totals[|totals| - 1]
  }

  function Max(a: nat, b: nat): nat {
    if a < b then b else a
  }

  lemma SplitAt<T>(s: seq<T>, k: nat)
    requires k <= |s|
    ensures s[..k] + s[k..] == s
  {
  }

  lemma SliceOfSlice<T>(s: seq<T>, lo: nat, hi: nat, a: nat, b: nat)
    requires lo <= hi <= |s| && a <= b <= hi - lo
    ensures s[lo..hi][a..b] == s[lo + a..lo + b]
  {
    var outer, inner := s[lo..hi], s[lo + a..lo + b];
    assert |outer[a..b]| == |inner|;
    forall i | 0 <= i < b - a ensures outer[a..b][i] == inner[i] {
      assert outer[a..b][i] == outer[a + i] == s[lo + (a + i)] == inner[i];
    }
  }
}
