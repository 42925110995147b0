/** What the other modules share: optional values, and two small facts.
 */
module Basics {
  datatype Option<+T> = None | Some(value: T)

  function RMax(a: real, b: real): real { if a >= b then a else b }

  lemma {:induction false} SubsetSize<T>(a: set<T>, b: set<T>)
    requires a <= b
    ensures |a| <= |b|
  {
    assert b == a + (b - a);
  }
}
