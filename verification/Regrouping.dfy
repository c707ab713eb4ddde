/** Facts about sequences and products that the solver does not find by itself. */
module Regrouping {

  lemma {:induction false} Associative<T>(a: seq<T>, b: seq<T>, c: seq<T>)
    ensures a + (b + c) == (a + b) + c
  {
  }

  lemma {:induction false} OneMoreTime(n: nat, each: nat)
    ensures n == 0 ==> n * each == 0
    ensures n > 0 ==> n * each == (n - 1) * each + each && (n - 1) * each >= 0
  {
  }
}
