/** Small sequence helpers used by the specifications. */
module Sequences {

  /** `s` repeated `k` times. */
  function Repeat<T>(s: seq<T>, k: nat): (r: seq<T>)
    ensures |r| == |s| * k
  {
    if k == 0 then [] else Repeat(s, k - 1) + s
  }

  /** The concatenation of a sequence of sequences. */
  function Concat<T>(ss: seq<seq<T>>): seq<T>
  {
    if ss == [] then [] else ss[0] + Concat(ss[1..])
  }

  lemma {:induction false} RepeatAdd<T>(s: seq<T>, a: nat, b: nat)
    ensures Repeat(s, a + b) == Repeat(s, a) + Repeat(s, b)
  {
    if b > 0 {
      RepeatAdd(s, a, b - 1);
    }
  }

  /** Every element of a repetition comes from the repeated sequence. */
  lemma {:induction false} RepeatElements<T>(s: seq<T>, k: nat, x: T)
    ensures x in Repeat(s, k) ==> x in s
  {
    if k > 0 {
      RepeatElements(s, k - 1, x);
    }
  }
}
