/** Counting facts about finite sets of numbers. */
module Sets {

  function Range(n: nat): (s: set<nat>)
    ensures |s| == n
    ensures forall a: nat :: a in s <==> a < n
  {
    if n == 0 then {} else Range(n - 1) + {n - 1}
  }

  lemma {:induction false} SubsetCount<T>(x: set<T>, y: set<T>)
    requires x <= y
    ensures |x| <= |y|
  {
    if x != {} {
      var e :| e in x;
      SubsetCount(x - {e}, y - {e});
    }
  }
}
