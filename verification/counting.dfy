// Cardinalities of finite sets, as the step systems count threads by what they are doing.
module Counting {
  function One(b: bool): nat { if b then 1 else 0 }

  // Two sets that agree except perhaps on t.
  lemma CardinalityUpdate<A>(before: set<A>, after: set<A>, t: A)
    requires after - {t} == before - {t}
    ensures |after| == |before| - One(t in before) + One(t in after)
  {
    assert |before| == |before - {t}| + One(t in before);
    assert |after| == |after - {t}| + One(t in after);
  }

  lemma SubsetCount<A>(a: set<A>, b: set<A>)
    requires a <= b
    ensures |a| <= |b|
  {
    assert b == a + (b - a);
  }
}
