/** Facts about sequences and sets that the proofs of several modules use. */
module Sequences {

  lemma AppendIsAssociative<T>(a: seq<T>, b: seq<T>, c: seq<T>)
    ensures (a + b) + c == a + (b + c)
  {
  }

  /** A loop has dealt with one more element. */
  lemma OneMoreOf<T>(before: seq<T>, list: seq<T>, j: nat)
    requires j < |list|
    ensures before + list[..j + 1] == before + list[..j] + [list[j]]
  {
  }

  lemma {:induction false} SubsetIsSmaller<T>(a: set<T>, b: set<T>)
    requires a <= b
    ensures |a| <= |b|
  {
    if a != {} {
      var x :| x in a;
      SubsetIsSmaller(a - {x}, b - {x});
    }
  }

  lemma ProperSubsetIsSmaller<T>(a: set<T>, b: set<T>)
    requires a < b
    ensures |a| < |b|
  {
    var x :| x in b && x !in a;
    SubsetIsSmaller(a, b - {x});
  }

  lemma UnionIsAtMost<T>(a: set<T>, b: set<T>, c: set<T>)
    requires a <= b + c
    ensures |a| <= |b| + |c|
  {
    SubsetIsSmaller(a, b + c);
  }
}
