/** Sequences without repetitions: the key orders of the modelled dictionaries. */
module Sequences {

  /** No element occurs twice. */
  predicate Distinct<T(==)>(s: seq<T>) {
    forall i, j :: 0 <= i < j < |s| ==> s[i] != s[j]
  }

  /** Appending an element not yet present keeps a sequence distinct. */
  lemma DistinctPush<T>(s: seq<T>, x: T)
    requires Distinct(s) && x !in s
    ensures Distinct(s + [x])
  {
    forall i, j | 0 <= i < j < |s + [x]| ensures (s + [x])[i] != (s + [x])[j] {
      assert (s + [x])[i] == s[i];
    }
  }

  /** Dropping one element keeps a sequence distinct. */
  lemma DistinctDrop<T>(s: seq<T>, k: int)
    requires Distinct(s) && 0 <= k < |s|
    ensures Distinct(s[..k] + s[k + 1..])
  {
    var r := s[..k] + s[k + 1..];
    forall x, y | 0 <= x < y < |r| ensures r[x] != r[y] {
      assert r[x] == s[if x < k then x else x + 1];
      assert r[y] == s[if y < k then y else y + 1];
    }
  }

  /** A sequence without repetitions is as long as the set of its elements. */
  lemma {:induction false} DistinctCard<T>(s: seq<T>)
    requires Distinct(s)
    ensures |set x | x in s| == |s|
    decreases |s|
  {
    if s != [] {
      var init := s[..|s| - 1];
      var last := s[|s| - 1];
      assert Distinct(init) by {
        forall i, j | 0 <= i < j < |init| ensures init[i] != init[j] {
          assert init[i] == s[i] && init[j] == s[j];
        }
      }
      DistinctCard(init);
      assert s == init + [last];
      assert (set x | x in s) == (set x | x in init) + {last};
      assert last !in (set x | x in init) by {
        forall i | 0 <= i < |init| ensures init[i] != last {
          assert init[i] == s[i];
        }
      }
    }
  }
}
