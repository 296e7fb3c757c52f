/** Sequences without repetitions, as the client's open documents, the pool's access order and the metrics' workspaces are kept. */
module Sequences {

  /** No element occurs twice. */
  predicate Distinct<T(==)>(s: seq<T>) {
    forall i, j :: 0 <= i < j < |s| ==> s[i] != s[j]
  }

  /** A sequence without repetitions has as many elements as its set. */
  lemma {:induction false} DistinctCard<T>(s: seq<T>)
    requires Distinct(s)
    ensures |set x | x in s| == |s|
    decreases |s|
  {
    if s != [] {
      var tail := s[1..];
      DistinctCard(tail);
      assert (set x | x in s) == {s[0]} + (set x | x in tail);
      assert s[0] !in tail by {
        forall j | 0 <= j < |tail| ensures tail[j] != s[0] {
          assert tail[j] == s[j + 1];
        }
      }
    }
  }

  /** Dropping the front of a sequence without repetitions drops exactly that element. */
  lemma DropFront<T>(s: seq<T>)
    requires Distinct(s) && s != []
    ensures Distinct(s[1..]) && (set y | y in s[1..]) == (set y | y in s) - {s[0]}
  {
    var r := s[1..];
    forall y | y in s && y != s[0] ensures y in r {
      var k :| 0 <= k < |s| && s[k] == y;
      assert k != 0 && r[k - 1] == y;
    }
    forall y | y in r ensures y != s[0] {
      var k :| 0 <= k < |r| && r[k] == y;
      assert s[k + 1] == y;
    }
  }

  /** Appending a new element to a sequence without repetitions adds exactly that element. */
  lemma AppendBack<T>(s: seq<T>, x: T)
    requires Distinct(s) && x !in s
    ensures Distinct(s + [x]) && (set y | y in s + [x]) == (set y | y in s) + {x}
  {
    var t := s + [x];
    forall a, b | 0 <= a < b < |t| ensures t[a] != t[b] {
      if b == |s| {
        assert t[a] == s[a];
      } else {
        assert t[a] == s[a] && t[b] == s[b];
      }
    }
  }
}
