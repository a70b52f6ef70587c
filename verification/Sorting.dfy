/** A stand-in for Go's sort.Sort: any sorted permutation will do, so the models use insertion. */
module Sorting {

  ghost predicate TotalPreorder<T(!new)>(leq: (T, T) -> bool) {
    && (forall x, y :: leq(x, y) || leq(y, x))
    && (forall x, y, z :: leq(x, y) && leq(y, z) ==> leq(x, z))
  }

  ghost predicate Sorted<T>(s: seq<T>, leq: (T, T) -> bool) {
    forall i, j :: 0 <= i < j < |s| ==> leq(s[i], s[j])
  }

  function Insert<T>(x: T, s: seq<T>, leq: (T, T) -> bool): seq<T> {
    if s == [] then [x] else if leq(x, s[0]) then [x] + s else [s[0]] + Insert(x, s[1..], leq)
  }

  function Sort<T>(s: seq<T>, leq: (T, T) -> bool): seq<T> {
    if s == [] then [] else Insert(s[0], Sort(s[1..], leq), leq)
  }

  lemma {:induction false} InsertKeepsElements<T>(x: T, s: seq<T>, leq: (T, T) -> bool)
    ensures multiset(Insert(x, s, leq)) == multiset(s) + multiset{x}
  {
    if s != [] {
      assert s == [s[0]] + s[1..];
      InsertKeepsElements(x, s[1..], leq);
    }
  }

  lemma PrependKeepsSorted<T(!new)>(x: T, s: seq<T>, leq: (T, T) -> bool)
    requires Sorted(s, leq) && forall y :: y in s ==> leq(x, y)
    ensures Sorted([x] + s, leq)
  {
    assert forall i :: 0 <= i < |s| ==> s[i] in s;
  }

  lemma {:induction false} InsertKeepsSorted<T(!new)>(x: T, s: seq<T>, leq: (T, T) -> bool)
    requires TotalPreorder(leq) && Sorted(s, leq)
    ensures Sorted(Insert(x, s, leq), leq)
  {
    if s != [] {
      assert HeadLeast: forall y :: y in s[1..] ==> leq(s[0], y);
      if leq(x, s[0]) {
        forall y | y in s ensures leq(x, y) {
          assert y == s[0] || y in s[1..];
        }
        PrependKeepsSorted(x, s, leq);
      } else {
        var rest := Insert(x, s[1..], leq);
        InsertKeepsSorted(x, s[1..], leq);
        InsertKeepsElements(x, s[1..], leq);
        forall y | y in rest ensures leq(s[0], y) {
          assert y in multiset(rest);
          assert y == x || y in s[1..];
        }
        PrependKeepsSorted(s[0], rest, leq);
      }
    }
  }

  /** The result is sorted and is a permutation of the input. */
  lemma {:induction false} SortIsSortedPermutation<T(!new)>(s: seq<T>, leq: (T, T) -> bool)
    requires TotalPreorder(leq)
    ensures Sorted(Sort(s, leq), leq)
    ensures multiset(Sort(s, leq)) == multiset(s)
  {
    if s != [] {
      SortIsSortedPermutation(s[1..], leq);
      InsertKeepsSorted(s[0], Sort(s[1..], leq), leq);
      InsertKeepsElements(s[0], Sort(s[1..], leq), leq);
      assert s == [s[0]] + s[1..];
    }
  }

  lemma {:induction false} NoRepeats<T>(ks: seq<T>)
    requires forall i, j :: 0 <= i < j < |ks| ==> ks[i] != ks[j]
    ensures forall k :: multiset(ks)[k] <= 1
  {
    if ks != [] {
      NoRepeats(ks[1..]);
      assert ks == [ks[0]] + ks[1..];
      assert ks[0] !in ks[1..];
      assert multiset(ks[1..])[ks[0]] == 0;
    }
  }

  lemma RepeatCounts<T>(s: seq<T>, i: nat, j: nat)
    requires i < j < |s| && s[i] == s[j]
    ensures multiset(s)[s[i]] >= 2
  {
    assert s == s[..j] + ([s[j]] + s[j + 1..]);
    assert s[..j][i] == s[i];
    assert s[i] in multiset(s[..j]);
  }

  /** Sorting a sequence without repeats leaves the same elements without repeats. */
  lemma SortOfDistinct<T(!new)>(s: seq<T>, leq: (T, T) -> bool)
    requires TotalPreorder(leq) && forall i, j :: 0 <= i < j < |s| ==> s[i] != s[j]
    ensures Sorted(Sort(s, leq), leq)
    ensures forall i, j :: 0 <= i < j < |Sort(s, leq)| ==> Sort(s, leq)[i] != Sort(s, leq)[j]
    ensures forall k :: k in Sort(s, leq) <==> k in s
  {
    var out := Sort(s, leq);
    SortIsSortedPermutation(s, leq);
    forall k ensures k in out <==> k in s {
      assert k in out <==> k in multiset(out);
      assert k in s <==> k in multiset(s);
    }
    NoRepeats(s);
    forall i, j | 0 <= i < j < |out| ensures out[i] != out[j] {
      if out[i] == out[j] {
        RepeatCounts(out, i, j);
      }
    }
  }

  /** Different elements of a sequence fit into it. */
  lemma {:induction false} DistinctFits<T>(a: seq<T>, b: seq<T>)
    requires (forall i, j :: 0 <= i < j < |a| ==> a[i] != a[j]) && forall x :: x in a ==> x in b
    ensures |a| <= |b|
    decreases |a|
  {
    if a != [] {
      assert a[0] in a;
      var i :| 0 <= i < |b| && b[i] == a[0];
      var b' := b[..i] + b[i + 1..];
      forall x | x in a[1..] ensures x in b' {
        var j :| 0 <= j < |a[1..]| && a[1..][j] == x;
        assert a[j + 1] == x != a[0] && x in b;
        var h :| 0 <= h < |b| && b[h] == x;
        assert b'[if h < i then h else h - 1] == x;
      }
      DistinctFits(a[1..], b');
    }
  }
}
