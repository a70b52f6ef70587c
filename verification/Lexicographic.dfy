/** Byte order of keys, as LevelDB iterates them. */
module Lexicographic {

  predicate Leq(a: string, b: string) {
    a == [] || (b != [] && (a[0] < b[0] || (a[0] == b[0] && Leq(a[1..], b[1..]))))
  }

  predicate Less(a: string, b: string) {
    Leq(a, b) && a != b
  }

  predicate HasPrefix(s: string, prefix: string) {
    prefix <= s
  }

  lemma {:induction false} Total(a: string, b: string)
    ensures Leq(a, b) || Leq(b, a)
  {
    if a != [] && b != [] && a[0] == b[0] {
      Total(a[1..], b[1..]);
    }
  }

  lemma {:induction false} Antisymmetric(a: string, b: string)
    requires Leq(a, b) && Leq(b, a)
    ensures a == b
  {
    if a != [] {
      Antisymmetric(a[1..], b[1..]);
      assert a == [a[0]] + a[1..] && b == [b[0]] + b[1..];
    }
  }

  lemma {:induction false} Transitive(a: string, b: string, c: string)
    requires Leq(a, b) && Leq(b, c)
    ensures Leq(a, c)
  {
    if a != [] && a[0] == b[0] == c[0] {
      Transitive(a[1..], b[1..], c[1..]);
    }
  }

  /** A common prefix does not affect the order. */
  lemma {:induction false} SamePrefix(p: string, a: string, b: string)
    ensures Leq(p + a, p + b) <==> Leq(a, b)
    decreases |p|
  {
    if p == [] {
      assert p + a == a && p + b == b;
    } else {
      assert (p + a)[1..] == p[1..] + a && (p + b)[1..] == p[1..] + b;
      SamePrefix(p[1..], a, b);
    }
  }

  lemma {:induction false} PrefixIsLeq(p: string, s: string)
    requires HasPrefix(s, p)
    ensures Leq(p, s)
  {
    if p != [] {
      PrefixIsLeq(p[1..], s[1..]);
    }
  }

  /** The keys with a given prefix form one run, which starts at the first key not below the prefix. */
  lemma {:induction false} PrefixRunIsContiguous(p: string, a: string, b: string)
    requires Leq(p, a) && Leq(a, b) && HasPrefix(b, p)
    ensures HasPrefix(a, p)
  {
    if p != [] {
      assert b[0] == p[0] == a[0];
      PrefixRunIsContiguous(p[1..], a[1..], b[1..]);
    }
  }

  /** Strictly increasing key sequences. */
  predicate Ascending(ks: seq<string>) {
    forall i, j :: 0 <= i < j < |ks| ==> Less(ks[i], ks[j])
  }

  lemma AscendingHasNoRepeats(ks: seq<string>, i: nat, j: nat)
    requires Ascending(ks) && i < |ks| && j < |ks|
    ensures Leq(ks[i], ks[j]) <==> i <= j
    ensures ks[i] == ks[j] <==> i == j
  {
    if j < i && Leq(ks[i], ks[j]) {
      Antisymmetric(ks[i], ks[j]);
    }
    if i == j {
      Reflexive(ks[i]);
    }
  }

  lemma {:induction false} Reflexive(a: string)
    ensures Leq(a, a)
  {
    if a != [] {
      Reflexive(a[1..]);
    }
  }

  /** An ascending sequence is determined by its elements. */
  lemma {:induction false} AscendingIsUnique(a: seq<string>, b: seq<string>)
    requires Ascending(a) && Ascending(b) && (forall k :: k in a <==> k in b)
    ensures a == b
    decreases |a|
  {
    assert b == [] || b[0] in b;
    if a != [] {
      assert a[0] in a && a[0] in b;
      var i :| 0 <= i < |b| && b[i] == a[0];
      assert b[0] in a;
      var j :| 0 <= j < |a| && a[j] == b[0];
      AscendingHasNoRepeats(a, 0, j);
      AscendingHasNoRepeats(b, 0, i);
      Antisymmetric(a[0], b[0]);
      forall k ensures k in a[1..] <==> k in b[1..] {
        TailWithoutHead(a, k);
        TailWithoutHead(b, k);
      }
      AscendingIsUnique(a[1..], b[1..]);
      assert a == [a[0]] + a[1..] && b == [b[0]] + b[1..];
    }
  }

  lemma TailWithoutHead(a: seq<string>, k: string)
    requires Ascending(a) && a != []
    ensures k in a[1..] <==> k in a && k != a[0]
  {
    if k in a[1..] {
      var i :| 0 <= i < |a[1..]| && a[1..][i] == k;
      assert a[i + 1] == k;
    }
  }
}
