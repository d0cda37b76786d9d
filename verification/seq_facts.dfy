/** Facts about sequences and multisets that the reorderings of the model
    rely on, stated for any element type. */
module SeqFacts {

  /** `f` applied to every element, in order. */
  function Map<T, U>(f: T -> U, s: seq<T>): (r: seq<U>)
    ensures |r| == |s|
    ensures forall i :: 0 <= i < |s| ==> r[i] == f(s[i])
  {
    seq(|s|, i requires 0 <= i < |s| => f(s[i]))
  }

  /** A sequence's multiset is that of the sequence without its element at
      `j`, plus that element. */
  lemma SplitAt<T>(s: seq<T>, j: int)
    requires 0 <= j < |s|
    ensures multiset(s) == multiset(s[..j] + s[j + 1..]) + multiset{s[j]}
  {
    assert s == s[..j] + [s[j]] + s[j + 1..];
    var f, b := multiset(s[..j]), multiset(s[j + 1..]);
    assert multiset(s) == f + multiset{s[j]} + b;
    assert forall x :: (f + multiset{s[j]} + b)[x] == (f + b + multiset{s[j]})[x];
  }

  /** Adding the same elements to two equal multisets is the only way their
      sums can agree. */
  lemma Cancel<T>(m: multiset<T>, n: multiset<T>, a: multiset<T>)
    requires m + a == n + a
    ensures m == n
  {
    assert forall x :: m[x] == (m + a)[x] - a[x] == (n + a)[x] - a[x] == n[x];
  }

  /** Taking the first element out of `t`, and the same element out of `s`
      at `j`, keeps the two sequences reorderings of each other. */
  lemma RemoveMatched<T>(s: seq<T>, t: seq<T>, j: int)
    requires 0 <= j < |s| && t != [] && s[j] == t[0]
    requires multiset(s) == multiset(t)
    ensures multiset(s[..j] + s[j + 1..]) == multiset(t[1..])
  {
    SplitAt(s, j);
    assert t == [t[0]] + t[1..];
    assert multiset(t) == multiset(t[1..]) + multiset{t[0]};
    Cancel(multiset(s[..j] + s[j + 1..]), multiset(t[1..]), multiset{t[0]});
  }

  /** Mapping commutes with taking out the element at `j`. */
  lemma MapWithout<T, U>(f: T -> U, s: seq<T>, j: int)
    requires 0 <= j < |s|
    ensures Map(f, s[..j] + s[j + 1..]) == Map(f, s)[..j] + Map(f, s)[j + 1..]
  {
    var m := Map(f, s);
    var u := Map(f, s[..j] + s[j + 1..]);
    assert forall i :: 0 <= i < j ==> u[i] == m[i];
    assert forall i :: j <= i < |u| ==> u[i] == m[i + 1];
  }

  /** Two sequences that agree as multisets once an equal element is taken
      out of each agree as multisets. */
  lemma AddBack<T>(s: seq<T>, j: int, t: seq<T>, k: int)
    requires 0 <= j < |s| && 0 <= k < |t| && s[j] == t[k]
    requires multiset(s[..j] + s[j + 1..]) == multiset(t[..k] + t[k + 1..])
    ensures multiset(s) == multiset(t)
  {
    SplitAt(s, j);
    SplitAt(t, k);
  }

  /** Mapping two reorderings of each other gives reorderings of each other:
      every image occurs as often on both sides. */
  lemma {:induction false} MapKeepsMultiset<T, U>(f: T -> U, s: seq<T>, t: seq<T>)
    requires multiset(s) == multiset(t)
    ensures multiset(Map(f, s)) == multiset(Map(f, t))
    decreases |t|
  {
    if t == [] {
      assert |s| == |multiset(s)| == 0;
    } else {
      assert t[0] in multiset(s);
      var j :| 0 <= j < |s| && s[j] == t[0];
      var rest := s[..j] + s[j + 1..];
      RemoveMatched(s, t, j);
      MapKeepsMultiset(f, rest, t[1..]);
      var ms, mt := Map(f, s), Map(f, t);
      assert multiset(ms[..j] + ms[j + 1..]) == multiset(Map(f, rest)) by {
        MapWithout(f, s, j);
      }
      assert mt[..0] + mt[1..] == Map(f, t[1..]) by {
        assert mt[..0] + mt[1..] == mt[1..];
        assert forall i :: 0 <= i < |t| - 1 ==> mt[1..][i] == Map(f, t[1..])[i];
      }
      AddBack(ms, j, mt, 0);
    }
  }
}
