/** What several models need about sequences. */
module Sequences {
  function Without<T>(s: seq<T>, i: nat): seq<T>
    requires i < |s|
  {
    s[..i] + s[i + 1..]
  }

  lemma WithoutOne<T>(s: seq<T>, i: nat)
    requires i < |s|
    ensures multiset(Without(s, i)) == multiset(s) - multiset{s[i]}
  {
    assert s == s[..i] + [s[i]] + s[i + 1..];
  }

  /** The first element of one is somewhere in the other. */
  lemma HeadIn<T>(a: seq<T>, b: seq<T>) returns (i: nat)
    requires multiset(a) == multiset(b) && b != []
    ensures i < |a| && a[i] == b[0] && multiset(Without(a, i)) == multiset(Without(b, 0))
  {
    assert b[0] in multiset(a);
    i :| 0 <= i < |a| && a[i] == b[0];
    WithoutOne(a, i);
    WithoutOne(b, 0);
  }

  lemma MovedLast<T>(s: seq<T>, i: nat)
    requires i < |s|
    ensures multiset(Without(s, i) + [s[i]]) == multiset(s)
  {
    assert s == s[..i] + [s[i]] + s[i + 1..];
  }

  lemma Swapped<T>(s: seq<T>, a: T, b: T)
    ensures multiset(s + [a, b]) == multiset(s + [b, a])
  {
  }

  /** Two elements moved to the end, in either order. */
  lemma BothLast<T>(s: seq<T>, i: nat, j: nat)
    requires i < j < |s|
    ensures var rest := Without(Without(s, j), i);
      multiset(rest + [s[i], s[j]]) == multiset(s) == multiset(rest + [s[j], s[i]])
  {
    var one := Without(s, j) + [s[j]];
    var rest := Without(Without(s, j), i);
    MovedLast(s, j);
    MovedLast(one, i);
    assert Without(one, i) + [one[i]] == rest + [s[j], s[i]];
    Swapped(rest, s[i], s[j]);
  }

  lemma Regroup<T>(a: seq<T>, b: seq<T>, c: seq<T>)
    ensures (a + b) + c == a + (b + c)
  {
  }
}
