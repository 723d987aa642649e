/** Small facts about sequences used by several passes. */
module Sequences {
  import opened Wrappers

  /** Where `x` first occurs (`iter().position`). */
  function FirstIndex<T(==)>(s: seq<T>, x: T): (r: Option<nat>)
    ensures r.Some? ==> r.value < |s| && s[r.value] == x && x !in s[..r.value]
    ensures r.None? <==> x !in s
  {
    if s == [] then None
    else if s[0] == x then Some(0)
    else
      assert s == [s[0]] + s[1..];
      match FirstIndex(s[1..], x)
      case Some(i) => assert s[..i + 1] == [s[0]] + s[1..][..i]; Some(i + 1)
      case None => None
  }

  lemma {:induction false} FirstIndexIs<T>(s: seq<T>, x: T, i: nat)
    requires i < |s| && s[i] == x && x !in s[..i]
    ensures FirstIndex(s, x) == Some(i)
  {
    if i > 0 {
      assert s[..i][0] == s[0] && s[1..][..i - 1] == s[..i][1..];
      FirstIndexIs(s[1..], x, i - 1);
    }
  }

  /** Searching two parts one after the other is searching their concatenation. */
  lemma FirstIndexOfAppend<T>(a: seq<T>, b: seq<T>, x: T)
    ensures FirstIndex(a + b, x) ==
            match FirstIndex(a, x)
            case Some(i) => Some(i)
            case None => (match FirstIndex(b, x) case Some(i) => Some(|a| + i) case None => None)
  {
    if x in a {
      var i := FirstIndex(a, x).value;
      assert (a + b)[..i] == a[..i];
      FirstIndexIs(a + b, x, i);
    } else if x in b {
      var i := FirstIndex(b, x).value;
      assert (a + b)[..|a| + i] == a + b[..i];
      FirstIndexIs(a + b, x, |a| + i);
    }
  }

  ghost predicate Distinct<T>(s: seq<T>) {
    forall i, j :: 0 <= i < j < |s| ==> s[i] != s[j]
  }

  lemma DistinctJoin<T>(a: seq<T>, b: seq<T>)
    requires Distinct(a) && Distinct(b) && ToSet(a) !! ToSet(b)
    ensures Distinct(a + b)
  {
    forall i, j | 0 <= i < j < |a + b| ensures (a + b)[i] != (a + b)[j] {
      if i < |a| <= j {
        assert a[i] in ToSet(a) && b[j - |a|] in ToSet(b);
      }
    }
  }

  lemma HeadIn<T>(s: seq<T>)
    requires s != []
    ensures s[0] in s
  {
  }

  function ToSet<T>(s: seq<T>): set<T> {
    set x | x in s
  }

  /** One more step of a walk over a sequence. */
  lemma PrefixGrows<T>(s: seq<T>, i: nat)
    requires i < |s|
    ensures s[..i + 1] == s[..i] + [s[i]]
    ensures ToSet(s[..i + 1]) == ToSet(s[..i]) + {s[i]} && s[i] in ToSet(s)
  {
    assert s[..i + 1] == s[..i] + [s[i]];
  }

  lemma NotBefore<T>(s: seq<T>, k: nat)
    requires Distinct(s) && k < |s|
    ensures s[k] !in ToSet(s[..k])
  {
  }

  lemma PopFront<T>(s: seq<T>)
    requires s != [] && Distinct(s)
    ensures s[0] in ToSet(s) && ToSet(s[1..]) == ToSet(s) - {s[0]} && Distinct(s[1..])
    ensures ToSet(s[1..]) + {s[0]} == ToSet(s)
  {
    assert s == [s[0]] + s[1..];
  }

  lemma NoElements<T>(s: seq<T>)
    requires s == []
    ensures ToSet(s) == {}
  {
  }

  // ---------------------------------------------------------------------------
  // Remainders
  // ---------------------------------------------------------------------------

  lemma RemainderUnique(x: int, n: nat, q: int, r: nat)
    requires n > 0 && x == n * q + r && r < n
    ensures x % n == r
  {
    var d := x / n - q;
    assert x == n * (x / n) + x % n;
    assert n * d == n * (x / n) - n * q;
    assert n * d < n && n * d + n > 0;
    if d >= 1 {
      ScaleUp(n, d);
    } else if d <= -1 {
      ScaleUp(n, -d);
    }
  }

  lemma ScaleUp(n: nat, d: nat)
    requires d >= 1
    ensures n * d >= n
  {
    assert n * d == n * (d - 1) + n;
  }

  function Reversed<T>(s: seq<T>): (r: seq<T>)
    ensures |r| == |s|
    ensures forall i :: 0 <= i < |s| ==> r[i] == s[|s| - 1 - i]
  {
    if s == [] then [] else Reversed(s[1..]) + [s[0]]
  }
}
