/** Vocabulary shared by every model: optional values and sequence helpers. */
module Common {

  datatype Option<+T> = None | Some(value: T)

  /** Identity of a chat session row. */
  datatype SessionId = SessionId(cuid: string)

  /** The elements of a sequence, as a set. */
  function Elems<T>(s: seq<T>): set<T> {
    set x | x in s
  }

  ghost predicate Distinct<T>(s: seq<T>) {
    forall i, j :: 0 <= i < j < |s| ==> s[i] != s[j]
  }

  lemma NonEmptyElems<T>(s: seq<T>)
    ensures s != [] ==> Elems(s) != {}
  {
    if s != [] {
      assert s[0] in Elems(s);
    }
  }

  /** `s.filter(x => ids.has(x))` */
  function Keep<T(==)>(s: seq<T>, ids: set<T>): seq<T> {
    if s == [] then []
    else if s[0] in ids then [s[0]] + Keep(s[1..], ids)
    else Keep(s[1..], ids)
  }

  /** `s.filter(x => !ids.has(x))` */
  function Without<T(==)>(s: seq<T>, ids: set<T>): seq<T> {
    if s == [] then []
    else if s[0] in ids then Without(s[1..], ids)
    else [s[0]] + Without(s[1..], ids)
  }

  /** Position of the first occurrence of `x`, or `|s|` when there is none. */
  function IndexOf<T(==)>(s: seq<T>, x: T): (k: nat)
    ensures k <= |s|
    ensures k < |s| ==> s[k] == x
    ensures forall j :: 0 <= j < k ==> s[j] != x
    ensures k == |s| <==> x !in s
  {
    if s == [] then 0
    else if s[0] == x then 0
    else 1 + IndexOf(s[1..], x)
  }

  lemma {:induction false} KeepElems<T>(s: seq<T>, ids: set<T>)
    ensures Elems(Keep(s, ids)) == Elems(s) * ids
  {
    if s != [] {
      KeepElems(s[1..], ids);
      assert s == [s[0]] + s[1..];
      assert Elems(s) == {s[0]} + Elems(s[1..]);
      if s[0] in ids {
        assert Elems(Keep(s, ids)) == {s[0]} + Elems(Keep(s[1..], ids));
      }
    }
  }

  lemma {:induction false} WithoutElems<T>(s: seq<T>, ids: set<T>)
    ensures Elems(Without(s, ids)) == Elems(s) - ids
  {
    if s != [] {
      WithoutElems(s[1..], ids);
      assert s == [s[0]] + s[1..];
      assert Elems(s) == {s[0]} + Elems(s[1..]);
      if s[0] !in ids {
        assert Elems(Without(s, ids)) == {s[0]} + Elems(Without(s[1..], ids));
      }
    }
  }

  lemma {:induction false} KeepDistinct<T>(s: seq<T>, ids: set<T>)
    requires Distinct(s)
    ensures Distinct(Keep(s, ids))
  {
    if s != [] {
      KeepDistinct(s[1..], ids);
      KeepElems(s[1..], ids);
      assert s[0] !in Elems(s[1..]);
      assert s[0] !in Elems(Keep(s[1..], ids));
    }
  }

  lemma {:induction false} WithoutDistinct<T>(s: seq<T>, ids: set<T>)
    requires Distinct(s)
    ensures Distinct(Without(s, ids))
  {
    if s != [] {
      WithoutDistinct(s[1..], ids);
      WithoutElems(s[1..], ids);
      assert s[0] !in Elems(s[1..]);
      assert s[0] !in Elems(Without(s[1..], ids));
    }
  }

  /** Dropping what is not kept, and keeping what is not dropped, agree. */
  lemma {:induction false} WithoutIsKeep<T>(s: seq<T>, gone: set<T>, kept: set<T>)
    requires forall x :: x in s ==> (x in kept <==> x !in gone)
    ensures Without(s, gone) == Keep(s, kept)
  {
    if s != [] {
      WithoutIsKeep(s[1..], gone, kept);
    }
  }

  lemma {:induction false} KeepAll<T>(s: seq<T>, ids: set<T>)
    requires Elems(s) <= ids
    ensures Keep(s, ids) == s
  {
    if s != [] {
      assert s[0] in Elems(s);
      assert Elems(s[1..]) <= Elems(s);
      KeepAll(s[1..], ids);
    }
  }

  lemma {:induction false} WithoutTwice<T>(s: seq<T>, a: set<T>, b: set<T>)
    ensures Without(Without(s, a), b) == Without(s, a + b)
  {
    if s != [] {
      WithoutTwice(s[1..], a, b);
      if s[0] !in a {
        assert ([s[0]] + Without(s[1..], a))[1..] == Without(s[1..], a);
      }
    }
  }

  lemma {:induction false} WithoutAppend<T>(s: seq<T>, t: seq<T>, ids: set<T>)
    ensures Without(s + t, ids) == Without(s, ids) + Without(t, ids)
  {
    if s == [] {
      assert s + t == t;
    } else {
      assert (s + t)[1..] == s[1..] + t;
      WithoutAppend(s[1..], t, ids);
    }
  }

  lemma {:induction false} IndexOfAppend<T>(s: seq<T>, t: seq<T>, x: T)
    requires x !in s
    ensures IndexOf(s + t, x) == |s| + IndexOf(t, x)
  {
    if s == [] {
      assert s + t == t;
    } else {
      assert (s + t)[1..] == s[1..] + t;
      IndexOfAppend(s[1..], t, x);
    }
  }

  lemma {:induction false} IndexOfPrefix<T>(s: seq<T>, t: seq<T>, x: T)
    requires x in s
    ensures IndexOf(s + t, x) == IndexOf(s, x)
  {
    assert (s + t)[1..] == s[1..] + t;
    if s[0] != x {
      IndexOfPrefix(s[1..], t, x);
    }
  }
}
