/** Python dictionaries keyed by flight: a map that remembers insertion order.
    Overwriting a key keeps its place; deleting and inserting it again moves it
    to the end. */
module Dicts {
  import opened Flights

  predicate NoDup<T(==)>(s: seq<T>) {
    forall i, j :: 0 <= i < j < |s| ==> s[i] != s[j]
  }

  /** `a` stands before `b`. */
  ghost predicate Before(s: seq<Key>, a: Key, b: Key) {
    exists i, j :: 0 <= i < j < |s| && s[i] == a && s[j] == b
  }

  lemma NoDupRest(s: seq<Key>)
    requires s != [] && NoDup(s)
    ensures NoDup(s[1..]) && s[0] !in s[1..]
  {
  }

  lemma BeforeRest(s: seq<Key>, a: Key, b: Key)
    requires s != [] && ((a == s[0] && b in s[1..]) || Before(s[1..], a, b))
    ensures Before(s, a, b)
  {
    if Before(s[1..], a, b) {
      var i, j :| 0 <= i < j < |s[1..]| && s[1..][i] == a && s[1..][j] == b;
      assert s[i + 1] == a && s[j + 1] == b;
    } else {
      var j :| 0 <= j < |s[1..]| && s[1..][j] == b;
      assert s[j + 1] == b;
    }
  }

  function Without(s: seq<Key>, k: Key): (r: seq<Key>)
    ensures forall x :: x in r <==> x in s && x != k
    ensures k !in s ==> r == s
    ensures NoDup(s) ==> NoDup(r)
  {
    if s == [] then []
    else
      assert NoDup(s) ==> NoDup(s[1..]) && s[0] !in s[1..];
      if s[0] == k then Without(s[1..], k)
      else [s[0]] + Without(s[1..], k)
  }

  datatype Dict<V> = Dict(order: seq<Key>, at: map<Key, V>) {
    ghost predicate Valid() {
      && NoDup(order)
      && (forall k :: k in order <==> k in at)
    }

    function Put(k: Key, v: V): Dict<V> {
      Dict(if k in at then order else order + [k], at[k := v])
    }

    function Drop(k: Key): Dict<V> {
      Dict(Without(order, k), at - {k})
    }

    lemma PutValid(k: Key, v: V)
      requires Valid()
      ensures Put(k, v).Valid()
    {
    }

    lemma DropValid(k: Key)
      requires Valid()
      ensures Drop(k).Valid()
      ensures k !in at ==> Drop(k) == this
    {
    }
  }

  function Empty<V>(): Dict<V> {
    Dict([], map[])
  }

  /** Leaving a key out keeps the others in order. */
  lemma {:induction false} WithoutInOrder(s: seq<Key>, k: Key, a: Key, b: Key)
    requires NoDup(s)
    ensures Before(Without(s, k), a, b) <==> a != k && b != k && Before(s, a, b)
  {
    if s != [] {
      NoDupRest(s);
      WithoutInOrder(s[1..], k, a, b);
      BeforeCons(s[0], s[1..], a, b);
      if s[0] != k {
        BeforeCons(s[0], Without(s[1..], k), a, b);
      }
      assert s == [s[0]] + s[1..];
    }
  }

  lemma BeforeCons(x: Key, s: seq<Key>, a: Key, b: Key)
    ensures Before([x] + s, a, b) <==> (a == x && b in s) || Before(s, a, b)
  {
    var t := [x] + s;
    if Before(t, a, b) {
      var i, j :| 0 <= i < j < |t| && t[i] == a && t[j] == b;
      assert s[j - 1] == b && (i > 0 ==> s[i - 1] == a);
    } else if (a == x && b in s) || Before(s, a, b) {
      assert t[1..] == s && t[0] == x;
      BeforeRest(t, a, b);
    }
  }

  lemma {:induction false} WithoutNext(s: seq<Key>, k: Key)
    ensures Without(s, k) == if s == [] then [] else (if s[0] == k then [] else [s[0]]) + Without(s[1..], k)
  {
  }

  lemma Regroup(a: seq<Key>, b: seq<Key>, c: seq<Key>)
    ensures a + b + c == a + (b + c)
  {
  }

  lemma {:induction false} WithoutConcat(a: seq<Key>, b: seq<Key>, k: Key)
    ensures Without(a + b, k) == Without(a, k) + Without(b, k)
  {
    hide Without, NoDup;
    WithoutNext(a, k);
    WithoutNext(a + b, k);
    if a == [] {
      assert a + b == b;
    } else {
      assert (a + b)[1..] == a[1..] + b && (a + b)[0] == a[0];
      WithoutConcat(a[1..], b, k);
      Regroup(if a[0] == k then [] else [a[0]], Without(a[1..], k), Without(b, k));
    }
  }
}
