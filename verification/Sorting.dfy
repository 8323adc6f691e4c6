/** sort.Slice with a comparison: some order of the same elements in which none comes
    before one it is less than. Which of the equal ones comes first is not promised; the
    order picked here is one of those allowed. */
module Sorting {
  import opened Strings

  /** What sort.Slice asks of its comparison. */
  ghost predicate StrictWeak<T(!new)>(less: (T, T) -> bool) {
    && (forall a, b :: !(less(a, b) && less(b, a)))
    && (forall a, b, c :: !less(b, a) && !less(c, b) ==> !less(c, a))
  }

  ghost predicate Sorted<T>(s: seq<T>, less: (T, T) -> bool) {
    forall i, j :: 0 <= i < j < |s| ==> !less(s[j], s[i])
  }

  function Insert<T(!new)>(x: T, s: seq<T>, less: (T, T) -> bool): (r: seq<T>)
    requires StrictWeak(less) && Sorted(s, less)
    ensures Sorted(r, less) && multiset(r) == multiset(s) + multiset{x}
  {
    if s == [] || !less(s[0], x) then [x] + s
    else
      var rest := Insert(x, s[1..], less);
      assert s == [s[0]] + s[1..];
      StaysFirst(s, x, rest, less);
      [s[0]] + rest
  }

  lemma {:induction false} StaysFirst<T(!new)>(s: seq<T>, x: T, rest: seq<T>, less: (T, T) -> bool)
    requires StrictWeak(less) && Sorted(s, less) && s != [] && less(s[0], x)
    requires Sorted(rest, less) && multiset(rest) == multiset(s[1..]) + multiset{x}
    ensures Sorted([s[0]] + rest, less)
  {
    forall j | 0 <= j < |rest| ensures !less(rest[j], s[0]) {
      assert rest[j] in multiset(rest);
      if rest[j] != x {
        assert rest[j] in s[1..];
      }
    }
  }

  function Sort<T(!new)>(s: seq<T>, less: (T, T) -> bool): (r: seq<T>)
    requires StrictWeak(less)
    ensures Sorted(r, less) && multiset(r) == multiset(s)
  {
    if s == [] then []
    else
      assert s == [s[0]] + s[1..];
      Insert(s[0], Sort(s[1..], less), less)
  }

  lemma {:induction false} SameMembers<T>(a: seq<T>, b: seq<T>)
    requires multiset(a) == multiset(b)
    ensures |a| == |b| && forall x :: x in a <==> x in b
  {
    assert |a| == |multiset(a)| && |b| == |multiset(b)|;
    assert forall x :: x in a <==> x in multiset(a);
    assert forall x :: x in b <==> x in multiset(b);
  }

  lemma {:induction false} HasSmallest(names: set<string>)
    requires names != {}
    ensures exists m :: m in names && forall x :: x in names && x != m ==> Less(m, x)
    decreases |names|
  {
    var a :| a in names;
    var rest := names - {a};
    if rest == {} {
      assert names == {a};
    } else {
      HasSmallest(rest);
      var m :| m in rest && forall x :: x in rest && x != m ==> Less(m, x);
      LessTotal(a, m);
      var least := if Less(a, m) then a else m;
      forall x | x in names && x != least ensures Less(least, x) {
        if least == a && x != m { LessTransitive(a, m, x); }
      }
    }
  }

  /** sort.Strings over the keys of a map, which are distinct. */
  method SortNames(names: set<string>) returns (out: seq<string>)
    ensures forall name :: name in out <==> name in names
    ensures forall i, j :: 0 <= i < j < |out| ==> Less(out[i], out[j])
  {
    out := [];
    var left := names;
    while left != {}
      invariant left <= names
      invariant forall name :: name in names <==> name in out || name in left
      invariant forall i, j :: 0 <= i < j < |out| ==> Less(out[i], out[j])
      invariant forall x, y :: x in out && y in left ==> Less(x, y)
      decreases |left|
    {
      HasSmallest(left);
      var m :| m in left && forall x :: x in left && x != m ==> Less(m, x);
      out := out + [m];
      left := left - {m};
    }
  }
}
