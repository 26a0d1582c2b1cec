/** Sorting by a total order, standing for the C library's `qsort`. */
module Sorting {
  import opened Base

  ghost predicate TotalOrder<T(!new)>(le: (T, T) -> bool) {
    && (forall x, y :: le(x, y) || le(y, x))
    && (forall x, y, z :: le(x, y) && le(y, z) ==> le(x, z))
  }

  ghost predicate Sorted<T>(le: (T, T) -> bool, s: seq<T>) {
    forall i, j :: 0 <= i < j < |s| ==> le(s[i], s[j])
  }

  /** `out` is one of the results `qsort` may leave when it sorts `s`. */
  ghost predicate SortOf<T>(le: (T, T) -> bool, s: seq<T>, out: seq<T>) {
    Sorted(le, out) && multiset(out) == multiset(s)
  }

  function Place<T>(le: (T, T) -> bool, s: seq<T>, x: T): seq<T> {
    if s == [] || le(Last(s), x) then s + [x] else Place(le, Init(s), x) + [Last(s)]
  }

  function Sort<T>(le: (T, T) -> bool, s: seq<T>): seq<T> {
    if s == [] then [] else Place(le, Sort(le, Init(s)), Last(s))
  }

  lemma {:induction false} PlacePermutes<T>(le: (T, T) -> bool, s: seq<T>, x: T)
    ensures multiset(Place(le, s, x)) == multiset(s) + multiset{x}
  {
    if s != [] && !le(Last(s), x) {
      PlacePermutes(le, Init(s), x);
      assert s == Init(s) + [Last(s)];
    }
  }

  lemma {:induction false} PlaceSorts<T(!new)>(le: (T, T) -> bool, s: seq<T>, x: T)
    requires TotalOrder(le) && Sorted(le, s)
    ensures Sorted(le, Place(le, s, x))
  {
    if s == [] {
    } else if le(Last(s), x) {
      forall i | 0 <= i < |s|
        ensures le(s[i], x)
      {
        assert le(s[i], Last(s));
      }
    } else {
      PlaceSorts(le, Init(s), x);
      PlacePermutes(le, Init(s), x);
      var p := Place(le, Init(s), x);
      forall i | 0 <= i < |p|
        ensures le(p[i], Last(s))
      {
        assert p[i] in multiset(p);
      }
    }
  }

  lemma {:induction false} SortSorts<T(!new)>(le: (T, T) -> bool, s: seq<T>)
    requires TotalOrder(le)
    ensures SortOf(le, s, Sort(le, s))
  {
    if s != [] {
      SortSorts(le, Init(s));
      PlaceSorts(le, Sort(le, Init(s)), Last(s));
      PlacePermutes(le, Sort(le, Init(s)), Last(s));
      assert s == Init(s) + [Last(s)];
    }
  }

  lemma PermutationMembers<T>(s: seq<T>, out: seq<T>)
    requires multiset(s) == multiset(out)
    ensures |s| == |out|
    ensures forall x :: x in out <==> x in s
  {
    assert |multiset(s)| == |s| && |multiset(out)| == |out|;
    forall x
      ensures x in out <==> x in s
    {
      assert x in out <==> x in multiset(out);
      assert x in s <==> x in multiset(s);
    }
  }

  lemma {:induction false} MultiplicityOne<T>(s: seq<T>)
    ensures NoDuplicates(s) <==> forall x :: multiset(s)[x] <= 1
  {
    if s != [] {
      var front, last := Init(s), Last(s);
      MultiplicityOne(front);
      assert s == front + [last];
      assert forall x :: multiset(s)[x] == multiset(front)[x] + if x == last then 1 else 0;
      assert last in front <==> multiset(front)[last] > 0;
      if NoDuplicates(s) {
        forall x
          ensures multiset(s)[x] <= 1
        {
          assert x == last ==> last !in front;
        }
      }
    }
  }

  lemma PermutationNoDuplicates<T>(s: seq<T>, out: seq<T>)
    requires multiset(s) == multiset(out) && NoDuplicates(s)
    ensures NoDuplicates(out)
  {
    MultiplicityOne(s);
    MultiplicityOne(out);
  }

  /** The order of `strcmp`. */
  predicate StrLe(a: string, b: string) {
    a == "" || (b != "" && (a[0] < b[0] || (a[0] == b[0] && StrLe(a[1..], b[1..]))))
  }

  lemma StrLeTotal(a: string, b: string)
    ensures StrLe(a, b) || StrLe(b, a)
    ensures StrLe(a, b) && StrLe(b, a) ==> a == b
  {
    if a != "" && b != "" && a[0] == b[0] {
      StrLeTotal(a[1..], b[1..]);
      assert a == [a[0]] + a[1..] && b == [b[0]] + b[1..];
    }
  }

  lemma {:induction false} StrLeTransitive(a: string, b: string, c: string)
    requires StrLe(a, b) && StrLe(b, c)
    ensures StrLe(a, c)
  {
    if a != "" && a[0] == b[0] == c[0] {
      StrLeTransitive(a[1..], b[1..], c[1..]);
    }
  }

  /** One string is not after another if it is a beginning of it, or smaller where they first differ. */
  lemma {:induction false} StrLeMeans(a: string, b: string)
    ensures StrLe(a, b) <==>
            exists k :: 0 <= k <= |a| && k <= |b| && a[..k] == b[..k] && (k == |a| || (k < |b| && a[k] < b[k]))
  {
    if a == "" {
      assert a[..0] == b[..0];
    } else if b != "" && a[0] == b[0] {
      StrLeMeans(a[1..], b[1..]);
      if StrLe(a, b) {
        var k :| 0 <= k <= |a[1..]| && k <= |b[1..]| && a[1..][..k] == b[1..][..k] &&
                 (k == |a[1..]| || (k < |b[1..]| && a[1..][k] < b[1..][k]));
        assert a[..k + 1] == [a[0]] + a[1..][..k] && b[..k + 1] == [b[0]] + b[1..][..k];
      }
      if k :| 0 <= k <= |a| && k <= |b| && a[..k] == b[..k] && (k == |a| || (k < |b| && a[k] < b[k])) {
        assert k > 0;
        assert a[1..][..k - 1] == a[..k][1..] && b[1..][..k - 1] == b[..k][1..];
      }
    } else if b != "" {
      assert a[..0] == b[..0];
      if k :| 0 <= k <= |a| && k <= |b| && a[..k] == b[..k] && (k == |a| || (k < |b| && a[k] < b[k])) {
        assert k > 0 ==> a[..k][0] == b[..k][0];
      }
    }
  }

  /** Something that is ranked by a number, greatest first, and then by name. */
  datatype Ranked = Ranked(name: string, weight: nat)

  predicate RankedBefore(a: Ranked, b: Ranked) {
    a.weight > b.weight || (a.weight == b.weight && StrLe(a.name, b.name))
  }

  lemma RankedBeforeTotal()
    ensures TotalOrder(RankedBefore)
  {
    forall x, y
      ensures RankedBefore(x, y) || RankedBefore(y, x)
    {
      StrLeTotal(x.name, y.name);
    }
    forall x, y, z | RankedBefore(x, y) && RankedBefore(y, z)
      ensures RankedBefore(x, z)
    {
      if x.weight == y.weight == z.weight {
        StrLeTransitive(x.name, y.name, z.name);
      }
    }
  }

  /** A sorted top list is in descending order of weight, and among equal weights in order of name. */
  lemma RankedInOrder(list: seq<Ranked>, out: seq<Ranked>, i: nat, j: nat)
    requires SortOf(RankedBefore, list, out) && i < j < |out|
    ensures out[i].weight > out[j].weight || (out[i].weight == out[j].weight && StrLe(out[i].name, out[j].name))
  {
    assert RankedBefore(out[i], out[j]);
  }
}
