/** Fixed-width integers, bounded C strings and the dynamic string list that every other module uses. */
module Base {

  const MAX_U32: nat := 0xFFFF_FFFF
  const MAX_U64: nat := 0xFFFF_FFFF_FFFF_FFFF

  /** Size in bytes of a string buffer, its terminating NUL included. */
  const MAX_STR: nat := 512

  type U32 = n: nat | n <= MAX_U32
  type U64 = n: nat | n <= MAX_U64

  /** The two 64-bit hashes of a key from which a sketch derives its probe positions.
      Nothing but determinism and range is known of them, so every theorem holds for every choice. */
  datatype DoubleHash = DoubleHash(h1: string -> U64, h2: string -> U64)

  datatype Option<+T> = None | Some(value: T)

  function Min(a: int, b: int): int { if a <= b then a else b }

  function Max(a: int, b: int): int { if a >= b then a else b }

  function One(b: bool): nat { if b then 1 else 0 }

  function Pow2(k: nat): nat { if k == 0 then 1 else 2 * Pow2(k - 1) }

  lemma {:induction false} Pow2Positive(k: nat)
    ensures Pow2(k) > 0
  {
    if k > 0 {
      Pow2Positive(k - 1);
    }
  }

  lemma {:induction false} Pow2Monotone(i: nat, j: nat)
    requires i <= j
    ensures Pow2(i) <= Pow2(j)
  {
    if i < j {
      Pow2Monotone(i, j - 1);
    }
  }

  lemma {:induction false} Pow2Add(i: nat, j: nat)
    ensures Pow2(i + j) == Pow2(i) * Pow2(j)
  {
    if i > 0 {
      Pow2Add(i - 1, j);
    }
  }

  lemma WordSizes()
    ensures Pow2(12) == 0x1000 && Pow2(64) == MAX_U64 + 1
  {
    Pow2Add(6, 6);
    Pow2Add(4, 12);
    Pow2Double(16);
    Pow2Double(32);
  }

  lemma Pow2Double(k: nat)
    ensures Pow2(2 * k) == Pow2(k) * Pow2(k)
  {
    Pow2Add(k, k);
  }

  lemma DivisionIsUnique(w: nat, d: nat, q: nat, r: nat)
    requires d > 0 && w == d * q + r && r < d
    ensures w / d == q && w % d == r
  {
    var q', r' := w / d, w % d;
    assert w == d * q' + r';
    assert d * (q - q') == d * q - d * q';
    assert d * (q' - q) == d * q' - d * q;
    if q > q' {
      Multiple(d, q - q');
    } else if q < q' {
      Multiple(d, q' - q);
    }
  }

  lemma Multiple(d: nat, k: nat)
    requires k > 0
    ensures d * k >= d
  {
  }

  /** What a buffer of `size` bytes holds after a string is copied into it. */
  function CopyTrunc(s: string, size: nat): string
    requires size > 0
  {
    if |s| >= size then s[..size - 1] else s
  }

  /** A buffer of `size` bytes after one more character was offered to it. */
  function Pushed(out: string, c: char, size: nat): string {
    if |out| + 1 < size then out + [c] else out
  }

  /** A buffer after the characters of a string were offered one by one. */
  function Filled(s: string, size: nat): string {
    if s == "" then "" else Pushed(Filled(Init(s), size), Last(s), size)
  }

  lemma {:induction false} FilledIsCopy(s: string, size: nat)
    requires size > 0
    ensures Filled(s, size) == CopyTrunc(s, size)
  {
    if s != "" {
      var front := Init(s);
      FilledIsCopy(front, size);
      if |s| < size {
        assert s == front + [Last(s)];
      } else {
        assert s[..size - 1] == front[..size - 1];
      }
    }
  }

  lemma FilledStep(s: string, c: char, size: nat)
    ensures Filled(s + [c], size) == Pushed(Filled(s, size), c, size)
  {
    assert Init(s + [c]) == s;
  }

  function SafeStr(s: string): string { if s == "" then "-" else s }

  /** A list without its last element. */
  function Init<T>(s: seq<T>): seq<T>
    requires s != []
  {
    s[..|s| - 1]
  }

  function Last<T>(s: seq<T>): T
    requires s != []
  {
    s[|s| - 1]
  }

  lemma Rejoined<T>(s: seq<T>)
    requires s != []
    ensures s == Init(s) + [Last(s)]
  {
  }

  lemma AppendReplaced<T>(s: seq<T>, x: T, y: T)
    ensures (s + [x])[|s| := y] == s + [y]
  {
  }

  lemma Associative<T>(a: seq<T>, b: seq<T>, c: seq<T>)
    ensures a + b + c == a + (b + c)
  {
  }

  ghost predicate NoDuplicates<T>(s: seq<T>) {
    forall i, j :: 0 <= i < j < |s| ==> s[i] != s[j]
  }

  function Elements<T>(s: seq<T>): set<T> { set x | x in s }

  // ----- string lists -----

  /** The list after an append that ignores the empty string. */
  function Added(list: seq<string>, value: string): seq<string> {
    if value == "" then list else list + [value]
  }

  /** The list after an append that ignores the empty string and values already present. */
  function AddedUnique(list: seq<string>, value: string): seq<string> {
    if value in list then list else Added(list, value)
  }

  method AddUnique(list: seq<string>, value: string) returns (out: seq<string>)
    ensures out == AddedUnique(list, value)
  {
    if value == "" {
      return list;
    }
    for i := 0 to |list|
      invariant value !in list[..i]
    {
      if list[i] == value {
        return list;
      }
    }
    assert list[..|list|] == list;
    out := list + [value];
  }

  method ContainsExact(list: seq<string>, value: string) returns (found: bool)
    ensures found <==> value in list
  {
    for i := 0 to |list|
      invariant value !in list[..i]
    {
      if list[i] == value {
        return true;
      }
    }
    assert list[..|list|] == list;
    found := false;
  }

  /** The distinct values of a sequence, in order of first appearance. */
  function Distinct<T(==)>(s: seq<T>): seq<T> {
    if s == [] then []
    else if Last(s) in Init(s) then Distinct(Init(s))
    else Distinct(Init(s)) + [Last(s)]
  }

  lemma {:induction false} DistinctElements<T>(s: seq<T>)
    ensures forall x :: x in Distinct(s) <==> x in s
    ensures NoDuplicates(Distinct(s))
    ensures |Distinct(s)| <= |s|
  {
    if s != [] {
      DistinctElements(Init(s));
      assert s == Init(s) + [Last(s)];
    }
  }

  /** Only the set of values decides how many distinct ones there are. */
  lemma {:induction false} DistinctSize<T>(s: seq<T>)
    ensures |Distinct(s)| == |Elements(s)|
  {
    DistinctElements(s);
    NoDuplicatesSize(Distinct(s));
    assert Elements(Distinct(s)) == Elements(s);
  }

  lemma {:induction false} NoDuplicatesSize<T>(s: seq<T>)
    requires NoDuplicates(s)
    ensures |Elements(s)| == |s|
  {
    if s == [] {
      assert Elements(s) == {};
    } else {
      NoDuplicatesSize(Init(s));
      assert s == Init(s) + [Last(s)];
      assert Elements(s) == Elements(Init(s)) + {Last(s)};
      assert Last(s) !in Init(s);
    }
  }

  lemma {:induction false} SubsetSize<T>(a: set<T>, b: set<T>)
    requires a <= b
    ensures |a| <= |b|
  {
    if x :| x in a {
      SubsetSize(a - {x}, b - {x});
    }
  }
}
