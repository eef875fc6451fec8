/** The order of a `BTreeSet` of paths, and stable sorting by lower-cased file name. */
module Order {
  import opened Text

  // ---------------------------------------------------------------- lexicographic order

  ghost predicate Strict<T(!new)>(less: (T, T) -> bool) {
    && (forall x :: !less(x, x))
    && (forall x, y, z :: less(x, y) && less(y, z) ==> less(x, z))
    && (forall x, y :: x == y || less(x, y) || less(y, x))
  }

  predicate LexLess<T(==)>(less: (T, T) -> bool, a: seq<T>, b: seq<T>)
    decreases |a|
  {
    b != [] && (a == [] || less(a[0], b[0]) || (a[0] == b[0] && LexLess(less, a[1..], b[1..])))
  }

  lemma {:induction false} LexIrreflexive<T(!new)>(less: (T, T) -> bool, a: seq<T>)
    requires Strict(less)
    ensures !LexLess(less, a, a)
  {
    if a != [] {
      LexIrreflexive(less, a[1..]);
    }
  }

  lemma {:induction false} LexTransitive<T(!new)>(less: (T, T) -> bool, a: seq<T>, b: seq<T>, c: seq<T>)
    requires Strict(less) && LexLess(less, a, b) && LexLess(less, b, c)
    ensures LexLess(less, a, c)
  {
    if a != [] && a[0] == b[0] == c[0] {
      LexTransitive(less, a[1..], b[1..], c[1..]);
    }
  }

  lemma {:induction false} LexTotal<T(!new)>(less: (T, T) -> bool, a: seq<T>, b: seq<T>)
    requires Strict(less)
    ensures a == b || LexLess(less, a, b) || LexLess(less, b, a)
  {
    if a != [] && b != [] && a[0] == b[0] {
      LexTotal(less, a[1..], b[1..]);
      assert a == [a[0]] + a[1..] && b == [b[0]] + b[1..];
    }
  }

  predicate CharLess(a: char, b: char) {
    a < b
  }

  predicate StringLess(a: string, b: string) {
    LexLess(CharLess, a, b)
  }

  /** The root comes first, then a parent reference, then names. */
  function Rank(name: string): nat {
    if name == "/" then 0 else if name == ".." then 1 else 2
  }

  /** Names compare character by character. */
  predicate ComponentLess(a: string, b: string) {
    Rank(a) < Rank(b) || (Rank(a) == Rank(b) && StringLess(a, b))
  }

  predicate PathLess(a: Path, b: Path) {
    LexLess(ComponentLess, a, b)
  }

  lemma StringOrder()
    ensures Strict(StringLess)
  {
    forall a: string
      ensures !StringLess(a, a)
    {
      LexIrreflexive(CharLess, a);
    }
    forall a: string, b: string, c: string | StringLess(a, b) && StringLess(b, c)
      ensures StringLess(a, c)
    {
      LexTransitive(CharLess, a, b, c);
    }
    forall a: string, b: string
      ensures a == b || StringLess(a, b) || StringLess(b, a)
    {
      LexTotal(CharLess, a, b);
    }
  }

  lemma PathOrder()
    ensures Strict(PathLess)
  {
    StringOrder();
    hide StringLess;
    assert Strict(ComponentLess);
    forall a: Path
      ensures !PathLess(a, a)
    {
      LexIrreflexive(ComponentLess, a);
    }
    forall a: Path, b: Path, c: Path | PathLess(a, b) && PathLess(b, c)
      ensures PathLess(a, c)
    {
      LexTransitive(ComponentLess, a, b, c);
    }
    forall a: Path, b: Path
      ensures a == b || PathLess(a, b) || PathLess(b, a)
    {
      LexTotal(ComponentLess, a, b);
    }
  }

  // ---------------------------------------------------------------- what the orders mean

  predicate SmallerAt(a: string, b: string, n: nat) {
    n < |a| && n < |b| && a[..n] == b[..n] && a[n] < b[n]
  }

  /** A prefix comes first; otherwise the first character that differs decides. */
  ghost predicate InDictionaryOrder(a: string, b: string) {
    a <= b || exists n: nat :: SmallerAt(a, b, n)
  }

  lemma {:induction false} DictionaryOrder(a: string, b: string)
    ensures InDictionaryOrder(a, b) <==> !StringLess(b, a)
    decreases |a|
  {
    if a != [] && b != [] {
      if a[0] == b[0] {
        DictionaryOrder(a[1..], b[1..]);
        SameStart(a, b);
      } else {
        if n: nat :| SmallerAt(a, b, n) {
          FirstDiffers(a, b, n);
        }
        assert a[0] < b[0] ==> SmallerAt(a, b, 0);
      }
    }
  }

  lemma FirstDiffers<T>(a: seq<T>, b: seq<T>, n: nat)
    requires n < |a| && n < |b| && a[0] != b[0]
    ensures a[..n] == b[..n] ==> n == 0
  {
    if n > 0 {
      assert a[..n][0] != b[..n][0];
    }
  }

  lemma SameStart(a: string, b: string)
    requires a != [] && b != [] && a[0] == b[0]
    ensures InDictionaryOrder(a, b) <==> InDictionaryOrder(a[1..], b[1..])
  {
    assert a == [a[0]] + a[1..] && b == [b[0]] + b[1..];
    if n: nat :| SmallerAt(a, b, n) {
      assert n > 0;
      assert a[1..][..n - 1] == a[..n][1..] && b[1..][..n - 1] == b[..n][1..];
      assert SmallerAt(a[1..], b[1..], n - 1);
    }
    if n: nat :| SmallerAt(a[1..], b[1..], n) {
      assert a[..n + 1] == [a[0]] + a[1..][..n] && b[..n + 1] == [b[0]] + b[1..][..n];
      assert SmallerAt(a, b, n + 1);
    }
  }

  /** The root is before a parent reference, which is before names; names are in dictionary order. */
  ghost predicate ComponentBefore(a: string, b: string) {
    a != b && b != "/" && (a == "/" || (b != ".." && (a == ".." || InDictionaryOrder(a, b))))
  }

  ghost predicate BeforeAt(p: Path, q: Path, n: nat) {
    n < |p| && n < |q| && p[..n] == q[..n] && ComponentBefore(p[n], q[n])
  }

  ghost predicate PathBefore(p: Path, q: Path) {
    p < q || exists n: nat :: BeforeAt(p, q, n)
  }

  lemma ComponentOrder(a: string, b: string)
    ensures ComponentBefore(a, b) <==> ComponentLess(a, b)
  {
    DictionaryOrder(a, b);
    StringOrder();
    hide StringLess, InDictionaryOrder;
  }

  lemma {:induction false} PathsOrder(p: Path, q: Path)
    ensures PathBefore(p, q) <==> PathLess(p, q)
    decreases |p|
  {
    hide ComponentLess, ComponentBefore;
    if p != [] && q != [] {
      ComponentOrder(p[0], q[0]);
      if p[0] == q[0] {
        PathsOrder(p[1..], q[1..]);
        SameHeads(p, q);
        NotBeforeItself(p[0]);
      } else {
        if n: nat :| BeforeAt(p, q, n) {
          FirstDiffers(p, q, n);
        }
        assert ComponentBefore(p[0], q[0]) ==> BeforeAt(p, q, 0);
      }
    }
  }

  lemma NotBeforeItself(a: string)
    ensures !ComponentLess(a, a)
  {
    LexIrreflexive(CharLess, a);
  }

  lemma SameHeads(p: Path, q: Path)
    requires p != [] && q != [] && p[0] == q[0]
    ensures PathBefore(p, q) <==> PathBefore(p[1..], q[1..])
  {
    hide ComponentBefore;
    assert p == [p[0]] + p[1..] && q == [q[0]] + q[1..];
    if n: nat :| BeforeAt(p, q, n) {
      assert n > 0 by {
        SelfBefore(p[0]);
      }
      assert p[1..][..n - 1] == p[..n][1..] && q[1..][..n - 1] == q[..n][1..];
      assert BeforeAt(p[1..], q[1..], n - 1);
    }
    if n: nat :| BeforeAt(p[1..], q[1..], n) {
      assert p[..n + 1] == [p[0]] + p[1..][..n] && q[..n + 1] == [q[0]] + q[1..][..n];
      assert BeforeAt(p, q, n + 1);
    }
  }

  lemma SelfBefore(a: string)
    ensures !ComponentBefore(a, a)
  {
  }

  // ---------------------------------------------------------------- ordered sets of paths

  ghost predicate Ascending(s: seq<Path>) {
    forall i, j | 0 <= i < j < |s| :: PathLess(s[i], s[j])
  }

  function Insert(s: seq<Path>, p: Path): seq<Path> {
    if s == [] then [p]
    else if s[0] == p then s
    else if PathLess(p, s[0]) then [p] + s
    else [s[0]] + Insert(s[1..], p)
  }

  /** `collect::<BTreeSet<_>>()`. */
  function TreeSet(paths: seq<Path>): seq<Path> {
    if paths == [] then [] else Insert(TreeSet(paths[..|paths| - 1]), Last(paths))
  }

  lemma {:induction false} InsertKeeps(s: seq<Path>, p: Path)
    requires Ascending(s)
    ensures Ascending(Insert(s, p))
    ensures forall q :: q in Insert(s, p) <==> q in s || q == p
  {
    hide PathLess;
    PathOrder();
    if s != [] {
      var rest := s[1..];
      assert s == [s[0]] + rest;
      InsertKeeps(rest, p);
      var r := Insert(rest, p);
      if !PathLess(p, s[0]) && s[0] != p {
        forall j | 0 <= j < |r|
          ensures PathLess(s[0], r[j])
        {
          assert r[j] in r;
          assert r[j] == p || exists i | 0 <= i < |rest| :: rest[i] == r[j];
        }
      }
    }
  }

  lemma {:induction false} TreeSetHolds(paths: seq<Path>)
    ensures Ascending(TreeSet(paths))
    ensures forall p :: p in TreeSet(paths) <==> p in paths
  {
    hide PathLess, Ascending;
    if paths == [] {
      NothingAscends();
    } else {
      TreeSetHolds(paths[..|paths| - 1]);
      InsertKeeps(TreeSet(paths[..|paths| - 1]), Last(paths));
      assert paths == paths[..|paths| - 1] + [Last(paths)];
    }
  }

  /** Of two paths in the set, the one that comes first is before the other component by component. */
  lemma TreeSetInOrder(paths: seq<Path>, i: nat, j: nat)
    requires i < j < |TreeSet(paths)|
    ensures PathBefore(TreeSet(paths)[i], TreeSet(paths)[j])
  {
    hide TreeSet, PathLess;
    TreeSetHolds(paths);
    PathsOrder(TreeSet(paths)[i], TreeSet(paths)[j]);
  }

  lemma NothingAscends()
    ensures Ascending([])
  {
  }

  /** An ascending sequence is determined by its elements. */
  lemma {:induction false} AscendingUnique(s: seq<Path>, t: seq<Path>)
    requires Ascending(s) && Ascending(t)
    requires forall p :: p in s <==> p in t
    ensures s == t
    decreases |s|
  {
    hide PathLess;
    PathOrder();
    assert s != [] ==> s[0] in t;
    assert t != [] ==> t[0] in s;
    if s != [] && t != [] {
      SameHead(s, t);
      assert s == [s[0]] + s[1..] && t == [t[0]] + t[1..];
      forall p
        ensures p in s[1..] <==> p in t[1..]
      {
        assert p in s[1..] ==> p in s && p != s[0];
        assert p in t[1..] ==> p in t && p != t[0];
      }
      AscendingUnique(s[1..], t[1..]);
    }
  }

  lemma SameHead(s: seq<Path>, t: seq<Path>)
    requires Ascending(s) && Ascending(t) && s != [] && t != []
    requires forall p :: p in s <==> p in t
    ensures s[0] == t[0]
  {
    hide PathLess;
    PathOrder();
    assert s[0] in s && t[0] in t;
    var i :| 0 <= i < |t| && t[i] == s[0];
    var j :| 0 <= j < |s| && s[j] == t[0];
  }

  /** The ordered set depends on which paths are given, not on their order or number. */
  lemma TreeSetOfSet(paths: seq<Path>, others: seq<Path>)
    requires forall p :: p in paths <==> p in others
    ensures TreeSet(paths) == TreeSet(others)
  {
    TreeSetHolds(paths);
    TreeSetHolds(others);
    AscendingUnique(TreeSet(paths), TreeSet(others));
  }

  // ---------------------------------------------------------------- stable sorting

  /** Places an item behind every item whose key is not greater. */
  function InsertSorted<T>(key: T -> string, list: seq<T>, x: T): seq<T> {
    if list == [] then [x]
    else if StringLess(key(x), key(list[0])) then [x] + list
    else [list[0]] + InsertSorted(key, list[1..], x)
  }

  /** `sort_by_key`. */
  function SortBy<T>(key: T -> string, list: seq<T>): seq<T> {
    if list == [] then [] else InsertSorted(key, SortBy(key, list[..|list| - 1]), Last(list))
  }

  ghost predicate SortedBy<T>(key: T -> string, list: seq<T>) {
    forall i, j | 0 <= i < j < |list| :: !StringLess(key(list[j]), key(list[i]))
  }

  function WithKey<T>(key: T -> string, list: seq<T>, c: string): seq<T> {
    if list == [] then []
    else Prepended(key(list[0]) == c, list[0], WithKey(key, list[1..], c))
  }

  lemma {:induction false} WithKeyConcat<T>(key: T -> string, a: seq<T>, b: seq<T>, c: string)
    ensures WithKey(key, a + b, c) == WithKey(key, a, c) + WithKey(key, b, c)
    decreases |a|
  {
    if a == [] {
      assert a + b == b;
    } else {
      hide Prepended;
      assert (a + b)[0] == a[0] && (a + b)[1..] == a[1..] + b;
      WithKeyConcat(key, a[1..], b, c);
      PrependedConcat(key(a[0]) == c, a[0], WithKey(key, a[1..], c), WithKey(key, b, c));
    }
  }

  /** An element of a sequence without repetitions occurs once. */
  lemma Once<T>(s: seq<T>, k: nat)
    requires k < |s|
    requires forall i, j | 0 <= i < j < |s| :: s[i] != s[j]
    ensures multiset(s)[s[k]] == 1
  {
    assert s == s[..k] + [s[k]] + s[k + 1..];
    assert s[k] !in s[..k] && s[k] !in s[k + 1..];
  }

  lemma {:induction false} InsertedSorts<T>(key: T -> string, list: seq<T>, x: T)
    requires SortedBy(key, list)
    ensures SortedBy(key, InsertSorted(key, list, x))
    ensures multiset(InsertSorted(key, list, x)) == multiset(list) + multiset{x}
  {
    hide StringLess;
    StringOrder();
    if list != [] {
      var rest := list[1..];
      assert list == [list[0]] + rest;
      InsertedSorts(key, rest, x);
      var r := InsertSorted(key, rest, x);
      if !StringLess(key(x), key(list[0])) {
        forall j | 0 <= j < |r|
          ensures !StringLess(key(r[j]), key(list[0]))
        {
          assert r[j] in multiset(r);
          assert r[j] == x || exists i | 0 <= i < |rest| :: rest[i] == r[j];
        }
      }
    }
  }

  lemma {:induction false} PlaceLast<T>(key: T -> string, list: seq<T>, x: T, c: string)
    requires SortedBy(key, list)
    ensures WithKey(key, InsertSorted(key, list, x), c) == WithKey(key, list + [x], c)
  {
    hide StringLess;
    StringOrder();
    if list == [] {
      assert list + [x] == [x];
    } else if StringLess(key(x), key(list[0])) {
      WithKeyConcat(key, [x], list, c);
      WithKeyConcat(key, list, [x], c);
      if key(x) == c {
        NoneBelow(key, list, c);
      }
    } else {
      PlaceLast(key, list[1..], x, c);
      assert (list + [x])[1..] == list[1..] + [x];
    }
  }

  lemma {:induction false} NoneBelow<T>(key: T -> string, list: seq<T>, c: string)
    requires forall i | 0 <= i < |list| :: key(list[i]) != c
    ensures WithKey(key, list, c) == []
  {
    if list != [] {
      NoneBelow(key, list[1..], c);
    }
  }

  /** The result of a stable sort: ascending, and items of equal key keep their order. */
  ghost predicate StablySorts<T>(key: T -> string, list: seq<T>, r: seq<T>) {
    SortedBy(key, r) && forall c :: WithKey(key, r, c) == WithKey(key, list, c)
  }

  lemma {:induction false} SortByStable<T>(key: T -> string, list: seq<T>)
    ensures StablySorts(key, list, SortBy(key, list))
    ensures multiset(SortBy(key, list)) == multiset(list)
  {
    hide InsertSorted, StringLess;
    if list != [] {
      var front := list[..|list| - 1];
      SortByStable(key, front);
      var before := SortBy(key, front);
      assert list == front + [Last(list)];
      InsertedSorts(key, before, Last(list));
      forall c
        ensures WithKey(key, SortBy(key, list), c) == WithKey(key, list, c)
      {
        PlaceLast(key, before, Last(list), c);
        WithKeyConcat(key, before, [Last(list)], c);
        WithKeyConcat(key, front, [Last(list)], c);
      }
    }
  }

  lemma {:induction false} KeyIsThere<T>(key: T -> string, list: seq<T>, c: string) returns (i: nat)
    requires WithKey(key, list, c) != []
    ensures i < |list| && key(list[i]) == c
  {
    if key(list[0]) == c {
      i := 0;
    } else {
      i := KeyIsThere(key, list[1..], c);
      i := i + 1;
    }
  }

  lemma TailsAgree<T>(key: T -> string, r: seq<T>, s: seq<T>, c: string)
    requires r != [] && s != [] && r[0] == s[0]
    ensures WithKey(key, r, c) == WithKey(key, s, c) ==> WithKey(key, r[1..], c) == WithKey(key, s[1..], c)
  {
    var head := if key(r[0]) == c then [r[0]] else [];
    assert WithKey(key, r, c) == head + WithKey(key, r[1..], c);
    assert WithKey(key, s, c) == head + WithKey(key, s[1..], c);
    assert WithKey(key, r[1..], c) == WithKey(key, r, c)[|head|..];
    assert WithKey(key, s[1..], c) == WithKey(key, s, c)[|head|..];
  }

  /** Being ascending and stable determines the result. */
  lemma {:induction false} StableUnique<T>(key: T -> string, r: seq<T>, s: seq<T>)
    requires SortedBy(key, r) && SortedBy(key, s)
    requires forall c :: WithKey(key, r, c) == WithKey(key, s, c)
    ensures r == s
    decreases |r|
  {
    hide StringLess;
    StringOrder();
    assert s != [] ==> WithKey(key, s, key(s[0])) == WithKey(key, r, key(s[0])) != [];
    if r != [] {
      assert WithKey(key, s, key(r[0])) == WithKey(key, r, key(r[0])) != [];
      var i := KeyIsThere(key, s, key(r[0]));
      var j := KeyIsThere(key, r, key(s[0]));
      assert key(r[0]) == key(s[0]);
      assert WithKey(key, r, key(r[0]))[0] == r[0] && WithKey(key, s, key(r[0]))[0] == s[0];
      forall c
        ensures WithKey(key, r[1..], c) == WithKey(key, s[1..], c)
      {
        TailsAgree(key, r, s, c);
      }
      StableUnique(key, r[1..], s[1..]);
      assert r == [r[0]] + r[1..] && s == [s[0]] + s[1..];
    }
  }
}
