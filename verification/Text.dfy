/** Strings and paths: case folding, decimal numbers, splitting and joining. */
module Text {

  type Path = seq<string>

  datatype Option<+T> = None | Some(value: T)

  datatype Result<+T, +E> = Ok(value: T) | Err(error: E)

  // ---------------------------------------------------------------- folding

  function FoldChar(c: char): char {
    if 'A' <= c <= 'Z' then (c as int + 32) as char else c
  }

  /** Lower-cases a name: two names denote the same FAT entry exactly when they fold alike. */
  function Fold(s: string): (r: string)
    ensures |r| == |s|
    ensures forall i | 0 <= i < |s| :: r[i] == FoldChar(s[i])
  {
    seq(|s|, i requires 0 <= i < |s| => FoldChar(s[i]))
  }

  /** The key of a path: every component folded. */
  function Key(p: Path): (k: Path)
    ensures |k| == |p|
    ensures forall i | 0 <= i < |p| :: k[i] == Fold(p[i])
  {
    seq(|p|, i requires 0 <= i < |p| => Fold(p[i]))
  }

  function Last<T>(s: seq<T>): T
    requires s != []
  {
    s[|s| - 1]
  }

  function Parent(p: Path): Path
    requires p != []
  {
    p[..|p| - 1]
  }

  /** The rest, with `x` in front of it if it is wanted. */
  function Prepended<T>(wanted: bool, x: T, rest: seq<T>): seq<T> {
    if wanted then [x] + rest else rest
  }

  lemma PrependedConcat<T>(wanted: bool, x: T, a: seq<T>, b: seq<T>)
    ensures Prepended(wanted, x, a + b) == Prepended(wanted, x, a) + b
  {
  }

  /** Positions, from left to right. */
  ghost predicate Increasing(at: seq<nat>) {
    forall j, k | 0 <= j < k < |at| :: at[j] < at[k]
  }

  /** The final component of a path, unless it is the root or a parent reference. */
  function FileName(p: Path): Option<string> {
    if p == [] || Last(p) == "/" || Last(p) == ".." then None else Some(Last(p))
  }

  lemma KeyAppend(p: Path, q: Path)
    ensures Key(p + q) == Key(p) + Key(q)
  {
    assert |Key(p + q)| == |Key(p) + Key(q)|;
  }

  lemma KeyTake(p: Path, n: nat)
    requires n <= |p|
    ensures Key(p[..n]) == Key(p)[..n]
  {
    assert |Key(p[..n])| == |Key(p)[..n]|;
  }

  lemma KeyParent(p: Path)
    requires p != []
    ensures Key(Parent(p)) == Parent(Key(p))
    ensures Last(Key(p)) == Fold(Last(p))
  {
    KeyTake(p, |p| - 1);
  }

  /** A letter in either case, or one character. */
  predicate SameLetter(c: char, d: char) {
    || c == d
    || ('A' <= c <= 'Z' && d as int == c as int + 32)
    || ('A' <= d <= 'Z' && c as int == d as int + 32)
  }

  /** Two names fold alike exactly when they agree letter by letter but for case; the result has no capitals. */
  lemma FoldsAlike(a: string, b: string)
    ensures Fold(a) == Fold(b) <==> |a| == |b| && forall i | 0 <= i < |a| :: SameLetter(a[i], b[i])
    ensures forall i | 0 <= i < |a| :: SameLetter(a[i], Fold(a)[i]) && !('A' <= Fold(a)[i] <= 'Z')
  {
    if Fold(a) == Fold(b) {
      assert |a| == |Fold(a)| == |b|;
      forall i | 0 <= i < |a|
        ensures SameLetter(a[i], b[i])
      {
        assert FoldChar(a[i]) == Fold(a)[i] == Fold(b)[i] == FoldChar(b[i]);
      }
    }
  }

  // ---------------------------------------------------------------- decimal numbers

  function Digit(n: nat): char
    requires n < 10
  {
    ('0' as int + n) as char
  }

  predicate IsDigit(c: char) {
    '0' <= c <= '9'
  }

  /** The decimal rendering of a natural number, as `{}` formatting prints it. */
  function Decimal(n: nat): (r: string)
    ensures r != []
    ensures forall c | c in r :: IsDigit(c)
  {
    if n < 10 then [Digit(n)] else Decimal(n / 10) + [Digit(n % 10)]
  }

  /** The decimal rendering of a signed integer. */
  function Signed(n: int): (r: string)
    ensures r != []
  {
    if n < 0 then "-" + Decimal(-n) else Decimal(n)
  }

  lemma DecimalDigit(n: nat, i: nat)
    requires i < |Decimal(n)|
    ensures IsDigit(Decimal(n)[i])
  {
    assert Decimal(n)[i] in Decimal(n);
  }

  lemma {:induction false} DecimalInjective(m: nat, n: nat)
    requires Decimal(m) == Decimal(n)
    ensures m == n
  {
    var a, b := Decimal(m), Decimal(n);
    assert Last(a) == Digit(m % 10) && Last(b) == Digit(n % 10);
    if m >= 10 && n >= 10 {
      assert a[..|a| - 1] == Decimal(m / 10);
      assert b[..|b| - 1] == Decimal(n / 10);
      DecimalInjective(m / 10, n / 10);
    }
  }

  /** The number some digits stand for. */
  function NumberOf(digits: string): int {
    if digits == [] then 0
    else 10 * NumberOf(digits[..|digits| - 1]) + (Last(digits) as int - '0' as int)
  }

  /** A rendered number is read back, and has no leading zero. */
  lemma {:induction false} DecimalReads(n: nat)
    ensures NumberOf(Decimal(n)) == n
    ensures n > 0 ==> Decimal(n)[0] != '0'
  {
    if n < 10 {
      assert Decimal(n)[..0] == [];
    } else {
      DecimalReads(n / 10);
      assert Decimal(n)[..|Decimal(n)| - 1] == Decimal(n / 10);
    }
  }

  lemma SignedReads(n: int)
    ensures n >= 0 ==> NumberOf(Signed(n)) == n && IsDigit(Signed(n)[0])
    ensures n < 0 ==> Signed(n)[0] == '-' && NumberOf(Signed(n)[1..]) == -n
  {
    DecimalReads(if n < 0 then -n else n);
    DecimalDigit(if n < 0 then -n else n, 0);
  }

  // ---------------------------------------------------------------- searching

  function LastIndexOf(s: string, c: char): (i: int)
    ensures -1 <= i < |s|
    ensures i >= 0 ==> s[i] == c
    ensures forall j | i < j < |s| :: s[j] != c
  {
    if s == [] then -1
    else if Last(s) == c then |s| - 1
    else LastIndexOf(s[..|s| - 1], c)
  }

  /** A name without its extension: a leading dot does not start an extension. */
  function Stem(name: string): string {
    var dot := LastIndexOf(name, '.');
    if dot <= 0 then name else name[..dot]
  }

  /** What follows the last dot, when something precedes it. */
  function Extension(name: string): Option<string> {
    var dot := LastIndexOf(name, '.');
    if dot <= 0 then None else Some(name[dot + 1..])
  }

  /** A name of a stem and an extension, and one without. */
  lemma StemAndExtension(stem: string, extension: string)
    requires stem != "" && '.' !in extension
    ensures Stem(stem + "." + extension) == stem && Extension(stem + "." + extension) == Some(extension)
    ensures '.' !in stem[1..] ==> Stem(stem) == stem && Extension(stem) == None
  {
    var name := stem + "." + extension;
    assert name[|stem|] == '.' && forall j | |stem| < j < |name| :: name[j] == extension[j - |stem| - 1];
    assert LastIndexOf(name, '.') == |stem|;
    assert forall j | 0 < j < |stem| :: stem[j] == stem[1..][j - 1];
  }

  /** What a name with an extension consists of. */
  lemma ExtensionIs(name: string, extension: string)
    requires '.' !in extension
    ensures Extension(name) == Some(extension) <==> exists stem: string :: stem != "" && name == stem + "." + extension
  {
    if stem: string :| stem != "" && name == stem + "." + extension {
      StemAndExtension(stem, extension);
    }
    if Extension(name) == Some(extension) {
      var dot := LastIndexOf(name, '.');
      assert name[..dot] != "" && name == name[..dot] + "." + extension;
    }
  }

  predicate EndsWith(s: string, suffix: string) {
    |suffix| <= |s| && s[|s| - |suffix|..] == suffix
  }

  predicate StartsWith(s: string, prefix: string) {
    prefix <= s
  }

  // ---------------------------------------------------------------- splitting

  function Split(s: string, c: char): (parts: seq<string>)
    ensures parts != []
  {
    if s == [] then [[]]
    else
      var rest := Split(s[1..], c);
      if s[0] == c then [[]] + rest else [[s[0]] + rest[0]] + rest[1..]
  }

  function Join(parts: seq<string>, c: char): string
    requires parts != []
  {
    if |parts| == 1 then parts[0] else parts[0] + [c] + Join(parts[1..], c)
  }

  lemma {:induction false} SplitFree(a: string, c: char)
    requires c !in a
    ensures Split(a, c) == [a]
  {
    if a != [] {
      SplitFree(a[1..], c);
      assert [a[0]] + a[1..] == a;
    }
  }

  lemma {:induction false} SplitFirst(a: string, c: char, rest: string)
    requires c !in a
    ensures Split(a + [c] + rest, c) == [a] + Split(rest, c)
  {
    var s := a + [c] + rest;
    if a == [] {
      assert s[1..] == rest;
    } else {
      assert s[1..] == a[1..] + [c] + rest;
      SplitFirst(a[1..], c, rest);
      assert [a[0]] + a[1..] == a;
    }
  }

  /** Splitting undoes joining when no part contains the separator. */
  lemma {:induction false} SplitJoin(parts: seq<string>, c: char)
    requires parts != []
    requires forall p | p in parts :: c !in p
    ensures Split(Join(parts, c), c) == parts
  {
    if |parts| == 1 {
      SplitFree(parts[0], c);
    } else {
      SplitJoin(parts[1..], c);
      SplitFirst(parts[0], c, Join(parts[1..], c));
    }
  }
}
