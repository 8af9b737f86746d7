/** The parts of Go's `strings` and `strconv` packages the engine relies on,
    over `string = seq<char>`. */
module GoStrings {
  import opened Outcomes

  /** `pat` occurs in `s` starting at index `i`. */
  predicate OccursAt(s: string, pat: string, i: int) {
    0 <= i && i + |pat| <= |s| && s[i..i + |pat|] == pat
  }

  /** The first occurrence of `pat` in `s` at or after `from`, or -1. */
  function IndexFrom(s: string, pat: string, from: nat): (r: int)
    decreases |s| - from
    ensures r == -1 || (from <= r && OccursAt(s, pat, r))
    ensures r == -1 ==> forall j :: from <= j ==> !OccursAt(s, pat, j)
    ensures r >= 0 ==> forall j :: from <= j < r ==> !OccursAt(s, pat, j)
  {
    if from + |pat| > |s| then -1
    else if s[from..from + |pat|] == pat then from
    else IndexFrom(s, pat, from + 1)
  }

  /** strings.Index: the first occurrence of `pat` in `s`, or -1. */
  function Index(s: string, pat: string): (r: int)
    ensures r == -1 <==> forall j :: !OccursAt(s, pat, j)
    ensures r >= 0 ==> OccursAt(s, pat, r) && forall j :: 0 <= j < r ==> !OccursAt(s, pat, j)
  {
    IndexFrom(s, pat, 0)
  }

  /** strings.Contains */
  predicate Contains(s: string, pat: string) {
    Index(s, pat) >= 0
  }

  /** strings.HasPrefix */
  predicate HasPrefix(s: string, prefix: string) {
    |prefix| <= |s| && s[..|prefix|] == prefix
  }

  /** A match inside a prefix of `s` is a match in `s`. */
  lemma OccursInPrefix(s: string, pat: string, i: nat, j: int)
    requires i <= |s| && OccursAt(s[..i], pat, j)
    ensures OccursAt(s, pat, j)
  {
    assert s[..i][j..j + |pat|] == s[j..j + |pat|];
  }

  /** `strings.Index(s, p) == 0` is the same test as `strings.HasPrefix(s, p)`. */
  lemma IndexZeroIsPrefix(s: string, p: string)
    ensures Index(s, p) == 0 <==> HasPrefix(s, p)
  {
    if HasPrefix(s, p) {
      assert OccursAt(s, p, 0);
    }
  }

  /** The inverse of Split: the parts glued back with `sep` between them. */
  function Join(parts: seq<string>, sep: string): string
  {
    if |parts| == 0 then ""
    else if |parts| == 1 then parts[0]
    else parts[0] + sep + Join(parts[1..], sep)
  }

  lemma JoinCons(x: string, rest: seq<string>, sep: string)
    requires |rest| >= 1
    ensures Join([x] + rest, sep) == x + sep + Join(rest, sep)
  {
    assert ([x] + rest)[1..] == rest;
  }

  /** strings.Split with a non-empty separator: cut at every occurrence,
      left to right. */
  function Split(s: string, sep: string): (parts: seq<string>)
    requires sep != []
    decreases |s|
    ensures |parts| >= 1
  {
    var i := Index(s, sep);
    if i < 0 then [s] else [s[..i]] + Split(s[i + |sep|..], sep)
  }

  /** Split is undone by Join, and no part holds the separator. */
  lemma {:induction false} SplitJoin(s: string, sep: string)
    requires sep != []
    decreases |s|
    ensures Join(Split(s, sep), sep) == s
    ensures forall k :: 0 <= k < |Split(s, sep)| ==> !Contains(Split(s, sep)[k], sep)
  {
    var i := Index(s, sep);
    if i >= 0 {
      var rest := Split(s[i + |sep|..], sep);
      SplitJoin(s[i + |sep|..], sep);
      CutAtFirst(s, sep, i, rest);
      assert Split(s, sep) == [s[..i]] + rest;
    }
  }

  /** The text before the first occurrence of `sep` does not contain `sep`. */
  lemma NoMatchBeforeFirst(s: string, sep: string, i: int)
    requires sep != [] && i == Index(s, sep) && i >= 0
    ensures !Contains(s[..i], sep)
  {
    var k := Index(s[..i], sep);
    if k >= 0 {
      OccursInPrefix(s, sep, i, k);
    }
  }

  /** Cutting `s` at the first occurrence of `sep` and joining back restores it. */
  lemma CutAtFirst(s: string, sep: string, i: int, rest: seq<string>)
    requires sep != [] && i == Index(s, sep) && i >= 0
    requires |rest| >= 1 && Join(rest, sep) == s[i + |sep|..]
    ensures Join([s[..i]] + rest, sep) == s
    ensures !Contains(s[..i], sep)
  {
    NoMatchBeforeFirst(s, sep, i);
    JoinCons(s[..i], rest, sep);
    Reassemble(s, sep, i);
  }

  lemma Reassemble(s: string, sep: string, i: int)
    requires OccursAt(s, sep, i)
    ensures s[..i] + sep + s[i + |sep|..] == s
  {
    assert s == s[..i] + s[i..i + |sep|] + s[i + |sep|..];
  }

  /** strings.SplitN with n >= 1: at most n parts, the last holding the rest. */
  function SplitN(s: string, sep: string, n: nat): (parts: seq<string>)
    requires sep != [] && n >= 1
    decreases n
    ensures 1 <= |parts| <= n
    ensures Join(parts, sep) == s
    ensures forall k :: 0 <= k < |parts| - 1 ==> !Contains(parts[k], sep)
    ensures |parts| < n ==> !Contains(parts[|parts| - 1], sep)
  {
    var i := Index(s, sep);
    if n == 1 || i < 0 then [s]
    else
      var rest := SplitN(s[i + |sep|..], sep, n - 1);
      CutAtFirst(s, sep, i, rest);
      [s[..i]] + rest
  }

  /** `a` has no character `ch`. */
  predicate Lacks(a: string, ch: char) {
    forall k :: 0 <= k < |a| ==> a[k] != ch
  }

  /** When no character of `a` from `from` on can start `sep`, the first
      occurrence of `sep` in `a + sep + rest` at or after `from` is the one
      right after `a`. */
  lemma IndexAfter(a: string, sep: string, rest: string, from: nat)
    requires sep != [] && from <= |a|
    requires forall k :: from <= k < |a| ==> a[k] != sep[0]
    ensures IndexFrom(a + sep + rest, sep, from) == |a|
  {
    var s := a + sep + rest;
    assert OccursAt(s, sep, |a|) by {
      assert s[|a|..|a| + |sep|] == sep;
    }
    forall j | from <= j < |a|
      ensures !OccursAt(s, sep, j)
    {
      assert s[j] == a[j];
    }
  }

  /** Text with no character that can start `sep` does not contain it. */
  lemma IndexAbsent(a: string, sep: string)
    requires sep != [] && Lacks(a, sep[0])
    ensures Index(a, sep) == -1
  {
    forall j | 0 <= j && j + |sep| <= |a|
      ensures !OccursAt(a, sep, j)
    {
      assert a[j..j + |sep|][0] == a[j];
    }
  }

  /** Splitting `a + sep + b` where neither part can start `sep`. */
  lemma SplitTwo(a: string, sep: string, b: string)
    requires sep != [] && Lacks(a, sep[0]) && Lacks(b, sep[0])
    ensures Split(a + sep + b, sep) == [a, b]
  {
    var s := a + sep + b;
    IndexAfter(a, sep, b, 0);
    assert s[..|a|] == a;
    assert s[|a| + |sep|..] == b;
    IndexAbsent(b, sep);
  }

  /** Cutting `a + ":" + b + ":" + c` at its first two colons gives back the
      three parts when neither of the first two holds a colon. */
  lemma SplitNThree(a: string, b: string, c: string)
    requires Lacks(a, ':') && Lacks(b, ':')
    ensures SplitN(a + ":" + b + ":" + c, ":", 3) == [a, b, c]
  {
    var s := a + ":" + b + ":" + c;
    IndexAfter(a, ":", b + ":" + c, 0);
    assert s == a + ":" + (b + ":" + c);
    assert s[|a| + 1..] == b + ":" + c;
    IndexAfter(b, ":", c, 0);
  }

  lemma Assoc(a: string, b: string, c: string)
    ensures a + b + c == a + (b + c)
  {
  }

  /** strings.Replace(s, target, replacement, 1): the first occurrence only. */
  function ReplaceFirst(s: string, target: string, replacement: string): (r: string)
    requires target != []
    ensures !Contains(s, target) ==> r == s
    ensures Contains(s, target) ==> |r| == |s| - |target| + |replacement|
  {
    var i := Index(s, target);
    if i < 0 then s else s[..i] + replacement + s[i + |target|..]
  }

  /** Reference definition of ReplaceFirst: strings.SplitN(s, target, 2)
      joined with `replacement`, that is the part before the first
      occurrence (which holds no `target`), then `replacement`, then the
      rest untouched. */
  lemma ReplaceFirstIsSplitNJoin(s: string, target: string, replacement: string)
    requires target != []
    ensures ReplaceFirst(s, target, replacement) == Join(SplitN(s, target, 2), replacement)
  {
    var i := Index(s, target);
    if i >= 0 {
      assert SplitN(s, target, 2) == [s[..i]] + SplitN(s[i + |target|..], target, 1);
    }
  }

  /** The explicit position form of ReplaceFirst: with an occurrence, the
      text around the first one is kept and only that one is swapped. */
  lemma ReplaceFirstAt(s: string, target: string, replacement: string)
    requires target != [] && Contains(s, target)
    ensures var i := Index(s, target);
      0 <= i && i + |target| <= |s| &&
      ReplaceFirst(s, target, replacement) == s[..i] + replacement + s[i + |target|..]
  {
  }

  /** Deleting the first occurrence of `target` adds no character. */
  lemma ReplaceFirstLacks(s: string, target: string, ch: char)
    requires target != [] && Lacks(s, ch)
    ensures Lacks(ReplaceFirst(s, target, ""), ch)
  {
    if Contains(s, target) {
      ReplaceFirstAt(s, target, "");
      var i := Index(s, target);
      var t := s[..i] + s[i + |target|..];
      assert ReplaceFirst(s, target, "") == t;
      forall k | 0 <= k < |t| ensures t[k] != ch {
        if k >= i {
          assert t[k] == s[k + |target|];
        }
      }
    }
  }

  /** strings.Replace(s, target, replacement, -1): every non-overlapping occurrence of `target`,
      scanning left to right. */
  function ReplaceAll(s: string, target: string, replacement: string): string
    requires target != []
    decreases |s|
  {
    var i := Index(s, target);
    if i < 0 then s else s[..i] + replacement + ReplaceAll(s[i + |target|..], target, replacement)
  }

  /** Reference definition of ReplaceAll: split at `target`, join with `replacement`. */
  lemma {:induction false} ReplaceAllIsSplitJoin(s: string, target: string, replacement: string)
    requires target != []
    decreases |s|
    ensures ReplaceAll(s, target, replacement) == Join(Split(s, target), replacement)
  {
    var i := Index(s, target);
    if i >= 0 {
      var rest := s[i + |target|..];
      ReplaceAllIsSplitJoin(rest, target, replacement);
      JoinCons(s[..i], Split(rest, target), replacement);
    }
  }

  /** Without an occurrence of `target`, ReplaceAll changes nothing. */
  lemma ReplaceAllWithoutMatch(s: string, target: string, replacement: string)
    requires target != [] && !Contains(s, target)
    ensures ReplaceAll(s, target, replacement) == s
  {
  }

  // ---------------------------------------------------------------------
  // strconv.Atoi and fmt's %d for the non-negative indices the scanners print

  predicate IsDigit(ch: char) { '0' <= ch <= '9' }

  predicate AllDigits(s: string) {
    forall k :: 0 <= k < |s| ==> IsDigit(s[k])
  }

  /** The value of `s` read as decimal digits, most significant first, or
      None when some character is not a digit. */
  function DigitsValue(s: string): Option<nat>
  {
    if s == [] then Some(0)
    else if !IsDigit(s[|s| - 1]) then None
    else
      match DigitsValue(s[..|s| - 1])
      case None => None
      case Some(high) => Some(high * 10 + (s[|s| - 1] as int - '0' as int))
  }

  const MinInt64: int := -0x8000_0000_0000_0000
  const MaxInt64: int := 0x7fff_ffff_ffff_ffff

  /** strconv.Atoi on a 64-bit platform: an optional sign and at least one
      decimal digit, in the range of int64. Go's syntax and range errors are
      one failure here. */
  function Atoi(s: string): (r: Result<int>)
    ensures r.Ok? ==> MinInt64 <= r.value <= MaxInt64
    ensures s == [] ==> r.Err?
    ensures r.Ok? && s[0] != '-' ==> r.value >= 0
    ensures r.Err? ==> r.error == NotAnInteger(s)
  {
    var signed := |s| > 0 && (s[0] == '-' || s[0] == '+');
    var digits := if signed then s[1..] else s;
    if |digits| == 0 then Err(NotAnInteger(s))
    else
      match DigitsValue(digits)
      case None => Err(NotAnInteger(s))
      case Some(magnitude) =>
        var v: int := if s[0] == '-' then -(magnitude as int) else magnitude;
        if MinInt64 <= v <= MaxInt64 then Ok(v) else Err(NotAnInteger(s))
  }

  function DigitChar(d: nat): (ch: char)
    requires d < 10
    ensures IsDigit(ch) && ch as int - '0' as int == d
  {
    ('0' as int + d) as char
  }

  /** fmt.Sprintf("%d", n) for n >= 0. */
  function Decimal(n: nat): (r: string)
    ensures |r| >= 1 && AllDigits(r)
  {
    if n < 10 then [DigitChar(n)] else Decimal(n / 10) + [DigitChar(n % 10)]
  }

  lemma {:induction false} DecimalValue(n: nat)
    ensures DigitsValue(Decimal(n)) == Some(n)
  {
    if n >= 10 {
      DecimalValue(n / 10);
      var d := Decimal(n);
      assert d[..|d| - 1] == Decimal(n / 10);
    }
  }

  /** Printing an index with %d and reading it back with Atoi is the identity. */
  lemma DecimalRoundTrip(n: nat)
    requires n <= MaxInt64
    ensures Atoi(Decimal(n)) == Ok(n)
  {
    DecimalValue(n);
  }

  /** A decimal numeral contains no character outside '0'..'9'. */
  lemma DecimalHasOnly(n: nat, pat: string)
    requires pat != [] && !AllDigits(pat)
    ensures !Contains(Decimal(n), pat)
  {
  }
}
