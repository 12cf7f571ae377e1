/**
 * The pieces of ECMAScript string handling the extension relies on: the white-space
 * class `\s`, `trim`, `split` with a one-character separator and with `/[\s,]+/`,
 * `join`, number formatting in template literals, `parseInt(s, 10)`, and the
 * de-duplication `[...new Set(xs)]`.
 */
module Text {
  import opened Wrappers

  /** ECMAScript line terminators: the characters `.` in a regular expression does not match. */
  predicate IsLineTerminator(c: char) {
    c == '\n' || c == '\r' || c == '\U{2028}' || c == '\U{2029}'
  }

  /** ECMAScript white space and line terminators: the class `\s`, and what `trim` and `parseInt` skip. */
  predicate IsSpace(c: char) {
    || IsLineTerminator(c)
    || c == ' ' || c == '\t' || c == '\U{000B}' || c == '\U{000C}'
    || c == '\U{00A0}' || c == '\U{1680}' || ('\U{2000}' <= c <= '\U{200A}')
    || c == '\U{202F}' || c == '\U{205F}' || c == '\U{3000}' || c == '\U{FEFF}'
  }

  predicate IsDigit(c: char) {
    '0' <= c <= '9'
  }

  predicate AllDigits(s: string) {
    forall i :: 0 <= i < |s| ==> IsDigit(s[i])
  }

  // ---------------------------------------------------------------------------
  // trim

  function TrimStart(s: string): (r: string)
    ensures |r| <= |s| && r == s[|s| - |r|..]
    ensures forall i :: 0 <= i < |s| - |r| ==> IsSpace(s[i])
    ensures r == [] || !IsSpace(r[0])
  {
    if s != [] && IsSpace(s[0]) then TrimStart(s[1..]) else s
  }

  function TrimEnd(s: string): (r: string)
    ensures |r| <= |s| && r == s[..|r|]
    ensures forall i :: |r| <= i < |s| ==> IsSpace(s[i])
    ensures r == [] || !IsSpace(r[|r| - 1])
  {
    if s != [] && IsSpace(s[|s| - 1]) then TrimEnd(s[..|s| - 1]) else s
  }

  /** `String.prototype.trim`: the longest slice of `s` that neither starts nor ends with white space. */
  function Trim(s: string): (r: string)
    ensures |r| <= |s|
    ensures r == [] || (!IsSpace(r[0]) && !IsSpace(r[|r| - 1]))
    ensures (forall i :: 0 <= i < |s| ==> !IsSpace(s[i])) ==> r == s
  {
    TrimEnd(TrimStart(s))
  }

  /**
   * `trim` gives the slice of `s` between its leading and its trailing white space; the
   * leading white space is the `|s| - |TrimStart(s)|` characters that `TrimStart` drops.
   */
  lemma TrimIsSlice(s: string)
    ensures |s| - |TrimStart(s)| + |Trim(s)| <= |s|
    ensures Trim(s) == s[|s| - |TrimStart(s)|..|s| - |TrimStart(s)| + |Trim(s)|]
    ensures forall i :: 0 <= i < |s| - |TrimStart(s)| ==> IsSpace(s[i])
    ensures forall i :: |s| - |TrimStart(s)| + |Trim(s)| <= i < |s| ==> IsSpace(s[i])
  {
    var t := TrimStart(s);
    var r := TrimEnd(t);
    PrefixOfSuffix(s, t, r);
  }

  /** A prefix `r` of a suffix `t` of `s` is the slice of `s` that starts where `t` does. */
  lemma PrefixOfSuffix(s: string, t: string, r: string)
    requires |t| <= |s| && t == s[|s| - |t|..] && |r| <= |t| && r == t[..|r|]
    ensures var a := |s| - |t|;
      && r == s[a..a + |r|]
      && (forall i :: a + |r| <= i < |s| ==> s[i] == t[i - a])
  {
  }

  function StartsWith(s: string, prefix: string): bool {
    |prefix| <= |s| && s[..|prefix|] == prefix
  }

  function EndsWith(s: string, suffix: string): bool {
    |suffix| <= |s| && s[|s| - |suffix|..] == suffix
  }

  /** `text` with `prefix` and `suffix` taken off, when it has them. */
  function Unwrap(text: string, prefix: string, suffix: string): Option<string> {
    if |prefix| + |suffix| <= |text| && text[..|prefix|] == prefix && text[|text| - |suffix|..] == suffix
    then Some(text[|prefix|..|text| - |suffix|])
    else None
  }

  lemma UnwrapWrapped(prefix: string, arg: string, suffix: string)
    ensures Unwrap(prefix + arg + suffix, prefix, suffix) == Some(arg)
  {
    var text := prefix + arg + suffix;
    assert text[..|prefix|] == prefix;
    assert text[|text| - |suffix|..] == suffix;
    assert text[|prefix|..|text| - |suffix|] == arg;
  }

  /** True when `needle` occurs in `s` starting at some index. */
  predicate Contains(s: string, needle: string)
    decreases |s|
  {
    StartsWith(s, needle) || (s != [] && Contains(s[1..], needle))
  }

  // ---------------------------------------------------------------------------
  // join and split

  /** `Array.prototype.join(sep)` on strings: `[]` gives "", one element gives itself. */
  function Join(xs: seq<string>, sep: string): string {
    if |xs| == 0 then ""
    else if |xs| == 1 then xs[0]
    else xs[0] + sep + Join(xs[1..], sep)
  }

  /** The first index of `c` in `s`, or `|s|` when there is none. */
  function IndexOf(s: string, c: char): (i: nat)
    ensures i <= |s|
    ensures i < |s| ==> s[i] == c
    ensures forall k :: 0 <= k < i ==> s[k] != c
  {
    if s == [] then 0
    else if s[0] == c then 0
    else 1 + IndexOf(s[1..], c)
  }

  /**
   * `String.prototype.split(c)` with a one-character separator: the pieces between the
   * occurrences of `c`, empty pieces kept, so that joining them with `c` gives `s` back.
   */
  function SplitOn(s: string, c: char): (pieces: seq<string>)
    ensures |pieces| >= 1
    ensures forall k :: 0 <= k < |pieces| ==> c !in pieces[k]
    ensures Join(pieces, [c]) == s
    decreases |s|
  {
    var i := IndexOf(s, c);
    if i == |s| then [s]
    else
      var rest := SplitOn(s[i + 1..], c);
      assert s == s[..i] + [c] + s[i + 1..];
      [s[..i]] + rest
  }

  /** The last index of `c` in `s`, or `None` when `c` does not occur. */
  function LastIndexOf(s: string, c: char): (i: Option<nat>)
    ensures i.Some? ==> i.value < |s| && s[i.value] == c && forall q :: i.value < q < |s| ==> s[q] != c
    ensures i.None? ==> c !in s
    decreases |s|
  {
    if s == [] then None
    else if s[|s| - 1] == c then Some(|s| - 1)
    else
      var r := LastIndexOf(s[..|s| - 1], c);
      assert forall q :: 0 <= q < |s| - 1 ==> s[q] == s[..|s| - 1][q];
      r
  }

  /** The last `c` of `a + [c] + b` is the one after `a` when `b` holds none. */
  lemma {:induction false} LastIndexOfSplit(a: string, b: string, c: char)
    requires c !in b
    ensures LastIndexOf(a + [c] + b, c) == Some(|a|)
    decreases |b|
  {
    var s := a + [c] + b;
    if b == [] {
      assert s[|s| - 1] == c;
    } else {
      var b' := b[..|b| - 1];
      assert s[|s| - 1] == b[|b| - 1];
      assert s[..|s| - 1] == a + [c] + b';
      LastIndexOfSplit(a, b', c);
    }
  }

  /** A separator of the regular expression `/[\s,]+/`. */
  predicate IsSpaceOrComma(c: char) {
    IsSpace(c) || c == ','
  }

  /** The first index in `s` holding a character of `/[\s,]/`, or `|s|`. */
  function FirstSeparator(s: string): (i: nat)
    ensures i <= |s|
    ensures i < |s| ==> IsSpaceOrComma(s[i])
    ensures forall k :: 0 <= k < i ==> !IsSpaceOrComma(s[k])
  {
    if s == [] then 0
    else if IsSpaceOrComma(s[0]) then 0
    else 1 + FirstSeparator(s[1..])
  }

  /** The first index in `s` that is not a character of `/[\s,]/`, or `|s|`. */
  function SeparatorRunEnd(s: string): (i: nat)
    ensures i <= |s|
    ensures i < |s| ==> !IsSpaceOrComma(s[i])
    ensures forall k :: 0 <= k < i ==> IsSpaceOrComma(s[k])
  {
    if s == [] then 0
    else if !IsSpaceOrComma(s[0]) then 0
    else 1 + SeparatorRunEnd(s[1..])
  }

  /**
   * `s.split(/[\s,]+/)`: every maximal run of white space and commas separates two pieces,
   * so a leading or trailing run yields an empty piece and "" yields `[""]`.
   */
  function SplitRuns(s: string): (pieces: seq<string>)
    ensures |pieces| >= 1
    ensures forall k, j :: 0 <= k < |pieces| && 0 <= j < |pieces[k]| ==> !IsSpaceOrComma(pieces[k][j])
    ensures (forall j :: 0 <= j < |s| ==> !IsSpaceOrComma(s[j])) ==> pieces == [s]
    decreases |s|
  {
    var i := FirstSeparator(s);
    if i == |s| then [s]
    else
      var j := i + SeparatorRunEnd(s[i..]);
      [s[..i]] + SplitRuns(s[j..])
  }

  /** Splitting a join gives the pieces back, provided no piece contains the separator. */
  lemma {:induction false} SplitOnJoin(xs: seq<string>, c: char)
    requires |xs| >= 1
    requires forall k :: 0 <= k < |xs| ==> c !in xs[k]
    ensures SplitOn(Join(xs, [c]), c) == xs
    decreases |xs|
  {
    var s := Join(xs, [c]);
    if |xs| == 1 {
      assert IndexOf(s, c) == |s|;
    } else {
      var tail := Join(xs[1..], [c]);
      assert s == xs[0] + [c] + tail;
      IndexOfAfterPrefix(xs[0], tail, c);
      assert s[..|xs[0]|] == xs[0];
      assert s[|xs[0]| + 1..] == tail;
      SplitOnJoin(xs[1..], c);
    }
  }

  /**
   * Splitting on runs gives the pieces of a join back, provided the separator is a run of white
   * space and commas, no piece holds one, and every piece after the first is non-empty.
   */
  lemma {:induction false} SplitRunsJoin(xs: seq<string>, sep: string)
    requires |xs| >= 1 && sep != []
    requires forall k :: 0 <= k < |sep| ==> IsSpaceOrComma(sep[k])
    requires forall k, j :: 0 <= k < |xs| && 0 <= j < |xs[k]| ==> !IsSpaceOrComma(xs[k][j])
    requires forall k :: 0 < k < |xs| ==> xs[k] != []
    ensures SplitRuns(Join(xs, sep)) == xs
    decreases |xs|
  {
    var s := Join(xs, sep);
    if |xs| == 1 {
      assert s == xs[0];
    } else {
      var x := xs[0];
      var tail := Join(xs[1..], sep);
      JoinCons(x, xs[1..], sep);
      assert [x] + xs[1..] == xs;
      JoinStartsWithFirst(xs[1..], sep);
      FirstSeparatorAfterPiece(x, sep, tail);
      assert s[|x|..] == sep + tail;
      SeparatorRunEndBeforePiece(sep, tail);
      assert s[..|x|] == x;
      assert s[|x| + |sep|..] == tail;
      SplitRunsJoin(xs[1..], sep);
    }
  }

  lemma JoinStartsWithFirst(ys: seq<string>, sep: string)
    requires ys != [] && ys[0] != []
    ensures Join(ys, sep) != [] && Join(ys, sep)[0] == ys[0][0]
  {
  }

  lemma FirstSeparatorAfterPiece(x: string, sep: string, tail: string)
    requires forall j :: 0 <= j < |x| ==> !IsSpaceOrComma(x[j])
    requires sep != [] && IsSpaceOrComma(sep[0])
    ensures FirstSeparator(x + sep + tail) == |x|
  {
    var s := x + sep + tail;
    assert s[|x|] == sep[0];
    assert forall k :: 0 <= k < |x| ==> s[k] == x[k];
  }

  lemma SeparatorRunEndBeforePiece(sep: string, tail: string)
    requires forall k :: 0 <= k < |sep| ==> IsSpaceOrComma(sep[k])
    requires tail != [] && !IsSpaceOrComma(tail[0])
    ensures SeparatorRunEnd(sep + tail) == |sep|
  {
    assert (sep + tail)[|sep|] == tail[0];
    assert forall k :: 0 <= k < |sep| ==> (sep + tail)[k] == sep[k];
  }

  /** Joining `a + " " + b` before some strings is joining `a` and `b` before them. */
  lemma JoinPairStep(m: string, a: string, b: string, tail: seq<string>, rest: seq<string>)
    requires m == a + " " + b && tail != [] && rest != []
    requires Join(tail, " ") == Join(rest, " ")
    ensures Join([m] + tail, " ") == Join([a] + ([b] + rest), " ")
  {
    JoinCons(m, tail, " ");
    JoinCons(b, rest, " ");
    JoinCons(a, [b] + rest, " ");
    var j := Join(rest, " ");
    assert m + " " + j == a + " " + (b + " " + j);
  }

  lemma PairCons<T>(a: T, b: T, r: seq<T>)
    ensures [a, b] + r == [a] + ([b] + r)
  {
  }

  lemma JoinCons(x: string, xs: seq<string>, sep: string)
    requires xs != []
    ensures Join([x] + xs, sep) == x + sep + Join(xs, sep)
  {
    assert ([x] + xs)[1..] == xs;
  }

  lemma IndexOfAfterPrefix(a: string, b: string, c: char)
    requires c !in a
    ensures IndexOf(a + [c] + b, c) == |a|
  {
    var s := a + [c] + b;
    assert forall k :: 0 <= k < |a| ==> s[k] == a[k];
    assert s[|a|] == c;
  }

  // ---------------------------------------------------------------------------
  // numbers

  function DigitChar(d: nat): (c: char)
    requires d < 10
    ensures IsDigit(c)
  {
    ('0' as int + d) as char
  }

  function DigitValue(c: char): (d: nat)
    requires IsDigit(c)
    ensures d < 10
  {
    c as int - '0' as int
  }

  /** Decimal digits of `n` with no leading zero, as a template literal prints a number. */
  function NatToString(n: nat): (s: string)
    ensures |s| >= 1 && AllDigits(s)
    decreases n
  {
    if n < 10 then [DigitChar(n)] else NatToString(n / 10) + [DigitChar(n % 10)]
  }

  /** `${n}` for an integer `n`. */
  function IntToString(n: int): (s: string)
    ensures |s| >= 1
    ensures forall k :: 0 <= k < |s| ==> s[k] == '-' || IsDigit(s[k])
  {
    if n < 0 then "-" + NatToString(-n) else NatToString(n)
  }

  /** The longest prefix of `s` made of decimal digits. */
  function LeadingDigits(s: string): (ds: string)
    ensures |ds| <= |s| && ds == s[..|ds|] && AllDigits(ds)
    ensures |ds| < |s| ==> !IsDigit(s[|ds|])
  {
    if s != [] && IsDigit(s[0]) then [s[0]] + LeadingDigits(s[1..]) else []
  }

  /** The value of a digit string read in base 10. */
  function DigitsValue(ds: string): nat
    requires AllDigits(ds)
  {
    if ds == [] then 0 else DigitsValue(ds[..|ds| - 1]) * 10 + DigitValue(ds[|ds| - 1])
  }

  /** The value of the digits that `s` starts with, or `None` when it starts with none. */
  function ParseDigits(s: string): Option<nat> {
    var ds := LeadingDigits(s);
    if ds == [] then None else Some(DigitsValue(ds))
  }

  /**
   * `parseInt(s, 10)`: skip leading white space, take one optional sign, then read the
   * longest run of decimal digits; `None` is NaN (no digit at all). A trailing remainder
   * such as "/tcp" is ignored. Negative zero reads as 0.
   */
  function ParseInt(s: string): Option<int> {
    var t := TrimStart(s);
    if t != [] && t[0] == '-' then
      match ParseDigits(t[1..])
      case None => None
      case Some(v) => Some(-(v as int))
    else if t != [] && t[0] == '+' then
      match ParseDigits(t[1..])
      case None => None
      case Some(v) => Some(v)
    else
      match ParseDigits(t)
      case None => None
      case Some(v) => Some(v)
  }

  lemma {:induction false} DigitsValueOfNatToString(n: nat)
    ensures DigitsValue(NatToString(n)) == n
    decreases n
  {
    if n >= 10 {
      var s := NatToString(n);
      assert s[..|s| - 1] == NatToString(n / 10);
      DigitsValueOfNatToString(n / 10);
    }
  }

  /** Distinct numbers print differently, so printed indices can serve as property names. */
  lemma NatToStringInjective()
    ensures forall a: nat, b: nat :: NatToString(a) == NatToString(b) ==> a == b
  {
    forall a: nat, b: nat | NatToString(a) == NatToString(b)
      ensures a == b
    {
      DigitsValueOfNatToString(a);
      DigitsValueOfNatToString(b);
    }
  }

  lemma {:induction false} LeadingDigitsOfDigits(ds: string)
    requires AllDigits(ds)
    ensures LeadingDigits(ds) == ds
    decreases |ds|
  {
    if ds != [] {
      LeadingDigitsOfDigits(ds[1..]);
    }
  }

  /** Reading back a printed integer gives the integer: printing is injective. */
  lemma ParseIntOfDigits(ds: string)
    requires ds != [] && AllDigits(ds)
    ensures ParseInt(ds) == Some(DigitsValue(ds) as int)
  {
    ParseDigitsOfDigits(ds);
    TrimStartOfNonSpace(ds);
  }

  lemma ParseIntOfNegatedDigits(ds: string)
    requires ds != [] && AllDigits(ds)
    ensures ParseInt("-" + ds) == Some(-(DigitsValue(ds) as int))
  {
    NegatedDigitsShape(ds);
    ParseDigitsOfDigits(ds);
    ParseIntOfMinus("-" + ds, DigitsValue(ds));
  }

  lemma NegatedDigitsShape(ds: string)
    ensures ("-" + ds) != [] && ("-" + ds)[0] == '-' && ("-" + ds)[1..] == ds
    ensures TrimStart("-" + ds) == "-" + ds
  {
    assert ("-" + ds)[1..] == ds;
  }

  lemma ParseIntOfMinus(t: string, v: nat)
    requires TrimStart(t) == t && t != [] && t[0] == '-' && ParseDigits(t[1..]) == Some(v)
    ensures ParseInt(t) == Some(-(v as int))
  {
  }

  lemma ParseDigitsOfDigits(ds: string)
    requires ds != [] && AllDigits(ds)
    ensures ParseDigits(ds) == Some(DigitsValue(ds))
  {
    LeadingDigitsOfDigits(ds);
  }

  lemma TrimStartOfNonSpace(s: string)
    requires s != [] && (s[0] == '-' || IsDigit(s[0]))
    ensures TrimStart(s) == s
  {
  }

  /** Reading back a printed integer gives the integer: printing is injective. */
  lemma ParseIntOfIntToString(n: int)
    ensures ParseInt(IntToString(n)) == Some(n)
  {
    var m: nat := if n < 0 then -n else n;
    DigitsValueOfNatToString(m);
    if n < 0 {
      ParseIntOfNegatedDigits(NatToString(m));
    } else {
      ParseIntOfDigits(NatToString(m));
    }
  }

  // ---------------------------------------------------------------------------
  // de-duplication in first-occurrence order

  predicate NoDuplicates<T(==)>(xs: seq<T>) {
    forall i, j :: 0 <= i < j < |xs| ==> xs[i] != xs[j]
  }

  /** The index of the first occurrence of `x` in `xs`. */
  function FirstIndex<T(==)>(xs: seq<T>, x: T): (i: nat)
    requires x in xs
    ensures i < |xs| && xs[i] == x
    ensures forall k :: 0 <= k < i ==> xs[k] != x
  {
    if xs[0] == x then 0 else 1 + FirstIndex(xs[1..], x)
  }

  /** `[...new Set(xs)]`: a Set keeps insertion order, so each value stays where it first occurs. */
  function Dedup<T(==)>(xs: seq<T>): (r: seq<T>)
    ensures NoDuplicates(r)
    ensures forall i :: 0 <= i < |r| ==> r[i] in xs
    ensures forall i :: 0 <= i < |xs| ==> xs[i] in r
    ensures |r| <= |xs|
  {
    if xs == [] then []
    else
      var d := Dedup(xs[..|xs| - 1]);
      var x := xs[|xs| - 1];
      assert forall i :: 0 <= i < |xs| - 1 ==> xs[i] == xs[..|xs| - 1][i];
      if x in d then d else d + [x]
  }

  lemma DedupSingleton<T>(x: T)
    ensures Dedup([x]) == [x]
  {
    assert [x][..0] == [];
  }

  lemma FirstIndexInPrefix<T>(xs: seq<T>, n: nat, x: T)
    requires n <= |xs| && x in xs[..n]
    ensures FirstIndex(xs, x) == FirstIndex(xs[..n], x)
  {
    var i := FirstIndex(xs[..n], x);
    assert forall k :: 0 <= k < n ==> xs[..n][k] == xs[k];
    assert xs[i] == x;
  }

  /** `Dedup` keeps exactly the values of its input. */
  lemma DedupSameElements<T>(xs: seq<T>)
    ensures forall x :: x in Dedup(xs) <==> x in xs
  {
    var r := Dedup(xs);
    forall x | x in xs
      ensures x in r
    {
      var i :| 0 <= i < |xs| && xs[i] == x;
    }
  }

  /** The values of `r`, all of which occur in `xs`, appear in the order of their first occurrences in `xs`. */
  predicate InFirstOccurrenceOrder<T(==)>(xs: seq<T>, r: seq<T>)
    requires forall i :: 0 <= i < |r| ==> r[i] in xs
  {
    forall i, j :: 0 <= i < j < |r| ==> FirstIndex(xs, r[i]) < FirstIndex(xs, r[j])
  }

  /** The values of `Dedup(xs)` appear in the order of their first occurrences in `xs`. */
  lemma {:induction false} DedupKeepsFirstOccurrenceOrder<T>(xs: seq<T>)
    ensures InFirstOccurrenceOrder(xs, Dedup(xs))
    decreases |xs|
  {
    if xs != [] {
      DedupKeepsFirstOccurrenceOrder(xs[..|xs| - 1]);
      DedupOrderStep(xs);
    }
  }

  lemma DedupOrderStep<T>(xs: seq<T>)
    requires xs != [] && InFirstOccurrenceOrder(xs[..|xs| - 1], Dedup(xs[..|xs| - 1]))
    ensures InFirstOccurrenceOrder(xs, Dedup(xs))
  {
    var p := xs[..|xs| - 1];
    var d := Dedup(p);
    var x := xs[|xs| - 1];
    DedupSnoc(xs);
    assert xs[..|p|] == p;
    forall i | 0 <= i < |d|
      ensures d[i] in xs && FirstIndex(xs, d[i]) == FirstIndex(p, d[i]) < |p|
    {
      FirstIndexInPrefix(xs, |p|, d[i]);
    }
    OrderInLongerSequence(xs, p, d);
    if x !in d {
      assert x !in p;
      assert FirstIndex(xs, x) == |p|;
      OrderAppend(xs, d, x);
    }
  }

  /** The last step of `Dedup`: the last value is appended unless it occurred before. */
  lemma DedupSnoc<T>(xs: seq<T>)
    requires xs != []
    ensures var p := xs[..|xs| - 1];
      Dedup(xs) == if xs[|xs| - 1] in p then Dedup(p) else Dedup(p) + [xs[|xs| - 1]]
  {
  }

  lemma OrderInLongerSequence<T>(xs: seq<T>, p: seq<T>, d: seq<T>)
    requires forall i :: 0 <= i < |d| ==> d[i] in p && d[i] in xs && FirstIndex(xs, d[i]) == FirstIndex(p, d[i])
    requires InFirstOccurrenceOrder(p, d)
    ensures InFirstOccurrenceOrder(xs, d)
  {
  }

  lemma OrderAppend<T>(xs: seq<T>, d: seq<T>, x: T)
    requires x in xs && forall i :: 0 <= i < |d| ==> d[i] in xs
    requires InFirstOccurrenceOrder(xs, d)
    requires forall i :: 0 <= i < |d| ==> FirstIndex(xs, d[i]) < FirstIndex(xs, x)
    ensures InFirstOccurrenceOrder(xs, d + [x])
  {
    var r := d + [x];
    forall i, j | 0 <= i < j < |r|
      ensures FirstIndex(xs, r[i]) < FirstIndex(xs, r[j])
    {
      assert r[i] == d[i];
      if j < |d| {
        assert r[j] == d[j];
      }
    }
  }
}
