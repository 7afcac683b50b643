/**
 * The parts of JavaScript's String behaviour the controllers rely on:
 * trim, ASCII lower-casing, split on a set of separator characters, join,
 * substring search, parseInt and integer printing.
 */
module Strings {
  import opened Wrappers

  /** `String.prototype.trim` strips the WhiteSpace and LineTerminator code points of ECMA-262. */
  predicate IsSpace(c: char) {
    c == ' ' || c == '\t' || c == '\n' || c == '\r' || c == '\U{000B}' || c == '\U{000C}'
    || c == '\U{00A0}' || c == '\U{1680}' || ('\U{2000}' <= c <= '\U{200A}')
    || c == '\U{2028}' || c == '\U{2029}' || c == '\U{202F}' || c == '\U{205F}'
    || c == '\U{3000}' || c == '\U{FEFF}'
  }

  predicate AllSpace(s: string) {
    forall i :: 0 <= i < |s| ==> IsSpace(s[i])
  }

  lemma AllSpaceCons(c: char, a: string)
    requires IsSpace(c) && AllSpace(a)
    ensures AllSpace([c] + a)
  {
    assert forall i :: 1 <= i < |[c] + a| ==> ([c] + a)[i] == a[i - 1];
  }

  lemma AllSpaceSnoc(a: string, c: char)
    requires AllSpace(a) && IsSpace(c)
    ensures AllSpace(a + [c])
  {
    assert forall i :: 0 <= i < |a| ==> (a + [c])[i] == a[i];
  }

  function TrimStart(s: string): (r: string)
    ensures |r| <= |s| && r == s[|s| - |r|..]
    ensures r == [] || !IsSpace(r[0])
    ensures AllSpace(s[..|s| - |r|])
  {
    if s != [] && IsSpace(s[0]) then
      var r := TrimStart(s[1..]);
      assert s[..|s| - |r|] == [s[0]] + s[1..][..|s[1..]| - |r|];
      AllSpaceCons(s[0], s[1..][..|s[1..]| - |r|]);
      r
    else s
  }

  function TrimEnd(s: string): (r: string)
    ensures |r| <= |s| && r == s[..|r|]
    ensures r == [] || !IsSpace(r[|r| - 1])
    ensures AllSpace(s[|r|..])
  {
    if s != [] && IsSpace(s[|s| - 1]) then
      var r := TrimEnd(s[..|s| - 1]);
      assert s[|r|..] == s[..|s| - 1][|r|..] + [s[|s| - 1]];
      AllSpaceSnoc(s[..|s| - 1][|r|..], s[|s| - 1]);
      r
    else s
  }

  /** `s.trim()`: the longest infix of `s` that neither starts nor ends with white space. */
  function Trim(s: string): (r: string)
    ensures |r| <= |s|
    ensures r == [] || (!IsSpace(r[0]) && !IsSpace(r[|r| - 1]))
    ensures r == [] <==> AllSpace(s)
  {
    var t := TrimStart(s);
    var r := TrimEnd(t);
    assert r == [] ==> AllSpace(s) by {
      if r == [] {
        assert s[..|s|] == s;
      }
    }
    r
  }

  lemma TrimmedIsFixed(s: string)
    requires s == [] || (!IsSpace(s[0]) && !IsSpace(s[|s| - 1]))
    ensures Trim(s) == s
  {
  }

  /** Trimming twice is trimming once. */
  lemma TrimIdempotent(s: string)
    ensures Trim(Trim(s)) == Trim(s)
  {
    TrimmedIsFixed(Trim(s));
  }

  /** White space around a word is exactly what trimming removes. */
  lemma TrimPadded(pre: string, w: string, post: string)
    requires AllSpace(pre) && AllSpace(post)
    requires w != [] && !IsSpace(w[0]) && !IsSpace(w[|w| - 1])
    ensures Trim(pre + w + post) == w
  {
    assert pre + w + post == pre + (w + post);
    TrimStartPadded(pre, w + post);
    TrimEndPadded(w, post);
  }

  lemma {:induction false} TrimStartPadded(pre: string, s: string)
    requires AllSpace(pre) && s != [] && !IsSpace(s[0])
    ensures TrimStart(pre + s) == s
  {
    if pre != [] {
      assert (pre + s)[1..] == pre[1..] + s;
      TrimStartPadded(pre[1..], s);
    } else {
      assert pre + s == s;
    }
  }

  lemma {:induction false} TrimEndPadded(s: string, post: string)
    requires AllSpace(post) && s != [] && !IsSpace(s[|s| - 1])
    ensures TrimEnd(s + post) == s
  {
    if post != [] {
      assert (s + post)[..|s + post| - 1] == s + post[..|post| - 1];
      TrimEndPadded(s, post[..|post| - 1]);
    } else {
      assert s + post == s;
    }
  }

  /** ASCII part of `toLowerCase`. */
  function Lower(c: char): char {
    if 'A' <= c <= 'Z' then (c as int + 32) as char else c
  }

  function ToLower(s: string): (r: string)
    ensures |r| == |s| && forall i :: 0 <= i < |s| ==> r[i] == Lower(s[i])
  {
    if s == [] then [] else [Lower(s[0])] + ToLower(s[1..])
  }


  lemma ToLowerConcat(a: string, b: string)
    ensures ToLower(a + b) == ToLower(a) + ToLower(b)
  {
    assert forall i :: 0 <= i < |a + b| ==> ToLower(a + b)[i] == (ToLower(a) + ToLower(b))[i];
  }

  /** Lower-casing leaves white space alone. */
  lemma ToLowerOfSpace(p: string)
    requires AllSpace(p)
    ensures ToLower(p) == p
  {
    assert forall i :: 0 <= i < |p| ==> ToLower(p)[i] == p[i];
  }

  predicate StartsWith(s: string, prefix: string) {
    |prefix| <= |s| && s[..|prefix|] == prefix
  }

  /** `s.includes(t)`, Prisma's `contains`. */
  predicate Contains(s: string, t: string) {
    exists i :: 0 <= i <= |s| - |t| && OccursAt(s, t, i)
  }

  predicate OccursAt(s: string, t: string, i: int) {
    0 <= i <= |s| - |t| && s[i..i + |t|] == t
  }

  /**
   * `s.split(sep)` for a single separator character, or for a regular
   * expression that is one character class: the pieces between separators,
   * empty pieces included.
   */
  function Split(s: string, seps: seq<char>): (r: seq<string>)
    ensures |r| >= 1
  {
    if s == [] then [""]
    else
      var rest := Split(s[1..], seps);
      if s[0] in seps then [""] + rest else [[s[0]] + rest[0]] + rest[1..]
  }

  /** No piece of a split holds a separator. */
  lemma {:induction false} SplitPiecesHaveNoSeparator(s: string, seps: seq<char>)
    ensures forall i, j :: 0 <= i < |Split(s, seps)| && 0 <= j < |Split(s, seps)[i]| ==> Split(s, seps)[i][j] !in seps
  {
    if s != [] {
      SplitPiecesHaveNoSeparator(s[1..], seps);
    }
  }

  /** A string without the separator splits into itself. */
  lemma {:induction false} SplitWithoutSeparator(s: string, c: char)
    requires c !in s
    ensures Split(s, [c]) == [s]
  {
    if s != [] {
      assert c !in s[1..] by { assert forall i :: 0 <= i < |s[1..]| ==> s[1..][i] == s[i + 1]; }
      SplitWithoutSeparator(s[1..], c);
      assert s == [s[0]] + s[1..];
    }
  }

  /** A string holding none of the separators splits into itself. */
  lemma {:induction false} SplitWithoutSeparators(s: string, seps: seq<char>)
    requires forall i :: 0 <= i < |s| ==> s[i] !in seps
    ensures Split(s, seps) == [s]
  {
    if s != [] {
      SplitWithoutSeparators(s[1..], seps);
      assert s == [s[0]] + s[1..];
    }
  }

  /** Splitting at a separator between two parts splits each part. */
  lemma {:induction false} SplitAround(a: string, b: string, c: char)
    ensures Split(a + [c] + b, [c]) == Split(a, [c]) + Split(b, [c])
  {
    if a == [] {
      assert a + [c] + b == [c] + b;
      assert ([c] + b)[1..] == b;
    } else {
      SplitAround(a[1..], b, c);
      if a[0] == c { SplitAroundSeparator(a, b, c); } else { SplitAroundChar(a, b, c); }
    }
  }

  lemma SplitAroundSeparator(a: string, b: string, c: char)
    requires a != [] && a[0] == c
    requires Split(a[1..] + [c] + b, [c]) == Split(a[1..], [c]) + Split(b, [c])
    ensures Split(a + [c] + b, [c]) == Split(a, [c]) + Split(b, [c])
  {
    var t := a[1..] + [c] + b;
    assert a + [c] + b == [c] + t;
    SplitConsSeparator(t, c);
    assert a == [c] + a[1..];
    SplitConsSeparator(a[1..], c);
    ConsAssociates("", Split(a[1..], [c]), Split(b, [c]));
  }

  lemma ConsAssociates<T>(x: T, p: seq<T>, q: seq<T>)
    ensures [x] + (p + q) == [x] + p + q
  {
  }

  /** A separator in front of a text starts an empty piece. */
  lemma SplitConsSeparator(t: string, c: char)
    ensures Split([c] + t, [c]) == [""] + Split(t, [c])
  {
    assert ([c] + t)[1..] == t;
  }

  lemma SplitAroundChar(a: string, b: string, c: char)
    requires a != [] && a[0] != c
    requires Split(a[1..] + [c] + b, [c]) == Split(a[1..], [c]) + Split(b, [c])
    ensures Split(a + [c] + b, [c]) == Split(a, [c]) + Split(b, [c])
  {
    assert a + [c] + b == [a[0]] + (a[1..] + [c] + b);
    SplitCons(a[0], a[1..] + [c] + b, c);
    assert a == [a[0]] + a[1..];
    SplitCons(a[0], a[1..], c);
    PrependDistributes(a[0], Split(a[1..], [c]), Split(b, [c]));
  }

  /** A character other than the separator in front of a text joins the text's first piece. */
  lemma SplitCons(x: char, t: string, c: char)
    requires x != c
    ensures Split([x] + t, [c]) == [[x] + Split(t, [c])[0]] + Split(t, [c])[1..]
  {
    assert ([x] + t)[1..] == t;
    assert x !in [c];
  }

  lemma PrependDistributes(x: char, pa: seq<string>, pb: seq<string>)
    requires |pa| >= 1
    ensures [[x] + (pa + pb)[0]] + (pa + pb)[1..] == [[x] + pa[0]] + pa[1..] + pb
  {
    assert (pa + pb)[0] == pa[0];
    assert (pa + pb)[1..] == pa[1..] + pb;
  }

  /** The first piece of a split is the text before the first separator. */
  lemma {:induction false} FirstPieceIsPrefix(s: string, c: char, notC: char -> bool)
    requires forall x :: notC(x) <==> x != c
    ensures Split(s, [c])[0] == LongestPrefix(s, notC)
  {
    if s != [] {
      FirstPieceIsPrefix(s[1..], c, notC);
    }
  }

  /** `parts.join(sep)`. */
  function Join(parts: seq<string>, sep: string): string {
    if parts == [] then ""
    else if |parts| == 1 then parts[0]
    else parts[0] + sep + Join(parts[1..], sep)
  }

  /** Splitting on one character and joining with it again gives back the string. */
  lemma {:induction false} JoinSplit(s: string, c: char)
    ensures Join(Split(s, [c]), [c]) == s
  {
    if s != [] {
      JoinSplit(s[1..], c);
      if s[0] == c {
        JoinSplitAtSeparator(s, c);
      } else {
        JoinSplitAtChar(s, c);
      }
    }
  }

  lemma JoinSplitAtSeparator(s: string, c: char)
    requires s != [] && s[0] == c
    requires Join(Split(s[1..], [c]), [c]) == s[1..]
    ensures Join(Split(s, [c]), [c]) == s
  {
    var rest := Split(s[1..], [c]);
    assert Split(s, [c]) == [""] + rest;
    assert Join([""] + rest, [c]) == "" + [c] + Join(rest, [c]);
    assert s == [c] + s[1..];
  }

  lemma JoinSplitAtChar(s: string, c: char)
    requires s != [] && s[0] != c
    requires Join(Split(s[1..], [c]), [c]) == s[1..]
    ensures Join(Split(s, [c]), [c]) == s
  {
    assert s == [s[0]] + s[1..];
    SplitCons(s[0], s[1..], c);
    JoinPrepend(s[0], Split(s[1..], [c]), [c]);
  }

  /** Joining after a character joins the first part is joining with that character in front. */
  lemma JoinPrepend(x: char, parts: seq<string>, sep: string)
    requires |parts| >= 1
    ensures Join([[x] + parts[0]] + parts[1..], sep) == [x] + Join(parts, sep)
  {
    var r := [[x] + parts[0]] + parts[1..];
    if |parts| > 1 {
      assert r[1..] == parts[1..];
      assert Join(r, sep) == [x] + parts[0] + sep + Join(parts[1..], sep);
    }
  }

  /** Splitting a join on its separator recovers the parts, when no part contains the separator. */
  lemma {:induction false} SplitJoin(parts: seq<string>, c: char)
    requires parts != []
    requires forall i :: 0 <= i < |parts| ==> c !in parts[i]
    ensures Split(Join(parts, [c]), [c]) == parts
  {
    if |parts| == 1 {
      SplitWithoutSeparator(parts[0], c);
    } else {
      SplitJoin(parts[1..], c);
      assert Join(parts, [c]) == parts[0] + [c] + Join(parts[1..], [c]);
      SplitAround(parts[0], Join(parts[1..], [c]), c);
      SplitWithoutSeparator(parts[0], c);
      assert parts == [parts[0]] + parts[1..];
    }
  }

  /** `arr.filter(Boolean)` on strings: the non-empty ones, in order. */
  function NonEmpty(parts: seq<string>): (r: seq<string>)
    ensures |r| <= |parts|
    ensures forall x :: x in r <==> x in parts && x != ""
  {
    if parts == [] then []
    else if parts[0] == "" then NonEmpty(parts[1..])
    else [parts[0]] + NonEmpty(parts[1..])
  }

  /** `[...new Set(parts)]`: the first occurrence of every element, in order. */
  function Dedup<T(==,!new)>(parts: seq<T>): (r: seq<T>)
    ensures |r| <= |parts|
    ensures forall x :: x in r <==> x in parts
    ensures forall i, j :: 0 <= i < j < |r| ==> r[i] != r[j]
  {
    if parts == [] then []
    else
      var d := Dedup(parts[..|parts| - 1]);
      assert parts == parts[..|parts| - 1] + [parts[|parts| - 1]];
      if parts[|parts| - 1] in d then d else d + [parts[|parts| - 1]]
  }

  /** The position of the first occurrence of `x` in `xs`. */
  function IndexOf<T(==)>(xs: seq<T>, x: T): (k: nat)
    requires x in xs
    ensures k < |xs| && xs[k] == x && forall j :: 0 <= j < k ==> xs[j] != x
  {
    if xs[0] == x then 0 else 1 + IndexOf(xs[1..], x)
  }

  /** Appending an element does not move the first occurrence of an element already present. */
  lemma IndexOfSnoc<T>(xs: seq<T>, x: T, y: T)
    requires y in xs
    ensures IndexOf(xs + [x], y) == IndexOf(xs, y)
  {
    var k := IndexOf(xs, y);
    var k' := IndexOf(xs + [x], y);
    assert (xs + [x])[k] == y;
    assert xs[k'] == y by { assert k' <= k; }
  }

  /**
   * The de-duplicated list keeps the order of first occurrences: with its
   * membership and distinctness this fixes `Dedup(xs)` completely.
   */
  lemma {:induction false} DedupOrder<T(!new)>(xs: seq<T>)
    ensures var r := Dedup(xs);
      forall i, j :: 0 <= i < j < |r| ==> IndexOf(xs, r[i]) < IndexOf(xs, r[j])
  {
    if xs != [] {
      var init := xs[..|xs| - 1];
      var x := xs[|xs| - 1];
      assert xs == init + [x];
      DedupOrder(init);
      DedupSnoc(init, x);
      var d := Dedup(init);
      var r := Dedup(xs);
      forall i, j | 0 <= i < j < |r| ensures IndexOf(xs, r[i]) < IndexOf(xs, r[j]) {
        assert r[i] in d;
        IndexOfSnoc(init, x, r[i]);
        if j < |d| {
          IndexOfSnoc(init, x, r[j]);
        } else {
          assert r[j] == x && x !in init;
          assert IndexOf(xs, x) == |init|;
        }
      }
    }
  }

  /** The first element of a non-empty input leads the de-duplicated list. */
  lemma {:induction false} DedupFirst<T(!new)>(xs: seq<T>)
    requires xs != []
    ensures Dedup(xs) != [] && Dedup(xs)[0] == xs[0]
  {
    if |xs| > 1 {
      var init := xs[..|xs| - 1];
      assert xs == init + [xs[|xs| - 1]];
      DedupFirst(init);
      DedupSnoc(init, xs[|xs| - 1]);
    } else {
      assert xs[..0] == [];
    }
  }

  /** Appending an element to the input appends it to the output unless it was already there. */
  lemma DedupSnoc<T(!new)>(xs: seq<T>, x: T)
    ensures Dedup(xs + [x]) == if x in xs then Dedup(xs) else Dedup(xs) + [x]
  {
    assert (xs + [x])[..|xs + [x]| - 1] == xs;
  }

  predicate IsDigit(c: char) { '0' <= c <= '9' }

  /** Removing a character class from a string: what `s.replace(/\D/g, "")` keeps. */
  function DigitsOnly(s: string): (r: string)
    ensures |r| <= |s|
    ensures forall i :: 0 <= i < |r| ==> IsDigit(r[i])
    ensures forall c :: IsDigit(c) ==> multiset(r)[c] == multiset(s)[c]
  {
    if s == [] then []
    else
      assert s == [s[0]] + s[1..];
      if IsDigit(s[0]) then [s[0]] + DigitsOnly(s[1..]) else DigitsOnly(s[1..])
  }

  /** A string of digits is left as it is. */
  lemma {:induction false} DigitsOnlyOfDigits(s: string)
    requires forall i :: 0 <= i < |s| ==> IsDigit(s[i])
    ensures DigitsOnly(s) == s
  {
    if s != [] {
      DigitsOnlyOfDigits(s[1..]);
    }
  }

  /** `s.replace(/pat/g, "")`: occurrences removed left to right, without rescanning. */
  function RemoveAll(s: string, pat: string): (r: string)
    requires pat != []
    ensures |r| <= |s|
    decreases |s|
  {
    if |s| < |pat| then s
    else if s[..|pat|] == pat then RemoveAll(s[|pat|..], pat)
    else [s[0]] + RemoveAll(s[1..], pat)
  }

  /** An occurrence of the pattern at the front is dropped. */
  lemma RemoveLeading(pat: string, rest: string)
    requires pat != []
    ensures RemoveAll(pat + rest, pat) == RemoveAll(rest, pat)
  {
    assert (pat + rest)[..|pat|] == pat;
    assert (pat + rest)[|pat|..] == rest;
  }

  /** Removing a pattern that does not occur changes nothing. */
  lemma {:induction false} RemoveAbsent(s: string, pat: string)
    requires pat != [] && !Contains(s, pat)
    ensures RemoveAll(s, pat) == s
    decreases |s|
  {
    if |s| >= |pat| {
      assert !OccursAt(s, pat, 0);
      assert !Contains(s[1..], pat) by {
        forall i | 0 <= i <= |s[1..]| - |pat| ensures !OccursAt(s[1..], pat, i) {
          assert !OccursAt(s, pat, i + 1);
          assert s[1..][i..i + |pat|] == s[i + 1..i + 1 + |pat|];
        }
      }
      RemoveAbsent(s[1..], pat);
      assert s == [s[0]] + s[1..];
    }
  }

  /** A prefix in which the pattern's first character never occurs passes the removal unchanged. */
  lemma {:induction false} RemoveKeepsPrefix(x: string, y: string, pat: string)
    requires pat != [] && forall i :: 0 <= i < |x| ==> x[i] != pat[0]
    ensures RemoveAll(x + y, pat) == x + RemoveAll(y, pat)
  {
    if x != [] {
      var s := x + y;
      assert s[1..] == x[1..] + y;
      RemoveKeepsPrefix(x[1..], y, pat);
      if |s| >= |pat| {
        assert s[..|pat|][0] == x[0];
        assert RemoveAll(s, pat) == [s[0]] + RemoveAll(s[1..], pat);
      } else {
        assert RemoveAll(y, pat) == y;
      }
      assert x == [x[0]] + x[1..];
    } else {
      assert x + y == y;
    }
  }

  function DigitValue(c: char): nat requires IsDigit(c) { c as int - '0' as int }

  function DigitChar(d: nat): (c: char)
    requires d < 10
    ensures IsDigit(c) && DigitValue(c) == d
  {
    ('0' as int + d) as char
  }

  /** The decimal digits of a natural number, as `String(n)` prints them. */
  function NatToString(n: nat): (r: string)
    ensures r != [] && forall i :: 0 <= i < |r| ==> IsDigit(r[i])
    ensures |r| > 1 ==> r[0] != '0'
  {
    if n < 10 then [DigitChar(n)] else NatToString(n / 10) + [DigitChar(n % 10)]
  }

  /** `String(n)` for an integer. */
  function IntToString(n: int): string {
    if n < 0 then "-" + NatToString(-n) else NatToString(n)
  }

  /** The value of a string of decimal digits. */
  function DecimalValue(d: string): nat
    requires forall i :: 0 <= i < |d| ==> IsDigit(d[i])
  {
    if d == [] then 0 else 10 * DecimalValue(d[..|d| - 1]) + DigitValue(d[|d| - 1])
  }

  predicate IsHexDigit(c: char) { IsDigit(c) || 'a' <= c <= 'f' || 'A' <= c <= 'F' }

  function HexDigitValue(c: char): nat
    requires IsHexDigit(c)
  {
    if IsDigit(c) then DigitValue(c)
    else if 'a' <= c <= 'f' then c as int - 'a' as int + 10
    else c as int - 'A' as int + 10
  }

  function HexValue(d: string): nat
    requires forall i :: 0 <= i < |d| ==> IsHexDigit(d[i])
  {
    if d == [] then 0 else 16 * HexValue(d[..|d| - 1]) + HexDigitValue(d[|d| - 1])
  }

  /** The longest prefix of `s` all of whose characters satisfy `p`. */
  function LongestPrefix(s: string, p: char -> bool): (r: string)
    ensures |r| <= |s| && r == s[..|r|]
    ensures forall i :: 0 <= i < |r| ==> p(r[i])
    ensures |r| < |s| ==> !p(s[|r|])
  {
    if s == [] || !p(s[0]) then [] else [s[0]] + LongestPrefix(s[1..], p)
  }

  /**
   * `parseInt(s)` without a radix: leading white space, an optional sign,
   * a `0x`/`0X` prefix selecting base 16, then the longest run of digits.
   * `None` stands for NaN (no digit at all).
   */
  function ParseInt(s: string): Option<int> {
    var t := TrimStart(s);
    var body := if t != [] && (t[0] == '-' || t[0] == '+') then t[1..] else t;
    match Magnitude(body)
    case None => None
    case Some(v) => if t != [] && t[0] == '-' then Some(-(v as int)) else Some(v)
  }

  /** The unsigned part: a `0x`/`0X` prefix selects base 16, then the longest run of digits; `None` when there is none. */
  function Magnitude(body: string): Option<nat> {
    if |body| >= 2 && body[0] == '0' && (body[1] == 'x' || body[1] == 'X') then
      var h := LongestPrefix(body[2..], IsHexDigit);
      if h == [] then None else Some(HexValue(h))
    else
      var d := LongestPrefix(body, IsDigit);
      if d == [] then None else Some(DecimalValue(d))
  }

  lemma {:induction false} DecimalOfNatToString(n: nat)
    ensures DecimalValue(NatToString(n)) == n
  {
    if n >= 10 {
      var r := NatToString(n);
      DecimalOfNatToString(n / 10);
      assert r[..|r| - 1] == NatToString(n / 10);
    }
  }

  lemma AllDigitsPrefix(s: string)
    requires forall i :: 0 <= i < |s| ==> IsDigit(s[i])
    ensures LongestPrefix(s, IsDigit) == s
  {
  }

  /** `parseInt(String(n)) === n`: printing an integer and parsing it back is the identity. */
  lemma ParseIntOfIntToString(n: int)
    ensures ParseInt(IntToString(n)) == Some(n)
  {
    var m: nat := if n < 0 then -n else n;
    var digits := NatToString(m);
    DecimalOfNatToString(m);
    MagnitudeOfDigits(digits);
    if n < 0 {
      NegativeParse(digits, m);
    } else {
      NonNegativeParse(digits, m);
    }
  }

  /** Digits without a redundant leading zero are read in base 10. */
  lemma MagnitudeOfDigits(digits: string)
    requires digits != [] && forall i :: 0 <= i < |digits| ==> IsDigit(digits[i])
    requires |digits| > 1 ==> digits[0] != '0'
    ensures Magnitude(digits) == Some(DecimalValue(digits))
  {
    assert !(|digits| >= 2 && digits[0] == '0');
    AllDigitsPrefix(digits);
  }

  /** Text that starts with a digit is read by its magnitude. */
  lemma NonNegativeParse(digits: string, v: nat)
    requires digits != [] && IsDigit(digits[0])
    requires Magnitude(digits) == Some(v)
    ensures ParseInt(digits) == Some(v)
  {
    assert TrimStart(digits) == digits by { assert !IsSpace(digits[0]); }
    UnsignedParse(digits, v);
  }

  /** A minus sign in front of such text negates it. */
  lemma NegativeParse(digits: string, v: nat)
    requires digits != []
    requires Magnitude(digits) == Some(v)
    ensures ParseInt("-" + digits) == Some(-(v as int))
  {
    var s := "-" + digits;
    assert s[0] == '-' && s[1..] == digits;
    assert TrimStart(s) == s by { assert !IsSpace(s[0]); }
    SignedParse(s, v);
  }

  /** Text without leading white space or sign is read by its magnitude. */
  lemma UnsignedParse(s: string, v: nat)
    requires TrimStart(s) == s && s != [] && s[0] != '-' && s[0] != '+'
    requires Magnitude(s) == Some(v)
    ensures ParseInt(s) == Some(v)
  {
  }

  /** Text without leading white space that starts with a minus sign is read as its negated magnitude. */
  lemma SignedParse(s: string, v: nat)
    requires TrimStart(s) == s && s != [] && s[0] == '-'
    requires Magnitude(s[1..]) == Some(v)
    ensures ParseInt(s) == Some(-(v as int))
  {
  }
}
