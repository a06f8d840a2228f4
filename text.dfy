/** The few Python string operations the translator relies on, written out
    over `seq<char>`: `strip`, `find`, `split`/`join`, `readlines`,
    `splitlines` (on '\n'), single-character substitution, code-point order
    and decimal digits. */
module Text {
  import opened Wrappers

  /** The characters for which Python's `str.isspace()` holds, which are the
      ones `str.strip()` removes. */
  predicate IsSpace(c: char) {
    || ('\t' <= c <= '\r')
    || ('\U{1C}' <= c <= '\U{1F}')
    || c == ' ' || c == '\U{85}' || c == '\U{A0}' || c == '\U{1680}'
    || ('\U{2000}' <= c <= '\U{200A}')
    || c == '\U{2028}' || c == '\U{2029}' || c == '\U{202F}' || c == '\U{205F}'
    || c == '\U{3000}'
  }

  /** True when `s` starts and ends with a non-space character. */
  predicate Trimmed(s: string) {
    s != [] && !IsSpace(s[0]) && !IsSpace(s[|s| - 1])
  }

  /** The number of leading space characters. */
  function LeadingSpaces(s: string): (n: nat)
    ensures n <= |s| && (n == |s| || !IsSpace(s[n]))
    ensures s != [] && !IsSpace(s[0]) ==> n == 0
  {
    if s != [] && IsSpace(s[0]) then 1 + LeadingSpaces(s[1..]) else 0
  }

  /** The number of trailing space characters. */
  function TrailingSpaces(s: string): (n: nat)
    ensures n <= |s| && (n == |s| || !IsSpace(s[|s| - 1 - n]))
    ensures s != [] && !IsSpace(s[|s| - 1]) ==> n == 0
    ensures forall k :: |s| - n <= k < |s| ==> IsSpace(s[k])
  {
    if s != [] && IsSpace(s[|s| - 1]) then 1 + TrailingSpaces(s[..|s| - 1]) else 0
  }

  /** Python's `str.strip()`: the result is empty or starts and ends with a
      non-space, it is a piece of `s`, and a trimmed string is its own strip. */
  function Trim(s: string): (r: string)
    ensures r == [] || Trimmed(r)
    ensures forall c :: c in r ==> c in s
    ensures Trimmed(s) ==> r == s
  {
    var a := LeadingSpaces(s);
    var b := if a == |s| then 0 else TrailingSpaces(s);
    assert a < |s| ==> b < |s| - a by {
      if a < |s| && b >= |s| - a { assert false; }
    }
    if a == |s| then [] else s[a..|s| - b]
  }

  lemma TrimIdempotent(s: string)
    ensures Trim(Trim(s)) == Trim(s)
  {
  }

  /** Stripping a line read from a file removes exactly its terminator when
      the text before it starts and ends with a non-space. */
  lemma TrimLine(s: string)
    requires Trimmed(s)
    ensures Trim(s + "\n") == s
  {
    var line := s + "\n";
    assert LeadingSpaces(line) == 0;
    assert line[..|line| - 1] == s;
    assert TrailingSpaces(line) == 1;
  }

  predicate OccursAt(s: string, t: string, i: nat) {
    i + |t| <= |s| && s[i..i + |t|] == t
  }

  /** The leftmost occurrence of `t` in `s` at or after `i`. */
  function FindFrom(s: string, t: string, i: nat): (r: Option<nat>)
    requires i <= |s|
    ensures r.Some? ==> i <= r.value && OccursAt(s, t, r.value)
    ensures r.Some? ==> forall k :: i <= k < r.value ==> !OccursAt(s, t, k)
    ensures r.None? ==> forall k :: i <= k <= |s| ==> !OccursAt(s, t, k)
    decreases |s| - i
  {
    if OccursAt(s, t, i) then Some(i)
    else if i == |s| then None
    else FindFrom(s, t, i + 1)
  }

  /** Python's `str.find`, with `None` for its result -1. */
  function Find(s: string, t: string): (r: Option<nat>)
    ensures r.Some? ==> OccursAt(s, t, r.value) && forall k :: 0 <= k < r.value ==> !OccursAt(s, t, k)
    ensures r.None? ==> forall k :: 0 <= k <= |s| ==> !OccursAt(s, t, k)
  {
    FindFrom(s, t, 0)
  }

  /** `t in s` for strings. */
  predicate Contains(s: string, t: string) {
    Find(s, t).Some?
  }

  lemma ContainsAt(s: string, t: string, i: nat)
    requires OccursAt(s, t, i)
    ensures Contains(s, t)
  {
  }

  /** Where a string occurs, so does each of its prefixes. */
  lemma ContainsPrefix(s: string, t: string, u: string)
    requires Contains(s, t) && u <= t
    ensures Contains(s, u)
  {
    var i := Find(s, t).value;
    assert s[i..i + |u|] == s[i..i + |t|][..|u|];
    ContainsAt(s, u, i);
  }

  /** A one-character pattern occurs exactly where the character does. */
  lemma ContainsChar(s: string, c: char)
    ensures Contains(s, [c]) <==> c in s
  {
    if c in s {
      var k :| 0 <= k < |s| && s[k] == c;
      assert s[k..k + 1] == [c];
      ContainsAt(s, [c], k);
    }
    if Contains(s, [c]) {
      var k := Find(s, [c]).value;
      assert s[k..k + 1] == [c];
      assert s[k] == c;
    }
  }

  /** A piece that lies entirely before the first occurrence has none. */
  lemma NoOccurrenceInPrefix(s: string, t: string, i: nat)
    requires i <= |s|
    requires forall k :: 0 <= k < i ==> !OccursAt(s, t, k)
    ensures Find(s[..i], t).None? || (t == [] && i == 0)
  {
    var p := s[..i];
    if Find(p, t).Some? {
      var k := Find(p, t).value;
      assert p[k..k + |t|] == s[k..k + |t|];
      assert OccursAt(s, t, k);
      assert k >= i;
    }
  }

  function Join(xs: seq<string>, sep: string): string {
    if |xs| == 0 then ""
    else if |xs| == 1 then xs[0]
    else xs[0] + sep + Join(xs[1..], sep)
  }

  /** Joining one more element puts the separator before it. */
  lemma {:induction false} JoinSnoc(xs: seq<string>, y: string, sep: string)
    requires xs != []
    ensures Join(xs + [y], sep) == Join(xs, sep) + sep + y
    decreases |xs|
  {
    if |xs| == 1 {
      assert (xs + [y])[1..] == [y];
    } else {
      assert (xs + [y])[1..] == xs[1..] + [y];
      JoinSnoc(xs[1..], y, sep);
      AppendAssoc(xs[0] + sep, Join(xs[1..], sep), sep + y);
      AppendAssoc(xs[0] + sep + Join(xs[1..], sep), sep, y);
    }
  }

  /** Python's `str.split(sep)` for a non-empty separator: the pieces between
      the non-overlapping occurrences found from the left. No piece holds the
      separator and joining them back gives `s`. */
  function Split(s: string, sep: string): (r: seq<string>)
    requires sep != []
    ensures |r| >= 1
    ensures forall k :: 0 <= k < |r| ==> Find(r[k], sep).None?
    ensures Join(r, sep) == s
    decreases |s|
  {
    match Find(s, sep)
    case None => [s]
    case Some(i) =>
      NoOccurrenceInPrefix(s, sep, i);
      var rest := Split(s[i + |sep|..], sep);
      assert s == s[..i] + sep + s[i + |sep|..];
      [s[..i]] + rest
  }

  /** The first piece is the text before the first separator, or all of it. */
  lemma SplitHead(s: string, sep: string)
    requires sep != []
    ensures var h := Split(s, sep)[0]; |h| <= |s| && h == s[..|h|] && (|h| < |s| ==> OccursAt(s, sep, |h|))
  {
    match Find(s, sep)
    case None =>
    case Some(i) => assert Split(s, sep)[0] == s[..i];
  }

  /** Splitting a joined list gives the list back when the separator holds an
      ASCII space that no element holds (the rendered skill and title lists). */
  lemma {:induction false} SplitJoin(xs: seq<string>, sep: string)
    requires xs != [] && ' ' in sep
    requires forall k :: 0 <= k < |xs| ==> ' ' !in xs[k]
    ensures Split(Join(xs, sep), sep) == xs
  {
    if |xs| == 1 {
      NoSpaceNoSep(xs[0], sep);
    } else {
      var rest := Join(xs[1..], sep);
      SplitJoin(xs[1..], sep);
      var s := xs[0] + sep + rest;
      FirstSeparator(xs[0], sep, rest);
      assert s[..|xs[0]|] == xs[0];
      assert s[|xs[0]| + |sep|..] == rest;
    }
  }

  lemma NoSpaceNoSep(x: string, sep: string)
    requires ' ' in sep && ' ' !in x
    ensures Find(x, sep).None?
  {
  }

  /** In `x + sep + rest`, with a space in `sep` and none in `x`, the first
      occurrence of `sep` is the one right after `x`. */
  lemma FirstSeparator(x: string, sep: string, rest: string)
    requires ' ' in sep && ' ' !in x
    ensures Find(x + sep + rest, sep) == Some(|x|)
  {
    var s := x + sep + rest;
    assert s[|x|..|x| + |sep|] == sep;
    assert OccursAt(s, sep, |x|);
    var q := FirstIndex(sep, ' ');
    forall k | 0 <= k < |x| ensures !OccursAt(s, sep, k) {
      if k + q < |x| {
        assert s[k + q] == x[k + q];
      } else {
        assert s[k + q] == sep[k + q - |x|];
      }
      assert s[k + q] != sep[q];
      assert k + |sep| <= |s| ==> s[k..k + |sep|][q] == s[k + q];
    }
  }

  function FirstIndex(s: string, c: char): (q: nat)
    requires c in s
    ensures q < |s| && s[q] == c && forall k :: 0 <= k < q ==> s[k] != c
  {
    if s[0] == c then 0 else 1 + FirstIndex(s[1..], c)
  }

  /** Split at a one-character separator: the text before its first
      occurrence, then the split of the rest. */
  lemma SplitAtChar(a: string, b: string, c: char)
    requires c !in a
    ensures Split(a + [c] + b, [c]) == [a] + Split(b, [c])
  {
    var s := a + [c] + b;
    assert s[|a|..|a| + 1] == [c];
    assert OccursAt(s, [c], |a|);
    forall k | 0 <= k < |a| ensures !OccursAt(s, [c], k) {
      assert s[k..k + 1][0] == s[k] == a[k];
    }
    var f := Find(s, [c]);
    assert f.Some?;
    assert f.value == |a|;
    assert s[..|a|] == a && s[|a| + 1..] == b;
  }

  /** Text without the separator character is one piece. */
  lemma SplitWithoutChar(l: string, c: char)
    requires c !in l
    ensures Split(l, [c]) == [l]
  {
    ContainsChar(l, c);
  }

  /** The non-empty elements, in order (`[x for x in xs if len(x)]`). */
  function NonEmpty(xs: seq<string>): (r: seq<string>)
    ensures forall k :: 0 <= k < |r| ==> r[k] != []
    ensures forall x :: x in r <==> x in xs && x != []
  {
    if xs == [] then []
    else if xs[0] == [] then NonEmpty(xs[1..])
    else [xs[0]] + NonEmpty(xs[1..])
  }

  /** Filtering distributes over concatenation, so the kept elements keep
      their order. */
  lemma {:induction false} NonEmptyAppend(xs: seq<string>, ys: seq<string>)
    ensures NonEmpty(xs + ys) == NonEmpty(xs) + NonEmpty(ys)
    decreases |xs|
  {
    if xs == [] {
      assert xs + ys == ys;
    } else {
      assert (xs + ys)[1..] == xs[1..] + ys;
      NonEmptyAppend(xs[1..], ys);
    }
  }

  function Concat(xs: seq<string>): string {
    if xs == [] then "" else xs[0] + Concat(xs[1..])
  }

  lemma {:induction false} ConcatAppend(xs: seq<string>, ys: seq<string>)
    ensures Concat(xs + ys) == Concat(xs) + Concat(ys)
  {
    if xs != [] {
      assert (xs + ys)[1..] == xs[1..] + ys;
      ConcatAppend(xs[1..], ys);
    } else {
      assert xs + ys == ys;
    }
  }

  /** A line as `readlines` returns it: one '\n', at its end. */
  predicate IsLine(l: string) {
    l != [] && l[|l| - 1] == '\n' && '\n' !in l[..|l| - 1]
  }

  /** Python's `readlines()` on text whose only line break is '\n': each line
      keeps its terminator, and the lines put together give the text back. */
  function ReadLines(s: string): (r: seq<string>)
    ensures Concat(r) == s
    decreases |s|
  {
    if s == [] then []
    else match Find(s, "\n")
      case None => [s]
      case Some(i) =>
        assert s == s[..i + 1] + s[i + 1..];
        [s[..i + 1]] + ReadLines(s[i + 1..])
  }

  /** Reading back text made of whole lines gives exactly those lines. */
  lemma {:induction false} ReadLinesConcat(ls: seq<string>)
    requires forall k :: 0 <= k < |ls| ==> IsLine(ls[k])
    ensures ReadLines(Concat(ls)) == ls
  {
    if ls != [] {
      var l, rest := ls[0], Concat(ls[1..]);
      var s := l + rest;
      forall k | 0 <= k < |l| - 1 ensures !OccursAt(s, "\n", k) {
        assert s[k..k + 1] == [l[k]];
        assert l[k] in l[..|l| - 1];
      }
      assert OccursAt(s, "\n", |l| - 1) by { assert s[|l| - 1..|l|] == [l[|l| - 1]]; }
      assert Find(s, "\n") == Some(|l| - 1);
      assert s[..|l|] == l && s[|l|..] == rest;
      ReadLinesConcat(ls[1..]);
    }
  }

  /** Python's `str.splitlines()` with '\n' as the only separator: no
      trailing empty line, nothing at all for the empty string. */
  function SplitLines(s: string): (r: seq<string>)
    ensures s == [] <==> r == []
    ensures forall k :: 0 <= k < |r| ==> '\n' !in r[k]
    ensures s != [] ==> Join(r, "\n") + (if s[|s| - 1] == '\n' then "\n" else "") == s
  {
    if s == [] then []
    else
      var parts := Split(s, "\n");
      forall k | 0 <= k < |parts| ensures '\n' !in parts[k] {
        ContainsChar(parts[k], '\n');
      }
      LinesRejoin(s, parts);
      if |parts| > 1 && parts[|parts| - 1] == [] then parts[..|parts| - 1] else parts
  }

  /** Stripped text does not end in a line break, so its lines joined give
      it back exactly. */
  lemma TrimmedLines(s: string)
    requires s == [] || Trimmed(s)
    ensures Join(SplitLines(s), "\n") == s
  {
    if s != [] {
      assert IsSpace('\n');
    }
  }

  /** The lines of `s` joined by line breaks give `s` back, less a final
      line break when it had one. */
  lemma LinesRejoin(s: string, parts: seq<string>)
    requires s != [] && parts != [] && Join(parts, "\n") == s
    requires forall k :: 0 <= k < |parts| ==> '\n' !in parts[k]
    ensures var r := if |parts| > 1 && parts[|parts| - 1] == [] then parts[..|parts| - 1] else parts;
      Join(r, "\n") + (if s[|s| - 1] == '\n' then "\n" else "") == s
  {
    var n := |parts|;
    var init, last := parts[..n - 1], parts[n - 1];
    if n > 1 {
      assert parts == init + [last];
      JoinSnoc(init, last, "\n");
      if last != [] {
        assert s[|s| - 1] == last[|last| - 1];
        assert last[|last| - 1] in last;
      }
    } else {
      assert s[|s| - 1] in parts[0];
    }
  }

  /** Every occurrence of `a` replaced by `b` (`re.sub` of one character). */
  function ReplaceChar(s: string, a: char, b: char): (r: string)
    ensures |r| == |s|
    ensures forall k :: 0 <= k < |s| ==> r[k] == (if s[k] == a then b else s[k])
  {
    if s == [] then [] else (if s[0] == a then [b] else [s[0]]) + ReplaceChar(s[1..], a, b)
  }

  /** Every occurrence of `c` removed (`re.sub(c, '', s)`). */
  function RemoveChar(s: string, c: char): (r: string)
    ensures c !in r
    ensures forall x :: x in r <==> x in s && x != c
  {
    if s == [] then [] else (if s[0] == c then [] else [s[0]]) + RemoveChar(s[1..], c)
  }

  lemma {:induction false} RemoveCharAppend(a: string, b: string, c: char)
    ensures RemoveChar(a + b, c) == RemoveChar(a, c) + RemoveChar(b, c)
  {
    if a != [] {
      assert (a + b)[0] == a[0] && (a + b)[1..] == a[1..] + b;
      RemoveCharAppend(a[1..], b, c);
    } else {
      assert a + b == b;
    }
  }

  lemma {:induction false} RemoveAbsentChar(s: string, c: char)
    requires c !in s
    ensures RemoveChar(s, c) == s
  {
    if s != [] {
      assert s[0] != c;
      RemoveAbsentChar(s[1..], c);
    }
  }

  /** Code-point lexicographic order, as Python compares `str` values. */
  predicate Less(a: string, b: string) {
    if a == [] then b != []
    else if b == [] then false
    else if a[0] != b[0] then a[0] < b[0]
    else Less(a[1..], b[1..])
  }

  lemma {:induction false} LessIrreflexive(a: string)
    ensures !Less(a, a)
  {
    if a != [] { LessIrreflexive(a[1..]); }
  }

  lemma {:induction false} LessTransitive(a: string, b: string, c: string)
    requires Less(a, b) && Less(b, c)
    ensures Less(a, c)
  {
    if a != [] && b != [] && c != [] && a[0] == b[0] == c[0] {
      LessTransitive(a[1..], b[1..], c[1..]);
    }
  }

  lemma {:induction false} LessTotal(a: string, b: string)
    ensures a == b || Less(a, b) || Less(b, a)
  {
    if a != [] && b != [] && a[0] == b[0] {
      LessTotal(a[1..], b[1..]);
      if a[1..] == b[1..] { assert a == [a[0]] + a[1..]; assert b == [b[0]] + b[1..]; }
    }
  }

  lemma {:induction false} LessAsymmetric(a: string, b: string)
    requires Less(a, b)
    ensures !Less(b, a)
  {
    if a != [] && b != [] && a[0] == b[0] {
      LessAsymmetric(a[1..], b[1..]);
    }
  }

  predicate IsDigit(c: char) {
    '0' <= c <= '9'
  }

  predicate AllDigits(s: string) {
    forall k :: 0 <= k < |s| ==> IsDigit(s[k])
  }

  /** Python's `int()` of a string of ASCII digits. */
  function DigitsValue(s: string): nat
    requires AllDigits(s)
  {
    if s == [] then 0 else DigitsValue(s[..|s| - 1]) * 10 + (s[|s| - 1] as int - '0' as int)
  }

  function DigitChar(d: nat): (c: char)
    requires d < 10
    ensures IsDigit(c) && c as int - '0' as int == d
  {
    ('0' as int + d) as char
  }

  /** Python's `'%d' % n` for a non-negative `n`: decimal digits, no leading
      zero, read back by `int()` as `n`. */
  function NatStr(n: nat): (r: string)
    ensures r != [] && AllDigits(r) && DigitsValue(r) == n
    ensures |r| > 1 ==> r[0] != '0'
  {
    if n < 10 then [DigitChar(n)]
    else
      var r := NatStr(n / 10) + [DigitChar(n % 10)];
      assert r[..|r| - 1] == NatStr(n / 10);
      r
  }

  /** The first index at or after `i` that does not hold a digit. */
  function DigitRunEnd(s: string, i: nat): (j: nat)
    requires i <= |s|
    ensures i <= j <= |s|
    ensures forall k :: i <= k < j ==> IsDigit(s[k])
    ensures j == |s| || !IsDigit(s[j])
    decreases |s| - i
  {
    if i < |s| && IsDigit(s[i]) then DigitRunEnd(s, i + 1) else i
  }

  // Prefixes of a sequence, for the loops that build one element at a time.

  lemma AppendAssoc<T>(a: seq<T>, b: seq<T>, c: seq<T>)
    ensures a + b + c == a + (b + c)
  {
  }

  lemma TakeAll<T>(s: seq<T>)
    ensures s[..|s|] == s
  {
  }

  lemma TakeSnoc<T>(s: seq<T>, i: nat, prefix: seq<T>, x: T)
    requires i < |s| && prefix == s[..i] && x == s[i]
    ensures prefix + [x] == s[..i + 1]
  {
    assert s[..i + 1] == s[..i] + [s[i]];
  }
}
