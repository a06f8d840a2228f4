/** The appraisal extractor (translator.py:49-61, translator.py:121-262):
    normalises the pasted text, then reads the record off its lines. The
    pure functions here are the specification the methods at the end are
    proved against. */
module Extractor {
  import opened Wrappers
  import opened Text
  import opened Patterns
  import opened Record
  import Store

  // ---------------------------------------------------------------------
  // Normalising the text (translate_numbers, the quote substitutions)

  predicate IsWideDigit(c: char) {
    '０' <= c <= '９'
  }

  /** A full-width digit becomes its ASCII digit; anything else is kept. */
  function NarrowDigit(c: char): (d: char)
    ensures IsWideDigit(c) ==> IsDigit(d) && d as int - '0' as int == c as int - '０' as int
    ensures !IsWideDigit(c) ==> d == c
  {
    if IsWideDigit(c) then DigitChar(c as int - '０' as int) else c
  }

  /** The substitutions of the digits `i` to 9, in that order: a full-width
      digit from `i` up becomes its ASCII digit. */
  function NarrowFrom(x: string, i: nat): (r: string)
    requires i <= 10
    ensures |r| == |x|
    ensures forall k :: 0 <= k < |x| ==>
      r[k] == if IsWideDigit(x[k]) && x[k] as int - '０' as int >= i then NarrowDigit(x[k]) else x[k]
    decreases 10 - i
  {
    if i == 10 then x
    else NarrowFrom(ReplaceChar(x, ('０' as int + i) as char, DigitChar(i)), i + 1)
  }

  /** `translate_numbers`: the ten substitutions ０→0 … ９→9, applied one
      after the other. */
  function TranslateNumbers(x: string): (r: string)
    ensures |r| == |x|
    ensures forall k :: 0 <= k < |x| ==> r[k] == NarrowDigit(x[k])
  {
    NarrowFrom(x, 0)
  }

  /** No full-width digit survives, and running the translation again
      changes nothing. */
  lemma TranslateNumbersNormal(x: string)
    ensures forall k :: 0 <= k < |x| ==> !IsWideDigit(TranslateNumbers(x)[k])
    ensures TranslateNumbers(TranslateNumbers(x)) == TranslateNumbers(x)
  {
    var r := TranslateNumbers(x);
    var rr := TranslateNumbers(r);
    forall k | 0 <= k < |x| ensures rr[k] == r[k] {
      assert r[k] == NarrowDigit(x[k]);
    }
  }

  /** The number of characters after the last `c` (all of them when there
      is none). */
  function AfterLast(l: string, c: char): (n: nat)
    ensures n <= |l| && forall k :: |l| - n <= k < |l| ==> l[k] != c
    ensures n < |l| ==> l[|l| - 1 - n] == c
  {
    if l != [] && l[|l| - 1] != c then 1 + AfterLast(l[..|l| - 1], c) else 0
  }

  /** The number of characters before the first `c` (all of them when there
      is none). */
  function BeforeFirst(l: string, c: char): (n: nat)
    ensures n <= |l| && forall k :: 0 <= k < n ==> l[k] != c
    ensures n < |l| ==> l[n] == c
  {
    if l != [] && l[0] != c then 1 + BeforeFirst(l[1..], c) else 0
  }

  /** `re.sub(".*X", '', l)` on one line: everything through the last `c`
      goes. What is left is a suffix of `l` without `c`, right after a `c`
      when anything went. */
  function DropThroughLast(l: string, c: char): (r: string)
    ensures c !in r
    ensures |r| <= |l| && r == l[|l| - |r|..]
    ensures |r| < |l| ==> l[|l| - |r| - 1] == c
  {
    l[|l| - AfterLast(l, c)..]
  }

  /** `re.sub("X.*", '', l)` on one line: everything from the first `c`
      goes. What is left is a prefix of `l` without `c`, followed by a `c`
      when anything went. */
  function DropFromFirst(l: string, c: char): (r: string)
    ensures c !in r
    ensures |r| <= |l| && r == l[..|r|]
    ensures |r| < |l| ==> l[|r|] == c
  {
    l[..BeforeFirst(l, c)]
  }

  lemma DropNothing(l: string, c: char)
    requires c !in l
    ensures DropThroughLast(l, c) == l && DropFromFirst(l, c) == l
  {
  }

  /** Cutting through the last `open`, then from the first `close`, leaves
      neither. */
  lemma CutClean(l: string, open: char, close: char)
    ensures open !in DropFromFirst(DropThroughLast(l, open), close)
    ensures close !in DropFromFirst(DropThroughLast(l, open), close)
  {
    var a := DropThroughLast(l, open);
    var b := DropFromFirst(a, close);
    forall k | 0 <= k < |b| ensures b[k] != open {
      assert b[k] == a[k];
    }
  }

  /** One line with the `『` opening and `』` closing quote cut away. */
  function StripLine(l: string): string {
    DropFromFirst(DropThroughLast(l, '『'), '』')
  }

  function StripEach(ls: seq<string>): (r: seq<string>)
    ensures |r| == |ls| && forall k :: 0 <= k < |ls| ==> r[k] == StripLine(ls[k])
  {
    seq(|ls|, k requires 0 <= k < |ls| => StripLine(ls[k]))
  }

  /** The two quote substitutions of `parse` and the `strip()` after them.
      Python's `.` stops at a line break, so each substitution works line by
      line. */
  function StripQuotes(text: string): string {
    Trim(Join(StripEach(Split(text, "\n")), "\n"))
  }

  /** A character of a joined list is in the separator or in an element. */
  lemma {:induction false} JoinChars(xs: seq<string>, sep: string, c: char)
    requires c in Join(xs, sep)
    ensures c in sep || exists k :: 0 <= k < |xs| && c in xs[k]
    decreases |xs|
  {
    if |xs| > 1 {
      var rest := Join(xs[1..], sep);
      assert Join(xs, sep) == xs[0] + sep + rest;
      if c !in xs[0] && c !in sep {
        JoinChars(xs[1..], sep, c);
        var k :| 0 <= k < |xs[1..]| && c in xs[1..][k];
        assert c in xs[k + 1];
      }
    }
  }

  /** The quotes of an appraisal are gone once they are stripped. */
  lemma QuotesRemoved(text: string)
    ensures '『' !in StripQuotes(text) && '』' !in StripQuotes(text)
  {
    QuoteRemoved(text, '『');
    QuoteRemoved(text, '』');
  }

  lemma QuoteRemoved(text: string, c: char)
    requires c == '『' || c == '』'
    ensures c !in StripQuotes(text)
  {
    var xs := StripEach(Split(text, "\n"));
    var j := Join(xs, "\n");
    assert StripQuotes(text) == Trim(j);
    if c in j {
      JoinChars(xs, "\n", c);
      var k :| 0 <= k < |xs| && c in xs[k];
      CutClean(Split(text, "\n")[k], '『', '』');
    }
  }

  /** A character of an element is a character of the joined list. */
  lemma {:induction false} JoinHolds(xs: seq<string>, sep: string, k: nat, c: char)
    requires k < |xs| && c in xs[k]
    ensures c in Join(xs, sep)
    decreases |xs|
  {
    if |xs| > 1 {
      assert Join(xs, sep) == xs[0] + sep + Join(xs[1..], sep);
      if k > 0 { JoinHolds(xs[1..], sep, k - 1, c); }
    }
  }

  /** Text without quotes is only stripped of its surrounding white space. */
  lemma NoQuotesKept(text: string)
    requires '『' !in text && '』' !in text
    ensures StripQuotes(text) == Trim(text)
  {
    var ps := Split(text, "\n");
    forall k | 0 <= k < |ps| ensures StripLine(ps[k]) == ps[k] {
      if '『' in ps[k] { JoinHolds(ps, "\n", k, '『'); }
      if '』' in ps[k] { JoinHolds(ps, "\n", k, '』'); }
      DropNothing(ps[k], '『');
      DropNothing(ps[k], '』');
    }
    assert StripEach(ps) == ps;
  }

  // ---------------------------------------------------------------------
  // The lines and the second-line check

  /** The text `parse` reads: digits narrowed, quotes cut, stripped. */
  function Prepared(text: string): string {
    StripQuotes(TranslateNumbers(text))
  }

  /** `text.splitlines()` of the prepared text. */
  function LinesOf(text: string): (r: seq<string>)
    ensures forall k :: 0 <= k < |r| ==> '\n' !in r[k]
    ensures Join(r, "\n") == Prepared(text)
  {
    var p := Prepared(text);
    TrimmedLines(p);
    SplitLines(p)
  }

  const Statistics: string := "ステータス"

  const FailurePhrase: string := "ステータスの鑑定に失敗しました"

  /** `[x for x in re.split('　+', l) if len(x)]`: the non-empty runs between
      ideographic spaces. Splitting at single spaces and dropping the empty
      pieces gives the same runs. */
  function Segments(l: string): (r: seq<string>)
    ensures forall k :: 0 <= k < |r| ==> r[k] != [] && '\U{3000}' !in r[k]
  {
    var ps := Split(l, "\U{3000}");
    forall k | 0 <= k < |ps| ensures '\U{3000}' !in ps[k] {
      ContainsChar(ps[k], '\U{3000}');
    }
    var r := NonEmpty(ps);
    forall k | 0 <= k < |r| ensures '\U{3000}' !in r[k] {
      assert r[k] in ps;
    }
    r
  }

  /** The segments in order: a run before an ideographic space is the first
      segment unless it is empty, and the rest follow. */
  lemma SegmentsCons(a: string, b: string)
    requires '\U{3000}' !in a
    ensures Segments(a + "\U{3000}" + b) == (if a == [] then [] else [a]) + Segments(b)
  {
    SplitAtChar(a, b, '\U{3000}');
    var ps := Split(b, "\U{3000}");
    assert ([a] + ps)[1..] == ps;
  }

  /** A line without ideographic spaces is its own single segment, unless
      it is empty. */
  lemma SegmentsOne(l: string)
    requires '\U{3000}' !in l
    ensures Segments(l) == if l == [] then [] else [l]
  {
    SplitWithoutChar(l, '\U{3000}');
    assert Segments(l) == NonEmpty([l]);
    assert [l][1..] == [];
    assert NonEmpty([]) == [];
  }

  /** A line that names the statistics has a first segment, so `parse` can
      look at `headsplit[0]` without an `IndexError`. */
  lemma StatisticsSegment(l: string)
    requires Contains(l, Statistics)
    ensures Segments(l) != []
  {
    var ps := Split(l, "\U{3000}");
    var i := Find(l, Statistics).value;
    assert l[i] == 'ス' by { assert l[i..i + |Statistics|][0] == l[i]; }
    JoinChars(ps, "\U{3000}", 'ス');
    var k :| 0 <= k < |ps| && 'ス' in ps[k];
    assert ps[k] in Segments(l);
  }

  /** The `stats_summary` word: the second segment of the second line when
      its first segment is exactly `ステータス`. */
  function Summary(lines: seq<string>): (r: Option<string>)
    ensures r.Some? <==> |lines| > 1 && |Segments(lines[1])| > 1 && Segments(lines[1])[0] == Statistics
    ensures r.Some? ==> r.value == Segments(lines[1])[1] && r.value != []
  {
    if |lines| > 1 then
      var hs := Segments(lines[1]);
      if |hs| > 1 && hs[0] == Statistics then Some(hs[1]) else None
    else None
  }

  // ---------------------------------------------------------------------
  // Stats and attributes (read_plus_and_up, match_attrib_2, match_attrib_1)

  /** The `_plus` number of `read_plus_and_up`: `re.search('＋(\d+)', line)`. */
  function PlusOf(line: string): (r: Option<nat>)
    ensures r.Some? <==> Found(line, PlusPattern).Some?
    ensures r.Some? ==> Found(line, PlusPattern) == Some([r.value])
  {
    AttrPatternsWellFormed();
    match Found(line, PlusPattern)
    case Some(c) => assert c == [c[0]]; Some(c[0])
    case None => None
  }

  /** The `_up` number of `read_plus_and_up` and `read_up_and_new`:
      `re.search('\((\d+)up\)', line)`. */
  function UpOf(line: string): (r: Option<nat>)
    ensures r.Some? <==> Found(line, UpPattern).Some?
    ensures r.Some? ==> Found(line, UpPattern) == Some([r.value])
  {
    UpPatternWellFormed();
    match Found(line, UpPattern)
    case Some(c) => assert c == [c[0]]; Some(c[0])
    case None => None
  }

  /** What `match_attrib_2` stores: the two numbers of the first line the
      pattern matches, with that line's `＋` and `up` numbers. */
  function ScanStat(lines: seq<string>, p: Pattern): Option<Stat>
    requires NumCount(p) == 2
  {
    match FirstMatch(lines, p)
    case Some(m) => Some(Stat(m.1[0], m.1[1], PlusOf(lines[m.0]), UpOf(lines[m.0])))
    case None => None
  }

  /** `ScanStat` reads the first line the pattern matches, and only that
      line; there is such a line exactly when `ScanStat` gives a stat. */
  lemma ScanStatFirst(lines: seq<string>, p: Pattern)
    requires NumCount(p) == 2
    ensures var r := ScanStat(lines, p);
      (r.Some? <==> exists k :: 0 <= k < |lines| && Found(lines[k], p).Some?)
      && (r.Some? ==> exists k :: 0 <= k < |lines| && Found(lines[k], p) == Some([r.value.current, r.value.maximum])
                        && r.value.plus == PlusOf(lines[k]) && r.value.up == UpOf(lines[k])
                        && forall j :: 0 <= j < k ==> Found(lines[j], p).None?)
  {
    match FirstMatch(lines, p)
    case Some(m) =>
      assert m.1 == [m.1[0], m.1[1]];
    case None =>
  }

  /** What `match_attrib_1` stores: the number of the first line the pattern
      matches, with that line's `＋` and `up` numbers. */
  function ScanAttr(lines: seq<string>, p: Pattern): Option<Attr>
    requires NumCount(p) == 1
  {
    match FirstMatch(lines, p)
    case Some(m) => Some(Attr(m.1[0], PlusOf(lines[m.0]), UpOf(lines[m.0])))
    case None => None
  }

  /** `ScanAttr` reads the first line the pattern matches, and only that
      line; there is such a line exactly when `ScanAttr` gives a value. */
  lemma ScanAttrFirst(lines: seq<string>, p: Pattern)
    requires NumCount(p) == 1
    ensures var r := ScanAttr(lines, p);
      (r.Some? <==> exists k :: 0 <= k < |lines| && Found(lines[k], p).Some?)
      && (r.Some? ==> exists k :: 0 <= k < |lines| && Found(lines[k], p) == Some([r.value.value])
                        && r.value.plus == PlusOf(lines[k]) && r.value.up == UpOf(lines[k])
                        && forall j :: 0 <= j < k ==> Found(lines[j], p).None?)
  {
    match FirstMatch(lines, p)
    case Some(m) =>
      assert m.1 == [m.1[0]];
    case None =>
  }

  /** A key is set only when its pattern matched; otherwise the map is left
      alone. */
  function Put<K, V>(m: map<K, V>, k: K, v: Option<V>): map<K, V> {
    match v
    case Some(x) => m[k := x]
    case None => m
  }

  /** The pattern `parse` uses for each stat. */
  function StatPattern(k: StatKind): (p: Pattern)
    ensures NumCount(p) == 2
  {
    StatPatternsWellFormed();
    match k
    case Hp => HpPattern
    case Mp => MpPattern
    case SpShort => SpShortPattern
    case SpLong => SpLongPattern
  }

  /** The pattern `parse` uses for each attribute. */
  function AttrPattern(k: AttrKind): (p: Pattern)
    ensures NumCount(p) == 1
  {
    AttrPatternsWellFormed();
    match k
    case Level => LevelPattern
    case AvgOffense => AvgOffensePattern
    case AvgDefense => AvgDefensePattern
    case AvgMagic => AvgMagicPattern
    case AvgResist => AvgResistPattern
    case AvgSpeed => AvgSpeedPattern
    case SkillPoints => SkillPointsPattern
  }

  /** The stats after the four `match_attrib_2` calls of `parse`. */
  function StatsOf(lines: seq<string>): map<StatKind, Stat> {
    StatPatternsWellFormed();
    var m0 := Put(map[], Hp, ScanStat(lines, HpPattern));
    var m1 := Put(m0, Mp, ScanStat(lines, MpPattern));
    var m2 := Put(m1, SpShort, ScanStat(lines, SpShortPattern));
    Put(m2, SpLong, ScanStat(lines, SpLongPattern))
  }

  /** The attributes after the seven `match_attrib_1` calls of `parse`; the
      level is looked for on the first line only. */
  function AttrsOf(lines: seq<string>): map<AttrKind, Attr>
    requires lines != []
  {
    AttrPatternsWellFormed();
    var m0 := Put(map[], Level, ScanAttr([lines[0]], LevelPattern));
    var m1 := Put(m0, AvgOffense, ScanAttr(lines, AvgOffensePattern));
    var m2 := Put(m1, AvgDefense, ScanAttr(lines, AvgDefensePattern));
    var m3 := Put(m2, AvgMagic, ScanAttr(lines, AvgMagicPattern));
    var m4 := Put(m3, AvgResist, ScanAttr(lines, AvgResistPattern));
    var m5 := Put(m4, AvgSpeed, ScanAttr(lines, AvgSpeedPattern));
    Put(m5, SkillPoints, ScanAttr(lines, SkillPointsPattern))
  }

  // ---------------------------------------------------------------------
  // Skills and titles (read_skills, read_titles, read_up_and_new)

  const SkillMarker: string := "スキル"

  const TitleMarker: string := "称号"

  const EntrySeparator: string := "」「"

  /** The index of the first line that holds `marker`. */
  function FirstHolding(lines: seq<string>, marker: string): (r: Option<nat>)
    ensures r.Some? ==> r.value < |lines| && Contains(lines[r.value], marker)
    ensures r.Some? ==> forall j :: 0 <= j < r.value ==> !Contains(lines[j], marker)
    ensures r.None? ==> forall j :: 0 <= j < |lines| ==> !Contains(lines[j], marker)
  {
    if lines == [] then None
    else if Contains(lines[0], marker) then Some(0)
    else match FirstHolding(lines[1..], marker)
      case Some(k) => Some(k + 1)
      case None => None
  }

  /** The line after the first line that holds `marker`, if there is one:
      the skill or title line the loop of `read_skills` or `read_titles`
      stops at. */
  function ListLine(lines: seq<string>, marker: string): (r: Option<string>)
    ensures r.Some? <==> (exists k :: 0 <= k < |lines| && Contains(lines[k], marker))
                         && FirstHolding(lines, marker).value + 1 < |lines|
    ensures r.Some? ==> r.value == lines[FirstHolding(lines, marker).value + 1]
  {
    match FirstHolding(lines, marker)
    case Some(k) => if k + 1 < |lines| then Some(lines[k + 1]) else None
    case None => None
  }

  /** The brackets cut away: `re.sub(".*「", '', x)`, then
      `re.sub("」.*", '', x)`. */
  function Bracketless(piece: string): string {
    DropFromFirst(DropThroughLast(piece, '「'), '」')
  }

  /** The pieces of a skill or title line, each without its brackets. */
  function Pieces(l: string): seq<string> {
    var ps := Split(l, EntrySeparator);
    seq(|ps|, k requires 0 <= k < |ps| => Bracketless(ps[k]))
  }

  /** Where `(.+)ＬＶ(\d+)(.*)` can put its `ＬＶ`: after at least one
      character and before a digit. */
  predicate LvAt(s: string, j: nat) {
    1 <= j && j + 2 < |s| && OccursAt(s, "ＬＶ", j) && IsDigit(s[j + 2])
  }

  function LastLvFrom(s: string, j: nat): (r: Option<nat>)
    ensures r.Some? ==> r.value <= j && LvAt(s, r.value)
    ensures r.Some? ==> forall k :: r.value < k <= j ==> !LvAt(s, k)
    ensures r.None? ==> forall k :: 0 <= k <= j ==> !LvAt(s, k)
    decreases j
  {
    if LvAt(s, j) then Some(j)
    else if j == 0 then None
    else LastLvFrom(s, j - 1)
  }

  /** The greedy `(.+)` makes the last possible `ＬＶ` the one matched. */
  function LastLv(s: string): (r: Option<nat>)
    ensures r.Some? ==> LvAt(s, r.value) && forall k: nat :: r.value < k ==> !LvAt(s, k)
    ensures r.None? ==> forall k: nat :: !LvAt(s, k)
  {
    LastLvFrom(s, |s|)
  }

  /** `lv_match`: the name before the last `ＬＶ` that is followed by a
      digit, and the number made by all the digits that follow it. */
  function LevelSplit(s: string): (r: Option<(string, nat)>)
    ensures r.Some? <==> exists j: nat :: LvAt(s, j)
    ensures r.Some? ==> var j := LastLv(s).value; r.value.0 == s[..j] && r.value.0 != []
    ensures r.Some? ==> var j := LastLv(s).value; var e := DigitRunEnd(s, j + 2);
                         j + 2 < e && AllDigits(s[j + 2..e]) && r.value.1 == DigitsValue(s[j + 2..e])
  {
    match LastLv(s)
    case Some(j) =>
      var e := DigitRunEnd(s, j + 2);
      DigitSlice(s, j + 2, e);
      Some((s[..j], DigitsValue(s[j + 2..e])))
    case None => None
  }

  /** The number of leading `(` characters. */
  function OpenParens(s: string): (n: nat)
    ensures n <= |s| && forall k :: 0 <= k < n ==> s[k] == '('
    ensures n == |s| || s[n] != '('
  {
    if s != [] && s[0] == '(' then 1 + OpenParens(s[1..]) else 0
  }

  /** `oth_name_match`, `re.search('([^\(]+)', x)`: the first run of
      characters other than `(`, as long as it goes. */
  function NameRun(s: string): (r: Option<string>)
    ensures r.Some? <==> exists k :: 0 <= k < |s| && s[k] != '('
    ensures r.Some? ==> var i := OpenParens(s);
                         r.value != [] && '(' !in r.value
                         && i + |r.value| <= |s| && s[i..i + |r.value|] == r.value
                         && (i + |r.value| == |s| || s[i + |r.value|] == '(')
  {
    var i := OpenParens(s);
    if i == |s| then None
    else
      var t := DropFromFirst(s[i..], '(');
      assert s[i..][0] == s[i];
      assert s[i..i + |t|] == s[i..][..|t|];
      Some(t)
  }

  /** `read_up_and_new`'s `re.search('\(new\)', x)`. */
  predicate IsNew(s: string) {
    Contains(s, "(new)")
  }

  /** The word an entry hands to `translate`: the name before the level
      when a skill has one, else the first run without `(`, else the piece
      itself. */
  function EntryWord(s: string, withLevel: bool): string {
    if withLevel && LevelSplit(s).Some? then LevelSplit(s).value.0
    else match NameRun(s)
      case Some(n) => n
      case None => s
  }

  /** One skill (`withLevel`) or title dictionary, the piece already
      without its brackets. */
  function EntryOf(d: map<string, string>, s: string, withLevel: bool): Entry {
    var level := if withLevel && LevelSplit(s).Some? then Some(LevelSplit(s).value.1) else None;
    Entry(Store.TranslateWord(d, EntryWord(s, withLevel)), level, UpOf(s), IsNew(s))
  }

  /** The entries of the pieces, in order. */
  function EntriesOf(d: map<string, string>, pieces: seq<string>, withLevel: bool): seq<Entry> {
    seq(|pieces|, k requires 0 <= k < |pieces| => EntryOf(d, pieces[k], withLevel))
  }

  /** The words the pieces hand to `translate`, in order. */
  function EntryWords(pieces: seq<string>, withLevel: bool): seq<string> {
    seq(|pieces|, k requires 0 <= k < |pieces| => EntryWord(pieces[k], withLevel))
  }

  /** The `skills` or `titles` key: unset when there is no list line or it
      is empty, else one entry per piece. */
  function ListOf(d: map<string, string>, lines: seq<string>, marker: string, withLevel: bool): (r: Option<seq<Entry>>)
    ensures r.Some? <==> ListLine(lines, marker).Some? && ListLine(lines, marker).value != []
    ensures r.Some? ==> r.value == EntriesOf(d, Pieces(ListLine(lines, marker).value), withLevel)
  {
    match ListLine(lines, marker)
    case Some(l) => if l == [] then None else Some(EntriesOf(d, Pieces(l), withLevel))
    case None => None
  }

  /** The words the list hands to `translate`, in order. */
  function ListWords(lines: seq<string>, marker: string, withLevel: bool): seq<string> {
    match ListLine(lines, marker)
    case Some(l) => if l == [] then [] else EntryWords(Pieces(l), withLevel)
    case None => []
  }

  // ---------------------------------------------------------------------
  // The header (read_header)

  const NameMarker: string := "名前\U{3000}"

  /** `re.split('　', title)[0]`: the title up to its first ideographic space. */
  function KindWord(title: string): (w: string)
    ensures '\U{3000}' !in w && |w| <= |title| && w == title[..|w|]
    ensures |w| < |title| ==> title[|w|] == '\U{3000}'
  {
    var ps := Split(title, "\U{3000}");
    ContainsChar(ps[0], '\U{3000}');
    SplitHead(title, "\U{3000}");
    assert |ps[0]| < |title| ==> title[|ps[0]|] == title[|ps[0]|..|ps[0]| + 1][0];
    ps[0]
  }

  /** `re.search('名前　(.+)', title)` with the ideographic spaces of the
      name removed: what follows the first `名前　`, when anything does. */
  function NameWord(title: string): (r: Option<string>)
    ensures r.Some? ==> '\U{3000}' !in r.value
    ensures r.Some? <==> Find(title, NameMarker).Some? && Find(title, NameMarker).value + |NameMarker| < |title|
    ensures r.Some? ==> r.value == RemoveChar(title[Find(title, NameMarker).value + |NameMarker|..], '\U{3000}')
  {
    match Find(title, NameMarker)
    case Some(i) =>
      if i + |NameMarker| < |title| then Some(RemoveChar(title[i + |NameMarker|..], '\U{3000}')) else None
    case None => None
  }

  /** The words `read_header` hands to `translate`, in order. */
  function HeaderWords(title: string): seq<string> {
    [KindWord(title)] + match NameWord(title) case Some(n) => [n] case None => []
  }

  // ---------------------------------------------------------------------
  // The whole of parse

  /** What `parse` returns when the dictionary is `d`: the error it raises,
      or the record it builds. */
  function Extract(d: map<string, string>, text: string): Result<Appraisal, ParseError> {
    ExtractLines(d, Prepared(text), LinesOf(text))
  }

  /** `parse` from the point where the prepared text `t` is split into
      `lines`. */
  function ExtractLines(d: map<string, string>, t: string, lines: seq<string>): Result<Appraisal, ParseError> {
    if |lines| > 1 && !Contains(lines[1], Statistics) then Failure(NotAnAppraisal)
    else if lines == [] then Failure(EmptyText)
    else
      var title := lines[0];
      Success(Appraisal(
        kind := Store.TranslateWord(d, KindWord(title)),
        name := (match NameWord(title) case Some(n) => Some(Store.TranslateWord(d, n)) case None => None),
        statsSummary := (match Summary(lines) case Some(w) => Some(Store.TranslateWord(d, w)) case None => None),
        failedAppraise := Contains(t, FailurePhrase),
        stats := StatsOf(lines),
        attrs := AttrsOf(lines),
        skills := ListOf(d, lines, SkillMarker, true),
        titles := ListOf(d, lines, TitleMarker, false)))
  }

  /** The word the summary block hands to `translate`, if any. */
  function SummaryWords(lines: seq<string>): seq<string> {
    match Summary(lines) case Some(w) => [w] case None => []
  }

  /** The words `parse` hands to `translate`, in the order it does. */
  function ParseWords(text: string): seq<string> {
    LinesWords(LinesOf(text))
  }

  /** The words `parse` hands to `translate` once the text is split into
      `lines`. */
  function LinesWords(lines: seq<string>): seq<string> {
    if |lines| > 1 && !Contains(lines[1], Statistics) then []
    else if lines == [] then []
    else
      SummaryWords(lines)
      + HeaderWords(lines[0])
      + ListWords(lines, SkillMarker, true)
      + ListWords(lines, TitleMarker, false)
  }

  // ---------------------------------------------------------------------
  // The extractor's procedures

  /** `match_attrib_2`: the loop over the lines stops at the first match. */
  method MatchAttrib2(lines: seq<string>, p: Pattern, tag: StatKind, output: Appraisal)
    returns (out: Appraisal, matched: bool)
    requires NumCount(p) == 2
    ensures out == output.(stats := Put(output.stats, tag, ScanStat(lines, p)))
    ensures matched <==> exists k :: 0 <= k < |lines| && Found(lines[k], p).Some?
  {
    out, matched := output, false;
    var i := 0;
    while i < |lines|
      invariant 0 <= i <= |lines|
      invariant forall k :: 0 <= k < i ==> Found(lines[k], p).None?
    {
      var m := Found(lines[i], p);
      if m.Some? {
        var st := Stat(m.value[0], m.value[1], PlusOf(lines[i]), UpOf(lines[i]));
        assert FirstMatch(lines, p) == Some((i, m.value));
        out := output.(stats := output.stats[tag := st]);
        return out, true;
      }
      i := i + 1;
    }
  }

  /** `match_attrib_1`: the loop over the lines stops at the first match. */
  method MatchAttrib1(lines: seq<string>, p: Pattern, tag: AttrKind, output: Appraisal)
    returns (out: Appraisal, matched: bool)
    requires NumCount(p) == 1
    ensures out == output.(attrs := Put(output.attrs, tag, ScanAttr(lines, p)))
    ensures matched <==> exists k :: 0 <= k < |lines| && Found(lines[k], p).Some?
  {
    out, matched := output, false;
    var i := 0;
    while i < |lines|
      invariant 0 <= i <= |lines|
      invariant forall k :: 0 <= k < i ==> Found(lines[k], p).None?
    {
      var m := Found(lines[i], p);
      if m.Some? {
        var a := Attr(m.value[0], PlusOf(lines[i]), UpOf(lines[i]));
        assert FirstMatch(lines, p) == Some((i, m.value));
        out := output.(attrs := output.attrs[tag := a]);
        return out, true;
      }
      i := i + 1;
    }
  }

  /** The first loop of `read_skills` and `read_titles`: the line after the
      first one holding the marker. */
  method FindListLine(lines: seq<string>, marker: string) returns (line: Option<string>)
    ensures line == ListLine(lines, marker)
  {
    var headerFound := false;
    line := None;
    var i := 0;
    while i < |lines|
      invariant 0 <= i <= |lines|
      invariant headerFound <==> exists k :: 0 <= k < i && Contains(lines[k], marker)
      invariant headerFound ==> FirstHolding(lines, marker).Some? && FirstHolding(lines, marker).value == i - 1
      invariant line == None
    {
      if headerFound {
        line := Some(lines[i]);
        break;
      }
      if Contains(lines[i], marker) {
        headerFound := true;
      }
      i := i + 1;
    }
  }

  /** The body of the second loop of `read_skills` (`withLevel`) and of
      `read_titles`, for one piece already without its brackets. */
  method ReadEntry(s: string, withLevel: bool, store: Store.TranslationStore) returns (e: Entry)
    requires store.Valid()
    modifies store`missingWords
    ensures store.Valid() && store.dictionary == old(store.dictionary)
    ensures e == EntryOf(store.dictionary, s, withLevel)
    ensures store.missingWords == old(store.missingWords) + Store.MissOf(store.dictionary, EntryWord(s, withLevel))
  {
    var lv := LevelSplit(s);
    var other := NameRun(s);
    var name: string;
    var level: Option<nat> := None;
    if withLevel && lv.Some? {
      name := store.Translate(lv.value.0);
      level := Some(lv.value.1);
    } else if other.Some? {
      name := store.Translate(other.value);
    } else {
      name := store.Translate(s);
    }
    e := Entry(name, level, UpOf(s), IsNew(s));
  }

  lemma MissesSnoc(d: map<string, string>, ws: seq<string>, w: string)
    ensures Store.MissesOf(d, ws + [w]) == Store.MissesOf(d, ws) + Store.MissOf(d, w)
  {
    assert (ws + [w])[..|ws|] == ws;
  }

  lemma UnionAssoc(a: set<string>, b: set<string>, c: set<string>)
    ensures a + b + c == a + (b + c)
  {
  }

  /** The second loop of `read_skills` (`withLevel`) and of `read_titles`:
      one entry per piece, each name through `translate`. */
  method ReadEntries(line: string, withLevel: bool, store: Store.TranslationStore) returns (entries: seq<Entry>)
    requires store.Valid()
    modifies store`missingWords
    ensures store.Valid() && store.dictionary == old(store.dictionary)
    ensures entries == EntriesOf(store.dictionary, Pieces(line), withLevel)
    ensures store.missingWords == old(store.missingWords) + Store.MissesOf(store.dictionary, EntryWords(Pieces(line), withLevel))
  {
    var parts := Split(line, EntrySeparator);
    ghost var pieces := Pieces(line);
    ghost var d := store.dictionary;
    ghost var m0 := store.missingWords;
    ghost var words: seq<string> := [];
    entries := [];
    var i := 0;
    while i < |parts|
      invariant 0 <= i <= |parts| == |pieces|
      invariant store.Valid() && store.dictionary == d
      invariant entries == EntriesOf(d, pieces, withLevel)[..i]
      invariant words == EntryWords(pieces, withLevel)[..i]
      invariant store.missingWords == m0 + Store.MissesOf(d, words)
    {
      assert Bracketless(parts[i]) == pieces[i];
      entries, words := ReadPiece(pieces, i, withLevel, store, entries, words, m0, Bracketless(parts[i]));
      i := i + 1;
    }
    TakeAll(EntriesOf(d, pieces, withLevel));
    TakeAll(EntryWords(pieces, withLevel));
  }

  /** One iteration of the loop of `ReadEntries`: the entry of piece `i`
      appended, its word handed to `translate`. */
  method ReadPiece(ghost pieces: seq<string>, ghost i: nat, withLevel: bool, store: Store.TranslationStore,
                   entries: seq<Entry>, ghost words: seq<string>, ghost m0: set<string>, s: string)
    returns (entries': seq<Entry>, ghost words': seq<string>)
    requires store.Valid() && i < |pieces| && s == pieces[i]
    requires entries == EntriesOf(store.dictionary, pieces, withLevel)[..i]
    requires words == EntryWords(pieces, withLevel)[..i]
    requires store.missingWords == m0 + Store.MissesOf(store.dictionary, words)
    modifies store`missingWords
    ensures store.Valid() && store.dictionary == old(store.dictionary)
    ensures entries' == EntriesOf(store.dictionary, pieces, withLevel)[..i + 1]
    ensures words' == EntryWords(pieces, withLevel)[..i + 1]
    ensures store.missingWords == m0 + Store.MissesOf(store.dictionary, words')
  {
    ghost var d := store.dictionary;
    ghost var w := EntryWord(s, withLevel);
    var e := ReadEntry(s, withLevel, store);
    MissesSnoc(d, words, w);
    UnionAssoc(m0, Store.MissesOf(d, words), Store.MissOf(d, w));
    TakeSnoc(EntriesOf(d, pieces, withLevel), i, entries, e);
    TakeSnoc(EntryWords(pieces, withLevel), i, words, w);
    entries' := entries + [e];
    words' := words + [w];
  }

  /** `read_skills`: the `skills` key is set only when a non-empty skill
      line follows the first line holding `スキル`. */
  method ReadSkills(lines: seq<string>, output: Appraisal, store: Store.TranslationStore) returns (out: Appraisal)
    requires store.Valid()
    modifies store`missingWords
    ensures store.Valid() && store.dictionary == old(store.dictionary)
    ensures out == output.(skills := if ListOf(store.dictionary, lines, SkillMarker, true).Some?
                                     then ListOf(store.dictionary, lines, SkillMarker, true) else output.skills)
    ensures store.missingWords == old(store.missingWords) + Store.MissesOf(store.dictionary, ListWords(lines, SkillMarker, true))
  {
    var skillLine := FindListLine(lines, SkillMarker);
    if skillLine.None? || skillLine.value == [] {
      return output;
    }
    var skills := ReadEntries(skillLine.value, true, store);
    out := output;
    if |skills| > 0 {
      out := output.(skills := Some(skills));
    }
  }

  /** `read_titles`: as `read_skills`, for the line after `称号`, and a
      title never has a level. */
  method ReadTitles(lines: seq<string>, output: Appraisal, store: Store.TranslationStore) returns (out: Appraisal)
    requires store.Valid()
    modifies store`missingWords
    ensures store.Valid() && store.dictionary == old(store.dictionary)
    ensures out == output.(titles := if ListOf(store.dictionary, lines, TitleMarker, false).Some?
                                     then ListOf(store.dictionary, lines, TitleMarker, false) else output.titles)
    ensures store.missingWords == old(store.missingWords) + Store.MissesOf(store.dictionary, ListWords(lines, TitleMarker, false))
  {
    var titleLine := FindListLine(lines, TitleMarker);
    if titleLine.None? || titleLine.value == [] {
      return output;
    }
    var titles := ReadEntries(titleLine.value, false, store);
    out := output;
    if |titles| > 0 {
      out := output.(titles := Some(titles));
    }
  }

  /** `read_header`: the kind is the text before the first ideographic
      space, the name whatever follows `名前　`. */
  method ReadHeader(title: string, output: Appraisal, store: Store.TranslationStore) returns (out: Appraisal)
    requires store.Valid()
    modifies store`missingWords
    ensures store.Valid() && store.dictionary == old(store.dictionary)
    ensures out == output.(kind := Store.TranslateWord(store.dictionary, KindWord(title)),
                           name := match NameWord(title)
                                   case Some(n) => Some(Store.TranslateWord(store.dictionary, n))
                                   case None => output.name)
    ensures store.missingWords == old(store.missingWords) + Store.MissesOf(store.dictionary, HeaderWords(title))
  {
    HeaderMisses(store.dictionary, title);
    var splits := Split(title, "\U{3000}");
    var kind := store.Translate(splits[0]);
    out := output.(kind := kind);
    var name := NameWord(title);
    if name.Some? {
      var n := store.Translate(name.value);
      out := out.(name := Some(n));
    }
  }

  lemma HeaderMisses(d: map<string, string>, title: string)
    ensures Store.MissesOf(d, HeaderWords(title))
         == Store.MissOf(d, KindWord(title)) + match NameWord(title) case Some(n) => Store.MissOf(d, n) case None => {}
  {
    assert Store.MissesOf(d, [KindWord(title)]) == Store.MissOf(d, KindWord(title));
    if NameWord(title).Some? {
      MissesSnoc(d, [KindWord(title)], NameWord(title).value);
    } else {
      assert HeaderWords(title) == [KindWord(title)];
    }
  }

  /** The summary block of `parse`: the `stats_summary` key, set when the
      second line's first segment names the statistics. */
  method ReadSummary(lines: seq<string>, store: Store.TranslationStore) returns (out: Appraisal)
    requires store.Valid() && (|lines| > 1 ==> Contains(lines[1], Statistics))
    modifies store`missingWords
    ensures store.Valid() && store.dictionary == old(store.dictionary)
    ensures out == Blank.(statsSummary := match Summary(lines)
                                          case Some(w) => Some(Store.TranslateWord(store.dictionary, w))
                                          case None => None)
    ensures store.missingWords == old(store.missingWords) + Store.MissesOf(store.dictionary, SummaryWords(lines))
  {
    out := Blank;
    if |lines| > 1 {
      var headsplit := Segments(lines[1]);
      StatisticsSegment(lines[1]);
      if headsplit[0] == Statistics && |headsplit| > 1 {
        ghost var d := store.dictionary;
        var w := store.Translate(headsplit[1]);
        out := out.(statsSummary := Some(w));
        assert Store.MissesOf(d, [headsplit[1]]) == Store.MissOf(d, headsplit[1]);
      }
    }
  }

  /** The four `match_attrib_2` calls of `parse`. */
  method ReadStats(lines: seq<string>, output: Appraisal) returns (out: Appraisal)
    requires output.stats == map[]
    ensures out == output.(stats := StatsOf(lines))
  {
    StatPatternsWellFormed();
    var matched: bool;
    out, matched := MatchAttrib2(lines, HpPattern, Hp, output);
    out, matched := MatchAttrib2(lines, MpPattern, Mp, out);
    out, matched := MatchAttrib2(lines, SpShortPattern, SpShort, out);
    out, matched := MatchAttrib2(lines, SpLongPattern, SpLong, out);
  }

  /** The seven `match_attrib_1` calls of `parse`, the level on the title
      line only. */
  method ReadAttrs(lines: seq<string>, output: Appraisal) returns (out: Appraisal)
    requires lines != [] && output.attrs == map[]
    ensures out == output.(attrs := AttrsOf(lines))
  {
    AttrPatternsWellFormed();
    var matched: bool;
    out, matched := MatchAttrib1([lines[0]], LevelPattern, Level, output);
    out, matched := MatchAttrib1(lines, AvgOffensePattern, AvgOffense, out);
    out, matched := MatchAttrib1(lines, AvgDefensePattern, AvgDefense, out);
    out, matched := MatchAttrib1(lines, AvgMagicPattern, AvgMagic, out);
    out, matched := MatchAttrib1(lines, AvgResistPattern, AvgResist, out);
    out, matched := MatchAttrib1(lines, AvgSpeedPattern, AvgSpeed, out);
    out, matched := MatchAttrib1(lines, SkillPointsPattern, SkillPoints, out);
  }

  lemma MissesOfParts(d: map<string, string>, a: seq<string>, b: seq<string>, c: seq<string>, e: seq<string>)
    ensures Store.MissesOf(d, a + b + c + e)
         == Store.MissesOf(d, a) + Store.MissesOf(d, b) + Store.MissesOf(d, c) + Store.MissesOf(d, e)
  {
    Store.MissesOfAppend(d, a, b);
    Store.MissesOfAppend(d, a + b, c);
    Store.MissesOfAppend(d, a + b + c, e);
  }

  lemma UnionChain(m0: set<string>, a: set<string>, b: set<string>, c: set<string>, e: set<string>)
    ensures m0 + a + b + c + e == m0 + (a + b + c + e)
  {
  }

  /** `parse`: the record read off the text, as `Extract` gives it, and
      every word it could not translate added to the missing words. */
  method Parse(text: string, store: Store.TranslationStore) returns (r: Result<Appraisal, ParseError>)
    requires store.Valid()
    modifies store`missingWords
    ensures store.Valid() && store.dictionary == old(store.dictionary)
    ensures r == Extract(store.dictionary, text)
    ensures store.missingWords == old(store.missingWords) + Store.MissesOf(store.dictionary, ParseWords(text))
  {
    var t := TranslateNumbers(text);
    t := StripQuotes(t);
    var lines := SplitLines(t);
    r := ParseLines(t, lines, store);
  }

  /** The body of `parse` after `text.splitlines()`. */
  method ParseLines(t: string, lines: seq<string>, store: Store.TranslationStore) returns (r: Result<Appraisal, ParseError>)
    requires store.Valid()
    modifies store`missingWords
    ensures store.Valid() && store.dictionary == old(store.dictionary)
    ensures r == ExtractLines(store.dictionary, t, lines)
    ensures store.missingWords == old(store.missingWords) + Store.MissesOf(store.dictionary, LinesWords(lines))
  {
    ghost var d := store.dictionary;
    ghost var m0 := store.missingWords;
    if |lines| > 1 && !Contains(lines[1], Statistics) {
      return Failure(NotAnAppraisal);
    }
    var output := ReadSummary(lines, store);
    if Contains(t, FailurePhrase) {
      output := output.(failedAppraise := true);
    }
    output := ReadStats(lines, output);
    if lines == [] {
      return Failure(EmptyText);
    }
    output := ReadAttrs(lines, output);
    output := ReadHeader(lines[0], output, store);
    output := ReadSkills(lines, output, store);
    output := ReadTitles(lines, output, store);
    r := Success(output);
    ghost var w0, hw, sw, tw := SummaryWords(lines), HeaderWords(lines[0]), ListWords(lines, SkillMarker, true), ListWords(lines, TitleMarker, false);
    MissesOfParts(d, w0, hw, sw, tw);
    UnionChain(m0, Store.MissesOf(d, w0), Store.MissesOf(d, hw), Store.MissesOf(d, sw), Store.MissesOf(d, tw));
  }
}
