/** The fixed-shape regular expressions of the extractor: literal markers
    with `(\d+)` runs between them, searched for with `re.search`. Digits
    are ASCII, since `translate_numbers` has already run. */
module Patterns {
  import opened Wrappers
  import opened Text

  /** One element of a pattern: literal text, or a captured `(\d+)`. */
  datatype Piece = Lit(text: string) | Num

  type Pattern = seq<Piece>

  function NumCount(p: Pattern): nat {
    if p == [] then 0 else (if p[0].Num? then 1 else 0) + NumCount(p[1..])
  }

  /** Literals are non-empty, and a digit run is followed by a literal that
      starts with a non-digit or ends the pattern, so that `\d+` can only
      stop where the digits stop. */
  predicate WellFormed(p: Pattern) {
    forall k :: 0 <= k < |p| ==>
      (p[k].Lit? ==> p[k].text != []) &&
      (p[k].Num? && k + 1 < |p| ==> p[k + 1].Lit? && p[k + 1].text != [] && !IsDigit(p[k + 1].text[0]))
  }

  /** The pattern ends with a literal. */
  predicate Closed(p: Pattern) {
    p != [] && p[|p| - 1].Lit?
  }

  lemma DigitSlice(s: string, i: nat, j: nat)
    requires i <= j <= |s| && forall k :: i <= k < j ==> IsDigit(s[k])
    ensures AllDigits(s[i..j])
  {
    forall k | 0 <= k < j - i ensures IsDigit(s[i..j][k]) {
      assert s[i..j][k] == s[i + k];
    }
  }

  /** Matching `p` at position `i` of `s`, each digit run as long as the
      digits go (the greedy `\d+`): the end of the match and the numbers
      captured, in order. */
  function MatchAt(s: string, i: nat, p: Pattern): (r: Option<(nat, seq<nat>)>)
    requires i <= |s|
    ensures r.Some? ==> i <= r.value.0 <= |s| && |r.value.1| == NumCount(p)
    decreases |p|
  {
    if p == [] then Some((i, []))
    else match p[0]
      case Lit(t) =>
        if OccursAt(s, t, i) then MatchAt(s, i + |t|, p[1..]) else None
      case Num =>
        var j := DigitRunEnd(s, i);
        if j == i then None
        else
          DigitSlice(s, i, j);
          match MatchAt(s, j, p[1..])
          case None => None
          case Some(m) => Some((m.0, [DigitsValue(s[i..j])] + m.1))
  }

  /** The regular-expression reading of a pattern: `\d+` may stop after any
      non-empty run of digits, and `e` is where the match ends. */
  ghost predicate Matches(s: string, i: nat, p: Pattern, e: nat, caps: seq<nat>)
    decreases |p|
  {
    i <= |s| &&
    if p == [] then e == i && caps == []
    else match p[0]
      case Lit(t) => OccursAt(s, t, i) && Matches(s, i + |t|, p[1..], e, caps)
      case Num =>
        caps != [] &&
        exists j :: i < j <= |s| && AllDigits(s[i..j]) && caps[0] == DigitsValue(s[i..j])
                    && Matches(s, j, p[1..], e, caps[1..])
  }

  /** What the greedy matcher finds is a match of the expression. */
  lemma {:induction false} MatchAtSound(s: string, i: nat, p: Pattern)
    requires i <= |s| && MatchAt(s, i, p).Some?
    ensures Matches(s, i, p, MatchAt(s, i, p).value.0, MatchAt(s, i, p).value.1)
    decreases |p|
  {
    if p != [] {
      match p[0]
      case Lit(t) =>
        MatchAtSound(s, i + |t|, p[1..]);
      case Num =>
        var j := DigitRunEnd(s, i);
        DigitSlice(s, i, j);
        MatchAtSound(s, j, p[1..]);
        var m := MatchAt(s, j, p[1..]).value;
        assert MatchAt(s, i, p).value.1[1..] == m.1;
    }
  }

  lemma WellFormedTail(p: Pattern)
    requires WellFormed(p) && p != []
    ensures WellFormed(p[1..])
    ensures |p| > 1 ==> Closed(p) == Closed(p[1..])
  {
    forall k | 0 <= k < |p[1..]| ensures p[1..][k] == p[k + 1] { }
  }

  /** Where the expression matches, so does the greedy matcher. */
  lemma {:induction false} MatchAtComplete(s: string, i: nat, p: Pattern, e: nat, caps: seq<nat>)
    requires WellFormed(p) && Matches(s, i, p, e, caps)
    ensures MatchAt(s, i, p).Some?
    decreases |p|
  {
    if p != [] {
      WellFormedTail(p);
      if p[0].Lit? {
        MatchAtComplete(s, i + |p[0].text|, p[1..], e, caps);
      } else {
        var j :| i < j <= |s| && AllDigits(s[i..j]) && caps[0] == DigitsValue(s[i..j])
                 && Matches(s, j, p[1..], e, caps[1..]);
        RunEndsAtLiteral(s, i, j, p);
        if |p| > 1 {
          MatchAtComplete(s, j, p[1..], e, caps[1..]);
        }
      }
    }
  }

  /** For a pattern that ends with a literal, the greedy matcher finds the
      very match the expression describes, which is then the only one. */
  lemma {:induction false} MatchAtExact(s: string, i: nat, p: Pattern, e: nat, caps: seq<nat>)
    requires WellFormed(p) && Closed(p) && Matches(s, i, p, e, caps)
    ensures MatchAt(s, i, p) == Some((e, caps))
    decreases |p|
  {
    WellFormedTail(p);
    if p[0].Lit? {
      if |p| > 1 { MatchAtExact(s, i + |p[0].text|, p[1..], e, caps); }
    } else {
      assert |p| > 1;
      var j :| i < j <= |s| && AllDigits(s[i..j]) && caps[0] == DigitsValue(s[i..j])
               && Matches(s, j, p[1..], e, caps[1..]);
      RunEndsAtLiteral(s, i, j, p);
      assert DigitRunEnd(s, i) == j;
      MatchAtExact(s, j, p[1..], e, caps[1..]);
      NumStep(s, i, j, p, e, caps);
    }
  }

  /** The greedy matcher at a digit run that ends at `j`, where the rest of
      the pattern gives `(e, caps[1..])`. */
  lemma NumStep(s: string, i: nat, j: nat, p: Pattern, e: nat, caps: seq<nat>)
    requires i < j <= |s| && p != [] && p[0].Num? && caps != []
    requires DigitRunEnd(s, i) == j && AllDigits(s[i..j]) && caps[0] == DigitsValue(s[i..j])
    requires MatchAt(s, j, p[1..]) == Some((e, caps[1..]))
    ensures MatchAt(s, i, p) == Some((e, caps))
  {
    assert caps == [caps[0]] + caps[1..];
  }

  /** A pattern that ends with `(\d+)` takes the whole digit run: the match
      ends at the end of the line or before a non-digit, as the greedy `\d+`
      of `re.search` does. */
  lemma {:induction false} MatchAtMaximal(s: string, i: nat, p: Pattern)
    requires i <= |s| && p != [] && p[|p| - 1].Num? && MatchAt(s, i, p).Some?
    ensures var e := MatchAt(s, i, p).value.0; e == |s| || !IsDigit(s[e])
    decreases |p|
  {
    if |p| > 1 {
      assert p[1..][|p[1..]| - 1] == p[|p| - 1];
      match p[0]
      case Lit(t) =>
        MatchAtMaximal(s, i + |t|, p[1..]);
      case Num =>
        var j := DigitRunEnd(s, i);
        MatchAtMaximal(s, j, p[1..]);
    }
  }

  /** A digit run of a match can only end where the digits end, unless it
      ends the pattern. */
  lemma RunEndsAtLiteral(s: string, i: nat, j: nat, p: Pattern)
    requires WellFormed(p) && p != [] && p[0].Num?
    requires i < j <= |s| && AllDigits(s[i..j])
    requires exists e, caps :: Matches(s, j, p[1..], e, caps)
    ensures j <= DigitRunEnd(s, i)
    ensures |p| > 1 ==> j == DigitRunEnd(s, i)
  {
    var jm := DigitRunEnd(s, i);
    forall k | i <= k < j ensures IsDigit(s[k]) {
      assert s[i..j][k - i] == s[k];
    }
    if |p| > 1 {
      var e, caps :| Matches(s, j, p[1..], e, caps);
      var t := p[1].text;
      assert p[1..][0] == p[1];
      assert OccursAt(s, t, j);
      assert s[j] == s[j..j + |t|][0];
      assert !IsDigit(s[j]);
    }
  }

  /** `re.search`: the leftmost position at or after `i` where `p` matches,
      with the numbers it captured. */
  function SearchFrom(s: string, p: Pattern, i: nat): (r: Option<(nat, seq<nat>)>)
    requires i <= |s|
    ensures r.Some? ==> i <= r.value.0 <= |s| && MatchAt(s, r.value.0, p).Some?
                        && r.value.1 == MatchAt(s, r.value.0, p).value.1
    ensures r.Some? ==> forall k :: i <= k < r.value.0 ==> MatchAt(s, k, p).None?
    ensures r.None? ==> forall k :: i <= k <= |s| ==> MatchAt(s, k, p).None?
    decreases |s| - i
  {
    match MatchAt(s, i, p)
    case Some(m) => Some((i, m.1))
    case None => if i == |s| then None else SearchFrom(s, p, i + 1)
  }

  /** The numbers `re.search(p, s)` captures, or `None` when it finds nothing. */
  function Found(s: string, p: Pattern): (r: Option<seq<nat>>)
    ensures r.Some? ==> |r.value| == NumCount(p)
  {
    match SearchFrom(s, p, 0)
    case Some(m) => Some(m.1)
    case None => None
  }

  /** `Found` answers exactly the question `re.search` asks: is there a
      match anywhere in the line. */
  lemma FoundIff(s: string, p: Pattern)
    requires WellFormed(p)
    ensures Found(s, p).Some? <==> exists i: nat, e: nat, caps: seq<nat> :: i <= |s| && Matches(s, i, p, e, caps)
  {
    if Found(s, p).Some? {
      var i := SearchFrom(s, p, 0).value.0;
      MatchAtSound(s, i, p);
      var m := MatchAt(s, i, p).value;
      assert i <= |s| && Matches(s, i, p, m.0, m.1);
    }
    if exists i: nat, e: nat, caps: seq<nat> :: i <= |s| && Matches(s, i, p, e, caps) {
      var i: nat, e: nat, caps: seq<nat> :| i <= |s| && Matches(s, i, p, e, caps);
      MatchAtComplete(s, i, p, e, caps);
    }
  }

  /** For a pattern that ends with a literal, `Found` gives exactly the
      numbers of the leftmost match of the expression. */
  lemma FoundExact(s: string, p: Pattern, i: nat, e: nat, caps: seq<nat>)
    requires WellFormed(p) && Closed(p) && Matches(s, i, p, e, caps)
    requires forall k: nat, e': nat, c': seq<nat> :: k < i ==> !Matches(s, k, p, e', c')
    ensures Found(s, p) == Some(caps)
  {
    MatchAtExact(s, i, p, e, caps);
    var r := SearchFrom(s, p, 0);
    assert r.Some?;
    var k := r.value.0;
    if k < i {
      MatchAtSound(s, k, p);
    }
    assert k == i;
    assert r.value.1 == caps;
  }

  /** The first line that `p` matches, with the numbers captured there. */
  function FirstMatch(lines: seq<string>, p: Pattern): (r: Option<(nat, seq<nat>)>)
    ensures r.Some? ==> r.value.0 < |lines| && Found(lines[r.value.0], p) == Some(r.value.1)
    ensures r.Some? ==> forall k :: 0 <= k < r.value.0 ==> Found(lines[k], p).None?
    ensures r.None? ==> forall k :: 0 <= k < |lines| ==> Found(lines[k], p).None?
  {
    if lines == [] then None
    else match Found(lines[0], p)
      case Some(caps) => Some((0, caps))
      case None =>
        match FirstMatch(lines[1..], p)
        case None => None
        case Some(m) => Some((m.0 + 1, m.1))
  }

  /** Lines added after a matching line are never looked at; lines added
      after lines that do not match are searched as if on their own. */
  lemma {:induction false} FirstMatchAppend(lines: seq<string>, more: seq<string>, p: Pattern)
    ensures FirstMatch(lines, p).Some? ==> FirstMatch(lines + more, p) == FirstMatch(lines, p)
    ensures FirstMatch(lines, p).None? && FirstMatch(more, p).Some? ==>
      var m := FirstMatch(more, p).value; FirstMatch(lines + more, p) == Some((m.0 + |lines|, m.1))
    ensures FirstMatch(lines, p).None? && FirstMatch(more, p).None? ==> FirstMatch(lines + more, p).None?
  {
    if lines == [] {
      assert lines + more == more;
    } else {
      assert (lines + more)[0] == lines[0];
      assert (lines + more)[1..] == lines[1..] + more;
      FirstMatchAppend(lines[1..], more, p);
    }
  }

  // The patterns of translator.py.

  const HpPattern: Pattern := TwoNumbers("ＨＰ：", "／", "（緑）")
  const MpPattern: Pattern := TwoNumbers("ＭＰ：", "／", "（青）")
  const SpShortPattern: Pattern := TwoNumbers("ＳＰ：", "／", "（黄）")
  /** The long-term stamina line has no label of its own. */
  const SpLongPattern: Pattern := TwoNumbers("：", "／", "（赤）")
  const LevelPattern: Pattern := [Lit("ＬＶ"), Num]
  const AvgOffensePattern: Pattern := [Lit("平均攻撃能力："), Num]
  const AvgDefensePattern: Pattern := [Lit("平均防御能力："), Num]
  const AvgMagicPattern: Pattern := [Lit("平均魔法能力："), Num]
  const AvgResistPattern: Pattern := [Lit("平均抵抗能力："), Num]
  const AvgSpeedPattern: Pattern := [Lit("平均速度能力："), Num]
  const SkillPointsPattern: Pattern := [Lit("スキルポイント："), Num]
  /** `＋(\d+)` */
  const PlusPattern: Pattern := [Lit("＋"), Num]
  /** `\((\d+)up\)` */
  const UpPattern: Pattern := [Lit("("), Num, Lit("up)")]

  /** `<a>(\d+)<b>(\d+)<c>` */
  function TwoNumbers(a: string, b: string, c: string): Pattern {
    [Lit(a), Num, Lit(b), Num, Lit(c)]
  }

  lemma TwoNumbersWellFormed(a: string, b: string, c: string)
    requires a != [] && b != [] && c != [] && !IsDigit(b[0]) && !IsDigit(c[0])
    ensures WellFormed(TwoNumbers(a, b, c)) && Closed(TwoNumbers(a, b, c))
    ensures NumCount(TwoNumbers(a, b, c)) == 2
  {
    var p := TwoNumbers(a, b, c);
    var q1, q2, q3, q4 := [Num, Lit(b), Num, Lit(c)], [Lit(b), Num, Lit(c)], [Num, Lit(c)], [Lit(c)];
    assert p[1..] == q1 && q1[1..] == q2 && q2[1..] == q3 && q3[1..] == q4 && q4[1..] == [];
    assert NumCount(q4) == 0;
    assert NumCount(q3) == 1;
    assert NumCount(q2) == 1;
    assert NumCount(q1) == 2;
  }

  lemma OneNumberWellFormed(a: string)
    requires a != []
    ensures WellFormed([Lit(a), Num]) && NumCount([Lit(a), Num]) == 1
  {
    var p, q := [Lit(a), Num], [Num];
    assert p[1..] == q && q[1..] == [];
    assert NumCount(q) == 1;
  }

  /** The stat patterns capture two numbers and end with a literal; the
      others capture one. */
  lemma StatPatternsWellFormed()
    ensures WellFormed(HpPattern) && Closed(HpPattern) && NumCount(HpPattern) == 2
    ensures WellFormed(MpPattern) && Closed(MpPattern) && NumCount(MpPattern) == 2
    ensures WellFormed(SpShortPattern) && Closed(SpShortPattern) && NumCount(SpShortPattern) == 2
    ensures WellFormed(SpLongPattern) && Closed(SpLongPattern) && NumCount(SpLongPattern) == 2
  {
    TwoNumbersWellFormed("ＨＰ：", "／", "（緑）");
    TwoNumbersWellFormed("ＭＰ：", "／", "（青）");
    TwoNumbersWellFormed("ＳＰ：", "／", "（黄）");
    TwoNumbersWellFormed("：", "／", "（赤）");
  }

  lemma UpPatternWellFormed()
    ensures WellFormed(UpPattern) && Closed(UpPattern) && NumCount(UpPattern) == 1
  {
    assert UpPattern[1..][1..][1..] == [];
  }

  lemma AttrPatternsWellFormed()
    ensures WellFormed(PlusPattern) && NumCount(PlusPattern) == 1
    ensures WellFormed(LevelPattern) && NumCount(LevelPattern) == 1
    ensures WellFormed(AvgOffensePattern) && NumCount(AvgOffensePattern) == 1
    ensures WellFormed(AvgDefensePattern) && NumCount(AvgDefensePattern) == 1
    ensures WellFormed(AvgMagicPattern) && NumCount(AvgMagicPattern) == 1
    ensures WellFormed(AvgResistPattern) && NumCount(AvgResistPattern) == 1
    ensures WellFormed(AvgSpeedPattern) && NumCount(AvgSpeedPattern) == 1
    ensures WellFormed(SkillPointsPattern) && NumCount(SkillPointsPattern) == 1
  {
    OneNumberWellFormed("＋");
    OneNumberWellFormed("ＬＶ");
    OneNumberWellFormed("平均攻撃能力：");
    OneNumberWellFormed("平均防御能力：");
    OneNumberWellFormed("平均魔法能力：");
    OneNumberWellFormed("平均抵抗能力：");
    OneNumberWellFormed("平均速度能力：");
    OneNumberWellFormed("スキルポイント：");
  }
}
