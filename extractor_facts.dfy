/** Properties of the extractor that relate several of its definitions:
    first match wins, which lines each key is read from, the shape of the
    skill and title lists, and the words left untranslated. */
module ExtractorFacts {
  import opened Wrappers
  import opened Text
  import opened Patterns
  import opened Record
  import Store
  import opened Extractor

  /** `match_attrib_2` over more lines: once a line matches, later lines
      change nothing; if none matches, the added lines are searched alone. */
  lemma ScanStatAppend(lines: seq<string>, more: seq<string>, p: Pattern)
    requires NumCount(p) == 2
    ensures ScanStat(lines + more, p) == if ScanStat(lines, p).Some? then ScanStat(lines, p) else ScanStat(more, p)
  {
    FirstMatchAppend(lines, more, p);
    match FirstMatch(lines, p)
    case Some(m) =>
      assert (lines + more)[m.0] == lines[m.0];
    case None =>
      match FirstMatch(more, p)
      case Some(m) =>
        assert (lines + more)[m.0 + |lines|] == more[m.0];
      case None =>
  }

  /** The same for `match_attrib_1`. */
  lemma ScanAttrAppend(lines: seq<string>, more: seq<string>, p: Pattern)
    requires NumCount(p) == 1
    ensures ScanAttr(lines + more, p) == if ScanAttr(lines, p).Some? then ScanAttr(lines, p) else ScanAttr(more, p)
  {
    FirstMatchAppend(lines, more, p);
    match FirstMatch(lines, p)
    case Some(m) =>
      assert (lines + more)[m.0] == lines[m.0];
    case None =>
      match FirstMatch(more, p)
      case Some(m) =>
        assert (lines + more)[m.0 + |lines|] == more[m.0];
      case None =>
  }

  /** After the four `match_attrib_2` calls a stat is present exactly when
      its pattern matched some line, and it holds that first match. */
  lemma StatsOfKeys(lines: seq<string>)
    ensures forall k: StatKind :: k in StatsOf(lines) <==> ScanStat(lines, StatPattern(k)).Some?
    ensures forall k: StatKind :: k in StatsOf(lines) ==> StatsOf(lines)[k] == ScanStat(lines, StatPattern(k)).value
  {
    StatPatternsWellFormed();
    forall k: StatKind
      ensures (k in StatsOf(lines) <==> ScanStat(lines, StatPattern(k)).Some?)
      ensures k in StatsOf(lines) ==> StatsOf(lines)[k] == ScanStat(lines, StatPattern(k)).value
    {
      StatAt(lines, k);
    }
  }

  lemma StatAt(lines: seq<string>, k: StatKind)
    ensures (k in StatsOf(lines) <==> ScanStat(lines, StatPattern(k)).Some?)
    ensures k in StatsOf(lines) ==> StatsOf(lines)[k] == ScanStat(lines, StatPattern(k)).value
  {
    StatPatternsWellFormed();
    var v := map j: StatKind :: ScanStat(lines, StatPattern(j));
    assert v[Hp] == ScanStat(lines, HpPattern) && v[Mp] == ScanStat(lines, MpPattern);
    assert v[SpShort] == ScanStat(lines, SpShortPattern) && v[SpLong] == ScanStat(lines, SpLongPattern);
    PutStatsKey(v, k);
  }

  lemma PutStatsKey(v: map<StatKind, Option<Stat>>, k: StatKind)
    requires forall j :: j in v
    ensures var m := Put(Put(Put(Put(map[], Hp, v[Hp]), Mp, v[Mp]), SpShort, v[SpShort]), SpLong, v[SpLong]);
      (k in m <==> v[k].Some?) && (k in m ==> m[k] == v[k].value)
  {
  }

  /** The lines `parse` hands to `match_attrib_1` for each attribute: the
      title line for the level, all lines for the rest. */
  function AttrLines(lines: seq<string>, k: AttrKind): (r: seq<string>)
    requires lines != []
    ensures r != [] && r[0] == lines[0] && r <= lines
  {
    if k == Level then [lines[0]] else lines
  }

  /** After the seven `match_attrib_1` calls an attribute is present
      exactly when its pattern matched one of its lines, and it holds that
      first match. */
  lemma AttrsOfKeys(lines: seq<string>)
    requires lines != []
    ensures forall k: AttrKind :: k in AttrsOf(lines) <==> ScanAttr(AttrLines(lines, k), AttrPattern(k)).Some?
    ensures forall k: AttrKind :: k in AttrsOf(lines) ==> AttrsOf(lines)[k] == ScanAttr(AttrLines(lines, k), AttrPattern(k)).value
  {
    AttrPatternsWellFormed();
    forall k: AttrKind
      ensures (k in AttrsOf(lines) <==> ScanAttr(AttrLines(lines, k), AttrPattern(k)).Some?)
      ensures k in AttrsOf(lines) ==> AttrsOf(lines)[k] == ScanAttr(AttrLines(lines, k), AttrPattern(k)).value
    {
      AttrAt(lines, k);
    }
  }

  lemma AttrAt(lines: seq<string>, k: AttrKind)
    requires lines != []
    ensures (k in AttrsOf(lines) <==> ScanAttr(AttrLines(lines, k), AttrPattern(k)).Some?)
    ensures k in AttrsOf(lines) ==> AttrsOf(lines)[k] == ScanAttr(AttrLines(lines, k), AttrPattern(k)).value
  {
    AttrPatternsWellFormed();
    var v := map j: AttrKind :: ScanAttr(AttrLines(lines, j), AttrPattern(j));
    assert v[Level] == ScanAttr([lines[0]], LevelPattern);
    assert v[AvgOffense] == ScanAttr(lines, AvgOffensePattern) && v[AvgDefense] == ScanAttr(lines, AvgDefensePattern);
    assert v[AvgMagic] == ScanAttr(lines, AvgMagicPattern) && v[AvgResist] == ScanAttr(lines, AvgResistPattern);
    assert v[AvgSpeed] == ScanAttr(lines, AvgSpeedPattern) && v[SkillPoints] == ScanAttr(lines, SkillPointsPattern);
    PutAttrsKey(v, k);
  }

  lemma PutAttrsKey(v: map<AttrKind, Option<Attr>>, k: AttrKind)
    requires forall j :: j in v
    ensures var m := Put(Put(Put(Put(Put(Put(Put(map[],
               Level, v[Level]), AvgOffense, v[AvgOffense]), AvgDefense, v[AvgDefense]), AvgMagic, v[AvgMagic]),
               AvgResist, v[AvgResist]), AvgSpeed, v[AvgSpeed]), SkillPoints, v[SkillPoints]);
      (k in m <==> v[k].Some?) && (k in m ==> m[k] == v[k].value)
  {
  }

  /** The level, with its `＋` and `up` numbers, comes from the title line
      alone. */
  lemma LevelFromTitle(lines: seq<string>)
    requires lines != []
    ensures Level in AttrsOf(lines) <==> Found(lines[0], LevelPattern).Some?
    ensures Level in AttrsOf(lines) ==>
      AttrsOf(lines)[Level] == Attr(Found(lines[0], LevelPattern).value[0], PlusOf(lines[0]), UpOf(lines[0]))
  {
    AttrAt(lines, Level);
    assert AttrLines(lines, Level) == [lines[0]];
  }

  /** Two texts with the same title line get the same level, whatever
      their other lines say. */
  lemma LevelIgnoresOtherLines(lines: seq<string>, other: seq<string>)
    requires lines != [] && other != [] && lines[0] == other[0]
    ensures Level in AttrsOf(lines) <==> Level in AttrsOf(other)
    ensures Level in AttrsOf(lines) ==> AttrsOf(lines)[Level] == AttrsOf(other)[Level]
  {
    LevelFromTitle(lines);
    LevelFromTitle(other);
  }

  /** One entry of a skill or title line: it has a level exactly when the
      piece is a skill whose name is followed by `ＬＶ` and a digit, and
      then its name is the translated text before the last such `ＬＶ`;
      `up` and `new` are read from every piece, whichever name was taken. */
  lemma EntryFacts(d: map<string, string>, s: string, withLevel: bool)
    ensures var e := EntryOf(d, s, withLevel);
      (e.level.Some? <==> withLevel && exists j: nat :: LvAt(s, j))
      && (e.level.Some? ==> e.name == Store.TranslateWord(d, s[..LastLv(s).value]) && s[..LastLv(s).value] != [])
      && (e.up.Some? <==> Found(s, UpPattern).Some?)
      && (e.isNew <==> Contains(s, "(new)"))
  {
  }

  /** The `skills` or `titles` key, when set: one entry per `」「`-separated
      piece of the non-empty line after the first line holding the marker,
      in order. */
  lemma ListShape(d: map<string, string>, lines: seq<string>, marker: string, withLevel: bool)
    requires ListOf(d, lines, marker, withLevel).Some?
    ensures var k := FirstHolding(lines, marker).value;
      var ps := Split(lines[k + 1], EntrySeparator);
      var es := ListOf(d, lines, marker, withLevel).value;
      k + 1 < |lines| && lines[k + 1] != [] && |es| == |ps|
      && forall i :: 0 <= i < |es| ==> es[i] == EntryOf(d, Bracketless(ps[i]), withLevel)
  {
  }

  /** No title has a level. */
  lemma TitlesHaveNoLevel(d: map<string, string>, lines: seq<string>)
    requires ListOf(d, lines, TitleMarker, false).Some?
    ensures forall e :: e in ListOf(d, lines, TitleMarker, false).value ==> e.level.None?
  {
    var es := ListOf(d, lines, TitleMarker, false).value;
    forall e | e in es ensures e.level.None? {
      var i :| 0 <= i < |es| && es[i] == e;
      EntryFacts(d, Bracketless(Split(ListLine(lines, TitleMarker).value, EntrySeparator)[i]), false);
    }
  }

  /** The skill-points line holds `スキル`, so when it comes before every
      other line holding it, the skill list is read from the line after the
      skill points. */
  lemma SkillPointsLineFirst(lines: seq<string>, k: nat)
    requires k + 1 < |lines| && Contains(lines[k], "スキルポイント")
    requires forall j :: 0 <= j < k ==> !Contains(lines[j], SkillMarker)
    ensures ListLine(lines, SkillMarker) == Some(lines[k + 1])
  {
    ContainsPrefix(lines[k], "スキルポイント", SkillMarker);
    var f := FirstHolding(lines, SkillMarker);
    assert f.Some? && f.value == k;
  }

  /** A word is missing after `parse` exactly when it was missing before,
      or it is one of the words `parse` hands to `translate`, with its
      ideographic spaces made ASCII, and has no entry. */
  lemma ParseMissing(d: map<string, string>, before: set<string>, text: string, m: string)
    ensures var ws := ParseWords(text);
      m in before + Store.MissesOf(d, ws)
      <==> m in before || (m !in d && exists i :: 0 <= i < |ws| && Store.Normalize(ws[i]) == m)
  {
    Store.MissesOfExactly(d, ParseWords(text), m);
  }

  /** `parse` fails with `ValueError` exactly when there is a second line
      and it does not name the statistics, and with `IndexError` exactly
      when the prepared text has no line at all. */
  lemma ExtractFails(d: map<string, string>, text: string)
    ensures var lines := LinesOf(text);
      (Extract(d, text) == Failure(NotAnAppraisal) <==> |lines| > 1 && !Contains(lines[1], Statistics))
      && (Extract(d, text) == Failure(EmptyText) <==> lines == [])
  {
  }
}
