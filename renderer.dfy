/** The report writer of translator.py (translator.py:265-407): the parsed
    appraisal rendered as plain text or as a markdown quote, written step by
    step to an output buffer. The command-line flags `--md`,
    `--split_skills` and `--split_titles` are the parameters `md`,
    `splitSkills` and `splitTitles`. */
module Renderer {
  import opened Wrappers
  import opened Text
  import opened Record

  const NoBreakSpace: char := '\U{A0}'
  const NoBreakHyphen: char := '\U{2011}'

  // ---------------------------------------------------------------------
  // print_stat, print_attr

  /** The ` +N` part, when the `_plus` key is set. */
  function PlusText(plus: Option<nat>): string {
    match plus
    case Some(n) => " +" + NatStr(n)
    case None => ""
  }

  /** The ` (N up)` part, when the `_up` key is set. */
  function UpText(up: Option<nat>): string {
    match up
    case Some(n) => " (" + NatStr(n) + " up)"
    case None => ""
  }

  /** `print_stat`: `current/maximum (color)`, then the plus and up parts. */
  function PrintStat(s: Stat, color: string): string {
    NatStr(s.current) + "/" + NatStr(s.maximum) + " (" + color + ")" + PlusText(s.plus) + UpText(s.up)
  }

  /** `print_attr`: `name: value`, then the plus and up parts. */
  function PrintAttr(a: Attr, name: string): string {
    name + ": " + NatStr(a.value) + PlusText(a.plus) + UpText(a.up)
  }

  /** A digit string holds no `+`. */
  lemma DigitsHaveNoPlus(n: nat)
    ensures '+' !in NatStr(n)
  {
    var r := NatStr(n);
    forall k | 0 <= k < |r| ensures r[k] != '+' {
      assert IsDigit(r[k]);
    }
  }

  lemma UpHasNoPlus(up: Option<nat>)
    ensures '+' !in UpText(up)
  {
    if up.Some? {
      DigitsHaveNoPlus(up.value);
    }
  }

  /** A stat shows a `+` exactly when its `_plus` key is set. */
  lemma StatPlusIff(s: Stat, color: string)
    requires '+' !in color
    ensures '+' in PrintStat(s, color) <==> s.plus.Some?
  {
    DigitsHaveNoPlus(s.current);
    DigitsHaveNoPlus(s.maximum);
    UpHasNoPlus(s.up);
    if s.plus.Some? {
      assert PlusText(s.plus)[1] == '+';
    }
  }

  /** An attribute shows a `+` exactly when its `_plus` key is set. */
  lemma AttrPlusIff(a: Attr, name: string)
    requires '+' !in name
    ensures '+' in PrintAttr(a, name) <==> a.plus.Some?
  {
    DigitsHaveNoPlus(a.value);
    UpHasNoPlus(a.up);
    if a.plus.Some? {
      assert PlusText(a.plus)[1] == '+';
    }
  }

  // ---------------------------------------------------------------------
  // print_skill_or_title

  /** The bracketed entry before its spaces and hyphens are replaced. */
  function RawEntry(e: Entry): string {
    "[" + e.name + LevelText(e.level) + EntryUpText(e.up) + (if e.isNew then " (new)" else "") + "]"
  }

  function LevelText(level: Option<nat>): string {
    match level case Some(l) => " (LV " + NatStr(l) + ")" case None => ""
  }

  function EntryUpText(up: Option<nat>): string {
    match up case Some(u) => " (" + NatStr(u) + "up)" case None => ""
  }

  /** Spaces become no-break spaces, then hyphens no-break hyphens. */
  function Escape(s: string): string {
    ReplaceChar(ReplaceChar(s, ' ', NoBreakSpace), '-', NoBreakHyphen)
  }

  /** The inverse of `Escape` on text that held neither replacement. */
  function Unescape(s: string): string {
    ReplaceChar(ReplaceChar(s, NoBreakHyphen, '-'), NoBreakSpace, ' ')
  }

  /** `print_skill_or_title`. */
  function PrintSkillOrTitle(e: Entry): string {
    Escape(RawEntry(e))
  }

  /** A rendered entry is one bracketed word: it starts with `[`, ends with
      `]`, and holds no ASCII space and no hyphen, so a line never breaks
      inside it. */
  lemma ShownEntry(e: Entry)
    ensures var r := PrintSkillOrTitle(e);
      |r| == |RawEntry(e)| && r[0] == '[' && r[|r| - 1] == ']' && ' ' !in r && '-' !in r
  {
    var raw := RawEntry(e);
    var r := PrintSkillOrTitle(e);
    assert raw[0] == '[' && raw[|raw| - 1] == ']';
    assert r[0] == '[' && r[|r| - 1] == ']';
    forall k | 0 <= k < |r| ensures r[k] != ' ' && r[k] != '-' {
    }
  }

  /** Nothing is lost by the replacement when the text held no no-break
      space and no no-break hyphen. */
  lemma EscapeRoundTrip(s: string)
    requires NoBreakSpace !in s && NoBreakHyphen !in s
    ensures Unescape(Escape(s)) == s
  {
    var r := Unescape(Escape(s));
    assert |r| == |s|;
    forall k | 0 <= k < |s| ensures r[k] == s[k] {
    }
  }

  lemma DigitsPlain(n: nat)
    ensures NoBreakSpace !in NatStr(n) && NoBreakHyphen !in NatStr(n)
  {
    var r := NatStr(n);
    forall k | 0 <= k < |r| ensures r[k] != NoBreakSpace && r[k] != NoBreakHyphen {
      assert IsDigit(r[k]);
    }
  }

  /** The rendered entry gives back name, level, up and new: unescaped, it
      is the bracketed entry, when the name held neither replacement. */
  lemma ShownEntryRoundTrip(e: Entry)
    requires NoBreakSpace !in e.name && NoBreakHyphen !in e.name
    ensures Unescape(PrintSkillOrTitle(e)) == RawEntry(e)
  {
    var lv, up := LevelText(e.level), EntryUpText(e.up);
    var nw := if e.isNew then " (new)" else "";
    if e.level.Some? {
      DigitsPlain(e.level.value);
      PlainAppend(" (LV " + NatStr(e.level.value), ")");
    }
    if e.up.Some? {
      DigitsPlain(e.up.value);
      PlainAppend(" (" + NatStr(e.up.value), "up)");
    }
    PlainAppend("[", e.name);
    PlainAppend("[" + e.name, lv);
    PlainAppend("[" + e.name + lv, up);
    PlainAppend("[" + e.name + lv + up, nw);
    PlainAppend("[" + e.name + lv + up + nw, "]");
    EscapeRoundTrip(RawEntry(e));
  }

  /** Text holding neither no-break character. */
  predicate Plain(s: string) {
    NoBreakSpace !in s && NoBreakHyphen !in s
  }

  lemma PlainAppend(a: string, b: string)
    requires Plain(a) && Plain(b)
    ensures Plain(a + b)
  {
  }

  // ---------------------------------------------------------------------
  // '{:,}'.format

  /** Three digits, with leading zeros. */
  function Pad3(r: nat): string
    requires r < 1000
  {
    [DigitChar(r / 100), DigitChar(r / 10 % 10), DigitChar(r % 10)]
  }

  /** `'{:,}'.format(n)`: decimal digits in groups of three, separated by
      commas. */
  function Grouped(n: nat): string
    decreases n
  {
    if n < 1000 then NatStr(n) else Grouped(n / 1000) + "," + Pad3(n % 1000)
  }

  lemma NatStrThousands(n: nat)
    requires n >= 1000
    ensures NatStr(n) == NatStr(n / 1000) + Pad3(n % 1000)
  {
    var r := n % 1000;
    ThousandsDigits(n);
    assert NatStr(n) == NatStr(n / 10) + [DigitChar(n % 10)];
    assert NatStr(n / 10) == NatStr(n / 100) + [DigitChar(n / 10 % 10)];
    assert NatStr(n / 100) == NatStr(n / 1000) + [DigitChar(r / 100)];
  }

  lemma ThousandsDigits(n: nat)
    requires n >= 1000
    ensures n / 10 >= 10 && n / 100 >= 10
    ensures (n / 10) / 10 == n / 100 && (n / 100) / 10 == n / 1000
    ensures (n / 10) % 10 == n % 1000 / 10 % 10 && n % 10 == n % 1000 % 10 && (n / 100) % 10 == n % 1000 / 100
  {
    var q, r := n / 1000, n % 1000;
    assert n == 1000 * q + r;
    assert n / 10 == 100 * q + r / 10;
    assert n / 100 == 10 * q + r / 100;
  }

  /** Removing the commas gives back `'%d' % n`. */
  lemma {:induction false} GroupedDigits(n: nat)
    ensures RemoveChar(Grouped(n), ',') == NatStr(n)
    decreases n
  {
    if n < 1000 {
      DigitsAreNotCommas(NatStr(n));
      RemoveAbsentChar(NatStr(n), ',');
    } else {
      GroupedDigits(n / 1000);
      var p := Pad3(n % 1000);
      DigitsAreNotCommas(p);
      RemoveComma(Grouped(n / 1000), p);
      NatStrThousands(n);
    }
  }

  lemma RemoveComma(a: string, p: string)
    requires ',' !in p
    ensures RemoveChar(a + "," + p, ',') == RemoveChar(a, ',') + p
  {
    RemoveAbsentChar(p, ',');
    RemoveCharAppend(a + ",", p, ',');
    RemoveCharAppend(a, ",", ',');
    var c: string := ",";
    assert c[1..] == [];
    assert RemoveChar(c, ',') == [];
    assert RemoveChar(a, ',') + [] == RemoveChar(a, ',');
  }

  lemma DigitsAreNotCommas(s: string)
    requires AllDigits(s)
    ensures ',' !in s
  {
    forall k | 0 <= k < |s| ensures s[k] != ',' {
      assert IsDigit(s[k]);
    }
  }

  // ---------------------------------------------------------------------
  // md_quote, md_break, stat_line

  /** `times` copies of `> `. */
  function QuoteMarks(times: nat): (r: string)
    ensures |r| == 2 * times
    ensures forall k :: 0 <= k < |r| ==> r[k] == if k % 2 == 0 then '>' else ' '
  {
    if times == 0 then "" else QuoteMarks(times - 1) + "> "
  }

  /** What `md_quote` writes: quote marks in markdown mode, nothing in
      plain mode. */
  function QuoteText(md: bool, times: nat): string {
    if md then QuoteMarks(times) else ""
  }

  /** What `md_break` writes: two spaces before the newline in markdown
      mode. */
  function BreakText(md: bool): string {
    if md then "  \n" else "\n"
  }

  /** What `stat_line` writes. */
  function StatLineText(md: bool, s: string): string {
    QuoteText(md, 2) + s + BreakText(md)
  }

  /** In plain mode the markup is reduced to the newline. */
  lemma PlainMarkup(times: nat, s: string)
    ensures QuoteText(false, times) == "" && BreakText(false) == "\n"
    ensures StatLineText(false, s) == s + "\n"
  {
  }

  // ---------------------------------------------------------------------
  // The parts of print_output

  /** The header line: kind, level and name, separated by U+2015. */
  function HeaderText(p: Appraisal, md: bool): string {
    QuoteText(md, 1) + p.kind + LevelPart(p) + NamePart(p) + BreakText(md)
  }

  function LevelPart(p: Appraisal): string {
    if Level in p.attrs then " \U{2015} LV " + NatStr(p.attrs[Level].value) else ""
  }

  function NamePart(p: Appraisal): string {
    match p.name case Some(n) => " \U{2015} " + n case None => ""
  }

  /** The `Statistics:` line, with the summary word when there is one. */
  function StatisticsText(p: Appraisal, md: bool): string {
    QuoteText(md, 1) + "Statistics:" + SummaryPart(p) + BreakText(md)
  }

  function SummaryPart(p: Appraisal): string {
    match p.statsSummary case Some(w) => " " + w case None => ""
  }

  function AttrContent(p: Appraisal, k: AttrKind, name: string): (r: seq<string>)
    requires name != []
    ensures forall c :: c in r ==> c != [] && c[0] == name[0]
  {
    if k in p.attrs then [PrintAttr(p.attrs[k], name)] else []
  }

  /** The contents of the stat lines, in the order `print_output` writes
      them: HP, MP, SP (both stamina stats on one line), then the five
      averages. */
  function StatContents(p: Appraisal): seq<string> {
    HpContent(p) + MpContent(p) + SpContent(p) + AverageContents(p)
  }

  function HpContent(p: Appraisal): seq<string> {
    if Hp in p.stats then ["HP: " + PrintStat(p.stats[Hp], "green")] else []
  }

  function MpContent(p: Appraisal): seq<string> {
    if Mp in p.stats then ["MP: " + PrintStat(p.stats[Mp], "blue")] else []
  }

  function SpContent(p: Appraisal): seq<string> {
    if SpShort in p.stats && SpLong in p.stats
    then ["SP: " + PrintStat(p.stats[SpShort], "yellow") + ", " + PrintStat(p.stats[SpLong], "red")]
    else []
  }

  function AverageContents(p: Appraisal): (r: seq<string>)
    ensures forall c :: c in r ==> c != [] && c[0] == 'A'
  {
    AttrContent(p, AvgOffense, "Avg. Offense")
    + AttrContent(p, AvgDefense, "Avg. Defense")
    + AttrContent(p, AvgMagic, "Avg. Magic Power")
    + AttrContent(p, AvgResist, "Avg. Resistance")
    + AttrContent(p, AvgSpeed, "Avg. Speed")
  }

  /** Lines written one `stat_line` after another. */
  function Framed(md: bool, cs: seq<string>): string {
    Concat(StatLines(md, cs))
  }

  function StatLines(md: bool, cs: seq<string>): (r: seq<string>)
    ensures |r| == |cs| && forall k :: 0 <= k < |cs| ==> r[k] == StatLineText(md, cs[k])
  {
    seq(|cs|, k requires 0 <= k < |cs| => StatLineText(md, cs[k]))
  }

  lemma FramedAppend(md: bool, a: seq<string>, b: seq<string>)
    ensures Framed(md, a + b) == Framed(md, a) + Framed(md, b)
  {
    assert StatLines(md, a + b) == StatLines(md, a) + StatLines(md, b);
    ConcatAppend(StatLines(md, a), StatLines(md, b));
  }

  /** One line or none, as the `if` around each `stat_line` call writes. */
  lemma FramedOne(md: bool, cs: seq<string>)
    requires |cs| <= 1
    ensures Framed(md, cs) == if cs == [] then "" else StatLineText(md, cs[0])
  {
    if cs != [] {
      assert StatLines(md, cs) == [StatLineText(md, cs[0])];
      assert Concat(StatLines(md, cs)[1..]) == "";
    }
  }

  /** The stat lines split the way `print_output` writes them. */
  lemma StatParts(md: bool, p: Appraisal)
    ensures Framed(md, StatContents(p))
      == Framed(md, HpContent(p)) + Framed(md, MpContent(p)) + Framed(md, SpContent(p)) + Framed(md, AverageContents(p))
  {
    var hp, mp, sp, av := HpContent(p), MpContent(p), SpContent(p), AverageContents(p);
    FramedAppend(md, hp + mp + sp, av);
    FramedAppend(md, hp + mp, sp);
    FramedAppend(md, hp, mp);
  }

  lemma AverageParts(md: bool, p: Appraisal)
    ensures Framed(md, AverageContents(p))
      == Framed(md, AttrContent(p, AvgOffense, "Avg. Offense"))
      + Framed(md, AttrContent(p, AvgDefense, "Avg. Defense"))
      + Framed(md, AttrContent(p, AvgMagic, "Avg. Magic Power"))
      + Framed(md, AttrContent(p, AvgResist, "Avg. Resistance"))
      + Framed(md, AttrContent(p, AvgSpeed, "Avg. Speed"))
  {
    var a := AttrContent(p, AvgOffense, "Avg. Offense");
    var b := AttrContent(p, AvgDefense, "Avg. Defense");
    var c := AttrContent(p, AvgMagic, "Avg. Magic Power");
    var d := AttrContent(p, AvgResist, "Avg. Resistance");
    var e := AttrContent(p, AvgSpeed, "Avg. Speed");
    FramedAppend(md, a + b + c + d, e);
    FramedAppend(md, a + b + c, d);
    FramedAppend(md, a + b, c);
    FramedAppend(md, a, b);
  }

  predicate StartsWith(s: string, t: string) {
    |t| <= |s| && s[..|t|] == t
  }

  /** The `SP:` line is written exactly when both stamina stats are
      present, and then with the short-term one first. */
  lemma SpLineIff(p: Appraisal)
    ensures (exists c :: c in StatContents(p) && StartsWith(c, "SP: ")) <==> SpShort in p.stats && SpLong in p.stats
    ensures SpShort in p.stats && SpLong in p.stats ==>
      "SP: " + PrintStat(p.stats[SpShort], "yellow") + ", " + PrintStat(p.stats[SpLong], "red") in StatContents(p)
  {
    var hp, mp := HpContent(p), MpContent(p);
    var cs := StatContents(p);
    forall c | c in cs && StartsWith(c, "SP: ") ensures SpShort in p.stats && SpLong in p.stats {
      assert c[0] == "SP: "[0] == 'S';
      assert c !in hp && c !in mp && c !in AverageContents(p);
    }
    if SpShort in p.stats && SpLong in p.stats {
      var sp := SpContent(p)[0];
      assert sp[..4] == "SP: ";
      assert sp in cs;
    }
  }

  // ---------------------------------------------------------------------
  // The skill and title lists, the skill points, the failure line

  /** `u'\xa0• '`, between skills on one line. */
  const SkillJoiner: string := [NoBreakSpace] + "\U{2022} "
  /** `' • '`, between titles on one line. */
  const TitleJoiner: string := " \U{2022} "

  /** The rendered entries, in order. */
  function Shown(es: seq<Entry>): (r: seq<string>)
    ensures |r| == |es| && forall k :: 0 <= k < |es| ==> r[k] == PrintSkillOrTitle(es[k])
  {
    seq(|es|, k requires 0 <= k < |es| => PrintSkillOrTitle(es[k]))
  }

  /** One bullet line of a split list: `+ ` under a quote mark in markdown
      mode, an indented `•` in plain mode. */
  function Bullet(md: bool, s: string): string {
    if md then QuoteText(md, 1) + "+ " + s + "\n" else "  \U{2022} " + s + "\n"
  }

  function BulletLines(md: bool, ps: seq<string>): (r: seq<string>)
    ensures |r| == |ps| && forall k :: 0 <= k < |ps| ==> r[k] == Bullet(md, ps[k])
  {
    seq(|ps|, k requires 0 <= k < |ps| => Bullet(md, ps[k]))
  }

  /** The list body: one bullet line per entry when split, otherwise the
      entries joined on one quoted line. */
  function ListBody(md: bool, split: bool, joiner: string, ps: seq<string>): string {
    if split then QuoteText(md, 1) + "\n" + Concat(BulletLines(md, ps))
    else QuoteText(md, 2) + Join(ps, joiner) + "\n"
  }

  /** A list section, written only when the list is present and not empty. */
  function ListText(md: bool, split: bool, heading: string, joiner: string, l: Option<seq<Entry>>): string {
    if l.Some? && l.value != [] then
      QuoteText(md, 1) + "\n" + QuoteText(md, 1) + heading + ":\n" + ListBody(md, split, joiner, Shown(l.value))
    else ""
  }

  function SkillPointsText(p: Appraisal, md: bool): string {
    if SkillPoints in p.attrs then
      QuoteText(md, 1) + "\n" + QuoteText(md, 1) + "Skill points available: " + Grouped(p.attrs[SkillPoints].value) + "\n"
    else ""
  }

  function FailedText(p: Appraisal, md: bool): string {
    if p.failedAppraise then QuoteText(md, 1) + "Failed to appraise statistics.\n" else ""
  }

  /** Everything `print_output` writes, section after section. */
  function Report(p: Appraisal, md: bool, splitSkills: bool, splitTitles: bool): string {
    HeaderText(p, md) + StatisticsText(p, md) + Framed(md, StatContents(p))
    + ListText(md, splitSkills, "Skills", SkillJoiner, p.skills)
    + SkillPointsText(p, md)
    + ListText(md, splitTitles, "Titles", TitleJoiner, p.titles)
    + FailedText(p, md)
  }

  /** An entry list written on one line can be split back into its entries:
      the joiners hold an ASCII space, which no rendered entry does. */
  lemma JoinedListSplits(es: seq<Entry>, joiner: string)
    requires es != [] && ' ' in joiner
    ensures Split(Join(Shown(es), joiner), joiner) == Shown(es)
  {
    var ps := Shown(es);
    forall k | 0 <= k < |ps| ensures ' ' !in ps[k] {
      ShownEntry(es[k]);
    }
    SplitJoin(ps, joiner);
  }

  lemma JoinersHoldSpace()
    ensures ' ' in SkillJoiner && ' ' in TitleJoiner
  {
    assert SkillJoiner[2] == ' ' && TitleJoiner[0] == ' ';
  }

  /** A split list reads back as one line per entry, when no entry holds a
      line break. */
  lemma BulletsReadBack(md: bool, ps: seq<string>)
    requires forall k :: 0 <= k < |ps| ==> '\n' !in ps[k]
    ensures ReadLines(Concat(BulletLines(md, ps))) == BulletLines(md, ps)
  {
    var ls := BulletLines(md, ps);
    forall k | 0 <= k < |ls| ensures IsLine(ls[k]) {
      var l := ls[k];
      assert l[..|l| - 1] == (if md then QuoteText(md, 1) + "+ " + ps[k] else "  \U{2022} " + ps[k]);
      if md {
        assert '\n' !in QuoteMarks(1);
      }
    }
    ReadLinesConcat(ls);
  }

  // ---------------------------------------------------------------------
  // The output stream

  /** The stream `print_output` writes to (standard output or the output
      file): the text written so far. */
  class OutBuffer {
    var text: string

    constructor()
      ensures text == []
    {
      text := [];
    }

    /** `out.write(s)`. */
    method Write(s: string)
      modifies this
      ensures text == old(text) + s
    {
      text := text + s;
    }

    /** `md_quote`: `times` quote marks in markdown mode. */
    method MdQuote(md: bool, times: nat)
      modifies this
      ensures text == old(text) + QuoteText(md, times)
    {
      if md {
        var i := 0;
        while i < times
          invariant 0 <= i <= times
          invariant text == old(text) + QuoteMarks(i)
        {
          Write("> ");
          i := i + 1;
        }
      }
    }

    /** `md_break`. */
    method MdBreak(md: bool)
      modifies this
      ensures text == old(text) + BreakText(md)
    {
      if md {
        Write("  ");
      }
      Write("\n");
    }

    /** `stat_line`. */
    method StatLine(md: bool, s: string)
      modifies this
      ensures text == old(text) + StatLineText(md, s)
    {
      MdQuote(md, 2);
      Write(s);
      MdBreak(md);
    }

    /** A `stat_line` call under its `if`: one line when there is content. */
    method MaybeStatLine(md: bool, cs: seq<string>)
      requires |cs| <= 1
      modifies this
      ensures text == old(text) + Framed(md, cs)
    {
      FramedOne(md, cs);
      if cs != [] {
        StatLine(md, cs[0]);
      }
    }

    /** The header line of `print_output`. */
    method PrintHeader(p: Appraisal, md: bool)
      modifies this
      ensures text == old(text) + HeaderText(p, md)
    {
      ghost var t0 := text;
      MdQuote(md, 1);
      Write(p.kind);
      PrintLevel(p);
      PrintName(p);
      MdBreak(md);
      ghost var q := QuoteText(md, 1);
      AppendAssoc(t0, q, p.kind);
      AppendAssoc(t0, q + p.kind, LevelPart(p));
      AppendAssoc(t0, q + p.kind + LevelPart(p), NamePart(p));
      AppendAssoc(t0, q + p.kind + LevelPart(p) + NamePart(p), BreakText(md));
    }

    method PrintLevel(p: Appraisal)
      modifies this
      ensures text == old(text) + LevelPart(p)
    {
      if Level in p.attrs {
        Write(" \U{2015} LV " + NatStr(p.attrs[Level].value));
      }
    }

    method PrintName(p: Appraisal)
      modifies this
      ensures text == old(text) + NamePart(p)
    {
      if p.name.Some? {
        Write(" \U{2015} " + p.name.value);
      }
    }

    /** The `Statistics:` line. */
    method PrintStatistics(p: Appraisal, md: bool)
      modifies this
      ensures text == old(text) + StatisticsText(p, md)
    {
      ghost var t0 := text;
      MdQuote(md, 1);
      Write("Statistics:");
      if p.statsSummary.Some? {
        Write(" " + p.statsSummary.value);
      }
      MdBreak(md);
      ghost var q := QuoteText(md, 1);
      AppendAssoc(t0, q, "Statistics:");
      AppendAssoc(t0, q + "Statistics:", SummaryPart(p));
      AppendAssoc(t0, q + "Statistics:" + SummaryPart(p), BreakText(md));
    }

    /** The stat lines: HP, MP, SP, then the averages. */
    method PrintStats(p: Appraisal, md: bool)
      modifies this
      ensures text == old(text) + Framed(md, StatContents(p))
    {
      ghost var t0 := text;
      ghost var hp, mp, sp, av := Framed(md, HpContent(p)), Framed(md, MpContent(p)), Framed(md, SpContent(p)), Framed(md, AverageContents(p));
      MaybeStatLine(md, HpContent(p));
      MaybeStatLine(md, MpContent(p));
      MaybeStatLine(md, SpContent(p));
      PrintAverages(p, md);
      StatParts(md, p);
      AppendAssoc(t0, hp, mp);
      AppendAssoc(t0, hp + mp, sp);
      AppendAssoc(t0, hp + mp + sp, av);
    }

    method PrintAverages(p: Appraisal, md: bool)
      modifies this
      ensures text == old(text) + Framed(md, AverageContents(p))
    {
      ghost var t0 := text;
      ghost var a := Framed(md, AttrContent(p, AvgOffense, "Avg. Offense"));
      ghost var b := Framed(md, AttrContent(p, AvgDefense, "Avg. Defense"));
      ghost var c := Framed(md, AttrContent(p, AvgMagic, "Avg. Magic Power"));
      ghost var d := Framed(md, AttrContent(p, AvgResist, "Avg. Resistance"));
      ghost var e := Framed(md, AttrContent(p, AvgSpeed, "Avg. Speed"));
      MaybeStatLine(md, AttrContent(p, AvgOffense, "Avg. Offense"));
      MaybeStatLine(md, AttrContent(p, AvgDefense, "Avg. Defense"));
      MaybeStatLine(md, AttrContent(p, AvgMagic, "Avg. Magic Power"));
      MaybeStatLine(md, AttrContent(p, AvgResist, "Avg. Resistance"));
      MaybeStatLine(md, AttrContent(p, AvgSpeed, "Avg. Speed"));
      AverageParts(md, p);
      AppendAssoc(t0, a, b);
      AppendAssoc(t0, a + b, c);
      AppendAssoc(t0, a + b + c, d);
      AppendAssoc(t0, a + b + c + d, e);
    }

    /** The loop that collects `print_skill_or_title` of every entry. */
    method ShowEntries(es: seq<Entry>) returns (prints: seq<string>)
      ensures prints == Shown(es)
    {
      prints := [];
      var i := 0;
      while i < |es|
        invariant 0 <= i <= |es|
        invariant prints == Shown(es)[..i]
      {
        var s := PrintSkillOrTitle(es[i]);
        TakeSnoc(Shown(es), i, prints, s);
        prints := prints + [s];
        i := i + 1;
      }
      TakeAll(Shown(es));
    }

    /** The loop that writes one bullet line per entry. */
    method PrintBullets(md: bool, ps: seq<string>)
      modifies this
      ensures text == old(text) + Concat(BulletLines(md, ps))
    {
      var i := 0;
      while i < |ps|
        invariant 0 <= i <= |ps|
        invariant text == old(text) + Concat(BulletLines(md, ps)[..i])
      {
        WriteBullet(md, ps[i]);
        BulletsSnoc(md, ps, i);
        AppendAssoc(old(text), Concat(BulletLines(md, ps)[..i]), Bullet(md, ps[i]));
        i := i + 1;
      }
      assert BulletLines(md, ps)[..|ps|] == BulletLines(md, ps);
    }

    /** One bullet line of a split list. */
    method WriteBullet(md: bool, s: string)
      modifies this
      ensures text == old(text) + Bullet(md, s)
    {
      if md {
        MdQuote(md, 1);
        Write("+ " + s + "\n");
        AppendAssoc(old(text), QuoteText(md, 1), "+ " + s + "\n");
      } else {
        Write("  \U{2022} " + s + "\n");
      }
    }

    /** The skills or the titles section. */
    method PrintList(md: bool, split: bool, heading: string, joiner: string, l: Option<seq<Entry>>)
      modifies this
      ensures text == old(text) + ListText(md, split, heading, joiner, l)
    {
      if l.Some? && |l.value| > 0 {
        ghost var t0 := text;
        var prints := ShowEntries(l.value);
        ghost var q := QuoteText(md, 1);
        ghost var head := q + "\n" + q + (heading + ":\n");
        MdQuote(md, 1);
        Write("\n");
        MdQuote(md, 1);
        Write(heading + ":\n");
        AppendAssoc(t0, q, "\n");
        AppendAssoc(t0, q + "\n", q);
        AppendAssoc(t0, q + "\n" + q, heading + ":\n");
        assert text == t0 + head;
        ListHead(md, split, heading, joiner, l.value, prints);
        PrintBody(md, split, joiner, prints);
        AppendAssoc(t0, head, ListBody(md, split, joiner, prints));
      }
    }

    /** The body of a list section, split or on one line. */
    method PrintBody(md: bool, split: bool, joiner: string, prints: seq<string>)
      modifies this
      ensures text == old(text) + ListBody(md, split, joiner, prints)
    {
      ghost var t0 := text;
      if split {
        MdQuote(md, 1);
        Write("\n");
        PrintBullets(md, prints);
        AppendAssoc(t0, QuoteText(md, 1), "\n");
        AppendAssoc(t0, QuoteText(md, 1) + "\n", Concat(BulletLines(md, prints)));
      } else {
        MdQuote(md, 2);
        Write(Join(prints, joiner));
        Write("\n");
        AppendAssoc(t0, QuoteText(md, 2), Join(prints, joiner));
        AppendAssoc(t0, QuoteText(md, 2) + Join(prints, joiner), "\n");
      }
    }

    /** The skill points line and the failure line. */
    method PrintSkillPoints(p: Appraisal, md: bool)
      modifies this
      ensures text == old(text) + SkillPointsText(p, md)
    {
      if SkillPoints in p.attrs {
        ghost var t0 := text;
        ghost var q := QuoteText(md, 1);
        var line := "Skill points available: " + Grouped(p.attrs[SkillPoints].value) + "\n";
        MdQuote(md, 1);
        Write("\n");
        MdQuote(md, 1);
        Write(line);
        AppendAssoc(t0, q, "\n");
        AppendAssoc(t0, q + "\n", q);
        AppendAssoc(t0, q + "\n" + q, line);
        assert SkillPointsText(p, md) == q + "\n" + q + line;
      }
    }

    method PrintFailed(p: Appraisal, md: bool)
      modifies this
      ensures text == old(text) + FailedText(p, md)
    {
      if p.failedAppraise {
        MdQuote(md, 1);
        Write("Failed to appraise statistics.\n");
      }
    }

    /** `print_output`: the whole report appended to the stream. */
    method PrintOutput(p: Appraisal, md: bool, splitSkills: bool, splitTitles: bool)
      modifies this
      ensures text == old(text) + Report(p, md, splitSkills, splitTitles)
    {
      ghost var t0 := text;
      ghost var h, st, f := HeaderText(p, md), StatisticsText(p, md), Framed(md, StatContents(p));
      ghost var sk, sp := ListText(md, splitSkills, "Skills", SkillJoiner, p.skills), SkillPointsText(p, md);
      ghost var ti, fa := ListText(md, splitTitles, "Titles", TitleJoiner, p.titles), FailedText(p, md);
      PrintHeader(p, md);
      PrintStatistics(p, md);
      PrintStats(p, md);
      PrintList(md, splitSkills, "Skills", SkillJoiner, p.skills);
      PrintSkillPoints(p, md);
      PrintList(md, splitTitles, "Titles", TitleJoiner, p.titles);
      PrintFailed(p, md);
      AppendAssoc(t0, h, st);
      AppendAssoc(t0, h + st, f);
      AppendAssoc(t0, h + st + f, sk);
      AppendAssoc(t0, h + st + f + sk, sp);
      AppendAssoc(t0, h + st + f + sk + sp, ti);
      AppendAssoc(t0, h + st + f + sk + sp + ti, fa);
    }
  }

  /** A non-empty list section is its two heading lines and its body. */
  lemma ListHead(md: bool, split: bool, heading: string, joiner: string, es: seq<Entry>, prints: seq<string>)
    requires es != [] && prints == Shown(es)
    ensures ListText(md, split, heading, joiner, Some(es))
      == QuoteText(md, 1) + "\n" + QuoteText(md, 1) + (heading + ":\n") + ListBody(md, split, joiner, prints)
  {
  }

  lemma BulletsSnoc(md: bool, ps: seq<string>, i: nat)
    requires i < |ps|
    ensures Concat(BulletLines(md, ps)[..i + 1]) == Concat(BulletLines(md, ps)[..i]) + Bullet(md, ps[i])
  {
    var ls := BulletLines(md, ps);
    assert ls[..i + 1] == ls[..i] + [ls[i]];
    ConcatAppend(ls[..i], [ls[i]]);
    assert Concat([ls[i]]) == ls[i] + Concat([]);
  }
}
