/** The parsed appraisal: the dictionary that `parse` fills in and
    `print_output` reads (translator.py:219-262, translator.py:313-407), with
    one typed field per group of keys. A key the source leaves unset is
    `None`. */
module Record {
  import opened Wrappers

  /** The stats read by `match_attrib_2`, with their tags `hp`, `mp`,
      `sp_short` and `sp_long`. */
  datatype StatKind = Hp | Mp | SpShort | SpLong

  /** The attributes read by `match_attrib_1`, with their tags `level`,
      `avg_offense`, `avg_defense`, `avg_magic`, `avg_resist`, `avg_speed`
      and `skill_points`. */
  datatype AttrKind = Level | AvgOffense | AvgDefense | AvgMagic | AvgResist | AvgSpeed | SkillPoints

  /** The keys `<tag>`, `<tag>_max`, `<tag>_plus` and `<tag>_up`. */
  datatype Stat = Stat(current: nat, maximum: nat, plus: Option<nat>, up: Option<nat>)

  /** The keys `<tag>`, `<tag>_plus` and `<tag>_up`. */
  datatype Attr = Attr(value: nat, plus: Option<nat>, up: Option<nat>)

  /** One skill or title: the keys `name`, `level`, `up` and `new` of its
      dictionary (`new` is only ever set to true). */
  datatype Entry = Entry(name: string, level: Option<nat>, up: Option<nat>, isNew: bool)

  /** The keys `kind`, `name`, `stats_summary`, `failed_appraise`, the stat
      and attribute keys, `skills` and `titles`. */
  datatype Appraisal = Appraisal(
    kind: string,
    name: Option<string>,
    statsSummary: Option<string>,
    failedAppraise: bool,
    stats: map<StatKind, Stat>,
    attrs: map<AttrKind, Attr>,
    skills: Option<seq<Entry>>,
    titles: Option<seq<Entry>>)

  /** The exceptions `parse` raises: `ValueError` from `str.index` when the
      second line does not name the statistics, and `IndexError` from
      `lines[0]` when nothing is left of the text. */
  datatype ParseError = NotAnAppraisal | EmptyText

  /** The dictionary before any key is set. */
  const Blank: Appraisal := Appraisal("", None, None, false, map[], map[], None, None)
}
