/** The translation store: the dictionary file's reader and writer, the
    order the writer sorts by, and the store object that translates words and
    collects the ones it does not know (translator.py:42-119). */
module Store {
  import opened Wrappers
  import opened Text

  /** The translation line that marks a word still to be translated. */
  const Placeholder: string := "--NEEDS TRANSLATION--"

  // The two comment lines, written in pieces short enough for the verifier
  // to read character by character.
  const CommentLine1: string :=
    "# Add " + "Japanese " + "word first, " + "then English " + "word, line " + "by line."
  const CommentLine2: string := "# Skills, " + "titles, and " + "names can " + "go here."

  /** The comment block the writer puts first (the stripped triple-quoted
      string of translator.py:42-45). */
  const DictionaryHeader: string := CommentLine1 + "\n" + CommentLine2


  // ---------------------------------------------------------------------
  // Reading (read_dictionary_file)

  /** A stripped line the reader passes over: empty, or a comment. Since the
      line is stripped, `^\s*#` holds exactly when it starts with '#'. */
  predicate Skipped(l: string) {
    l == [] || l[0] == '#'
  }

  /** Each line with `strip()` applied, as the reader sees it. */
  function Stripped(lines: seq<string>): (r: seq<string>)
    ensures |r| == |lines| && forall k :: 0 <= k < |lines| ==> r[k] == Trim(lines[k])
  {
    seq(|lines|, k requires 0 <= k < |lines| => Trim(lines[k]))
  }

  lemma StrippedAppend(a: seq<string>, b: seq<string>)
    ensures Stripped(a + b) == Stripped(a) + Stripped(b)
  {
    forall k | 0 <= k < |a + b| ensures Stripped(a + b)[k] == (Stripped(a) + Stripped(b))[k] {
      if k < |a| { assert (a + b)[k] == a[k]; } else { assert (a + b)[k] == b[k - |a|]; }
    }
  }

  /** The reader's loop variables: the dictionary so far, whether the next
      kept line is a source word, and the last source word. */
  datatype LoadState = LoadState(output: map<string, string>, jpLine: bool, jpWord: string)

  const LoadStart: LoadState := LoadState(map[], true, "")

  /** One iteration of the loop at translator.py:69-80, for the stripped line
      `l`. The second `strip()` of a translation changes nothing on a line
      that is already stripped (`TrimIdempotent`), so it is not repeated. */
  function LoadStep(st: LoadState, l: string): LoadState {
    if Skipped(l) then st
    else if st.jpLine then LoadState(st.output, false, l)
    else if l != Placeholder then LoadState(st.output[st.jpWord := l], true, st.jpWord)
    else LoadState(st.output, true, st.jpWord)
  }

  /** The loop run over stripped lines. */
  function LoadAll(st: LoadState, ls: seq<string>): LoadState
    decreases |ls|
  {
    if ls == [] then st else LoadAll(LoadStep(st, ls[0]), ls[1..])
  }

  /** The dictionary that `read_dictionary_file` returns for the file's lines. */
  function LoadDictionary(lines: seq<string>): map<string, string> {
    LoadAll(LoadStart, Stripped(lines)).output
  }

  /** What the store relies on: keys are stripped (so the lookup of
      `word.strip()` at translator.py:116 finds the key that `word in
      dictionary` found) and no value is the placeholder. */
  ghost predicate GoodDictionary(d: map<string, string>) {
    forall k :: k in d ==> Trim(k) == k && d[k] != Placeholder
  }

  lemma LoadAllCons(st: LoadState, l: string, rest: seq<string>)
    ensures LoadAll(st, [l] + rest) == LoadAll(LoadStep(st, l), rest)
  {
    assert ([l] + rest)[1..] == rest;
  }

  /** `read_dictionary_file` after the file is read: strips each line, skips
      blank and comment lines, alternates between source and translation, and
      stores a pair unless its translation is the placeholder. Every key and
      value is stripped and no value is the placeholder. */
  method ReadDictionaryFile(content: seq<string>) returns (output: map<string, string>)
    ensures output == LoadDictionary(content)
    ensures Clean(output)
  {
    output := map[];
    var jpLine := true;
    var jpWord := "";
    var i := 0;
    ghost var ls := Stripped(content);
    while i < |content|
      invariant 0 <= i <= |content|
      invariant LoadAll(LoadState(output, jpLine, jpWord), ls[i..]).output == LoadDictionary(content)
      invariant Clean(output) && Trim(jpWord) == jpWord
    {
      ghost var st := LoadState(output, jpLine, jpWord);
      LoadAllAt(st, ls, i);
      var line := Trim(content[i]);
      TrimIdempotent(content[i]);
      if line == [] || line[0] == '#' {
        i := i + 1;
        continue;
      }
      if jpLine {
        jpWord := line;
      } else {
        if line != Placeholder {
          CleanUpdate(output, jpWord, Trim(line));
          output := output[jpWord := Trim(line)];
        }
      }
      jpLine := !jpLine;
      assert LoadState(output, jpLine, jpWord) == LoadStep(st, ls[i]);
      i := i + 1;
    }
  }

  /** Every key and value is stripped and no value is the placeholder. */
  predicate Clean(output: map<string, string>) {
    forall k :: k in output ==> Trim(k) == k && output[k] != Placeholder && Trim(output[k]) == output[k]
  }

  lemma CleanUpdate(output: map<string, string>, k: string, v: string)
    requires Clean(output) && Trim(k) == k && v != Placeholder && Trim(v) == v
    ensures Clean(output[k := v])
  {
  }

  lemma LoadAllAt(st: LoadState, ls: seq<string>, i: nat)
    requires i < |ls|
    ensures LoadAll(st, ls[i..]) == LoadAll(LoadStep(st, ls[i]), ls[i + 1..])
  {
    assert ls[i..] == [ls[i]] + ls[i + 1..];
    LoadAllCons(st, ls[i], ls[i + 1..]);
  }

  /** The stripped lines the reader acts on, in order. */
  function Kept(ls: seq<string>): (r: seq<string>)
    ensures forall k :: 0 <= k < |r| ==> !Skipped(r[k])
  {
    if ls == [] then []
    else if Skipped(ls[0]) then Kept(ls[1..])
    else [ls[0]] + Kept(ls[1..])
  }

  /** Consecutive kept lines taken two at a time; an unpaired last source
      word is dropped. */
  function PairsOf(kept: seq<string>): seq<(string, string)>
    decreases |kept|
  {
    if |kept| < 2 then [] else [(kept[0], kept[1])] + PairsOf(kept[2..])
  }

  /** Storing pairs in order: a later pair overwrites an earlier one, and a
      pair whose translation is the placeholder stores nothing. */
  function Assign(acc: map<string, string>, ps: seq<(string, string)>): map<string, string>
    decreases |ps|
  {
    if ps == [] then acc
    else Assign(if ps[0].1 != Placeholder then acc[ps[0].0 := ps[0].1] else acc, ps[1..])
  }

  lemma {:induction false} LoadAllPairs(acc: map<string, string>, jpLine: bool, w: string, ls: seq<string>)
    ensures LoadAll(LoadState(acc, jpLine, w), ls).output
         == Assign(acc, PairsOf(if jpLine then Kept(ls) else [w] + Kept(ls)))
    decreases |ls|
  {
    if ls != [] {
      var l := ls[0];
      if Skipped(l) {
        LoadAllPairs(acc, jpLine, w, ls[1..]);
      } else if jpLine {
        LoadAllPairs(acc, false, l, ls[1..]);
      } else {
        var acc' := if l != Placeholder then acc[w := l] else acc;
        LoadAllPairs(acc', true, w, ls[1..]);
        var ks := [w] + Kept(ls);
        assert ks == [w, l] + Kept(ls[1..]);
        assert ks[2..] == Kept(ls[1..]);
      }
    }
  }

  /** The reader is the pairing of its kept lines: blank and comment lines
      change nothing, not even which of source and translation comes next. */
  lemma LoadIsPairing(lines: seq<string>)
    ensures LoadDictionary(lines) == Assign(map[], PairsOf(Kept(Stripped(lines))))
  {
    LoadAllPairs(map[], true, "", Stripped(lines));
  }

  lemma {:induction false} SkippedIgnored(st: LoadState, before: seq<string>, l: string, after: seq<string>)
    requires Skipped(l)
    ensures LoadAll(st, before + [l] + after) == LoadAll(st, before + after)
    decreases |before|
  {
    if before == [] {
      assert before + [l] + after == [l] + after;
      assert before + after == after;
      LoadAllCons(st, l, after);
    } else {
      var b := before[1..];
      SkippedIgnored(LoadStep(st, before[0]), b, l, after);
      assert before + [l] + after == [before[0]] + (b + [l] + after);
      assert before + after == [before[0]] + (b + after);
      LoadAllCons(st, before[0], b + [l] + after);
      LoadAllCons(st, before[0], b + after);
    }
  }

  /** A blank or comment line can be removed from anywhere in the file
      without changing the dictionary read from it. */
  lemma SkippedLineIgnored(before: seq<string>, line: string, after: seq<string>)
    requires Skipped(Trim(line))
    ensures LoadDictionary(before + [line] + after) == LoadDictionary(before + after)
  {
    StrippedAppend(before + [line], after);
    StrippedAppend(before, [line]);
    StrippedAppend(before, after);
    assert Stripped([line]) == [Trim(line)];
    SkippedIgnored(LoadStart, Stripped(before), Trim(line), Stripped(after));
  }

  /** The last pair for a source word that is not the placeholder decides its
      translation. */
  lemma {:induction false} LastPairWins(acc: map<string, string>, ps: seq<(string, string)>, i: nat)
    requires i < |ps| && ps[i].1 != Placeholder
    requires forall j :: i < j < |ps| && ps[j].0 == ps[i].0 ==> ps[j].1 == Placeholder
    ensures ps[i].0 in Assign(acc, ps) && Assign(acc, ps)[ps[i].0] == ps[i].1
    decreases |ps|
  {
    var acc' := if ps[0].1 != Placeholder then acc[ps[0].0 := ps[0].1] else acc;
    if i == 0 {
      KeptThrough(acc', ps[1..], ps[0].0, ps[0].1);
    } else {
      LastPairWins(acc', ps[1..], i - 1);
    }
  }

  /** Pairs whose only mention of `k` carry the placeholder leave `k` alone. */
  lemma {:induction false} KeptThrough(acc: map<string, string>, ps: seq<(string, string)>, k: string, v: string)
    requires k in acc && acc[k] == v
    requires forall j :: 0 <= j < |ps| && ps[j].0 == k ==> ps[j].1 == Placeholder
    ensures k in Assign(acc, ps) && Assign(acc, ps)[k] == v
    decreases |ps|
  {
    if ps != [] {
      var acc' := if ps[0].1 != Placeholder then acc[ps[0].0 := ps[0].1] else acc;
      KeptThrough(acc', ps[1..], k, v);
    }
  }

  // ---------------------------------------------------------------------
  // Writing (dictionary_cmp, write_dictionary_file)

  type Pair = (string, string)

  /** Python 2's `cmp` on strings. */
  function Cmp(a: string, b: string): (r: int)
    ensures r == -1 || r == 0 || r == 1
    ensures r < 0 <==> Less(a, b)
    ensures r == 0 <==> a == b
    ensures r > 0 <==> Less(b, a)
  {
    LessIrreflexive(a);
    LessTotal(a, b);
    if Less(a, b) then LessAsymmetric(a, b); -1
    else if a == b then 0
    else 1
  }

  /** Order pairs by translation, then by source word. */
  predicate PairLess(p: Pair, q: Pair) {
    Less(p.1, q.1) || (p.1 == q.1 && Less(p.0, q.0))
  }

  /** `dictionary_cmp` (translator.py:83-84): negative, zero or positive as
      `p1` sorts before, equal to, or after `p2`; swapping the arguments
      swaps the sign. */
  function DictionaryCmp(p1: Pair, p2: Pair): (r: int)
    ensures r < 0 <==> PairLess(p1, p2)
    ensures r == 0 <==> p1 == p2
    ensures r > 0 <==> PairLess(p2, p1)
  {
    LessAsymmetricBoth(p1.1, p2.1);
    LessAsymmetricBoth(p1.0, p2.0);
    var c := Cmp(p1.1, p2.1);
    if c != 0 then c else Cmp(p1.0, p2.0)
  }

  /** Swapping the arguments of `dictionary_cmp` swaps the sign, as
      `cmp_to_key` requires of a comparison. */
  lemma DictionaryCmpAntisymmetric(p1: Pair, p2: Pair)
    ensures DictionaryCmp(p2, p1) == -DictionaryCmp(p1, p2)
  {
    LessAsymmetricBoth(p1.1, p2.1);
    LessAsymmetricBoth(p1.0, p2.0);
  }

  lemma LessAsymmetricBoth(a: string, b: string)
    ensures !(Less(a, b) && Less(b, a))
  {
    if Less(a, b) { LessAsymmetric(a, b); }
  }

  lemma CmpTransitive(p: Pair, q: Pair, r: Pair)
    requires DictionaryCmp(p, q) <= 0 && DictionaryCmp(q, r) <= 0
    ensures DictionaryCmp(p, r) <= 0
  {
    if p != q && q != r {
      if Less(p.1, q.1) && Less(q.1, r.1) { LessTransitive(p.1, q.1, r.1); }
      if Less(p.0, q.0) && Less(q.0, r.0) { LessTransitive(p.0, q.0, r.0); }
    }
  }

  predicate Sorted(ps: seq<Pair>) {
    forall i, j :: 0 <= i < j < |ps| ==> DictionaryCmp(ps[i], ps[j]) <= 0
  }

  /** Insertion into a sorted list keeps it sorted and adds exactly `p`. */
  function Insert(s: seq<Pair>, p: Pair): (r: seq<Pair>)
    requires Sorted(s)
    ensures Sorted(r) && multiset(r) == multiset(s) + multiset{p}
  {
    if s == [] then [p]
    else if DictionaryCmp(p, s[0]) <= 0 then
      InsertFront(s, p);
      [p] + s
    else
      var t := Insert(s[1..], p);
      InsertBehind(s, p, t);
      [s[0]] + t
  }

  lemma InsertFront(s: seq<Pair>, p: Pair)
    requires Sorted(s) && s != [] && DictionaryCmp(p, s[0]) <= 0
    ensures Sorted([p] + s) && multiset([p] + s) == multiset(s) + multiset{p}
  {
    forall j | 0 <= j < |s| ensures DictionaryCmp(p, s[j]) <= 0 {
      if j > 0 { CmpTransitive(p, s[0], s[j]); }
    }
    var r := [p] + s;
    forall i, j | 0 <= i < j < |r| ensures DictionaryCmp(r[i], r[j]) <= 0 {
      if i > 0 { assert r[i] == s[i - 1] && r[j] == s[j - 1]; } else { assert r[j] == s[j - 1]; }
    }
  }

  lemma InsertBehind(s: seq<Pair>, p: Pair, t: seq<Pair>)
    requires Sorted(s) && s != [] && DictionaryCmp(p, s[0]) > 0
    requires Sorted(t) && multiset(t) == multiset(s[1..]) + multiset{p}
    ensures Sorted([s[0]] + t) && multiset([s[0]] + t) == multiset(s) + multiset{p}
  {
    assert s == [s[0]] + s[1..];
    DictionaryCmpAntisymmetric(p, s[0]);
    forall x | x in t ensures DictionaryCmp(s[0], x) <= 0 {
      assert x in multiset(t);
      if x != p {
        assert x in multiset(s[1..]);
        var j :| 0 <= j < |s[1..]| && s[1..][j] == x;
        assert s[j + 1] == x;
      }
    }
    var r := [s[0]] + t;
    forall i, j | 0 <= i < j < |r| ensures DictionaryCmp(r[i], r[j]) <= 0 {
      assert r[j] == t[j - 1];
      if i > 0 { assert r[i] == t[i - 1]; } else { assert r[j] in t; }
    }
  }

  /** `pairs.sort(key=functools.cmp_to_key(dictionary_cmp))`: the result is
      sorted by `dictionary_cmp` and holds the same pairs as the input. */
  method SortPairs(pairs: seq<Pair>) returns (sorted: seq<Pair>)
    ensures Sorted(sorted)
    ensures multiset(sorted) == multiset(pairs)
  {
    sorted := [];
    var i := 0;
    while i < |pairs|
      invariant 0 <= i <= |pairs|
      invariant Sorted(sorted)
      invariant multiset(sorted) == multiset(pairs[..i])
    {
      sorted := Insert(sorted, pairs[i]);
      assert pairs[..i + 1] == pairs[..i] + [pairs[i]];
      i := i + 1;
    }
    assert pairs[..i] == pairs;
  }

  // `dictionary_cmp` as written calls `cmp`, which Python 3 no longer has.

  /** The exception a call of the comparison as written raises. */
  datatype CmpError = NameError

  /** `dictionary_cmp` as written, run by Python 3: every call raises. */
  function DictionaryCmpAsWritten(p1: Pair, p2: Pair): (r: Result<int, CmpError>)
    ensures r == Failure(NameError)
  {
    Failure(NameError)
  }

  /** Insertion that consults the comparison as written: into an empty list
      nothing is compared; otherwise the first comparison raises and its error
      is passed on. */
  function InsertAsWritten(s: seq<Pair>, p: Pair): (r: Result<seq<Pair>, CmpError>)
    ensures r.Success? <==> s == []
    ensures r.Success? ==> r.value == [p]
    ensures r.Failure? ==> r.error == NameError
  {
    if s == [] then Success([p])
    else Failure(DictionaryCmpAsWritten(p, s[0]).error)
  }

  /** The sort of translator.py:96 with the comparison as written, each pair
      inserted in turn. */
  function SortAsWritten(pairs: seq<Pair>): (r: Result<seq<Pair>, CmpError>)
    decreases |pairs|
  {
    if pairs == [] then Success([])
    else match SortAsWritten(pairs[..|pairs| - 1])
      case Failure(e) => Failure(e)
      case Success(s) => InsertAsWritten(s, pairs[|pairs| - 1])
  }

  /** As written, the sort raises exactly when there are two pairs or more
      to compare: a dictionary file can only be written while it holds at
      most one word. */
  lemma {:induction false} SortAsWrittenFails(pairs: seq<Pair>)
    ensures SortAsWritten(pairs).Failure? <==> |pairs| >= 2
    ensures SortAsWritten(pairs).Success? ==> |SortAsWritten(pairs).value| == |pairs|
    decreases |pairs|
  {
    if pairs != [] {
      var init := pairs[..|pairs| - 1];
      SortAsWrittenFails(init);
    }
  }

  /** A list sorted by `dictionary_cmp` is determined by its elements, so the
      written file does not depend on the order the pairs were collected in. */
  lemma {:induction false} SortedUnique(a: seq<Pair>, b: seq<Pair>)
    requires Sorted(a) && Sorted(b) && multiset(a) == multiset(b)
    ensures a == b
    decreases |a|
  {
    if a != [] {
      assert |b| == |multiset(b)| == |multiset(a)| == |a|;
      HeadIsLeast(a, b[0]);
      HeadIsLeast(b, a[0]);
      DictionaryCmpAntisymmetric(a[0], b[0]);
      SortedTail(a);
      SortedTail(b);
      var a', b' := a[1..], b[1..];
      assert multiset(a') == multiset(b');
      SortedUnique(a', b');
      ConsTail(a);
      ConsTail(b);
    }
  }

  lemma ConsTail(a: seq<Pair>)
    requires a != []
    ensures a == [a[0]] + a[1..]
  {
  }

  lemma HeadIsLeast(a: seq<Pair>, x: Pair)
    requires Sorted(a) && x in multiset(a)
    ensures DictionaryCmp(a[0], x) <= 0
  {
    var i :| 0 <= i < |a| && a[i] == x;
    if i > 0 {
      assert DictionaryCmp(a[0], a[i]) <= 0;
    }
  }

  lemma SortedTail(a: seq<Pair>)
    requires Sorted(a) && a != []
    ensures Sorted(a[1..]) && multiset(a[1..]) == multiset(a) - multiset{a[0]}
  {
    assert a == [a[0]] + a[1..];
    forall i, j | 0 <= i < j < |a[1..]| ensures DictionaryCmp(a[1..][i], a[1..][j]) <= 0 {
      assert a[1..][i] == a[i + 1] && a[1..][j] == a[j + 1];
    }
  }

  /** The two lines written for one pair. */
  function PairLines(ps: seq<Pair>): seq<string> {
    if ps == [] then [] else [ps[0].0 + "\n", ps[0].1 + "\n"] + PairLines(ps[1..])
  }

  lemma {:induction false} PairLinesAppend(ps: seq<Pair>, qs: seq<Pair>)
    ensures PairLines(ps + qs) == PairLines(ps) + PairLines(qs)
    decreases |ps|
  {
    if ps == [] {
      assert ps + qs == qs;
    } else {
      assert (ps + qs)[1..] == ps[1..] + qs;
      PairLinesAppend(ps[1..], qs);
    }
  }

  /** The text `write_dictionary_file` writes for the sorted pairs. */
  function DictionaryText(pairs: seq<Pair>): string {
    DictionaryHeader + "\n" + Concat(PairLines(pairs))
  }

  /** A pair that belongs in the written file: a missing word with the
      placeholder, or a dictionary entry. */
  predicate DumpPair(d: map<string, string>, missing: set<string>, p: Pair) {
    (p.0 in missing && p.1 == Placeholder) || (p.0 in d && p.1 == d[p.0])
  }

  /** The two loops of translator.py:90-94: one pair per missing word, with
      the placeholder, then one per dictionary entry; the iteration order of
      the set and the map is left open. */
  method CollectPairs(dictionary: map<string, string>, missingWords: set<string>)
    returns (collected: seq<Pair>)
    ensures forall p :: p in collected <==> DumpPair(dictionary, missingWords, p)
    ensures |collected| == |missingWords| + |dictionary|
  {
    collected := [];
    var rest := missingWords;
    while rest != {}
      invariant rest <= missingWords
      invariant |collected| + |rest| == |missingWords|
      invariant forall p :: p in collected <==> p.0 in missingWords - rest && p.1 == Placeholder
      decreases |rest|
    {
      var w :| w in rest;
      collected := collected + [(w, Placeholder)];
      rest := rest - {w};
    }
    var keys := dictionary.Keys;
    while keys != {}
      invariant keys <= dictionary.Keys
      invariant |collected| + |keys| == |missingWords| + |dictionary|
      invariant forall p :: p in collected <==>
        (p.0 in missingWords && p.1 == Placeholder) || (p.0 in dictionary.Keys - keys && p.1 == dictionary[p.0])
      decreases |keys|
    {
      var k :| k in keys;
      collected := collected + [(k, dictionary[k])];
      keys := keys - {k};
    }
  }

  /** The writes of translator.py:99-106: the header, a newline, then each
      pair's source and translation, each followed by a newline. */
  method EmitPairs(pairs: seq<Pair>) returns (text: string)
    ensures text == DictionaryText(pairs)
  {
    var body := "";
    var i := 0;
    while i < |pairs|
      invariant 0 <= i <= |pairs|
      invariant body == Concat(PairLines(pairs[..i]))
    {
      PairLinesAppend(pairs[..i], [pairs[i]]);
      assert pairs[..i + 1] == pairs[..i] + [pairs[i]];
      ConcatAppend(PairLines(pairs[..i]), PairLines([pairs[i]]));
      PairText(pairs[i]);
      body := body + (pairs[i].0 + "\n" + pairs[i].1 + "\n");
      i := i + 1;
    }
    assert pairs[..i] == pairs;
    text := DictionaryHeader + "\n" + body;
  }

  lemma PairText(p: Pair)
    ensures Concat(PairLines([p])) == p.0 + "\n" + p.1 + "\n"
  {
    assert PairLines([p]) == [p.0 + "\n", p.1 + "\n"] + PairLines([]);
    assert Concat([p.0 + "\n", p.1 + "\n"]) == (p.0 + "\n") + Concat([p.1 + "\n"]);
    assert Concat([p.1 + "\n"]) == (p.1 + "\n") + Concat([]);
  }

  /** `write_dictionary_file` without the backup copy and the file: collects
      one pair per missing word (with the placeholder) and one per entry,
      sorts them by translation and then source, and produces the header
      followed by each pair's source and translation lines. */
  method WriteDictionaryFile(dictionary: map<string, string>, missingWords: set<string>)
    returns (pairs: seq<Pair>, text: string)
    ensures forall p :: p in pairs <==> DumpPair(dictionary, missingWords, p)
    ensures |pairs| == |missingWords| + |dictionary|
    ensures Sorted(pairs)
    ensures text == DictionaryText(pairs)
  {
    var collected := CollectPairs(dictionary, missingWords);
    pairs := SortPairs(collected);
    assert forall p :: p in pairs <==> p in multiset(collected);
    assert |pairs| == |multiset(pairs)| == |multiset(collected)| == |collected|;
    text := EmitPairs(pairs);
  }

  /** A word the round trip can carry: non-empty, stripped, on one line, and
      not read as a comment. */
  predicate IsEntry(e: string) {
    Trimmed(e) && '\n' !in e && e[0] != '#'
  }

  /** A word the writer puts on a line of its own that reads back as the
      word (possibly empty, possibly a comment). */
  predicate OneLineWord(e: string) {
    (e == [] || Trimmed(e)) && '\n' !in e
  }

  /** A stripped text without a newline, written with a newline after it,
      is one line that reads back as the text. */
  lemma OneLine(e: string)
    requires OneLineWord(e)
    ensures IsLine(e + "\n") && Trim(e + "\n") == e
  {
    if e == [] {
      assert e + "\n" == "\n";
      assert IsSpace('\n');
      assert LeadingSpaces("\n") == 1;
    } else {
      TrimLine(e);
      assert (e + "\n")[..|e|] == e;
    }
  }

  /** The words the reader sees in the written pairs: source, translation,
      source, translation, ... */
  function PairWords(ps: seq<Pair>): seq<string> {
    if ps == [] then [] else [ps[0].0, ps[0].1] + PairWords(ps[1..])
  }

  lemma {:induction false} PairLinesRead(ps: seq<Pair>)
    requires forall i :: 0 <= i < |ps| ==> OneLineWord(ps[i].0) && OneLineWord(ps[i].1)
    ensures forall k :: 0 <= k < |PairLines(ps)| ==> IsLine(PairLines(ps)[k])
    ensures Stripped(PairLines(ps)) == PairWords(ps)
    decreases |ps|
  {
    if ps != [] {
      OneLine(ps[0].0);
      OneLine(ps[0].1);
      PairLinesRead(ps[1..]);
      var rest := PairLines(ps[1..]);
      var all := PairLines(ps);
      assert all == [ps[0].0 + "\n", ps[0].1 + "\n"] + rest;
      forall k | 0 <= k < |all| ensures IsLine(all[k]) {
        if k >= 2 { assert all[k] == rest[k - 2]; }
      }
      StrippedAppend([ps[0].0 + "\n", ps[0].1 + "\n"], rest);
      assert Stripped([ps[0].0 + "\n", ps[0].1 + "\n"]) == [ps[0].0, ps[0].1];
    }
  }

  /** Reading the words of well-formed pairs stores every entry of `d` that
      is not yet stored, and nothing else. */
  lemma {:induction false} LoadPairWords(
    d: map<string, string>, missing: set<string>, acc: map<string, string>, w: string, ps: seq<Pair>)
    requires missing !! d.Keys
    requires forall k :: k in d ==> d[k] != Placeholder
    requires forall i :: 0 <= i < |ps| ==> DumpPair(d, missing, ps[i]) && IsEntry(ps[i].0) && IsEntry(ps[i].1)
    requires forall k :: k in acc ==> k in d && acc[k] == d[k]
    requires forall k :: k in d && k !in acc ==> exists i :: 0 <= i < |ps| && ps[i].0 == k
    ensures LoadAll(LoadState(acc, true, w), PairWords(ps)).output == d
    decreases |ps|
  {
    if ps == [] {
      assert acc.Keys == d.Keys;
    } else {
      var (k, v) := ps[0];
      var acc' := if v != Placeholder then acc[k := v] else acc;
      LoadPairStep(acc, w, ps);
      KeysStillListed(d, acc', ps);
      LoadPairWords(d, missing, acc', k, ps[1..]);
    }
  }

  /** Reading the first pair's two words. */
  lemma LoadPairStep(acc: map<string, string>, w: string, ps: seq<Pair>)
    requires ps != [] && !Skipped(ps[0].0) && !Skipped(ps[0].1)
    ensures var (k, v) := ps[0];
      LoadAll(LoadState(acc, true, w), PairWords(ps))
      == LoadAll(LoadState(if v != Placeholder then acc[k := v] else acc, true, k), PairWords(ps[1..]))
  {
    var (k, v) := ps[0];
    var rest := PairWords(ps[1..]);
    assert PairWords(ps) == [k] + ([v] + rest);
    LoadAllCons(LoadState(acc, true, w), k, [v] + rest);
    LoadAllCons(LoadState(acc, false, k), v, rest);
  }

  lemma KeysStillListed(d: map<string, string>, acc': map<string, string>, ps: seq<Pair>)
    requires ps != [] && (ps[0].0 in d ==> ps[0].0 in acc')
    requires forall k :: k in d && k !in acc' ==> exists i :: 0 <= i < |ps| && ps[i].0 == k
    ensures forall k :: k in d && k !in acc' ==> exists i :: 0 <= i < |ps[1..]| && ps[1..][i].0 == k
  {
    forall k' | k' in d && k' !in acc' ensures exists i :: 0 <= i < |ps[1..]| && ps[1..][i].0 == k' {
      var i :| 0 <= i < |ps| && ps[i].0 == k';
      assert ps[1..][i - 1].0 == k';
    }
  }

  /** Write then read: the lines of the written text, read back, give exactly
      the dictionary, when every word is a well-formed entry. The header lines
      are comments and the missing words carry the placeholder. */
  lemma WriteThenRead(dictionary: map<string, string>, missingWords: set<string>, pairs: seq<Pair>)
    requires missingWords !! dictionary.Keys
    requires forall k :: k in dictionary ==> IsEntry(k) && IsEntry(dictionary[k]) && dictionary[k] != Placeholder
    requires forall w :: w in missingWords ==> IsEntry(w)
    requires forall p :: p in pairs <==> DumpPair(dictionary, missingWords, p)
    ensures LoadDictionary(ReadLines(DictionaryText(pairs))) == dictionary
  {
    PairsAreEntries(dictionary, missingWords, pairs);
    ReadBack(pairs);
    CommentsIgnored(CommentLine1, CommentLine2, PairWords(pairs));
    KeysListed(dictionary, missingWords, pairs);
    LoadPairWords(dictionary, missingWords, map[], "", pairs);
  }

  lemma PairsAreEntries(dictionary: map<string, string>, missingWords: set<string>, pairs: seq<Pair>)
    requires forall k :: k in dictionary ==> IsEntry(k) && IsEntry(dictionary[k]) && dictionary[k] != Placeholder
    requires forall w :: w in missingWords ==> IsEntry(w)
    requires forall p :: p in pairs <==> DumpPair(dictionary, missingWords, p)
    ensures forall i :: 0 <= i < |pairs| ==> DumpPair(dictionary, missingWords, pairs[i]) && IsEntry(pairs[i].0) && IsEntry(pairs[i].1)
  {
    forall i | 0 <= i < |pairs|
      ensures DumpPair(dictionary, missingWords, pairs[i]) && IsEntry(pairs[i].0) && IsEntry(pairs[i].1)
    {
      assert pairs[i] in pairs;
    }
  }

  lemma KeysListed(dictionary: map<string, string>, missingWords: set<string>, pairs: seq<Pair>)
    requires forall p :: p in pairs <==> DumpPair(dictionary, missingWords, p)
    ensures forall k :: k in dictionary ==> exists i :: 0 <= i < |pairs| && pairs[i].0 == k
  {
    forall k | k in dictionary ensures exists i :: 0 <= i < |pairs| && pairs[i].0 == k {
      assert DumpPair(dictionary, missingWords, (k, dictionary[k]));
      var i :| 0 <= i < |pairs| && pairs[i] == (k, dictionary[k]);
    }
  }

  /** A comment line the reader passes over. */
  predicate IsComment(c: string) {
    Trimmed(c) && '\n' !in c && c[0] == '#'
  }

  /** The writer's header is two comment lines. */
  lemma HeaderComments()
    ensures IsComment(CommentLine1) && IsComment(CommentLine2)
  {
    FirstComment();
    SecondComment();
  }

  lemma FirstComment()
    ensures IsComment(CommentLine1)
  {
    assert '\n' !in "# Add " && '\n' !in "Japanese " && '\n' !in "word first, ";
    assert '\n' !in "then English " && '\n' !in "word, line " && '\n' !in "by line.";
  }

  lemma SecondComment()
    ensures IsComment(CommentLine2)
  {
    assert '\n' !in "# Skills, " && '\n' !in "titles, and " && '\n' !in "names can " && '\n' !in "go here.";
  }

  /** Two comment lines followed by the lines of well-formed pairs read back
      as the two comments and then the words. */
  lemma {:induction false} ReadBackWith(c1: string, c2: string, pairs: seq<Pair>)
    requires IsComment(c1) && IsComment(c2)
    requires forall i :: 0 <= i < |pairs| ==> OneLineWord(pairs[i].0) && OneLineWord(pairs[i].1)
    ensures Stripped(ReadLines(c1 + "\n" + c2 + "\n" + Concat(PairLines(pairs)))) == [c1, c2] + PairWords(pairs)
  {
    var body := PairLines(pairs);
    var header := [c1 + "\n", c2 + "\n"];
    PairLinesRead(pairs);
    HeaderLines(c1, c2);
    HeaderConcat(c1, c2, body);
    LinesAppend(header, body);
    ReadLinesConcat(header + body);
    StrippedAppend(header, body);
  }

  lemma HeaderConcat(c1: string, c2: string, body: seq<string>)
    ensures c1 + "\n" + c2 + "\n" + Concat(body) == Concat([c1 + "\n", c2 + "\n"] + body)
  {
    var header := [c1 + "\n", c2 + "\n"];
    ConcatAppend(header, body);
    assert Concat(header) == (c1 + "\n") + ((c2 + "\n") + Concat([]));
    AppendAssoc(c1 + "\n", c2, "\n");
  }

  lemma HeaderLines(c1: string, c2: string)
    requires IsComment(c1) && IsComment(c2)
    ensures var h := [c1 + "\n", c2 + "\n"];
      Concat(h) == (c1 + "\n") + (c2 + "\n") && IsLine(h[0]) && IsLine(h[1]) && Stripped(h) == [c1, c2]
  {
    var h := [c1 + "\n", c2 + "\n"];
    OneLine(c1);
    OneLine(c2);
    assert Concat(h[1..]) == (c2 + "\n") + Concat(h[2..]);
  }

  lemma LinesAppend(a: seq<string>, b: seq<string>)
    requires forall k :: 0 <= k < |a| ==> IsLine(a[k])
    requires forall k :: 0 <= k < |b| ==> IsLine(b[k])
    ensures forall k :: 0 <= k < |a + b| ==> IsLine((a + b)[k])
  {
    forall k | 0 <= k < |a + b| ensures IsLine((a + b)[k]) {
      if k >= |a| { assert (a + b)[k] == b[k - |a|]; }
    }
  }

  /** Two comment lines in front of the words change nothing. */
  lemma CommentsIgnored(c1: string, c2: string, words: seq<string>)
    requires Skipped(c1) && Skipped(c2)
    ensures LoadAll(LoadStart, [c1, c2] + words) == LoadAll(LoadStart, words)
  {
    assert [c1, c2] + words == [] + [c1] + ([c2] + words);
    SkippedIgnored(LoadStart, [], c1, [c2] + words);
    assert [] + ([c2] + words) == [] + [c2] + words;
    SkippedIgnored(LoadStart, [], c2, words);
    assert [] + words == words;
  }

  /** The written text, read back, is the two header comments and then the
      words of the pairs. */
  lemma ReadBack(pairs: seq<Pair>)
    requires forall i :: 0 <= i < |pairs| ==> OneLineWord(pairs[i].0) && OneLineWord(pairs[i].1)
    ensures Stripped(ReadLines(DictionaryText(pairs))) == [CommentLine1, CommentLine2] + PairWords(pairs)
    ensures Skipped(CommentLine1) && Skipped(CommentLine2)
  {
    HeaderComments();
    ReadBackWith(CommentLine1, CommentLine2, pairs);
  }

  /** An empty missing word is written as an empty line, which the reader
      skips: the placeholder after it is read as a source word, and the pair
      after that is read shifted by one line. Here the entry `x -> y` is
      lost and the placeholder comes back translated as `x`. */
  lemma EmptyMissingWordShifts()
    ensures var d := map["x" := "y"];
      var pairs := [("", Placeholder), ("x", "y")];
      Sorted(pairs) && (forall p :: p in pairs <==> DumpPair(d, {""}, p))
      && LoadDictionary(ReadLines(DictionaryText(pairs))) == map[Placeholder := "x"]
  {
    var pairs := [("", Placeholder), ("x", "y")];
    EmptyWordPairs();
    ReadBack(pairs);
    var words := PairWords(pairs);
    EmptyWordWords();
    CommentsIgnored(CommentLine1, CommentLine2, words);
    EmptyWordLoad();
  }

  /** The pairs `write_dictionary_file` writes for `{x: y}` and the missing
      word `""`, in the order it writes them. */
  lemma EmptyWordPairs()
    ensures var pairs := [("", Placeholder), ("x", "y")];
      Sorted(pairs) && (forall p :: p in pairs <==> DumpPair(map["x" := "y"], {""}, p))
  {
    var pairs := [("", Placeholder), ("x", "y")];
    assert Placeholder[0] == '-';
    assert Less(Placeholder, "y");
    assert DictionaryCmp(pairs[0], pairs[1]) < 0;
    assert "x" !in {""};
  }

  /** The words of those pairs, line by line. */
  lemma EmptyWordWords()
    ensures PairWords([("", Placeholder), ("x", "y")]) == ["", Placeholder, "x", "y"]
  {
    var pairs := [("", Placeholder), ("x", "y")];
    assert pairs[1..] == [("x", "y")];
    assert [("x", "y")][1..] == [];
    assert PairWords([("x", "y")]) == ["x", "y"] + PairWords([]);
    assert PairWords(pairs) == ["", Placeholder] + PairWords([("x", "y")]);
  }

  /** Reading those words skips the empty one and pairs the rest shifted. */
  lemma EmptyWordLoad()
    ensures LoadAll(LoadStart, ["", Placeholder, "x", "y"]).output == map[Placeholder := "x"]
  {
    var st1 := LoadStep(LoadStart, "");
    assert st1 == LoadStart;
    var st2 := LoadStep(st1, Placeholder);
    assert st2 == LoadState(map[], false, Placeholder);
    var st3 := LoadStep(st2, "x");
    assert st3 == LoadState(map[Placeholder := "x"], true, Placeholder);
    LoadAllCons(LoadStart, "", [Placeholder, "x", "y"]);
    LoadAllCons(st1, Placeholder, ["x", "y"]);
    LoadAllCons(st2, "x", ["y"]);
    LoadAllCons(st3, "y", []);
  }

  // ---------------------------------------------------------------------
  // Translating (translate)

  /** `re.sub('　', ' ', word)`: ideographic spaces become ASCII spaces. */
  function Normalize(word: string): (w: string)
    ensures |w| == |word| && '\U{3000}' !in w
    ensures forall i :: 0 <= i < |word| && word[i] != '\U{3000}' ==> w[i] == word[i]
  {
    ReplaceChar(word, '\U{3000}', ' ')
  }

  /** What `translate` returns when the dictionary is `d`. */
  function TranslateWord(d: map<string, string>, word: string): string {
    var w := Normalize(word);
    if w in d then d[w] else w
  }

  /** What `translate` adds to the missing words. */
  function MissOf(d: map<string, string>, word: string): set<string> {
    var w := Normalize(word);
    if w in d then {} else {w}
  }

  /** What a run of `translate` calls adds to the missing words. */
  function MissesOf(d: map<string, string>, words: seq<string>): set<string>
    decreases |words|
  {
    if words == [] then {} else MissesOf(d, words[..|words| - 1]) + MissOf(d, words[|words| - 1])
  }

  lemma {:induction false} MissesOfAppend(d: map<string, string>, a: seq<string>, b: seq<string>)
    ensures MissesOf(d, a + b) == MissesOf(d, a) + MissesOf(d, b)
    decreases |b|
  {
    if b == [] {
      assert a + b == a;
    } else {
      assert (a + b)[..|a + b| - 1] == a + b[..|b| - 1];
      MissesOfAppend(d, a, b[..|b| - 1]);
    }
  }

  /** The missing words of a run are exactly the normalised words of the run
      that have no entry. */
  lemma {:induction false} MissesOfExactly(d: map<string, string>, words: seq<string>, m: string)
    ensures m in MissesOf(d, words) <==> m !in d && exists i :: 0 <= i < |words| && Normalize(words[i]) == m
    decreases |words|
  {
    if words != [] {
      var init := words[..|words| - 1];
      MissesOfExactly(d, init, m);
      if exists i :: 0 <= i < |words| && Normalize(words[i]) == m {
        var i :| 0 <= i < |words| && Normalize(words[i]) == m;
        if i < |words| - 1 { assert init[i] == words[i]; }
      }
      if exists i :: 0 <= i < |init| && Normalize(init[i]) == m {
        var i :| 0 <= i < |init| && Normalize(init[i]) == m;
        assert words[i] == init[i];
      }
    }
  }

  /** The module globals `dictionary` and `missing_words` (translator.py:109-110). */
  class TranslationStore {
    var dictionary: map<string, string>
    var missingWords: set<string>

    ghost predicate Valid()
      reads this
    {
      GoodDictionary(dictionary) && missingWords !! dictionary.Keys
    }

    /** `dictionary = read_dictionary_file()` and `missing_words = {}`. */
    constructor (content: seq<string>)
      ensures Valid()
      ensures dictionary == LoadDictionary(content) && missingWords == {}
    {
      var d := ReadDictionaryFile(content);
      dictionary := d;
      missingWords := {};
    }

    /** `translate` (translator.py:112-119): looks up the word with its
        ideographic spaces made ASCII; a hit returns the stored translation, a
        miss returns the normalised word and records it. The dictionary never
        changes and the missing words only grow. */
    method Translate(word: string) returns (r: string)
      requires Valid()
      modifies this`missingWords
      ensures Valid() && dictionary == old(dictionary)
      ensures r == TranslateWord(dictionary, word)
      ensures missingWords == old(missingWords) + MissOf(dictionary, word)
      ensures Normalize(word) in dictionary ==> r == dictionary[Normalize(word)] && missingWords == old(missingWords)
      ensures Normalize(word) !in dictionary ==> r == Normalize(word) && r in missingWords
    {
      var w := ReplaceChar(word, '\U{3000}', ' ');
      if w in dictionary {
        return dictionary[Trim(w)];
      } else {
        missingWords := missingWords + {w};
      }
      return w;
    }
  }
}
