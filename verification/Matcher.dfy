/** Keyword matching: the automaton library as a contract, the word-boundary
    filter, and what a list of matches means. */
module Matcher {
  import opened Common

  datatype Market = US | CN

  datatype Kind = Ticker | Alias | Sector | Macro | Generic

  datatype Pattern = Pattern(text: string, isEnglish: bool, kind: Kind, market: Market, owner: string)

  /** `end` is the index of the last matched character. */
  datatype Match = Match(pattern: Pattern, start: nat, end: nat, matchedText: string)

  /** Only ASCII letters and digits are word characters. */
  predicate IsWordChar(c: char) {
    'a' <= c <= 'z' || 'A' <= c <= 'Z' || '0' <= c <= '9'
  }

  predicate WordBoundaryOk(text: string, start: nat, end: nat)
    requires start <= end < |text|
  {
    && (start == 0 || !IsWordChar(text[start - 1]))
    && (end == |text| - 1 || !IsWordChar(text[end + 1]))
  }

  predicate OccursAt(text: string, word: string, start: nat) {
    start + |word| <= |text| && text[start..start + |word|] == word
  }

  /** The non-empty word stands at `start`, alone if it is English. */
  predicate StandsAt(text: string, word: string, isEnglish: bool, start: nat) {
    && word != ""
    && OccursAt(text, word, start)
    && (isEnglish ==> WordBoundaryOk(text, start, start + |word| - 1))
  }

  /** Exactly where a word stands: anywhere, if it is not English; otherwise
      between two characters, if any, that are no ASCII letters or digits. */
  lemma StandsBetween(before: string, word: string, after: string, isEnglish: bool)
    requires word != ""
    ensures StandsAt(before + word + after, word, isEnglish, |before|)
       <==> (isEnglish ==>
               && (before != "" ==> var c := before[|before| - 1];
                                    !('a' <= c <= 'z') && !('A' <= c <= 'Z') && !('0' <= c <= '9'))
               && (after != "" ==> var c := after[0];
                                   !('a' <= c <= 'z') && !('A' <= c <= 'Z') && !('0' <= c <= '9')))
  {
    var text, end := before + word + after, |before| + |word| - 1;
    assert text[|before|..|before| + |word|] == word;
    assert before != "" ==> text[|before| - 1] == before[|before| - 1];
    assert after != "" ==> text[end + 1] == after[0];
  }

  lemma StandsSplits(text: string, word: string, isEnglish: bool, start: nat)
    requires StandsAt(text, word, isEnglish, start)
    ensures word != "" && start + |word| <= |text| && text == text[..start] + word + text[start + |word|..]
  {
  }

  // --------------------------------------------------- the automaton's contract

  datatype Hit = Hit(end: nat, word: string)

  /** Stored words of length up to `len` that end at `end`, longest first. */
  function WordsEndingAt(words: set<string>, text: string, end: nat, len: nat): seq<Hit>
    requires end < |text| && len <= end + 1
  {
    if len == 0 then []
    else HitIn(words, text[end + 1 - len..end + 1], end) + WordsEndingAt(words, text, end, len - 1)
  }

  function HitIn(words: set<string>, word: string, end: nat): seq<Hit> {
    if word in words then [Hit(end, word)] else []
  }

  function EndingAt(words: set<string>, text: string, end: nat): seq<Hit>
    requires end < |text|
  {
    WordsEndingAt(words, text, end, end + 1)
  }

  /** What the library reports: by end index, then longest first. */
  function Reported(words: set<string>, text: string): seq<Hit> {
    Flatten(Rows(words, text))
  }

  function Rows(words: set<string>, text: string): (rows: seq<seq<Hit>>)
    ensures |rows| == |text| && forall end :: 0 <= end < |text| ==> rows[end] == EndingAt(words, text, end)
  {
    seq(|text|, end requires 0 <= end < |text| => EndingAt(words, text, end))
  }

  predicate IsOccurrence(words: set<string>, text: string, h: Hit) {
    && h.word in words && h.word != "" && h.end < |text| && |h.word| <= h.end + 1
    && OccursAt(text, h.word, h.end + 1 - |h.word|)
  }

  lemma OneLength(words: set<string>, text: string, end: nat, len: nat, h: Hit)
    requires end < |text| && 0 < len <= end + 1
    ensures Count(HitIn(words, text[end + 1 - len..end + 1], end), h)
         == if IsOccurrence(words, text, h) && h.end == end && |h.word| == len then 1 else 0
  {
    var word := text[end + 1 - len..end + 1];
    assert (word in words && h == Hit(end, word))
        == (IsOccurrence(words, text, h) && h.end == end && |h.word| == len);
    assert Front([Hit(end, word)]) == [];
  }

  lemma CountOneLength(words: set<string>, text: string, end: nat, len: nat, h: Hit)
    requires end < |text| && 0 < len <= end + 1
    ensures Count(WordsEndingAt(words, text, end, len), h)
         == Count(HitIn(words, text[end + 1 - len..end + 1], end), h)
            + Count(WordsEndingAt(words, text, end, len - 1), h)
  {
    CountConcat(HitIn(words, text[end + 1 - len..end + 1], end), WordsEndingAt(words, text, end, len - 1), h);
  }

  lemma {:induction false} EndingUpTo(words: set<string>, text: string, end: nat, len: nat, h: Hit)
    requires end < |text| && len <= end + 1
    ensures Count(WordsEndingAt(words, text, end, len), h)
         == if IsOccurrence(words, text, h) && h.end == end && |h.word| <= len then 1 else 0
  {
    if len > 0 {
      EndingUpTo(words, text, end, len - 1, h);
      OneLength(words, text, end, len, h);
      CountOneLength(words, text, end, len, h);
    }
  }

  lemma EndingOnce(words: set<string>, text: string, end: nat, h: Hit)
    requires end < |text|
    ensures Count(Rows(words, text)[end], h) == if IsOccurrence(words, text, h) && h.end == end then 1 else 0
  {
    EndingUpTo(words, text, end, end + 1, h);
  }

  /** Every occurrence of every stored word is reported exactly once. */
  lemma ReportedOnce(words: set<string>, text: string, h: Hit)
    ensures Count(Reported(words, text), h) == if IsOccurrence(words, text, h) then 1 else 0
  {
    var at := if IsOccurrence(words, text, h) then h.end else -1;
    var rows := Rows(words, text);
    forall end | 0 <= end < |rows| ensures Count(rows[end], h) == if end == at then 1 else 0 {
      EndingOnce(words, text, end, h);
    }
    CountFlatten(rows, h, at);
  }

  // ------------------------------------------------------------------- matches

  function MatchAt(p: Pattern, start: nat): Match
    requires p.text != ""
  {
    Match(p, start, start + |p.text| - 1, p.text)
  }

  /** The patterns stored under one word, in the order they were given. */
  function Group(patterns: seq<Pattern>, word: string): seq<Pattern> {
    if patterns == [] then []
    else Group(Front(patterns), word) + if Last(patterns).text == word then [Last(patterns)] else []
  }

  function Words(patterns: seq<Pattern>): set<string> {
    set p | p in patterns && p.text != "" :: p.text
  }

  /** The matches one report yields: its group, filtered by word boundary. */
  function GroupMatches(group: seq<Pattern>, text: string, start: nat): seq<Match> {
    if group == [] then []
    else
      var p := Last(group);
      GroupMatches(Front(group), text, start)
      + if StandsAt(text, p.text, p.isEnglish, start) then [MatchAt(p, start)] else []
  }

  function MatchesOf(hits: seq<Hit>, patterns: seq<Pattern>, text: string): seq<Match> {
    if hits == [] then []
    else MatchesOf(Front(hits), patterns, text) + MatchesOfHit(Last(hits), patterns, text)
  }

  function MatchesOfHit(h: Hit, patterns: seq<Pattern>, text: string): seq<Match> {
    if |h.word| <= h.end + 1 then GroupMatches(Group(patterns, h.word), text, h.end + 1 - |h.word|) else []
  }

  function Matches(patterns: seq<Pattern>, text: string): seq<Match> {
    MatchesOf(Reported(Words(patterns), text), patterns, text)
  }

  /** How often a match must be listed: once per copy of its pattern if the
      pattern stands there, and never otherwise. */
  function Multiplicity(m: Match, patterns: seq<Pattern>, text: string): nat {
    if Fits(m, text) then Count(patterns, m.pattern) else 0
  }

  predicate Fits(m: Match, text: string) {
    && m.pattern.text != "" && m == MatchAt(m.pattern, m.start)
    && StandsAt(text, m.pattern.text, m.pattern.isEnglish, m.start)
  }

  /** A match says where its pattern stands: start, last index and the text there. */
  lemma FitsIff(m: Match, text: string)
    ensures Fits(m, text) <==>
              && m.pattern.text != "" && m.start <= m.end < |text|
              && m.end + 1 - m.start == |m.pattern.text|
              && m.matchedText == m.pattern.text == text[m.start..m.end + 1]
              && (m.pattern.isEnglish ==> WordBoundaryOk(text, m.start, m.end))
  {
    if m.pattern.text != "" && m.start <= m.end && m.end + 1 - m.start == |m.pattern.text| {
      assert m.end == m.start + |m.pattern.text| - 1;
    }
  }

  lemma {:induction false} GroupCounts(patterns: seq<Pattern>, word: string, p: Pattern)
    ensures Count(Group(patterns, word), p) == if p.text == word then Count(patterns, p) else 0
  {
    if patterns != [] {
      var before := Group(Front(patterns), word);
      GroupCounts(Front(patterns), word, p);
      CountSnoc(before, Last(patterns), p);
      assert before + [] == before;
    }
  }

  function TextsOf(patterns: seq<Pattern>): set<string> {
    set p | p in patterns :: p.text
  }

  ghost predicate Grouped(grouped: map<string, seq<Pattern>>, patterns: seq<Pattern>) {
    grouped.Keys == TextsOf(patterns) && forall w :: w in grouped ==> grouped[w] == Group(patterns, w)
  }

  lemma {:induction false} NoGroup(patterns: seq<Pattern>, w: string)
    requires w !in TextsOf(patterns)
    ensures Group(patterns, w) == []
  {
    if patterns != [] {
      assert Last(patterns) in patterns;
      NoGroup(Front(patterns), w);
    }
  }

  lemma GroupedOneMore(grouped: map<string, seq<Pattern>>, patterns: seq<Pattern>, p: Pattern)
    requires Grouped(grouped, patterns)
    ensures Grouped(grouped[p.text := (if p.text in grouped then grouped[p.text] else []) + [p]], patterns + [p])
  {
    assert Front(patterns + [p]) == patterns;
    assert TextsOf(patterns + [p]) == TextsOf(patterns) + {p.text};
    if p.text !in grouped {
      NoGroup(patterns, p.text);
    }
  }

  lemma {:induction false} GroupTexts(patterns: seq<Pattern>, word: string)
    ensures forall p :: p in Group(patterns, word) ==> p.text == word
  {
    if patterns != [] {
      GroupTexts(Front(patterns), word);
    }
  }

  lemma {:induction false} GroupMatchesCounts(group: seq<Pattern>, text: string, start: nat, m: Match)
    ensures Count(GroupMatches(group, text, start), m)
         == if m.start == start then Multiplicity(m, group, text) else 0
  {
    if group != [] {
      var p := Last(group);
      var before := GroupMatches(Front(group), text, start);
      GroupMatchesCounts(Front(group), text, start, m);
      if StandsAt(text, p.text, p.isEnglish, start) {
        CountSnoc(before, MatchAt(p, start), m);
      } else {
        assert before + [] == before;
      }
    }
  }

  lemma FitsAtItsEnd(m: Match, text: string, h: Hit)
    requires Fits(m, text) && |h.word| <= h.end + 1
    ensures h == Hit(m.end, m.pattern.text) <==> m.start == h.end + 1 - |h.word| && m.pattern.text == h.word
  {
  }

  /** What the report h contributes to the count of m. */
  lemma OneReportCounts(h: Hit, patterns: seq<Pattern>, text: string, m: Match)
    requires |h.word| <= h.end + 1
    ensures Count(MatchesOfHit(h, patterns, text), m)
         == if h == Hit(m.end, m.pattern.text) then Multiplicity(m, patterns, text) else 0
  {
    var group, start := Group(patterns, h.word), h.end + 1 - |h.word|;
    GroupMatchesCounts(group, text, start, m);
    GroupMultiplicity(m, patterns, h.word, text);
    if Fits(m, text) {
      FitsAtItsEnd(m, text, h);
    }
  }

  lemma GroupMultiplicity(m: Match, patterns: seq<Pattern>, word: string, text: string)
    ensures Multiplicity(m, Group(patterns, word), text)
         == if m.pattern.text == word then Multiplicity(m, patterns, text) else 0
  {
    GroupCounts(patterns, word, m.pattern);
  }

  lemma {:induction false} MatchesOfCounts(hits: seq<Hit>, patterns: seq<Pattern>, text: string, m: Match)
    requires forall h :: h in hits ==> |h.word| <= h.end + 1
    requires Count(hits, Hit(m.end, m.pattern.text)) <= 1
    ensures Count(MatchesOf(hits, patterns, text), m)
         == if Hit(m.end, m.pattern.text) in hits then Multiplicity(m, patterns, text) else 0
  {
    if hits != [] {
      var h := Last(hits);
      assert hits == Front(hits) + [h];
      assert h in hits;
      MatchesOfCounts(Front(hits), patterns, text, m);
      OneReportCounts(h, patterns, text, m);
      CountConcat(MatchesOf(Front(hits), patterns, text), MatchesOfHit(h, patterns, text), m);
    }
  }

  lemma ReportsFit(words: set<string>, text: string)
    ensures forall h :: h in Reported(words, text) ==> IsOccurrence(words, text, h)
  {
    forall h | h in Reported(words, text) ensures IsOccurrence(words, text, h) {
      ReportedOnce(words, text, h);
    }
  }

  lemma StandingIsReported(patterns: seq<Pattern>, text: string, m: Match)
    requires Multiplicity(m, patterns, text) > 0
    ensures Hit(m.end, m.pattern.text) in Reported(Words(patterns), text)
  {
    assert m.pattern in patterns;
    ReportedOnce(Words(patterns), text, Hit(m.end, m.pattern.text));
  }

  /** A match list holds every place where a pattern stands, once per copy of
      the pattern, and nothing else. */
  lemma MatchesExactly(patterns: seq<Pattern>, text: string, m: Match)
    ensures Count(Matches(patterns, text), m) == Multiplicity(m, patterns, text)
  {
    var hits := Reported(Words(patterns), text);
    forall h | h in hits ensures |h.word| <= h.end + 1 {
      ReportedOnce(Words(patterns), text, h);
    }
    ReportedOnce(Words(patterns), text, Hit(m.end, m.pattern.text));
    MatchesOfCounts(hits, patterns, text, m);
    if Multiplicity(m, patterns, text) > 0 {
      StandingIsReported(patterns, text, m);
    }
  }

  // ------------------------------------------------------------- the matcher

  class AhoCorasickMatcher {
    /** Unicode lower-casing is left open. */
    const lower: string -> string
    var auto: Option<map<string, seq<Pattern>>>
    ghost var patterns: seq<Pattern>

    ghost predicate Valid()
      reads this
    {
      match auto
      case None => patterns == []
      case Some(words) =>
        && words.Keys == Words(patterns)
        && forall w :: w in words ==> words[w] == Group(patterns, w)
    }

    constructor (lower: string -> string)
      ensures Valid() && patterns == [] && this.lower == lower
    {
      this.lower := lower;
      auto := None;
      patterns := [];
    }

    method Rebuild(patterns: seq<Pattern>)
      modifies this
      ensures Valid() && this.patterns == patterns
    {
      var grouped := GroupByText(patterns);
      var words := WithoutEmpty(grouped);
      auto := Some(words);
      this.patterns := patterns;
    }

    static method GroupByText(patterns: seq<Pattern>) returns (grouped: map<string, seq<Pattern>>)
      ensures Grouped(grouped, patterns)
    {
      grouped := map[];
      for i := 0 to |patterns|
        invariant Grouped(grouped, patterns[..i])
      {
        var p := patterns[i];
        GroupedOneMore(grouped, patterns[..i], p);
        assert patterns[..i + 1] == patterns[..i] + [p];
        grouped := grouped[p.text := (if p.text in grouped then grouped[p.text] else []) + [p]];
      }
      assert patterns[..|patterns|] == patterns;
    }

    /** Words the automaton stores. */
    static method WithoutEmpty(grouped: map<string, seq<Pattern>>) returns (words: map<string, seq<Pattern>>)
      ensures words.Keys == set w | w in grouped && w != ""
      ensures forall w :: w in words ==> words[w] == grouped[w]
    {
      words := map[];
      var todo := grouped.Keys;
      while todo != {}
        invariant todo <= grouped.Keys
        invariant words.Keys == set w | w in grouped.Keys - todo && w != ""
        invariant forall w :: w in words ==> words[w] == grouped[w]
      {
        var w :| w in todo;
        if w != "" {
          words := words[w := grouped[w]];
        }
        todo := todo - {w};
      }
    }

    method FindAll(text: string) returns (out: seq<Match>)
      requires Valid()
      ensures out == Matches(patterns, lower(text))
    {
      var textLc := lower(text);
      if auto.None? {
        NothingReported(textLc);
        assert Words(patterns) == {};
        return [];
      }
      var hits := Reported(auto.value.Keys, textLc);
      ReportsFit(auto.value.Keys, textLc);
      out := [];
      for i := 0 to |hits|
        invariant out == MatchesOf(hits[..i], patterns, textLc)
      {
        assert hits[i] in hits;
        assert Front(hits[..i + 1]) == hits[..i];
        var found := AcceptHit(hits[i], textLc);
        out := out + found;
      }
      assert hits[..|hits|] == hits;
    }

    method AcceptHit(h: Hit, textLc: string) returns (found: seq<Match>)
      requires Valid() && auto.Some? && IsOccurrence(auto.value.Keys, textLc, h)
      ensures found == MatchesOfHit(h, patterns, textLc)
    {
      GroupTexts(patterns, h.word);
      found := Accept(auto.value[h.word], h, textLc);
    }

    /** The payloads of one report that pass the boundary filter. */
    method Accept(payloads: seq<Pattern>, h: Hit, textLc: string) returns (found: seq<Match>)
      requires h.word != "" && |h.word| <= h.end + 1 && h.end < |textLc|
      requires OccursAt(textLc, h.word, h.end + 1 - |h.word|)
      requires forall p :: p in payloads ==> p.text == h.word
      ensures found == GroupMatches(payloads, textLc, h.end + 1 - |h.word|)
    {
      found := [];
      for j := 0 to |payloads|
        invariant found == GroupMatches(payloads[..j], textLc, h.end + 1 - |h.word|)
      {
        var p := payloads[j];
        assert Front(payloads[..j + 1]) == payloads[..j] && Last(payloads[..j + 1]) == p;
        var start := h.end - |p.text| + 1;
        if p.isEnglish && !WordBoundaryOk(textLc, start, h.end) {
          continue;
        }
        found := found + [Match(p, start, h.end, textLc[start..h.end + 1])];
      }
      assert payloads[..|payloads|] == payloads;
    }

    static lemma NothingReported(text: string)
      ensures Reported({}, text) == []
    {
      if Reported({}, text) != [] {
        ReportedOnce({}, text, Reported({}, text)[0]);
      }
    }
  }
}
