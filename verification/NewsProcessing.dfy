/** From pending raw news to exactly one terminal status each: rules gate, LLM
    or synthesis, score, then immediate push or digest entry. */
module NewsProcessing {
  import opened Common
  import opened Ordering
  import opened Matcher
  import opened Watchlist
  import RE = RulesEngine
  import I = Importance
  import B = Burst

  datatype Status = Pending | SkippedRules | Dead | Skipped | SkippedGrayzone | Processed

  datatype RawRow = RawRow(art: RE.Article, source: string, market: Market, publishedAt: int, status: Status)

  /** Ids of processed records and digest rows are positions. */
  datatype ProcRow = ProcRow(rawId: nat, score: real, critical: bool)

  datatype DigestKey = MorningUs | EveningUs | MorningCn | EveningCn

  datatype DigestRow = DigestRow(newsId: nat, market: Market, key: DigestKey)

  /** An immediate push, with the suppressor's clock reading. */
  datatype Push = Push(newsId: nat, market: Market, channels: seq<string>, at: real, tickers: seq<string>)

  /** What the LLM pipeline does with an article. */
  datatype LlmOutcome = Fails | Declines | Gives(e: I.Enriched)

  datatype Setup = Setup(
    rulesOn: bool,
    classifier: I.Classifier,
    llm: nat -> LlmOutcome,
    judged: nat -> (bool, string),
    rstrip: string -> string,
    channels: Market -> seq<string>,
    /** Market-local hour when an item is filed. */
    hour: (Market, nat) -> int)

  function ChooseDigestKey(m: Market, hour: int): DigestKey {
    if hour < 12 then (if m.US? then MorningUs else MorningCn)
    else (if m.US? then EveningUs else EveningCn)
  }

  const SKIP_SIGNAL := "rules-only-grayzone-skip"

  /** The drop signal travels as the reason text, so a judge that happens to
      answer that very text drops the article too. */
  predicate IsSkipSignal(r: Option<I.Reason>) {
    r == Some(I.GraySkip) || r == Some(I.Judged(SKIP_SIGNAL))
  }

  // ------------------------------------------------------- what must happen to a row

  datatype Fate = Fate(status: Status, score: real, critical: bool)

  datatype Assessment = Assessment(score: real, critical: bool, markets: seq<Market>, tickers: seq<string>)

  ghost predicate RulesMatch(lower: string -> string, rules: RulesSection, art: RE.Article) {
    var text := lower(RE.TextOf(art));
    RE.MarketHit(lower, rules, US, text) || RE.MarketHit(lower, rules, CN, text)
  }

  ghost function BoostOf(lower: string -> string, rules: RulesSection, art: RE.Article): real {
    var text := lower(RE.TextOf(art));
    RE.Boost(RE.DirectTickers(lower, rules, text) != {},
             RE.MentionedKeywords(lower, rules.sectors, text) != {},
             RE.MentionedKeywords(lower, rules.macros, text) != {})
  }

  function FateOfScore(c: I.Classifier, judged: (bool, string), score: real): Fate {
    var gray := c.lo <= score < c.hi;
    var dropped := gray && if c.llmEnabled then judged.1 == SKIP_SIGNAL else c.action.Skip?;
    Fate(if dropped then SkippedGrayzone else Processed, score,
         score >= c.hi || (gray && if c.llmEnabled then judged.0 else c.action.PushNow?))
  }

  /** The terminal status of a row, from the configuration and the outside
      answers alone. */
  ghost function FateOf(s: Setup, lower: string -> string, rules: RulesSection, raw: RawRow, id: nat): Fate {
    if s.rulesOn && !RulesMatch(lower, rules, raw.art) then Fate(SkippedRules, 0.0, false)
    else
      var boost := if s.rulesOn then BoostOf(lower, rules, raw.art) else 0.0;
      if !s.classifier.llmEnabled then
        FateOfScore(s.classifier, s.judged(id),
                    I.Capped((if raw.source in s.classifier.rules.alwaysCritical then 30 else 0) as real + boost))
      else
        match s.llm(id)
        case Fails => Fate(Dead, 0.0, false)
        case Declines => Fate(Skipped, 0.0, false)
        case Gives(enriched) =>
          FateOfScore(s.classifier, s.judged(id),
                      I.Capped(Min(100, I.WeightFor(s.classifier.rules, enriched, raw.source)) as real + boost))
  }

  /** When a row ends with which status: stopped by the rules; failed or declined
      by the LLM; or scored, and then dropped from the gray zone or processed. */
  lemma StatusIs(s: Setup, lower: string -> string, rules: RulesSection, row: RawRow, id: nat)
    ensures var status := FateOf(s, lower, rules, row, id).status;
            var passes := s.rulesOn ==> RulesMatch(lower, rules, row.art);
            var llm := s.classifier.llmEnabled;
            && (status == SkippedRules <==> !passes)
            && (status == Dead <==> passes && llm && s.llm(id) == Fails)
            && (status == Skipped <==> passes && llm && s.llm(id) == Declines)
            && (status == SkippedGrayzone || status == Processed <==> passes && (llm ==> s.llm(id).Gives?))
            && status != Pending
  {
  }

  /** ... and the score, the drop and the urgency of a row that is scored. The
      record of rules-only mode is an `other` event of low magnitude. */
  lemma ScoredFateIs(s: Setup, lower: string -> string, rules: RulesSection, row: RawRow, id: nat, e: I.Enriched,
                     verdict: Option<RE.Verdict>)
    requires s.rulesOn ==> RulesMatch(lower, rules, row.art)
    requires if s.classifier.llmEnabled then s.llm(id) == Gives(e)
             else e.event == I.Other && e.magnitude == I.Low
    requires verdict.Some? == s.rulesOn
    requires verdict.Some? ==> RE.Means(lower, rules, lower(RE.TextOf(row.art)), verdict.value)
    ensures var c := s.classifier;
            var fate := FateOf(s, lower, rules, row, id);
            var gray := c.lo <= fate.score < c.hi;
            && fate.score == I.ScoreOf(c, e, row.source, verdict)
            && (fate.status == SkippedGrayzone <==>
                  gray && if c.llmEnabled then s.judged(id).1 == "rules-only-grayzone-skip" else c.action == I.Skip)
            && (fate.critical <==>
                  || fate.score >= c.hi
                  || (gray && if c.llmEnabled then s.judged(id).0 else c.action == I.PushNow))
  {
    I.ScoreIs(s.classifier, e, row.source, verdict);
  }

  /** What the classifier's answer makes of a row that got this far. */
  lemma FateOfScored(s: Setup, lower: string -> string, rules: RulesSection, row: RawRow, id: nat,
                     verdict: Option<RE.Verdict>,
                     x: I.Enriched, scored: I.Scored)
    requires s.rulesOn ==> RulesMatch(lower, rules, row.art)
    requires verdict.Some? == s.rulesOn
    requires verdict.Some? ==> verdict.value.matched && verdict.value.scoreBoost == BoostOf(lower, rules, row.art)
    requires if s.classifier.llmEnabled then s.llm(id) == Gives(x)
             else x.event == I.Other && x.sentiment == I.Neutral && x.magnitude == I.Low
    requires var c := s.classifier;
             && scored.score == I.ScoreOf(c, x, row.source, verdict)
             && scored.critical == (scored.score >= c.hi
                                    || (scored.score >= c.lo
                                        && if c.llmEnabled then s.judged(id).0 else c.action.PushNow?))
             && scored.reason == (if scored.score >= c.hi || scored.score < c.lo then None
                                  else if c.llmEnabled then Some(I.Judged(s.judged(id).1))
                                  else Some(I.ActionReason(c.action)))
    ensures FateOf(s, lower, rules, row, id)
         == Fate(if IsSkipSignal(scored.reason) then SkippedGrayzone else Processed, scored.score, scored.critical)
  {
  }

  /** With the LLM, an article is dropped from the gray zone exactly if the judge
      answers the signal's text, whether or not it calls the article critical. */
  lemma JudgeDropsIff(s: Setup, lower: string -> string, rules: RulesSection, row: RawRow, id: nat, e: I.Enriched)
    requires s.classifier.llmEnabled && s.llm(id) == Gives(e) && (s.rulesOn ==> RulesMatch(lower, rules, row.art))
    ensures var c := s.classifier;
            var boost := if s.rulesOn then BoostOf(lower, rules, row.art) else 0.0;
            var score := I.Capped(Min(100, I.WeightFor(c.rules, e, row.source)) as real + boost);
            FateOf(s, lower, rules, row, id).status == SkippedGrayzone
            <==> c.lo <= score < c.hi && s.judged(id).1 == SKIP_SIGNAL
  {
  }

  /** The markets a processed row is meant for. */
  ghost function TargetsOf(s: Setup, lower: string -> string, rules: RulesSection, raw: RawRow): seq<Market> {
    var text := lower(RE.TextOf(raw.art));
    if !s.rulesOn then [raw.market]
    else (if RE.MarketHit(lower, rules, CN, text) then [CN] else [])
         + (if RE.MarketHit(lower, rules, US, text) then [US] else [])
  }

  lemma TargetsAreDistinct(s: Setup, lower: string -> string, rules: RulesSection, raw: RawRow)
    ensures Distinct(TargetsOf(s, lower, rules, raw))
  {
  }

  /** The tickers its pushes name: what the LLM related it to or, without the
      LLM, all direct and linked tickers in order. */
  ghost predicate NamesTickers(s: Setup, lower: string -> string, rules: RulesSection, raw: RawRow, id: nat,
                               tickers: seq<string>) {
    var text := lower(RE.TextOf(raw.art));
    if s.classifier.llmEnabled then s.llm(id).Gives? && tickers == s.llm(id).e.relatedTickers
    else && StrictlySorted(tickers)
         && Elements(tickers) == RE.DirectTickers(lower, rules, text) + RE.LinkedTickers(lower, rules, text)
  }

  // --------------------------------------------------------------- oldest first

  function PendingIds(raw: map<nat, RawRow>): set<nat> {
    set id | id in raw && raw[id].status.Pending?
  }

  /** A listing of the oldest pending rows, ties in any order. */
  predicate OldestPending(raw: map<nat, RawRow>, ids: seq<nat>, limit: nat) {
    && Distinct(ids)
    && (forall i :: 0 <= i < |ids| ==> ids[i] in raw && raw[ids[i]].status.Pending?)
    && |ids| == Min(limit, |PendingIds(raw)|)
    && (forall i, j :: 0 <= i < j < |ids| ==> raw[ids[i]].publishedAt <= raw[ids[j]].publishedAt)
    && forall i, id :: 0 <= i < |ids| && id in PendingIds(raw) && id !in ids ==>
         raw[ids[i]].publishedAt <= raw[id].publishedAt
  }

  method Earliest(raw: map<nat, RawRow>, among: set<nat>) returns (best: nat)
    requires among != {} && among <= raw.Keys
    ensures best in among && forall id :: id in among ==> raw[best].publishedAt <= raw[id].publishedAt
  {
    best :| best in among;
    var todo := among - {best};
    while todo != {}
      invariant best in among && todo <= among
      invariant forall id :: id in among - todo ==> raw[best].publishedAt <= raw[id].publishedAt
    {
      var id :| id in todo;
      if raw[id].publishedAt < raw[best].publishedAt {
        best := id;
      }
      todo := todo - {id};
    }
  }

  method ListPending(raw: map<nat, RawRow>, limit: nat) returns (ids: seq<nat>)
    ensures OldestPending(raw, ids, limit)
    ensures |ids| == limit || (|ids| < limit && forall id :: id in raw && raw[id].status == Pending ==> id in ids)
  {
    ids := [];
    var rest := PendingIds(raw);
    while |ids| < limit && rest != {}
      invariant Distinct(ids) && rest <= PendingIds(raw)
      invariant forall id :: id in ids <==> id in PendingIds(raw) && id !in rest
      invariant forall i :: 0 <= i < |ids| ==> ids[i] in raw && raw[ids[i]].status.Pending?
      invariant |ids| + |rest| == |PendingIds(raw)| && |ids| <= limit
      invariant forall i, j :: 0 <= i < j < |ids| ==> raw[ids[i]].publishedAt <= raw[ids[j]].publishedAt
      invariant forall i, id :: 0 <= i < |ids| && id in rest ==> raw[ids[i]].publishedAt <= raw[id].publishedAt
    {
      var id := Earliest(raw, rest);
      ids := ids + [id];
      rest := rest - {id};
    }
  }

  /** A listing holds pending rows only, each once, earlier ones first, and none
      later than a pending row it leaves out. */
  lemma OldestIs(raw: map<nat, RawRow>, ids: seq<nat>, limit: nat)
    requires OldestPending(raw, ids, limit)
    ensures forall id :: id in ids ==> id in raw && raw[id].status == Pending
    ensures forall i, j :: 0 <= i < j < |ids| ==>
              ids[i] != ids[j] && raw[ids[i]].publishedAt <= raw[ids[j]].publishedAt
    ensures forall i, id :: 0 <= i < |ids| && id in raw && raw[id].status == Pending && id !in ids ==>
              raw[ids[i]].publishedAt <= raw[id].publishedAt
  {
  }

  // ------------------------------------------------------------------- the store

  /** Monotonic time for the burst suppressor. */
  class MonotonicClock {
    var now: real

    constructor (start: real)
      ensures now == start
    {
      now := start;
    }

    method Read() returns (t: real)
      modifies this
      ensures t == now >= old(now)
    {
      var d: real := *;
      if d > 0.0 {
        now := now + d;
      }
      t := now;
    }
  }

  /** Neither a digest row nor a push names the record. */
  predicate FreshNews(newsId: nat, digest: seq<DigestRow>, pushes: seq<Push>) {
    (forall d :: d in digest ==> d.newsId != newsId) && (forall p :: p in pushes ==> p.newsId != newsId)
  }

  /** Every push stands for one accepted call of the suppressor, in order. */
  ghost predicate PushesAreAccepted(pushes: seq<Push>, log: seq<B.Call>) {
    |pushes| == |log| && forall i :: 0 <= i < |pushes| ==> B.Call(pushes[i].at, pushes[i].tickers) == log[i]
  }

  /** Consistency of the tables with one another. */
  ghost predicate Consistent(raw: map<nat, RawRow>, proc: seq<ProcRow>, digest: seq<DigestRow>, pushes: seq<Push>) {
    && (forall i :: 0 <= i < |proc| ==> proc[i].rawId in raw && raw[proc[i].rawId].status == Processed)
    && (forall i, j :: 0 <= i < j < |proc| ==> proc[i].rawId != proc[j].rawId)
    && (forall id :: id in raw && raw[id].status == Processed ==> exists i :: 0 <= i < |proc| && proc[i].rawId == id)
    && (forall d :: d in digest ==> d.newsId < |proc| && !proc[d.newsId].critical)
    && (forall i, j :: 0 <= i < j < |digest| ==> digest[i].newsId != digest[j].newsId)
    && (forall p :: p in pushes ==> p.newsId < |proc| && proc[p.newsId].critical && p.channels != [])
    && (forall i, j :: 0 <= i < j < |pushes| ==>
          pushes[i].newsId != pushes[j].newsId || pushes[i].market != pushes[j].market)
  }

  /** An item is pushed or put into the digest, never both; the digest holds it
      once, and no market receives it twice. */
  lemma PushedOrDigested(raw: map<nat, RawRow>, proc: seq<ProcRow>, digest: seq<DigestRow>, pushes: seq<Push>,
                         rawId: nat)
    requires Consistent(raw, proc, digest, pushes)
    ensures forall p, d :: p in pushes && d in digest ==> proc[p.newsId].rawId != proc[d.newsId].rawId
    ensures forall i, j :: 0 <= i < j < |digest| ==> proc[digest[i].newsId].rawId != proc[digest[j].newsId].rawId
    ensures forall i, j :: 0 <= i < j < |pushes| && pushes[i].market == pushes[j].market ==>
              proc[pushes[i].newsId].rawId != proc[pushes[j].newsId].rawId
    ensures rawId in raw && raw[rawId].status != Processed ==>
              (forall p :: p in pushes ==> proc[p.newsId].rawId != rawId)
              && (forall d :: d in digest ==> proc[d.newsId].rawId != rawId)
  {
    forall p, d | p in pushes && d in digest ensures proc[p.newsId].rawId != proc[d.newsId].rawId {
      assert p.newsId != d.newsId;
    }
  }

  /** Immediate pushes naming t at a time in the closed interval [from, to]. */
  function PushesNaming(pushes: seq<Push>, t: string, from: real, to: real): nat {
    if pushes == [] then 0
    else PushesNaming(Front(pushes), t, from, to)
         + if t in Last(pushes).tickers && from <= Last(pushes).at <= to then 1 else 0
  }

  lemma {:induction false} PushesNameWhatCallsName(pushes: seq<Push>, log: seq<B.Call>, t: string, from: real, to: real)
    requires PushesAreAccepted(pushes, log)
    ensures PushesNaming(pushes, t, from, to) == B.CallsNaming(log, t, from, to)
  {
    if pushes != [] {
      PushesNameWhatCallsName(Front(pushes), Front(log), t, from, to);
    }
  }

  lemma PushesAreBounded(pushes: seq<Push>, calls: seq<B.Call>, window: int, threshold: int, t: string, from: real)
    requires B.Ordered(calls) && PushesAreAccepted(pushes, B.AcceptedLog(calls, window, threshold))
    ensures PushesNaming(pushes, t, from, from + window as real) <= if threshold < 0 then 0 else threshold
  {
    PushesNameWhatCallsName(pushes, B.AcceptedLog(calls, window, threshold), t, from, from + window as real);
    B.WindowBound(calls, window, threshold, t, from);
  }

  /** The answers of the suppressor to a stretch of calls that follows `before`. */
  ghost predicate Decided(before: seq<B.Call>, calls: seq<B.Call>, accepted: seq<bool>, window: int, threshold: int) {
    |calls| == |accepted| && forall i :: 0 <= i < |calls| ==> DecidedAt(before, calls, accepted, window, threshold, i)
  }

  predicate DecidedAt(before: seq<B.Call>, calls: seq<B.Call>, accepted: seq<bool>, window: int, threshold: int, i: nat)
    requires i < |calls| == |accepted|
  {
    accepted[i] == B.Accepts(B.AcceptedLog(before + calls[..i], window, threshold), calls[i], window, threshold)
  }

  lemma OneMoreDecided(before: seq<B.Call>, calls: seq<B.Call>, accepted: seq<bool>, window: int, threshold: int,
                       c: B.Call, send: bool)
    requires Decided(before, calls, accepted, window, threshold)
    requires send == B.Accepts(B.AcceptedLog(before + calls, window, threshold), c, window, threshold)
    ensures Decided(before, calls + [c], accepted + [send], window, threshold)
  {
    forall i | 0 <= i < |calls| + 1 ensures DecidedAt(before, calls + [c], accepted + [send], window, threshold, i) {
      assert (calls + [c])[..i] == calls[..i];
      assert calls[..|calls|] == calls;
      assert i < |calls| ==> DecidedAt(before, calls, accepted, window, threshold, i);
    }
  }

  /** The answers to an article with two plans, on the log as it found it. */
  predicate TwoDecided(log: seq<B.Call>, calls: seq<B.Call>, accepted: seq<bool>, window: int, threshold: int) {
    |calls| == |accepted| == 2 ==>
      && accepted[0] == B.Accepts(log, calls[0], window, threshold)
      && accepted[1] == B.Accepts(if accepted[0] then log + [calls[0]] else log, calls[1], window, threshold)
  }

  lemma TwoAnswers(before: seq<B.Call>, calls: seq<B.Call>, accepted: seq<bool>, window: int, threshold: int)
    requires Decided(before, calls, accepted, window, threshold)
    ensures TwoDecided(B.AcceptedLog(before, window, threshold), calls, accepted, window, threshold)
  {
    if |calls| == 2 {
      assert DecidedAt(before, calls, accepted, window, threshold, 0);
      assert DecidedAt(before, calls, accepted, window, threshold, 1);
      assert before + calls[..0] == before && before + calls[..1] == before + [calls[0]];
      B.OneMoreCall(before, calls[0], window, threshold);
    }
  }

  /** Counting from the cutoff, every ticker takes one more push of the list
      and still stays below the threshold. */
  predicate RoomFor(log: seq<B.Call>, tickers: seq<string>, cutoff: real, threshold: int) {
    forall t :: t in tickers ==> B.Logged(log, t, cutoff) + multiset(tickers)[t] < threshold
  }

  lemma RepeatNeedsRoom(log: seq<B.Call>, first: B.Call, second: B.Call, tickers: seq<string>,
                        window: int, threshold: int, again: bool)
    requires first.tickers == second.tickers == tickers && first.now >= second.now - window as real
    requires again == B.Accepts(log + [first], second, window, threshold)
    ensures again == RoomFor(log, tickers, second.now - window as real, threshold)
    ensures threshold <= 1 && tickers != [] ==> !again
  {
    assert Front(log + [first]) == log;
    if tickers != [] {
      assert tickers[0] in tickers && multiset(tickers)[tickers[0]] >= 1;
    }
  }

  /** An urgent article for two markets asks the suppressor twice. If the first
      market gets it, then within the window the second does exactly if every
      ticker has room for both; with a threshold of one and some ticker named,
      it never does. */
  lemma SecondMarketNeedsRoom(log: seq<B.Call>, calls: seq<B.Call>, accepted: seq<bool>, tickers: seq<string>,
                              window: int, threshold: int)
    requires TwoDecided(log, calls, accepted, window, threshold) && |calls| == |accepted| == 2 && accepted[0]
    requires calls[0].tickers == calls[1].tickers == tickers && calls[0].now >= calls[1].now - window as real
    ensures accepted[1] == RoomFor(log, tickers, calls[1].now - window as real, threshold)
    ensures threshold <= 1 && tickers != [] ==> !accepted[1]
  {
    RepeatNeedsRoom(log, calls[0], calls[1], tickers, window, threshold, accepted[1]);
  }

  lemma PushKeepsConsistent(raw: map<nat, RawRow>, proc: seq<ProcRow>, digest: seq<DigestRow>, pushes: seq<Push>,
                            p: Push)
    requires Consistent(raw, proc, digest, pushes)
    requires p.newsId < |proc| && proc[p.newsId].critical && p.channels != []
    requires forall q :: q in pushes ==> q.newsId != p.newsId || q.market != p.market
    ensures Consistent(raw, proc, digest, pushes + [p])
  {
  }

  /** What delivering one record comes to: digest rows, pushes, and the calls of
      the suppressor with its answers. */
  datatype Handover = Handover(filed: seq<DigestRow>, pushes: seq<Push>, calls: seq<B.Call>, accepted: seq<bool>)

  const NOTHING := Handover([], [], [], [])

  /** Records, digest rows, pushes and suppressor calls so far. */
  datatype Output = Output(proc: seq<ProcRow>, digest: seq<DigestRow>, pushes: seq<Push>, calls: seq<B.Call>)
  {
    function Plus(records: seq<ProcRow>, d: Handover): Output {
      Output(proc + records, digest + d.filed, pushes + d.pushes, calls + d.calls)
    }
  }

  lemma RecordFirst(o: Output, records: seq<ProcRow>, d: Handover)
    ensures o.Plus(records, NOTHING).Plus([], d) == o.Plus(records, d)
  {
    assert o.proc + records + [] == o.proc + records;
  }

  class Pipeline {
    var raw: map<nat, RawRow>
    var proc: seq<ProcRow>
    var digest: seq<DigestRow>
    var pushes: seq<Push>
    const burst: B.BurstSuppressor
    const clock: MonotonicClock

    ghost predicate Valid()
      reads this, burst, clock
    {
      && Consistent(raw, proc, digest, pushes)
      && burst.Valid() && burst.clock <= clock.now
      && PushesAreAccepted(pushes, B.AcceptedLog(burst.calls, burst.window, burst.threshold))
    }

    ghost function Out(): Output
      reads this, burst
    {
      Output(proc, digest, pushes, burst.calls)
    }

    constructor (burst: B.BurstSuppressor, clock: MonotonicClock)
      requires burst.Valid() && burst.calls == [] && burst.clock <= clock.now
      ensures Valid() && raw == map[] && proc == [] && digest == [] && pushes == []
      ensures this.burst == burst && this.clock == clock
    {
      raw, proc, digest, pushes := map[], [], [], [];
      this.burst := burst;
      this.clock := clock;
    }

    /** At any time, in any window-long interval, at most `threshold` pushes
        have named a given ticker. */
    lemma PushesPerTicker(t: string, from: real)
      requires Valid()
      ensures PushesNaming(pushes, t, from, from + burst.window as real)
           <= if burst.threshold < 0 then 0 else burst.threshold
    {
      PushesAreBounded(pushes, burst.calls, burst.window, burst.threshold, t, from);
    }

    /** Scrapers may insert any number of pending rows before each row of a batch. */
    method Meanwhile(ghost e: RE.RulesEngine)
      requires Valid() && e.Valid()
      modifies this`raw
      ensures Valid() && e.Valid() && e.rules == old(e.rules) && Arrived(old(raw), raw)
    {
      var arrivals: map<nat, RawRow> := *;
      raw := (map id | id in arrivals :: arrivals[id].(status := Pending)) + raw;
    }

    method MarkStatus(id: nat, status: Status)
      modifies this`raw
      ensures raw == if id in old(raw) then old(raw)[id := old(raw)[id].(status := status)] else old(raw)
    {
      if id in raw {
        raw := raw[id := raw[id].(status := status)];
      }
    }

    /** Asks the suppressor, and pushes if it agrees. */
    method PushOne(s: Setup, newsId: nat, m: Market, tickers: seq<string>) returns (send: bool)
      requires Valid() && newsId < |proc| && proc[newsId].critical && s.channels(m) != []
      requires forall p :: p in pushes ==> p.newsId != newsId || p.market != m
      modifies this`pushes, burst, clock
      ensures Valid()
      ensures burst.calls == old(burst.calls) + [B.Call(clock.now, tickers)]
      ensures send == B.Accepts(B.AcceptedLog(old(burst.calls), burst.window, burst.threshold),
                                B.Call(clock.now, tickers), burst.window, burst.threshold)
      ensures pushes == old(pushes) + if send then [Push(newsId, m, s.channels(m), clock.now, tickers)] else []
    {
      var now := clock.Read();
      B.OneMoreCall(burst.calls, B.Call(now, tickers), burst.window, burst.threshold);
      send := burst.ShouldSend(tickers, now);
      if send {
        PushKeepsConsistent(raw, proc, digest, pushes, Push(newsId, m, s.channels(m), now, tickers));
        pushes := pushes + [Push(newsId, m, s.channels(m), now, tickers)];
      } else {
        assert pushes + [] == pushes;
      }
    }

    /** One plan per target market that has channels, all urgent or none: the
        urgent ones ask the suppressor, the first other files a digest row. */
    method Deliver(s: Setup, newsId: nat, home: Market, targets: seq<Market>, critical: bool, tickers: seq<string>)
      returns (ghost d: Handover)
      requires Valid() && newsId < |proc| && proc[newsId].critical == critical
      requires Distinct(targets) && FreshNews(newsId, digest, pushes)
      modifies this`digest, this`pushes, burst, clock
      ensures Valid() && Out() == old(Out()).Plus([], d)
      ensures Delivered(s, newsId, home, targets, critical, d)
      ensures forall r :: r in d.filed ==> TimelyRow(s, newsId, home, r)
      ensures forall c :: c in d.calls ==> c.tickers == tickers
      ensures Decided(old(burst.calls), d.calls, d.accepted, burst.window, burst.threshold)
      ensures TwoDecided(B.AcceptedLog(old(burst.calls), burst.window, burst.threshold), d.calls, d.accepted,
                         burst.window, burst.threshold)
    {
      var plans := PlansFor(s, targets);
      d := NOTHING;
      NothingMore();
      FiledIsTimely(s, newsId, home, targets, critical);
      if critical {
        FilterDistinct((m: Market) => s.channels(m) != [], targets);
        ghost var calls, accepted := PushAll(s, newsId, plans, tickers);
        TwoAnswers(old(burst.calls), calls, accepted, burst.window, burst.threshold);
        d := Handover([], Granted(s, newsId, plans, calls, accepted), calls, accepted);
      } else if plans != [] {
        var row := DigestRow(newsId, home, ChooseDigestKey(home, s.hour(home, newsId)));
        FileDigest(row);
        d := Handover([row], [], [], []);
      }
    }

    method PushAll(s: Setup, newsId: nat, plans: seq<Market>, tickers: seq<string>)
      returns (ghost calls: seq<B.Call>, ghost accepted: seq<bool>)
      requires Valid() && newsId < |proc| && proc[newsId].critical && FreshNews(newsId, digest, pushes)
      requires Distinct(plans) && forall m :: m in plans ==> s.channels(m) != []
      modifies this`pushes, burst, clock
      ensures Valid() && burst.calls == old(burst.calls) + calls
      ensures |calls| == |accepted| == |plans|
      ensures forall c :: c in calls ==> c.tickers == tickers
      ensures Decided(old(burst.calls), calls, accepted, burst.window, burst.threshold)
      ensures pushes == old(pushes) + Granted(s, newsId, plans, calls, accepted)
    {
      calls, accepted := [], [];
      NothingMore();
      assert plans[..0] == [];
      for i := 0 to |plans|
        invariant Valid()
        invariant Asked(s, newsId, plans[..i], tickers, old(pushes), pushes, old(burst.calls), burst.calls,
                        calls, accepted, burst.window, burst.threshold)
      {
        calls, accepted := PushNext(s, newsId, plans, i, tickers, old(pushes), old(burst.calls), calls, accepted);
      }
      assert plans[..|plans|] == plans;
    }

    method PushNext(s: Setup, newsId: nat, plans: seq<Market>, i: nat, tickers: seq<string>,
                    ghost pushes0: seq<Push>, ghost calls0: seq<B.Call>, ghost calls: seq<B.Call>,
                    ghost accepted: seq<bool>)
      returns (ghost calls': seq<B.Call>, ghost accepted': seq<bool>)
      requires Valid() && newsId < |proc| && proc[newsId].critical && i < |plans|
      requires Distinct(plans) && forall m :: m in plans ==> s.channels(m) != []
      requires forall p :: p in pushes0 ==> p.newsId != newsId
      requires Asked(s, newsId, plans[..i], tickers, pushes0, pushes, calls0, burst.calls, calls, accepted,
                     burst.window, burst.threshold)
      modifies this`pushes, burst, clock
      ensures Valid()
      ensures Asked(s, newsId, plans[..i + 1], tickers, pushes0, pushes, calls0, burst.calls, calls', accepted',
                    burst.window, burst.threshold)
    {
      ghost var pushes1, calls1 := pushes, burst.calls;
      NotYetPushed(s, newsId, pushes0, plans, i, calls, accepted);
      var send := PushOne(s, newsId, plans[i], tickers);
      ghost var call := B.Call(clock.now, tickers);
      OneMorePlan(s, newsId, plans, i, tickers, calls, call, accepted, send, pushes0, pushes1, calls0, calls1,
                  burst.window, burst.threshold);
      calls', accepted' := calls + [call], accepted + [send];
    }

    method FileDigest(row: DigestRow)
      requires Valid() && row.newsId < |proc| && !proc[row.newsId].critical
      requires forall d :: d in digest ==> d.newsId != row.newsId
      modifies this`digest
      ensures Valid() && digest == old(digest) + [row]
    {
      digest := digest + [row];
    }

    /** A terminal status for a row that leaves no record. */
    method Close(id: nat, status: Status)
      requires Valid() && id in raw && raw[id].status.Pending? && !status.Processed?
      modifies this`raw
      ensures Valid() && raw == old(raw)[id := old(raw)[id].(status := status)]
    {
      MarkStatus(id, status);
    }

    /** The source of the enriched record; None means the row got its terminal
        status here. */
    method Enrich(s: Setup, e: RE.RulesEngine, id: nat, verdict: Option<RE.Verdict>)
      returns (enriched: Option<I.Enriched>)
      requires Valid() && id in raw && raw[id].status.Pending?
      requires verdict.None? ==> s.classifier.llmEnabled
      modifies this`raw
      ensures Valid()
      ensures raw == if enriched.Some? then old(raw)
                     else old(raw)[id := old(raw)[id].(status := if s.llm(id).Fails? then Dead else Skipped)]
      ensures s.classifier.llmEnabled ==>
                enriched == match s.llm(id) case Gives(x) => Some(x) case Fails => None case Declines => None
      ensures !s.classifier.llmEnabled ==>
                && enriched.Some? && enriched.value.event == I.Other
                && enriched.value.sentiment == I.Neutral && enriched.value.magnitude == I.Low
                && StrictlySorted(enriched.value.relatedTickers)
                && Elements(enriched.value.relatedTickers)
                   == Elements(verdict.value.tickers) + Elements(verdict.value.relatedTickers)
    {
      if s.classifier.llmEnabled {
        match s.llm(id)
        case Fails =>
          Close(id, Dead);
          return None;
        case Declines =>
          Close(id, Skipped);
          return None;
        case Gives(x) =>
          return Some(x);
      }
      var x := I.SynthEnriched(raw[id].art, verdict.value, s.rstrip);
      enriched := Some(x);
    }

    method Gate(s: Setup, e: RE.RulesEngine, row: RawRow) returns (verdict: Option<RE.Verdict>)
      requires e.Valid()
      ensures verdict.Some? == s.rulesOn
      ensures verdict.Some? ==> verdict.value.matched == RulesMatch(e.lower, e.rules, row.art)
      ensures verdict.Some? ==> verdict.value.scoreBoost == BoostOf(e.lower, e.rules, row.art)
      ensures TargetsOf(s, e.lower, e.rules, row) == if verdict.Some? then verdict.value.markets else [row.market]
      ensures verdict.Some? ==>
                Elements(verdict.value.tickers) + Elements(verdict.value.relatedTickers)
                == RE.DirectTickers(e.lower, e.rules, e.lower(RE.TextOf(row.art)))
                   + RE.LinkedTickers(e.lower, e.rules, e.lower(RE.TextOf(row.art)))
    {
      if s.rulesOn {
        var v := e.Match(row.art);
        return Some(v);
      }
      verdict := None;
    }

    /** Gate, enrichment and score: a row that is not to be recorded gets its
        terminal status here, the others are left pending. */
    method Assess(s: Setup, e: RE.RulesEngine, id: nat, row: RawRow, ghost rules: RulesSection, ghost fate: Fate)
      returns (kept: Option<Assessment>)
      requires Valid() && e.Valid() && id in raw && raw[id] == row && row.status.Pending? && rules == e.rules
      requires s.rulesOn || s.classifier.llmEnabled
      requires fate == FateOf(s, e.lower, rules, row, id)
      modifies this`raw
      ensures Valid()
      ensures kept.Some? == fate.status.Processed?
      ensures match kept
              case None => raw == old(raw)[id := row.(status := fate.status)]
              case Some(a) => && raw == old(raw)
                              && Fate(Processed, a.score, a.critical) == fate
                              && a.markets == TargetsOf(s, e.lower, rules, row)
                              && NamesTickers(s, e.lower, rules, row, id, a.tickers)
    {
      var verdict := Gate(s, e, row);
      if verdict.Some? && !verdict.value.matched {
        Close(id, SkippedRules);
        return None;
      }
      var enriched := Enrich(s, e, id, verdict);
      if enriched.None? {
        return None;
      }
      var scored := I.ScoreNews(s.classifier, enriched.value, row.source, verdict, s.judged(id));
      FateOfScored(s, e.lower, old(e.rules), row, id, verdict, enriched.value, scored);
      if IsSkipSignal(scored.reason) {
        Close(id, SkippedGrayzone);
        return None;
      }
      kept := Some(Assessment(scored.score, scored.critical,
                              if verdict.Some? then verdict.value.markets else [row.market],
                              enriched.value.relatedTickers));
    }

    /** One round of the batch loop: the row gets the status the configuration
        and the outside answers call for, and exactly a processed row leaves a
        record, which is then delivered. */
    method ProcessOne(s: Setup, e: RE.RulesEngine, id: nat, row: RawRow)
      returns (done: bool, ghost fate: Fate, ghost d: Handover)
      requires Valid() && e.Valid() && id in raw && raw[id] == row && row.status.Pending?
      requires s.rulesOn || s.classifier.llmEnabled
      modifies this, burst, clock
      ensures Valid() && e.Valid() && e.rules == old(e.rules)
      ensures fate == FateOf(s, e.lower, old(e.rules), row, id)
      ensures raw == old(raw)[id := row.(status := fate.status)] && done == fate.status.Processed?
      ensures Out() == old(Out()).Plus(Recorded(id, fate), d)
      ensures SettledBy(s, e.lower, old(e.rules), row, id, |old(proc)|, fate, old(burst.calls), d,
                        burst.window, burst.threshold)
    {
      ghost var rules := e.rules;
      fate := FateOf(s, e.lower, rules, row, id);
      var kept := Assess(s, e, id, row, rules, fate);
      done := kept.Some?;
      if done {
        TargetsAreDistinct(s, e.lower, rules, row);
        d := RecordAndDeliver(s, e, id, row.market, kept.value);
        KeptIsSettled(s, e.lower, rules, row, id, |old(proc)|, kept.value, old(burst.calls), d,
                      burst.window, burst.threshold);
      } else {
        d := NOTHING;
        NothingMore();
      }
    }

    method RecordAndDeliver(s: Setup, ghost e: RE.RulesEngine, id: nat, home: Market, a: Assessment)
      returns (ghost d: Handover)
      requires Valid() && e.Valid() && id in raw && raw[id].status.Pending? && Distinct(a.markets)
      modifies this, burst, clock
      ensures e.Valid() && e.rules == old(e.rules)
      ensures Valid() && Decided(old(burst.calls), d.calls, d.accepted, burst.window, burst.threshold)
      ensures raw == old(raw)[id := old(raw)[id].(status := Processed)]
      ensures Out() == old(Out()).Plus([ProcRow(id, a.score, a.critical)], d)
      ensures Delivered(s, |old(proc)|, home, a.markets, a.critical, d)
      ensures forall c :: c in d.calls ==> c.tickers == a.tickers
    {
      ghost var out, record := Out(), [ProcRow(id, a.score, a.critical)];
      var newsId := |proc|;
      AddRecord(ProcRow(id, a.score, a.critical));
      assert proc[newsId].critical == a.critical;
      d := Deliver(s, newsId, home, a.markets, a.critical, a.tickers);
      RecordFirst(out, record, d);
    }

    /** One scheduler run: exactly the oldest min(batch, pending) rows get
        their terminal status, and the result counts the records they left.
        Rows that arrive meanwhile stay pending. */
    method ProcessPending(s: Setup, e: RE.RulesEngine, batch: nat)
      returns (processed: nat, ids: seq<nat>, ghost fates: map<nat, Fate>, ghost ds: seq<Handover>)
      requires Valid() && e.Valid()
      requires s.rulesOn || s.classifier.llmEnabled
      modifies this, burst, clock
      ensures Valid() && OldestPending(old(raw), ids, batch)
      ensures fates == old(Fates(s, e.lower, e.rules, raw))
      ensures RowsMoved(fates, old(raw), raw, ids)
      ensures RecordsMade(fates, old(proc), proc, ids, processed, raw)
      ensures Served(s, e.lower, old(e.rules), old(raw), old(Out()), Out(), ds, burst.window, burst.threshold)
    {
      fates := Fates(s, e.lower, e.rules, raw);
      ids := ListPending(raw, batch);
      processed, ds := RunBatch(s, e, ids, fates);
    }

    method RunBatch(s: Setup, e: RE.RulesEngine, ids: seq<nat>, ghost fates: map<nat, Fate>)
      returns (processed: nat, ghost ds: seq<Handover>)
      requires Valid() && e.Valid()
      requires s.rulesOn || s.classifier.llmEnabled
      requires Distinct(ids) && forall i :: 0 <= i < |ids| ==> ids[i] in raw && raw[ids[i]].status.Pending?
      requires fates == Fates(s, e.lower, e.rules, raw)
      modifies this, burst, clock
      ensures Valid()
      ensures RowsMoved(fates, old(raw), raw, ids)
      ensures RecordsMade(fates, old(proc), proc, ids, processed, raw)
      ensures Served(s, e.lower, old(e.rules), old(raw), old(Out()), Out(), ds, burst.window, burst.threshold)
    {
      processed, ds := 0, [];
      ghost var rules, raw0, before := e.rules, raw, Out();
      NothingMoved(fates, raw0, before.proc);
      assert ids[..0] == [];
      NothingServed(s, e.lower, rules, raw0, before, burst.window, burst.threshold);
      for i := 0 to |ids|
        invariant Valid() && e.Valid() && e.rules == rules
        invariant RowsMoved(fates, raw0, raw, ids[..i])
        invariant RecordsMade(fates, before.proc, proc, ids[..i], processed, raw)
        invariant Served(s, e.lower, rules, raw0, before, Out(), ds, burst.window, burst.threshold)
      {
        processed, ds := Round(s, e, ids, i, processed, fates, rules, raw0, before, ds);
      }
      assert ids[..|ids|] == ids;
    }

    method Round(s: Setup, e: RE.RulesEngine, ids: seq<nat>, i: nat, processed: nat,
                 ghost fates: map<nat, Fate>, ghost rules: RulesSection, ghost raw0: map<nat, RawRow>,
                 ghost before: Output, ghost ds: seq<Handover>)
      returns (processed': nat, ghost ds': seq<Handover>)
      requires Valid() && e.Valid() && e.rules == rules
      requires s.rulesOn || s.classifier.llmEnabled
      requires Distinct(ids) && forall j :: 0 <= j < |ids| ==> ids[j] in raw0 && raw0[ids[j]].status.Pending?
      requires i < |ids| && fates == Fates(s, e.lower, rules, raw0)
      requires RowsMoved(fates, raw0, raw, ids[..i])
      requires RecordsMade(fates, before.proc, proc, ids[..i], processed, raw)
      requires Served(s, e.lower, rules, raw0, before, Out(), ds, burst.window, burst.threshold)
      modifies this, burst, clock
      ensures Valid() && e.Valid() && e.rules == rules
      ensures RowsMoved(fates, raw0, raw, ids[..i + 1])
      ensures RecordsMade(fates, before.proc, proc, ids[..i + 1], processed', raw)
      ensures Served(s, e.lower, rules, raw0, before, Out(), ds', burst.window, burst.threshold)
    {
      var id := ids[i];
      NextRow(s, e.lower, rules, fates, raw0, raw, ids, i);
      ghost var fate, out := fates[id], Out();
      ghost var mid, d;
      processed', mid, d := Advance(s, e, id, raw[id], rules, fate, processed);
      OneMoreRow(fates, raw0, old(raw), mid, raw, ids[..i], id);
      OneMoreRecord(fates, raw0, old(raw), mid, raw, before.proc, old(proc), proc, ids[..i], id, processed);
      ds' := ds + if fate.status.Processed? then [d] else [];
      OneMoreServed(s, e.lower, rules, raw0, before, out, ds, id, fate, d, burst.window, burst.threshold);
    }

    method Advance(s: Setup, e: RE.RulesEngine, id: nat, row: RawRow, ghost rules: RulesSection,
                   ghost fate: Fate, processed: nat)
      returns (processed': nat, ghost mid: map<nat, RawRow>, ghost d: Handover)
      requires Valid() && e.Valid() && e.rules == rules && id in raw && raw[id] == row && row.status.Pending?
      requires s.rulesOn || s.classifier.llmEnabled
      requires fate == FateOf(s, e.lower, rules, row, id)
      modifies this, burst, clock
      ensures Valid() && e.Valid() && e.rules == rules && Arrived(old(raw), mid)
      ensures raw == mid[id := row.(status := fate.status)]
      ensures processed' == processed + if fate.status.Processed? then 1 else 0
      ensures Out() == old(Out()).Plus(Recorded(id, fate), d)
      ensures SettledBy(s, e.lower, rules, row, id, |old(proc)|, fate, old(burst.calls), d,
                        burst.window, burst.threshold)
    {
      Meanwhile(e);
      mid := raw;
      assert raw[id] == row;
      var done;
      ghost var fated;
      done, fated, d := ProcessOne(s, e, id, row);
      processed' := if done then processed + 1 else processed;
    }

    /** Appending nothing changes nothing. */
    lemma NothingMore()
      ensures proc + [] == proc && digest + [] == digest && pushes + [] == pushes && burst.calls + [] == burst.calls
    {
    }

    /** The record and its status. */
    method AddRecord(p: ProcRow)
      requires Valid() && p.rawId in raw && raw[p.rawId].status.Pending?
      modifies this`proc, this`raw
      ensures Valid() && Out() == old(Out()).Plus([p], NOTHING) && FreshNews(|old(proc)|, digest, pushes)
      ensures raw == old(raw)[p.rawId := old(raw)[p.rawId].(status := Processed)]
    {
      NothingMore();
      proc := proc + [p];
      MarkStatus(p.rawId, Processed);
      forall id | id in raw && raw[id].status == Processed ensures exists i :: 0 <= i < |proc| && proc[i].rawId == id {
        if id == p.rawId {
          assert proc[|old(proc)|].rawId == id;
        } else {
          var i :| 0 <= i < |old(proc)| && old(proc)[i].rawId == id;
          assert proc[i].rawId == id;
        }
      }
    }
  }

  /** What must happen to every row. */
  ghost function Fates(s: Setup, lower: string -> string, rules: RulesSection, raw: map<nat, RawRow>): map<nat, Fate>
  {
    map id | id in raw :: FateOf(s, lower, rules, raw[id], id)
  }

  function RecordedIds(raw: map<nat, RawRow>, ids: seq<nat>): set<nat> {
    set id | id in ids && id in raw && raw[id].status.Processed?
  }

  /** Where the rows stand once a run is done with those listed in `ids`. */
  ghost predicate RowsMoved(fates: map<nat, Fate>, raw0: map<nat, RawRow>, raw: map<nat, RawRow>, ids: seq<nat>) {
    && fates.Keys == raw0.Keys
    && (forall id :: id in raw0 ==>
          id in raw && raw[id] == if id in ids then raw0[id].(status := fates[id].status) else raw0[id])
    && forall id :: id in raw && id !in raw0 ==> raw[id].status.Pending?
  }

  /** ... and the records. */
  ghost predicate RecordsMade(fates: map<nat, Fate>, proc0: seq<ProcRow>, proc: seq<ProcRow>, ids: seq<nat>,
                              processed: nat, raw: map<nat, RawRow>) {
    && proc0 <= proc && |proc| == |proc0| + processed && processed == |RecordedIds(raw, ids)|
    && forall i :: |proc0| <= i < |proc| ==>
         && proc[i].rawId in ids && proc[i].rawId in fates
         && Fate(Processed, proc[i].score, proc[i].critical) == fates[proc[i].rawId]
  }

  lemma NothingMoved(fates: map<nat, Fate>, raw: map<nat, RawRow>, proc: seq<ProcRow>)
    requires fates.Keys == raw.Keys
    ensures RowsMoved(fates, raw, raw, []) && RecordsMade(fates, proc, proc, [], 0, raw)
  {
    assert RecordedIds(raw, []) == {};
  }

  ghost predicate Arrived(raw: map<nat, RawRow>, mid: map<nat, RawRow>) {
    && raw.Keys <= mid.Keys
    && forall k :: k in mid ==> if k in raw then mid[k] == raw[k] else mid[k].status.Pending?
  }

  lemma NextRow(s: Setup, lower: string -> string, rules: RulesSection, fates: map<nat, Fate>,
                raw0: map<nat, RawRow>, raw: map<nat, RawRow>, ids: seq<nat>, i: nat)
    requires i < |ids| && RowsMoved(fates, raw0, raw, ids[..i]) && fates == Fates(s, lower, rules, raw0)
    requires Distinct(ids) && forall j :: 0 <= j < |ids| ==> ids[j] in raw0
    ensures forall k :: k in ids[..i] ==> k in raw
    ensures ids[i] !in ids[..i] && ids[..i + 1] == ids[..i] + [ids[i]]
    ensures ids[i] in raw && raw[ids[i]] == raw0[ids[i]]
    ensures fates[ids[i]] == FateOf(s, lower, rules, raw0[ids[i]], ids[i])
  {
  }

  lemma OneMoreRow(fates: map<nat, Fate>, raw0: map<nat, RawRow>, raw: map<nat, RawRow>, mid: map<nat, RawRow>,
                   after: map<nat, RawRow>, ids: seq<nat>, id: nat)
    requires RowsMoved(fates, raw0, raw, ids) && Arrived(raw, mid) && id in raw0 && id !in ids
    requires after == mid[id := raw0[id].(status := fates[id].status)]
    ensures RowsMoved(fates, raw0, after, ids + [id])
  {
  }

  lemma OneMoreRecord(fates: map<nat, Fate>, raw0: map<nat, RawRow>, raw: map<nat, RawRow>, mid: map<nat, RawRow>,
                      after: map<nat, RawRow>, proc0: seq<ProcRow>, proc: seq<ProcRow>, proc': seq<ProcRow>,
                      ids: seq<nat>, id: nat, processed: nat)
    requires RecordsMade(fates, proc0, proc, ids, processed, raw)
    requires Arrived(raw, mid) && id in mid && id in fates && id !in ids && forall k :: k in ids ==> k in raw
    requires after == mid[id := mid[id].(status := fates[id].status)]
    requires proc' == proc
                      + if fates[id].status.Processed? then [ProcRow(id, fates[id].score, fates[id].critical)] else []
    ensures RecordsMade(fates, proc0, proc', ids + [id], processed + if fates[id].status.Processed? then 1 else 0,
                        after)
  {
    OneMoreRecorded(raw, after, ids, id);
    forall i | |proc0| <= i < |proc'|
      ensures && proc'[i].rawId in ids + [id] && proc'[i].rawId in fates
              && Fate(Processed, proc'[i].score, proc'[i].critical) == fates[proc'[i].rawId]
    {
      assert i < |proc| ==> proc'[i] == proc[i];
    }
  }

  lemma OneMoreRecorded(raw: map<nat, RawRow>, after: map<nat, RawRow>, ids: seq<nat>, id: nat)
    requires id in after && id !in ids && forall k :: k in ids ==> k in raw && k in after && after[k] == raw[k]
    ensures |RecordedIds(after, ids + [id])| == |RecordedIds(raw, ids)| + if after[id].status.Processed? then 1 else 0
  {
    assert RecordedIds(after, ids + [id])
        == RecordedIds(raw, ids) + if after[id].status.Processed? then {id} else {};
  }

  /** The target markets with channels, one plan each. */
  function PlansFor(s: Setup, targets: seq<Market>): (plans: seq<Market>)
    ensures forall m :: m in plans <==> m in targets && s.channels(m) != []
  {
    Filter((m: Market) => s.channels(m) != [], targets)
  }

  /** The plans come in the order of the targets. */
  lemma {:induction false} PlansConcat(s: Setup, a: seq<Market>, b: seq<Market>)
    ensures PlansFor(s, a + b) == PlansFor(s, a) + PlansFor(s, b)
    ensures |PlansFor(s, b)| <= |b|
  {
    if b == [] {
      assert a + b == a;
    } else {
      assert Front(a + b) == a + Front(b) && Last(a + b) == Last(b);
      PlansConcat(s, a, Front(b));
      PlansFront(s, b);
      PlansFront(s, a + b);
      Associative(PlansFor(s, a), PlansFor(s, Front(b)), if s.channels(Last(b)) != [] then [Last(b)] else []);
    }
  }

  lemma PlansFront(s: Setup, targets: seq<Market>)
    requires targets != []
    ensures PlansFor(s, targets)
         == PlansFor(s, Front(targets)) + if s.channels(Last(targets)) != [] then [Last(targets)] else []
  {
  }

  /** What goes to the digest: one entry for a non-critical item with a plan. */
  function Filed(s: Setup, newsId: nat, home: Market, targets: seq<Market>, critical: bool): seq<DigestRow> {
    if critical || PlansFor(s, targets) == [] then []
    else [DigestRow(newsId, home, ChooseDigestKey(home, s.hour(home, newsId)))]
  }

  /** A digest row names its item, its home market, and the half of that
      market's day: the morning before noon, the evening from then on. */
  predicate TimelyRow(s: Setup, newsId: nat, home: Market, row: DigestRow) {
    && row.newsId == newsId && row.market == home
    && match row.key
       case MorningUs => home == US && s.hour(home, newsId) < 12
       case MorningCn => home == CN && s.hour(home, newsId) < 12
       case EveningUs => home == US && s.hour(home, newsId) >= 12
       case EveningCn => home == CN && s.hour(home, newsId) >= 12
  }

  /** Exactly the non-critical items with a channel are filed, once, for the
      next half-day's digest of their own market. */
  lemma FiledIsTimely(s: Setup, newsId: nat, home: Market, targets: seq<Market>, critical: bool)
    ensures var filed := Filed(s, newsId, home, targets, critical);
            if critical || !exists m :: m in targets && s.channels(m) != [] then filed == []
            else |filed| == 1 && TimelyRow(s, newsId, home, filed[0])
  {
    var plans := PlansFor(s, targets);
    assert plans != [] ==> plans[0] in targets && s.channels(plans[0]) != [];
  }

  /** A record has been delivered: one digest entry at most, or one suppressor
      call per plan and a push for every accepted one. */
  predicate Delivered(s: Setup, newsId: nat, home: Market, targets: seq<Market>, critical: bool, d: Handover) {
    && d.filed == Filed(s, newsId, home, targets, critical)
    && |d.calls| == |d.accepted| == (if critical then |PlansFor(s, targets)| else 0)
    && d.pushes == if critical then Granted(s, newsId, PlansFor(s, targets), d.calls, d.accepted) else []
  }

  /** ... to the markets and with the tickers of the row it was made from. */
  ghost predicate DeliveredRow(s: Setup, lower: string -> string, rules: RulesSection, row: RawRow, id: nat,
                               newsId: nat, critical: bool, d: Handover)
  {
    && Delivered(s, newsId, row.market, TargetsOf(s, lower, rules, row), critical, d)
    && forall c :: c in d.calls ==> NamesTickers(s, lower, rules, row, id, c.tickers)
  }

  /** The pushes that go out for the accepted plans, in order. */
  function Granted(s: Setup, newsId: nat, plans: seq<Market>, calls: seq<B.Call>, accepted: seq<bool>): seq<Push>
    requires |plans| == |calls| == |accepted|
  {
    if plans == [] then []
    else Granted(s, newsId, Front(plans), Front(calls), Front(accepted))
         + if Last(accepted)
           then [Push(newsId, Last(plans), s.channels(Last(plans)), Last(calls).now, Last(calls).tickers)] else []
  }

  /** No push for the plan at hand has gone out yet. */
  lemma NotYetPushed(s: Setup, newsId: nat, before: seq<Push>, plans: seq<Market>, i: nat, calls: seq<B.Call>,
                     accepted: seq<bool>)
    requires i < |plans| && |calls| == |accepted| == i && Distinct(plans)
    requires forall p :: p in before ==> p.newsId != newsId
    ensures forall p :: p in before + Granted(s, newsId, plans[..i], calls, accepted) ==>
              p.newsId != newsId || p.market != plans[i]
  {
    GrantedMarkets(s, newsId, plans[..i], calls, accepted);
  }

  predicate AllRefused(accepted: seq<bool>) {
    forall i :: 0 <= i < |accepted| ==> !accepted[i]
  }

  lemma {:induction false} NothingGrantedIff(s: Setup, newsId: nat, plans: seq<Market>, calls: seq<B.Call>,
                                             accepted: seq<bool>)
    requires |plans| == |calls| == |accepted|
    ensures Granted(s, newsId, plans, calls, accepted) == [] <==> AllRefused(accepted)
  {
    if plans != [] {
      NothingGrantedIff(s, newsId, Front(plans), Front(calls), Front(accepted));
      assert accepted == Front(accepted) + [Last(accepted)];
    }
  }

  lemma {:induction false} RefusalsLeaveTheLog(before: seq<B.Call>, calls: seq<B.Call>, accepted: seq<bool>,
                                               window: int, threshold: int, n: nat)
    requires Decided(before, calls, accepted, window, threshold) && n <= |calls| && AllRefused(accepted[..n])
    ensures B.AcceptedLog(before + calls[..n], window, threshold) == B.AcceptedLog(before, window, threshold)
  {
    if n == 0 {
      assert before + calls[..0] == before;
    } else {
      assert accepted[..n - 1] == accepted[..n][..n - 1] && !accepted[..n][n - 1];
      RefusalsLeaveTheLog(before, calls, accepted, window, threshold, n - 1);
      assert DecidedAt(before, calls, accepted, window, threshold, n - 1);
      assert before + calls[..n] == (before + calls[..n - 1]) + [calls[n - 1]];
      B.OneMoreCall(before + calls[..n - 1], calls[n - 1], window, threshold);
    }
  }

  /** No call of the stretch meets the rule on the log as it was. */
  predicate NoneAccepted(log: seq<B.Call>, calls: seq<B.Call>, window: int, threshold: int) {
    forall i :: 0 <= i < |calls| ==> !B.Accepts(log, calls[i], window, threshold)
  }

  /** A stretch of calls is refused as a whole exactly if every single call is
      on the log that the stretch found. */
  lemma {:induction false} AllRefusedIff(before: seq<B.Call>, calls: seq<B.Call>, accepted: seq<bool>, window: int,
                                         threshold: int, n: nat)
    requires Decided(before, calls, accepted, window, threshold) && n <= |calls|
    ensures AllRefused(accepted[..n])
       <==> NoneAccepted(B.AcceptedLog(before, window, threshold), calls[..n], window, threshold)
  {
    if n > 0 {
      AllRefusedIff(before, calls, accepted, window, threshold, n - 1);
      assert accepted[..n] == accepted[..n - 1] + [accepted[n - 1]] && calls[..n] == calls[..n - 1] + [calls[n - 1]];
      assert DecidedAt(before, calls, accepted, window, threshold, n - 1);
      if AllRefused(accepted[..n - 1]) {
        RefusalsLeaveTheLog(before, calls, accepted, window, threshold, n - 1);
      }
    }
  }

  /** Nobody is reached: no target market has a channel, or the item is urgent
      and on the log as it was the suppressor refuses every plan. */
  predicate Unheard(s: Setup, targets: seq<Market>, critical: bool, log: seq<B.Call>, calls: seq<B.Call>, window: int,
                    threshold: int) {
    PlansFor(s, targets) == [] || (critical && NoneAccepted(log, calls, window, threshold))
  }

  /** A delivery leaves no trace in digest and pushes in exactly these cases;
      a refused urgent item is not put into the digest instead. */
  lemma NobodyHearsIff(s: Setup, newsId: nat, home: Market, targets: seq<Market>, critical: bool, d: Handover,
                       before: seq<B.Call>, window: int, threshold: int)
    requires Delivered(s, newsId, home, targets, critical, d)
    requires Decided(before, d.calls, d.accepted, window, threshold)
    ensures d.filed == [] && d.pushes == []
       <==> Unheard(s, targets, critical, B.AcceptedLog(before, window, threshold), d.calls, window, threshold)
  {
    AllRefusedIff(before, d.calls, d.accepted, window, threshold, |d.calls|);
    assert d.calls[..|d.calls|] == d.calls && d.accepted[..|d.accepted|] == d.accepted;
    if critical {
      NothingGrantedIff(s, newsId, PlansFor(s, targets), d.calls, d.accepted);
    }
  }

  /** The target markets: the row's own without the rules, else those that the
      configuration hits, CN first. */
  lemma TargetsAre(s: Setup, lower: string -> string, rules: RulesSection, row: RawRow, v: RE.Verdict)
    requires RE.Means(lower, rules, lower(RE.TextOf(row.art)), v)
    ensures TargetsOf(s, lower, rules, row) == if s.rulesOn then v.markets else [row.market]
    ensures RulesMatch(lower, rules, row.art) <==> v.markets != []
  {
  }

  // ------------------------------------------------------- the deliveries of a batch

  function Recorded(id: nat, fate: Fate): seq<ProcRow> {
    if fate.status.Processed? then [ProcRow(id, fate.score, fate.critical)] else []
  }

  /** What one round adds: nothing, or a record with its delivery. */
  ghost predicate SettledBy(s: Setup, lower: string -> string, rules: RulesSection, row: RawRow, id: nat, newsId: nat,
                            fate: Fate, calls0: seq<B.Call>, d: Handover, window: int, threshold: int)
  {
    if fate.status.Processed? then
      && DeliveredRow(s, lower, rules, row, id, newsId, fate.critical, d)
      && Decided(calls0, d.calls, d.accepted, window, threshold)
    else d == NOTHING
  }

  lemma KeptIsSettled(s: Setup, lower: string -> string, rules: RulesSection, row: RawRow, id: nat, newsId: nat,
                      a: Assessment, calls0: seq<B.Call>, d: Handover, window: int, threshold: int)
    requires a.markets == TargetsOf(s, lower, rules, row) && NamesTickers(s, lower, rules, row, id, a.tickers)
    requires Delivered(s, newsId, row.market, a.markets, a.critical, d)
    requires Decided(calls0, d.calls, d.accepted, window, threshold)
    requires forall c :: c in d.calls ==> c.tickers == a.tickers
    ensures SettledBy(s, lower, rules, row, id, newsId, Fate(Processed, a.score, a.critical), calls0, d, window,
                      threshold)
  {
  }

  /** The output after a number of deliveries, except for the records. */
  function Summed(before: Output, ds: seq<Handover>): Output {
    if ds == [] then before else Summed(before, Front(ds)).Plus([], Last(ds))
  }

  /** The k-th new record was delivered as its row demands, on the log that the
      deliveries before it left. */
  ghost predicate ServedAt(s: Setup, lower: string -> string, rules: RulesSection, raw0: map<nat, RawRow>,
                           before: Output, proc: seq<ProcRow>, ds: seq<Handover>, k: nat, window: int, threshold: int)
  {
    && k < |ds| && |before.proc| + k < |proc|
    && var p := proc[|before.proc| + k];
    && p.rawId in raw0
    && DeliveredRow(s, lower, rules, raw0[p.rawId], p.rawId, |before.proc| + k, p.critical, ds[k])
    && Decided(Summed(before, ds[..k]).calls, ds[k].calls, ds[k].accepted, window, threshold)
  }

  /** Every new record has been delivered, in order, and nothing else has been
      filed, pushed or asked. */
  ghost predicate Served(s: Setup, lower: string -> string, rules: RulesSection, raw0: map<nat, RawRow>,
                         before: Output, after: Output, ds: seq<Handover>, window: int, threshold: int)
  {
    && before.proc <= after.proc && |after.proc| == |before.proc| + |ds|
    && after == Summed(before, ds).(proc := after.proc)
    && forall k :: 0 <= k < |ds| ==> ServedAt(s, lower, rules, raw0, before, after.proc, ds, k, window, threshold)
  }

  lemma NothingServed(s: Setup, lower: string -> string, rules: RulesSection, raw0: map<nat, RawRow>, before: Output,
                      window: int, threshold: int)
    ensures Served(s, lower, rules, raw0, before, before, [], window, threshold)
  {
  }

  lemma OneMoreServed(s: Setup, lower: string -> string, rules: RulesSection, raw0: map<nat, RawRow>, before: Output,
                      mid: Output, ds: seq<Handover>, id: nat, fate: Fate, d: Handover, window: int, threshold: int)
    requires Served(s, lower, rules, raw0, before, mid, ds, window, threshold) && id in raw0
    requires SettledBy(s, lower, rules, raw0[id], id, |mid.proc|, fate, mid.calls, d, window, threshold)
    ensures Served(s, lower, rules, raw0, before, mid.Plus(Recorded(id, fate), d),
                   ds + if fate.status.Processed? then [d] else [], window, threshold)
  {
    if fate.status.Processed? {
      var after, ds' := mid.Plus(Recorded(id, fate), d), ds + [d];
      assert Front(ds') == ds;
      forall k | 0 <= k < |ds'| ensures ServedAt(s, lower, rules, raw0, before, after.proc, ds', k, window, threshold) {
        assert ds'[..k] == ds[..k] && ds[..|ds|] == ds;
        assert k < |ds| ==> ServedAt(s, lower, rules, raw0, before, mid.proc, ds, k, window, threshold);
      }
    } else {
      assert mid.Plus([], NOTHING) == mid && ds + [] == ds;
    }
  }

  lemma DeliveriesNameTheirRecord(s: Setup, newsId: nat, home: Market, targets: seq<Market>, critical: bool,
                                  d: Handover)
    requires Delivered(s, newsId, home, targets, critical, d)
    ensures Own(d, newsId)
  {
    if critical {
      GrantedMarkets(s, newsId, PlansFor(s, targets), d.calls, d.accepted);
    }
  }

  predicate Own(d: Handover, newsId: nat) {
    (forall r :: r in d.filed ==> r.newsId == newsId) && (forall p :: p in d.pushes ==> p.newsId == newsId)
  }

  lemma {:induction false} NamedInSum(before: Output, ds: seq<Handover>, first: nat, k: nat)
    requires forall j :: 0 <= j < |ds| ==> Own(ds[j], first + j)
    requires FreshNews(first + k, before.digest, before.pushes)
    ensures FreshNews(first + k, Summed(before, ds).digest, Summed(before, ds).pushes)
       <==> k >= |ds| || (ds[k].filed == [] && ds[k].pushes == [])
  {
    if ds != [] {
      NamedInSum(before, Front(ds), first, k);
      var sum, d := Summed(before, Front(ds)), Last(ds);
      assert Own(ds[|ds| - 1], first + (|ds| - 1));
      NamedInBoth(first + k, sum.digest, sum.pushes, d);
      NamedInOwn(first + k, d, first + (|ds| - 1));
    }
  }

  lemma NamedInBoth(newsId: nat, digest: seq<DigestRow>, pushes: seq<Push>, d: Handover)
    ensures FreshNews(newsId, digest + d.filed, pushes + d.pushes)
       <==> FreshNews(newsId, digest, pushes) && FreshNews(newsId, d.filed, d.pushes)
  {
    assert forall r :: r in digest + d.filed <==> r in digest || r in d.filed;
    assert forall p :: p in pushes + d.pushes <==> p in pushes || p in d.pushes;
  }

  lemma NamedInOwn(newsId: nat, d: Handover, own: nat)
    requires Own(d, own)
    ensures FreshNews(newsId, d.filed, d.pushes) <==> newsId != own || (d.filed == [] && d.pushes == [])
  {
    assert d.filed != [] ==> d.filed[0] in d.filed;
    assert d.pushes != [] ==> d.pushes[0] in d.pushes;
  }

  /** After a batch: a record it made is in no digest row and in no push exactly
      if its markets have no channel, or it is urgent and every one of its calls
      fell on a full log. */
  lemma RecordIsUnheardIff(s: Setup, lower: string -> string, rules: RulesSection, raw0: map<nat, RawRow>,
                           before: Output, after: Output, ds: seq<Handover>, k: nat, window: int, threshold: int)
    requires Served(s, lower, rules, raw0, before, after, ds, window, threshold) && k < |ds|
    requires Consistent(raw0, before.proc, before.digest, before.pushes)
    ensures ServedAt(s, lower, rules, raw0, before, after.proc, ds, k, window, threshold)
    ensures var p := after.proc[|before.proc| + k];
            FreshNews(|before.proc| + k, after.digest, after.pushes)
            <==> Unheard(s, TargetsOf(s, lower, rules, raw0[p.rawId]), p.critical,
                         B.AcceptedLog(Summed(before, ds[..k]).calls, window, threshold), ds[k].calls, window,
                         threshold)
  {
    forall j | 0 <= j < |ds| ensures Own(ds[j], |before.proc| + j) {
      assert ServedAt(s, lower, rules, raw0, before, after.proc, ds, j, window, threshold);
      ServedIsOwn(s, lower, rules, raw0, before, after.proc, ds, j, window, threshold);
    }
    assert ServedAt(s, lower, rules, raw0, before, after.proc, ds, k, window, threshold);
    NamedInSum(before, ds, |before.proc|, k);
    ServedUnheardIff(s, lower, rules, raw0, before, after.proc, ds, k, window, threshold);
  }

  lemma FiledRowIsTimely(s: Setup, newsId: nat, home: Market, targets: seq<Market>, critical: bool, d: Handover,
                         r: DigestRow)
    requires Delivered(s, newsId, home, targets, critical, d) && r in d.filed
    ensures TimelyRow(s, newsId, home, r)
  {
    FiledIsTimely(s, newsId, home, targets, critical);
  }

  /** Every digest row that a batch files names the record it was made for, the
      home market of its article, and the half of that market's day. */
  lemma BatchFilesTimely(s: Setup, lower: string -> string, rules: RulesSection, raw0: map<nat, RawRow>,
                         before: Output, proc: seq<ProcRow>, ds: seq<Handover>, k: nat, r: DigestRow,
                         window: int, threshold: int)
    requires ServedAt(s, lower, rules, raw0, before, proc, ds, k, window, threshold) && r in ds[k].filed
    ensures TimelyRow(s, |before.proc| + k, raw0[proc[|before.proc| + k].rawId].market, r)
  {
    var p := proc[|before.proc| + k];
    var row := raw0[p.rawId];
    FiledRowIsTimely(s, |before.proc| + k, row.market, TargetsOf(s, lower, rules, row), p.critical, ds[k], r);
  }

  lemma ServedIsOwn(s: Setup, lower: string -> string, rules: RulesSection, raw0: map<nat, RawRow>, before: Output,
                    proc: seq<ProcRow>, ds: seq<Handover>, k: nat, window: int, threshold: int)
    requires ServedAt(s, lower, rules, raw0, before, proc, ds, k, window, threshold)
    ensures Own(ds[k], |before.proc| + k)
  {
    var p := proc[|before.proc| + k];
    var row := raw0[p.rawId];
    DeliveriesNameTheirRecord(s, |before.proc| + k, row.market, TargetsOf(s, lower, rules, row), p.critical, ds[k]);
  }

  lemma ServedUnheardIff(s: Setup, lower: string -> string, rules: RulesSection, raw0: map<nat, RawRow>,
                         before: Output, proc: seq<ProcRow>, ds: seq<Handover>, k: nat, window: int, threshold: int)
    requires ServedAt(s, lower, rules, raw0, before, proc, ds, k, window, threshold)
    ensures var p := proc[|before.proc| + k];
            ds[k].filed == [] && ds[k].pushes == []
            <==> Unheard(s, TargetsOf(s, lower, rules, raw0[p.rawId]), p.critical,
                         B.AcceptedLog(Summed(before, ds[..k]).calls, window, threshold), ds[k].calls, window,
                         threshold)
  {
    var p := proc[|before.proc| + k];
    var row := raw0[p.rawId];
    NobodyHearsIff(s, |before.proc| + k, row.market, TargetsOf(s, lower, rules, row), p.critical, ds[k],
                   Summed(before, ds[..k]).calls, window, threshold);
  }

  /** The suppressor has been asked for these plans, in order. */
  ghost predicate Asked(s: Setup, newsId: nat, plans: seq<Market>, tickers: seq<string>,
                        pushes0: seq<Push>, pushes: seq<Push>, calls0: seq<B.Call>, calls1: seq<B.Call>,
                        calls: seq<B.Call>, accepted: seq<bool>, window: int, threshold: int)
  {
    && |plans| == |calls| == |accepted| && calls1 == calls0 + calls
    && (forall c :: c in calls ==> c.tickers == tickers)
    && pushes == pushes0 + Granted(s, newsId, plans, calls, accepted)
    && Decided(calls0, calls, accepted, window, threshold)
  }

  lemma OneMorePlan(s: Setup, newsId: nat, plans: seq<Market>, i: nat, tickers: seq<string>, calls: seq<B.Call>,
                    c: B.Call, accepted: seq<bool>, send: bool, pushes0: seq<Push>, pushes1: seq<Push>,
                    calls0: seq<B.Call>, calls1: seq<B.Call>, window: int, threshold: int)
    requires i < |plans| && c.tickers == tickers
    requires Asked(s, newsId, plans[..i], tickers, pushes0, pushes1, calls0, calls1, calls, accepted, window, threshold)
    requires send == B.Accepts(B.AcceptedLog(calls1, window, threshold), c, window, threshold)
    ensures var more := if send then [Push(newsId, plans[i], s.channels(plans[i]), c.now, tickers)] else [];
            Asked(s, newsId, plans[..i + 1], tickers, pushes0, pushes1 + more, calls0, calls1 + [c],
                  calls + [c], accepted + [send], window, threshold)
  {
    assert plans[..i + 1] == plans[..i] + [plans[i]];
    GrantedOneMore(s, newsId, plans[..i], plans[i], calls, c, accepted, send);
    Associative(calls0, calls, [c]);
    Associative(pushes0, Granted(s, newsId, plans[..i], calls, accepted),
                if send then [Push(newsId, plans[i], s.channels(plans[i]), c.now, c.tickers)] else []);
    OneMoreDecided(calls0, calls, accepted, window, threshold, c, send);
  }

  lemma GrantedOneMore(s: Setup, newsId: nat, plans: seq<Market>, m: Market, calls: seq<B.Call>, c: B.Call,
                       accepted: seq<bool>, send: bool)
    requires |plans| == |calls| == |accepted|
    ensures Granted(s, newsId, plans + [m], calls + [c], accepted + [send])
         == Granted(s, newsId, plans, calls, accepted)
            + if send then [Push(newsId, m, s.channels(m), c.now, c.tickers)] else []
  {
    assert Front(plans + [m]) == plans && Front(calls + [c]) == calls && Front(accepted + [send]) == accepted;
  }

  lemma {:induction false} GrantedMarkets(s: Setup, newsId: nat, plans: seq<Market>, calls: seq<B.Call>,
                                          accepted: seq<bool>)
    requires |plans| == |calls| == |accepted|
    ensures forall p :: p in Granted(s, newsId, plans, calls, accepted) ==> p.newsId == newsId && p.market in plans
  {
    if plans != [] {
      GrantedMarkets(s, newsId, Front(plans), Front(calls), Front(accepted));
      assert plans == Front(plans) + [Last(plans)];
    }
  }

  lemma {:induction false} FilterDistinct<T(!new)>(p: T -> bool, s: seq<T>)
    requires Distinct(s)
    ensures Distinct(Filter(p, s))
  {
    if s != [] {
      FilterDistinct(p, Front(s));
      assert Last(s) !in Front(s);
    }
  }
}
