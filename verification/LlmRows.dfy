/** Rows whose LLM answer comes from the pipeline that keeps the spending
    ceiling: what a closed day means for the articles still to be processed. */
module LlmRows {
  import opened Common
  import opened Watchlist
  import RE = RulesEngine
  import I = Importance
  import NP = NewsProcessing
  import CC = CostCeiling

  /** What the batch loop sees of a call: any exception is a failure. */
  function AsLlm(o: CC.Outcome<I.Enriched>): NP.LlmOutcome {
    match o
    case CeilingHit => NP.Fails
    case Failed => NP.Fails
    case Declined => NP.Declines
    case Enriched(_, record) => NP.Gives(record)
  }

  /** What the three models would reply for one row. */
  datatype Replies = Replies(tier0: CC.Reply<CC.Tier0Verdict>, tier1: CC.Reply<I.Enriched>, tier2: CC.Reply<I.Enriched>)

  /** The outcome of a call that is not refused. */
  ghost function CallOutcome(rulesOn: bool, lower: string -> string, rules: RulesSection, firstParty: set<string>,
                             row: NP.RawRow, r: Replies): CC.Outcome<I.Enriched>
  {
    var direct := RE.DirectTickers(lower, rules, lower(RE.TextOf(row.art))) != {};
    if rulesOn then CC.Extracted(if direct || row.source in firstParty then CC.Tier2 else CC.Tier1, r.tier1, r.tier2)
    else CC.Answer(row.source in firstParty, r.tier0, r.tier1, r.tier2)
  }

  function WithLlm(s: NP.Setup, o: NP.LlmOutcome): NP.Setup {
    s.(llm := (id: nat) => o)
  }

  ghost predicate PassesGate(s: NP.Setup, lower: string -> string, rules: RulesSection, row: NP.RawRow) {
    s.rulesOn ==> NP.RulesMatch(lower, rules, row.art)
  }

  method AskFor(m: CC.LLMPipeline, s: NP.Setup, e: RE.RulesEngine, row: NP.RawRow, r: Replies)
    returns (o: NP.LlmOutcome, ghost check: CC.Check)
    requires m.Valid() && e.Valid() && PassesGate(s, e.lower, e.rules, row)
    modifies m, m.cost, m.cost.calendar
    ensures m.Valid() && e.Valid() && e.rules == old(e.rules)
    ensures m.checks == old(m.checks) + [check] && |m.calls| == |old(m.calls)| + 1 && Front(m.calls) == old(m.calls)
    ensures o == AsLlm(if check.refused then CC.CeilingHit
                       else CallOutcome(s.rulesOn, e.lower, e.rules, m.firstPartySources, row, r))
  {
    var outcome;
    ghost var day;
    if s.rulesOn {
      var v := e.Match(row.art);
      assert v.tickers != [] <==> RE.DirectTickers(e.lower, e.rules, e.lower(RE.TextOf(row.art))) != {} by {
        assert v.tickers != [] ==> v.tickers[0] in RE.DirectTickers(e.lower, e.rules, e.lower(RE.TextOf(row.art)));
      }
      outcome, day := m.ProcessWithRules(row.source, v.tickers != [], r.tier1, r.tier2);
    } else {
      outcome, day := m.Process(row.source, r.tier0, r.tier1, r.tier2);
    }
    check := Last(m.checks);
    o := AsLlm(outcome);
  }

  /** The terminal status of a row under one LLM answer. */
  ghost function StatusUnder(s: NP.Setup, lower: string -> string, rules: RulesSection, row: NP.RawRow, id: nat,
                             o: NP.LlmOutcome): NP.Status
  {
    NP.FateOf(WithLlm(s, o), lower, rules, row, id).status
  }

  lemma FailureIsDeath(s: NP.Setup, lower: string -> string, rules: RulesSection, row: NP.RawRow, id: nat,
                       o: NP.LlmOutcome)
    requires s.classifier.llmEnabled
    ensures !PassesGate(s, lower, rules, row) ==> StatusUnder(s, lower, rules, row, id, o) == NP.SkippedRules
    ensures PassesGate(s, lower, rules, row) && o.Fails? ==> StatusUnder(s, lower, rules, row, id, o) == NP.Dead
  {
  }

  /** How a row ends whose call came to this: refused and failed calls are deadly,
      and so is nothing else; declined ones skip the row. */
  lemma OutcomeDecides(s: NP.Setup, lower: string -> string, rules: RulesSection, row: NP.RawRow, id: nat,
                       o: CC.Outcome<I.Enriched>)
    requires s.classifier.llmEnabled && PassesGate(s, lower, rules, row)
    ensures var status := StatusUnder(s, lower, rules, row, id, AsLlm(o));
            && (status == NP.Dead <==> o == CC.CeilingHit || o == CC.Failed)
            && (status == NP.Skipped <==> o == CC.Declined)
            && (o.Enriched? ==> AsLlm(o) == NP.Gives(o.record))
  {
  }

  /** Which tier a row's call takes: past the rules, the deep extraction for a
      directly named ticker or a first-party source, else the summary; without
      rules, what the first tier's verdict decides. */
  lemma CallIs(rulesOn: bool, lower: string -> string, rules: RulesSection, firstParty: set<string>, row: NP.RawRow,
               r: Replies, v: RE.Verdict)
    requires RE.Means(lower, rules, lower(RE.TextOf(row.art)), v)
    ensures CallOutcome(rulesOn, lower, rules, firstParty, row, r)
         == if !rulesOn then CC.Answer(row.source in firstParty, r.tier0, r.tier1, r.tier2)
            else if v.tickers != [] || row.source in firstParty
            then (if r.tier2.Responds? && r.tier2.payload.Some? then CC.Enriched(CC.Tier2, r.tier2.payload.value)
                  else CC.Failed)
            else (if r.tier1.Responds? && r.tier1.payload.Some? then CC.Enriched(CC.Tier1, r.tier1.payload.value)
                  else CC.Failed)
  {
    RE.SameEmptiness(v.tickers);
  }

  /** What awaits a row: the rules stop it, or a call is made whose answer would
      give it a status. */
  datatype Prospect = Stopped | Calls(status: NP.Status)

  ghost function ProspectOf(s: NP.Setup, lower: string -> string, rules: RulesSection, firstParty: set<string>,
                            row: NP.RawRow, id: nat, r: Replies): Prospect
  {
    if !PassesGate(s, lower, rules, row) then Stopped
    else
      var answer := AsLlm(CallOutcome(s.rulesOn, lower, rules, firstParty, row, r));
      Calls(StatusUnder(s, lower, rules, row, id, answer))
  }

  /** The status a row ends with: no record if the ceiling refuses the call. */
  function StatusAfter(p: Prospect, check: Option<CC.Check>): NP.Status {
    match p
    case Stopped => NP.SkippedRules
    case Calls(status) => if check.Some? && check.value.refused then NP.Dead else status
  }

  /** The answer of a gate and, behind it, of the LLM. */
  method AnswerFor(ghost p: NP.Pipeline, m: CC.LLMPipeline, s: NP.Setup, e: RE.RulesEngine, row: NP.RawRow, id: nat,
                   passes: bool, r: Replies)
    returns (o: NP.LlmOutcome, ghost check: Option<CC.Check>)
    requires p.Valid() && m.Valid() && e.Valid() && s.classifier.llmEnabled
    requires passes == PassesGate(s, e.lower, e.rules, row)
    modifies m, m.cost, m.cost.calendar
    ensures p.Valid() && p.raw == old(p.raw) && p.Out() == old(p.Out())
    ensures m.Valid() && e.Valid() && e.rules == old(e.rules)
    ensures check.Some? == passes
    ensures m.checks == old(m.checks) + (if check.Some? then [check.value] else [])
    ensures |m.calls| == |m.checks| && old(m.calls) <= m.calls
    ensures StatusUnder(s, e.lower, e.rules, row, id, o)
         == StatusAfter(ProspectOf(s, e.lower, e.rules, m.firstPartySources, row, id, r), check)
  {
    o, check := NP.Fails, None;
    if passes {
      ghost var c;
      o, c := AskFor(m, s, e, row, r);
      check := Some(c);
    } else {
      assert m.checks + [] == m.checks;
    }
    FailureIsDeath(s, e.lower, e.rules, row, id, o);
  }

  /** What one row's round does to the rows and the checks. */
  ghost predicate Stepped(prospect: Prospect, raw: map<nat, NP.RawRow>, raw': map<nat, NP.RawRow>,
                          checks: seq<CC.Check>, checks': seq<CC.Check>, id: nat, check: Option<CC.Check>)
  {
    && id in raw && check.Some? == prospect.Calls?
    && checks' == checks + (if check.Some? then [check.value] else [])
    && raw' == raw[id := raw[id].(status := StatusAfter(prospect, check))]
  }

  /** One row of a batch with its LLM call. */
  method ProcessRow(p: NP.Pipeline, m: CC.LLMPipeline, s: NP.Setup, e: RE.RulesEngine, id: nat, r: Replies,
                    ghost prospect: Prospect)
    returns (ghost check: Option<CC.Check>)
    requires p.Valid() && m.Valid() && e.Valid() && s.classifier.llmEnabled
    requires id in p.raw && p.raw[id].status.Pending?
    requires prospect == ProspectOf(s, e.lower, e.rules, m.firstPartySources, p.raw[id], id, r)
    modifies p, p.burst, p.clock, m, m.cost, m.cost.calendar
    ensures p.Valid() && m.Valid() && e.Valid() && e.rules == old(e.rules)
    ensures Stepped(prospect, old(p.raw), p.raw, old(m.checks), m.checks, id, check)
    ensures |m.calls| == |m.checks| && old(m.calls) <= m.calls
    ensures !StatusAfter(prospect, check).Processed? ==> p.Out() == old(p.Out())
  {
    var row := p.raw[id];
    var passes := PassesTheGate(p, s, e, row);
    var o;
    o, check := AnswerFor(p, m, s, e, row, id, passes, r);
    ghost var fate := NP.FateOf(WithLlm(s, o), e.lower, e.rules, row, id);
    assert fate.status == StatusAfter(prospect, check);
    SettleRow(p, m, s, o, e, row, id, fate);
  }

  method PassesTheGate(p: NP.Pipeline, s: NP.Setup, e: RE.RulesEngine, row: NP.RawRow) returns (passes: bool)
    requires e.Valid()
    ensures passes == PassesGate(s, e.lower, e.rules, row)
  {
    var verdict := p.Gate(s, e, row);
    passes := verdict.Some? ==> verdict.value.matched;
  }

  /** The rest of the row's round, given the LLM's answer. */
  method SettleRow(p: NP.Pipeline, ghost m: CC.LLMPipeline, s: NP.Setup, o: NP.LlmOutcome, e: RE.RulesEngine,
                   row: NP.RawRow, id: nat, ghost fate: NP.Fate)
    requires p.Valid() && m.Valid() && e.Valid() && s.classifier.llmEnabled
    requires id in p.raw && p.raw[id] == row && row.status.Pending?
    requires fate == NP.FateOf(WithLlm(s, o), e.lower, e.rules, row, id)
    modifies p, p.burst, p.clock
    ensures p.Valid() && e.Valid() && e.rules == old(e.rules)
    ensures m.Valid() && m.checks == old(m.checks) && m.calls == old(m.calls)
    ensures p.raw == old(p.raw)[id := row.(status := fate.status)]
    ensures !fate.status.Processed? ==> p.Out() == old(p.Out())
  {
    ghost var out := p.Out();
    var _, settled, d := p.ProcessOne(WithLlm(s, o), e, id, row);
    assert m.Valid();
    NothingAdded(out, id, fate, d);
  }

  lemma NothingAdded(out: NP.Output, id: nat, fate: NP.Fate, d: NP.Handover)
    ensures !fate.status.Processed? && d == NP.NOTHING ==> out.Plus(NP.Recorded(id, fate), d) == out
  {
  }

  // ------------------------------------------------------------- a whole batch

  ghost function Prospects(s: NP.Setup, lower: string -> string, rules: RulesSection, firstParty: set<string>,
                           raw: map<nat, NP.RawRow>, replies: nat -> Replies): map<nat, Prospect>
  {
    map id | id in raw :: ProspectOf(s, lower, rules, firstParty, raw[id], id, replies(id))
  }

  lemma ProspectsAre(s: NP.Setup, lower: string -> string, rules: RulesSection, firstParty: set<string>,
                     raw: map<nat, NP.RawRow>, replies: nat -> Replies, prospects: map<nat, Prospect>, id: nat)
    requires id in raw && prospects == Prospects(s, lower, rules, firstParty, raw, replies)
    ensures id in prospects && prospects[id] == ProspectOf(s, lower, rules, firstParty, raw[id], id, replies(id))
  {
  }

  /** The k-th row, whose call (if it made one) is number marks[k], has the
      status its check and its answer call for. */
  predicate RowAt(prospects: map<nat, Prospect>, raw0: map<nat, NP.RawRow>, raw: map<nat, NP.RawRow>,
                  checks: seq<CC.Check>, ids: seq<nat>, marks: seq<nat>, k: nat)
  {
    && k < |ids| == |marks| && ids[k] in prospects && ids[k] in raw0 && ids[k] in raw
    && var p := prospects[ids[k]];
    && (p.Calls? ==> marks[k] < |checks|)
    && raw[ids[k]] == raw0[ids[k]].(status := StatusAfter(p, if p.Calls? then Some(checks[marks[k]]) else None))
  }

  /** A batch has got through the rows `ids`; the others are as they were. */
  ghost predicate Through(prospects: map<nat, Prospect>, raw0: map<nat, NP.RawRow>, raw: map<nat, NP.RawRow>,
                          checks: seq<CC.Check>, ids: seq<nat>, marks: seq<nat>)
  {
    && |ids| == |marks|
    && (forall k :: 0 <= k < |ids| ==> RowAt(prospects, raw0, raw, checks, ids, marks, k))
    && (forall i: nat, j: nat :: MarksInOrder(marks, |checks|, i, j))
    && forall id: nat :: Untouched(raw0, raw, ids, id)
  }

  predicate MarksInOrder(marks: seq<nat>, made: nat, i: nat, j: nat) {
    i <= j < |marks| ==> marks[i] <= marks[j] <= made
  }

  predicate Untouched(raw0: map<nat, NP.RawRow>, raw: map<nat, NP.RawRow>, ids: seq<nat>, id: nat) {
    id in raw0 && id !in ids ==> id in raw && raw[id] == raw0[id]
  }

  lemma NothingThrough(prospects: map<nat, Prospect>, raw: map<nat, NP.RawRow>, checks: seq<CC.Check>)
    ensures Through(prospects, raw, raw, checks, [], [])
  {
  }

  lemma NextId(ids: seq<nat>, i: nat)
    requires i < |ids| && Distinct(ids)
    ensures ids[i] !in ids[..i] && ids[..i + 1] == ids[..i] + [ids[i]]
  {
  }

  lemma NextInLine(prospects: map<nat, Prospect>, raw0: map<nat, NP.RawRow>, raw: map<nat, NP.RawRow>,
                   checks: seq<CC.Check>, ids: seq<nat>, marks: seq<nat>, id: nat)
    requires Through(prospects, raw0, raw, checks, ids, marks) && id in raw0 && id !in ids
    ensures id in raw && raw[id] == raw0[id]
  {
    assert Untouched(raw0, raw, ids, id);
  }

  lemma OneMoreThrough(prospects: map<nat, Prospect>, raw0: map<nat, NP.RawRow>, raw: map<nat, NP.RawRow>,
                       raw': map<nat, NP.RawRow>, checks: seq<CC.Check>, checks': seq<CC.Check>, ids: seq<nat>,
                       ids': seq<nat>, marks: seq<nat>, marks': seq<nat>, id: nat, check: Option<CC.Check>)
    requires Through(prospects, raw0, raw, checks, ids, marks) && id !in ids && id in raw0 && id in prospects
    requires Stepped(prospects[id], raw, raw', checks, checks', id, check)
    requires ids' == ids + [id] && marks' == marks + [|checks|]
    ensures Through(prospects, raw0, raw', checks', ids', marks')
  {
    NextInLine(prospects, raw0, raw, checks, ids, marks, id);
    forall k | 0 <= k < |ids'| ensures RowAt(prospects, raw0, raw', checks', ids', marks', k) {
      if k < |ids| {
        assert RowAt(prospects, raw0, raw, checks, ids, marks, k);
        assert ids[k] in ids;
      }
    }
    forall i: nat, j: nat ensures MarksInOrder(marks', |checks'|, i, j) {
      assert MarksInOrder(marks, |checks|, i, j) && MarksInOrder(marks, |checks|, i, i);
    }
    forall k: nat ensures Untouched(raw0, raw', ids', k) {
      assert Untouched(raw0, raw, ids, k);
    }
  }

  /** Row k is dead if its check read a day that had reached the ceiling by the
      time the batch got to row j or before. */
  ghost predicate DeadAt(prospects: map<nat, Prospect>, raw: map<nat, NP.RawRow>, calls: seq<seq<CC.Charge>>,
                         checks: seq<CC.Check>, ids: seq<nat>, marks: seq<nat>, ceiling: real, j: nat, k: nat)
  {
    j <= k < |ids| == |marks| && ids[k] in prospects && prospects[ids[k]].Calls?
    && marks[j] <= |calls| && marks[k] < |checks|
    && CC.Total(calls[..marks[j]], checks[marks[k]].day) >= ceiling ==>
      ids[k] in raw && raw[ids[k]].status == NP.Dead
  }

  /** Once a day has reached the ceiling, every further row that gets past the
      rules while the check reads this day ends up dead. */
  lemma ClosedDayMeansDeath(prospects: map<nat, Prospect>, raw0: map<nat, NP.RawRow>, raw: map<nat, NP.RawRow>,
                            calls: seq<seq<CC.Charge>>, checks: seq<CC.Check>, ids: seq<nat>, marks: seq<nat>,
                            ceiling: real, j: nat, k: nat)
    requires Through(prospects, raw0, raw, checks, ids, marks)
    requires CC.AllHonoured(calls, ceiling) && CC.AllChecked(calls, checks, ceiling)
    ensures DeadAt(prospects, raw, calls, checks, ids, marks, ceiling, j, k)
  {
    if j <= k < |ids| && ids[k] in prospects && prospects[ids[k]].Calls? {
      assert RowAt(prospects, raw0, raw, checks, ids, marks, k);
      assert MarksInOrder(marks, |checks|, j, k);
      if CC.Total(calls[..marks[j]], checks[marks[k]].day) >= ceiling {
        CC.ClosedDayRefuses(calls, checks, ceiling, marks[j], marks[k]);
      }
    }
  }

  /** So whatever the moment the day was closed at. */
  ghost predicate ClosedDaysAreDeadly(prospects: map<nat, Prospect>, raw: map<nat, NP.RawRow>,
                                      calls: seq<seq<CC.Charge>>, checks: seq<CC.Check>, ids: seq<nat>,
                                      marks: seq<nat>, ceiling: real)
  {
    forall j, k :: DeadAt(prospects, raw, calls, checks, ids, marks, ceiling, j, k)
  }

  /** A batch of listed rows with their LLM calls: every row ends with the status
      its gate, its check and its answer call for, and a closed day refuses
      every call. */
  method ProcessRows(p: NP.Pipeline, m: CC.LLMPipeline, s: NP.Setup, e: RE.RulesEngine, ids: seq<nat>,
                     replies: nat -> Replies)
    returns (ghost prospects: map<nat, Prospect>, ghost marks: seq<nat>)
    requires p.Valid() && m.Valid() && e.Valid() && s.classifier.llmEnabled
    requires Distinct(ids) && forall i :: 0 <= i < |ids| ==> ids[i] in p.raw && p.raw[ids[i]].status.Pending?
    modifies p, p.burst, p.clock, m, m.cost, m.cost.calendar
    ensures p.Valid() && m.Valid()
    ensures prospects == Prospects(s, e.lower, old(e.rules), m.firstPartySources, old(p.raw), replies)
    ensures Through(prospects, old(p.raw), p.raw, m.checks, ids, marks)
    ensures ClosedDaysAreDeadly(prospects, p.raw, m.calls, m.checks, ids, marks, m.cost.ceiling)
  {
    ghost var raw0 := p.raw;
    prospects := Prospects(s, e.lower, e.rules, m.firstPartySources, raw0, replies);
    marks := RunRows(p, m, s, e, ids, replies, prospects);
    forall j, k ensures DeadAt(prospects, p.raw, m.calls, m.checks, ids, marks, m.cost.ceiling, j, k) {
      ClosedDayMeansDeath(prospects, raw0, p.raw, m.calls, m.checks, ids, marks, m.cost.ceiling, j, k);
    }
  }

  method RunRows(p: NP.Pipeline, m: CC.LLMPipeline, s: NP.Setup, e: RE.RulesEngine, ids: seq<nat>,
                 replies: nat -> Replies, ghost prospects: map<nat, Prospect>)
    returns (ghost marks: seq<nat>)
    requires p.Valid() && m.Valid() && e.Valid() && s.classifier.llmEnabled
    requires Distinct(ids) && forall i :: 0 <= i < |ids| ==> ids[i] in p.raw && p.raw[ids[i]].status.Pending?
    requires prospects == Prospects(s, e.lower, e.rules, m.firstPartySources, p.raw, replies)
    modifies p, p.burst, p.clock, m, m.cost, m.cost.calendar
    ensures p.Valid() && m.Valid()
    ensures Through(prospects, old(p.raw), p.raw, m.checks, ids, marks)
  {
    marks := [];
    ghost var rules, raw0 := e.rules, p.raw;
    NothingThrough(prospects, raw0, m.checks);
    assert ids[..0] == [];
    for i := 0 to |ids|
      invariant p.Valid() && m.Valid() && e.Valid() && e.rules == rules
      invariant Through(prospects, raw0, p.raw, m.checks, ids[..i], marks)
    {
      marks := NextRow(p, m, s, e, ids, i, replies, prospects, marks, raw0);
    }
    assert ids[..|ids|] == ids;
  }

  method NextRow(p: NP.Pipeline, m: CC.LLMPipeline, s: NP.Setup, e: RE.RulesEngine, ids: seq<nat>, i: nat,
                 replies: nat -> Replies, ghost prospects: map<nat, Prospect>, ghost marks: seq<nat>,
                 ghost raw0: map<nat, NP.RawRow>)
    returns (ghost marks': seq<nat>)
    requires p.Valid() && m.Valid() && e.Valid() && s.classifier.llmEnabled
    requires i < |ids| && Distinct(ids) && ids[i] in raw0 && raw0[ids[i]].status.Pending?
    requires prospects == Prospects(s, e.lower, e.rules, m.firstPartySources, raw0, replies)
    requires Through(prospects, raw0, p.raw, m.checks, ids[..i], marks)
    modifies p, p.burst, p.clock, m, m.cost, m.cost.calendar
    ensures p.Valid() && m.Valid() && e.Valid() && e.rules == old(e.rules)
    ensures Through(prospects, raw0, p.raw, m.checks, ids[..i + 1], marks')
  {
    ghost var id, done, done' := ids[i], ids[..i], ids[..i + 1];
    NextId(ids, i);
    ProspectsAre(s, e.lower, e.rules, m.firstPartySources, raw0, replies, prospects, id);
    NextInLine(prospects, raw0, p.raw, m.checks, done, marks, id);
    ghost var raw, checks := p.raw, m.checks;
    marks' := marks + [|checks|];
    ghost var check := ProcessRow(p, m, s, e, ids[i], replies(ids[i]), prospects[id]);
    OneMoreThrough(prospects, raw0, raw, p.raw, checks, m.checks, done, done', marks, marks', id, check);
  }
}
