/** The daily LLM cost ceiling: a tracker that is checked before each article
    and charged after each model call, with midnight free to fall in between. */
module CostCeiling {
  import opened Common

  /** One charge: the date it was booked on, and the amount. */
  datatype Charge = Charge(day: int, cost: real)

  function Spent(charges: seq<Charge>, day: int): real {
    if charges == [] then 0.0
    else Spent(Front(charges), day) + if Last(charges).day == day then Last(charges).cost else 0.0
  }

  lemma SpentSnoc(charges: seq<Charge>, c: Charge, day: int)
    ensures Spent(charges + [c], day) == Spent(charges, day) + if c.day == day then c.cost else 0.0
  {
    assert Front(charges + [c]) == charges;
  }

  lemma {:induction false} SpentConcat(a: seq<Charge>, b: seq<Charge>, day: int)
    ensures Spent(a + b, day) == Spent(a, day) + Spent(b, day)
  {
    if b == [] {
      assert a + b == a;
    } else {
      assert Front(a + b) == a + Front(b);
      SpentConcat(a, Front(b), day);
    }
  }

  predicate Books(charges: seq<Charge>, day: int) {
    exists i :: 0 <= i < |charges| && charges[i].day == day
  }

  lemma {:induction false} NothingBooked(charges: seq<Charge>, day: int)
    requires !Books(charges, day)
    ensures Spent(charges, day) == 0.0
  {
    if charges != [] {
      forall i | 0 <= i < |Front(charges)| ensures charges[i].day != day {
        assert !(charges[i].day == day);
      }
      NothingBooked(Front(charges), day);
    }
  }

  // ---------------------------------------------------- what a history may look like

  /** Everything spent on a day over a run, call by call. */
  function Total(calls: seq<seq<Charge>>, day: int): real {
    Spent(Flatten(calls), day)
  }

  /** The i-th call charges a day only if the calls before it had spent less
      than the ceiling on that day. */
  ghost predicate Honoured(calls: seq<seq<Charge>>, i: nat, ceiling: real)
    requires i < |calls|
  {
    forall day :: Books(calls[i], day) ==> Total(calls[..i], day) < ceiling
  }

  ghost predicate AllHonoured(calls: seq<seq<Charge>>, ceiling: real) {
    forall i :: 0 <= i < |calls| ==> Honoured(calls, i, ceiling)
  }

  lemma OneMoreTotal(calls: seq<seq<Charge>>, call: seq<Charge>, day: int)
    ensures Total(calls + [call], day) == Total(calls, day) + Spent(call, day)
  {
    assert Front(calls + [call]) == calls;
    SpentConcat(Flatten(calls), call, day);
  }

  lemma OneMoreHonoured(calls: seq<seq<Charge>>, call: seq<Charge>, ceiling: real)
    requires AllHonoured(calls, ceiling)
    requires forall day :: Books(call, day) ==> Total(calls, day) < ceiling
    ensures AllHonoured(calls + [call], ceiling)
  {
    forall i | 0 <= i < |calls| + 1 ensures Honoured(calls + [call], i, ceiling) {
      assert (calls + [call])[..i] == calls[..i];
      assert calls[..|calls|] == calls;
      assert i < |calls| ==> Honoured(calls, i, ceiling);
    }
  }

  /** The overshoot on a day is at most what a single call spent on it: without
      the last call that charged the day, it stays below the ceiling. */
  lemma {:induction false} OvershootIsOneCall(calls: seq<seq<Charge>>, ceiling: real, day: int) returns (last: int)
    requires AllHonoured(calls, ceiling)
    ensures -1 <= last < |calls|
    ensures last < 0 ==> Total(calls, day) == 0.0
    ensures last >= 0 ==> Books(calls[last], day) && Total(calls, day) - Spent(calls[last], day) < ceiling
    ensures forall j :: last < j < |calls| ==> !Books(calls[j], day)
  {
    if calls == [] {
      return -1;
    }
    var before := Front(calls);
    assert calls == before + [Last(calls)];
    OneMoreTotal(before, Last(calls), day);
    assert Honoured(calls, |calls| - 1, ceiling);
    if Books(Last(calls), day) {
      return |calls| - 1;
    }
    NothingBooked(Last(calls), day);
    forall i | 0 <= i < |before| ensures Honoured(before, i, ceiling) {
      assert Honoured(calls, i, ceiling) && before[..i] == calls[..i];
    }
    last := OvershootIsOneCall(before, ceiling, day);
  }

  /** Once a day has reached the ceiling, no later call changes its total. */
  lemma {:induction false} CeilingFreezesTheDay(calls: seq<seq<Charge>>, ceiling: real, day: int, i: nat)
    requires AllHonoured(calls, ceiling) && i <= |calls| && Total(calls[..i], day) >= ceiling
    ensures Total(calls, day) == Total(calls[..i], day)
    ensures forall j :: i <= j < |calls| ==> !Books(calls[j], day)
    decreases |calls| - i
  {
    if i < |calls| {
      assert Honoured(calls, i, ceiling);
      assert calls[..i + 1] == calls[..i] + [calls[i]];
      OneMoreTotal(calls[..i], calls[i], day);
      NothingBooked(calls[i], day);
      CeilingFreezesTheDay(calls, ceiling, day, i + 1);
    } else {
      assert calls[..i] == calls;
    }
  }

  lemma PrefixHonoured(calls: seq<seq<Charge>>, ceiling: real, n: nat)
    requires AllHonoured(calls, ceiling) && n <= |calls|
    ensures AllHonoured(calls[..n], ceiling)
  {
    forall i | 0 <= i < n ensures Honoured(calls[..n], i, ceiling) {
      assert Honoured(calls, i, ceiling) && calls[..n][..i] == calls[..i];
    }
  }

  /** The day a call's check read, and whether it refused the call. */
  datatype Check = Check(day: int, refused: bool)

  /** Each check refuses exactly if the calls before it had reached the ceiling
      on the day it read, and a refused call charges nothing. */
  ghost predicate CheckedAt(calls: seq<seq<Charge>>, checks: seq<Check>, i: nat, ceiling: real)
    requires i < |calls| == |checks|
  {
    && (checks[i].refused <==> Total(calls[..i], checks[i].day) >= ceiling)
    && (checks[i].refused ==> calls[i] == [])
  }

  ghost predicate AllChecked(calls: seq<seq<Charge>>, checks: seq<Check>, ceiling: real) {
    |calls| == |checks| && forall i :: 0 <= i < |calls| ==> CheckedAt(calls, checks, i, ceiling)
  }

  lemma OneMoreChecked(calls: seq<seq<Charge>>, checks: seq<Check>, call: seq<Charge>, check: Check, ceiling: real)
    requires AllChecked(calls, checks, ceiling)
    requires check.refused <==> Total(calls, check.day) >= ceiling
    requires check.refused ==> call == []
    ensures AllChecked(calls + [call], checks + [check], ceiling)
  {
    forall i | 0 <= i < |calls| + 1 ensures CheckedAt(calls + [call], checks + [check], i, ceiling) {
      assert (calls + [call])[..i] == calls[..i] && calls[..|calls|] == calls;
      assert i < |calls| ==> CheckedAt(calls, checks, i, ceiling);
    }
  }

  /** Once a day has reached the ceiling, every later check that reads this day
      refuses, however many calls lie between. */
  lemma ClosedDayRefuses(calls: seq<seq<Charge>>, checks: seq<Check>, ceiling: real, i: nat, j: nat)
    requires AllHonoured(calls, ceiling) && AllChecked(calls, checks, ceiling)
    requires i <= j < |calls| && Total(calls[..i], checks[j].day) >= ceiling
    ensures checks[j].refused
  {
    PrefixHonoured(calls, ceiling, j);
    assert calls[..j][..i] == calls[..i];
    CeilingFreezesTheDay(calls[..j], ceiling, checks[j].day, i);
    assert CheckedAt(calls, checks, j, ceiling);
  }

  // ------------------------------------------------------------------ the tracker

  datatype Pricing = Pricing(inputPerM: real, outputPerM: real)

  datatype Usage = Usage(inputTokens: nat, outputTokens: nat)

  function CostOf(p: Pricing, u: Usage): real {
    (u.inputTokens as real / 1000000.0) * p.inputPerM + (u.outputTokens as real / 1000000.0) * p.outputPerM
  }

  datatype Alert = Exceeded(cost: real) | Warned(day: int, cost: real)

  /** A million tokens of input cost the input price, and of output the output
      price; other amounts are in proportion. */
  lemma CostIs(p: Pricing, u: Usage)
    ensures 1000000.0 * CostOf(p, u) == u.inputTokens as real * p.inputPerM + u.outputTokens as real * p.outputPerM
  {
  }

  datatype Limits = Limits(ceiling: real, warnThreshold: real, hasBark: bool)

  /** What the tracker knows: the charges, the dates warned for, the alerts. */
  datatype Ledger = Ledger(charges: seq<Charge>, warned: set<int>, alerts: seq<Alert>)

  function WarnLevel(l: Limits): real {
    l.ceiling * l.warnThreshold
  }

  predicate Due(b: Ledger, l: Limits, day: int) {
    WarnLevel(l) <= Spent(b.charges, day) < l.ceiling
  }

  /** A check that found this cost, and afterwards the date `key`. */
  function Judged(b: Ledger, l: Limits, cost: real, key: int): Ledger {
    if cost >= l.ceiling then
      if l.hasBark then b.(alerts := b.alerts + [Exceeded(cost)]) else b
    else if cost >= WarnLevel(l) && key !in b.warned then
      b.(warned := b.warned + {key}, alerts := b.alerts + if l.hasBark then [Warned(key, cost)] else [])
    else b
  }

  /** A check that reads the cost of `day`, and afterwards the date `key`. */
  function Checked(b: Ledger, l: Limits, day: int, key: int): Ledger {
    Judged(b, l, Spent(b.charges, day), key)
  }

  /** Every date gets one warning at most, and is noted. */
  ghost predicate OneWarningEach(alerts: seq<Alert>, warned: set<int>) {
    && (forall i :: 0 <= i < |alerts| && alerts[i].Warned? ==> alerts[i].day in warned)
    && forall i, j :: 0 <= i < j < |alerts| && alerts[i].Warned? && alerts[j].Warned? ==> alerts[i].day != alerts[j].day
  }

  /** A date is newly warned for exactly if the cost read lies between the warning
      level and the ceiling and the date has not been warned for; with Bark, and
      only then, an alert goes out. */
  lemma WarnsIff(b: Ledger, l: Limits, day: int, key: int)
    ensures var after, cost := Checked(b, l, day, key), Spent(b.charges, day);
            var warns := l.ceiling * l.warnThreshold <= cost < l.ceiling && key !in b.warned;
            && after.charges == b.charges && after.warned == b.warned + (if warns then {key} else {})
            && after.alerts == b.alerts + (if !l.hasBark then [] else if cost >= l.ceiling then [Exceeded(cost)]
                                           else if warns then [Warned(key, cost)] else [])
  {
    assert b.alerts + [] == b.alerts && b.warned + {} == b.warned;
  }

  lemma CheckWarnsOnce(b: Ledger, l: Limits, day: int, key: int)
    requires OneWarningEach(b.alerts, b.warned)
    ensures OneWarningEach(Checked(b, l, day, key).alerts, Checked(b, l, day, key).warned)
  {
  }

  /** If a check has just warned: the date it warned for has spent the warning
      level exactly if it is the day whose cost was read. */
  predicate RightIffOneDay(b: Ledger, after: Ledger, l: Limits, day: int) {
    WarnLevel(l) > 0.0 && |after.alerts| > |b.alerts| && Last(after.alerts).Warned? ==>
      (Spent(b.charges, Last(after.alerts).day) >= WarnLevel(l) <==> Last(after.alerts).day == day)
  }

  /** A warning is right exactly if no midnight fell between the check's two
      readings. */
  lemma WarningIsRightIff(b: Ledger, l: Limits, last: int, day: int, key: int)
    requires forall i :: 0 <= i < |b.charges| ==> b.charges[i].day <= last
    requires last <= day <= key
    ensures RightIffOneDay(b, Checked(b, l, day, key), l, day)
  {
    if key != day {
      NothingBooked(b.charges, key);
    }
  }

  /** What befalls a ledger: a charge, or a check with its two readings. */
  datatype Act = Booking(charge: Charge) | Checking(day: int, key: int)

  function After(b: Ledger, l: Limits, act: Act): Ledger {
    match act
    case Booking(c) => b.(charges := b.charges + [c])
    case Checking(day, key) => Checked(b, l, day, key)
  }

  function Ran(b: Ledger, l: Limits, acts: seq<Act>): Ledger {
    if acts == [] then b else After(Ran(b, l, Front(acts)), l, Last(acts))
  }

  predicate WarnedFor(alerts: seq<Alert>, day: int) {
    exists i :: 0 <= i < |alerts| && alerts[i].Warned? && alerts[i].day == day
  }

  /** A date that has been warned for gets no other warning, whatever follows. */
  lemma {:induction false} NoSecondWarning(b: Ledger, l: Limits, acts: seq<Act>, day: int)
    requires day in b.warned
    ensures b.alerts <= Ran(b, l, acts).alerts && day in Ran(b, l, acts).warned
    ensures !WarnedFor(Ran(b, l, acts).alerts[|b.alerts|..], day)
  {
    if acts != [] {
      NoSecondWarning(b, l, Front(acts), day);
      var before, after := Ran(b, l, Front(acts)).alerts, Ran(b, l, acts).alerts;
      forall i | |b.alerts| <= i < |after| ensures !(after[i].Warned? && after[i].day == day) {
        assert i < |before| ==> after[i] == before[|b.alerts|..][i - |b.alerts|];
      }
    }
  }

  lemma OneMoreAct(b: Ledger, l: Limits, acts: seq<Act>, act: Act)
    ensures Ran(b, l, acts + [act]) == After(Ran(b, l, acts), l, act)
  {
    assert Front(acts + [act]) == acts;
  }

  /** A check over midnight: it warns for the new day, which has spent nothing. */
  lemma OverMidnight(b: Ledger, l: Limits, c: Charge, day: int)
    requires b == Ledger([c], {}, []) && c.day < day && Due(b, l, c.day) && l.hasBark
    ensures Spent([c], c.day) == c.cost && Spent([c], day) == 0.0
    ensures Checked(b, l, c.day, day) == Ledger([c], {day}, [Warned(day, c.cost)])
  {
    SpentSnoc([], c, c.day);
    SpentSnoc([], c, day);
    assert [] + [c] == [c];
    assert {} + {day} == {day} && b.alerts + [Warned(day, c.cost)] == [Warned(day, c.cost)];
  }

  /** It happens: day 0 spends 9 of 10, a check reads the cost before midnight
      and the date after it, and warns for day 1 that has spent nothing. When
      day 1 has spent 9 itself, its check is due and stays silent. */
  lemma WarningCanBeMisplaced(l: Limits, empty: Ledger) returns (acts: seq<Act>, late: seq<Act>)
    requires l == Limits(10.0, 0.8, true) && empty == Ledger([], {}, [])
    ensures acts == [Booking(Charge(0, 9.0)), Checking(0, 1)]
    ensures Ran(empty, l, acts).alerts == [Warned(1, 9.0)] && Spent(Ran(empty, l, acts).charges, 1) == 0.0
    ensures late == acts + [Booking(Charge(1, 9.0))] && Due(Ran(empty, l, late), l, 1)
    ensures Ran(empty, l, late + [Checking(1, 1)]) == Ran(empty, l, late)
  {
    var c, c' := Charge(0, 9.0), Charge(1, 9.0);
    acts, late := [Booking(c)] + [Checking(0, 1)], [Booking(c), Checking(0, 1)] + [Booking(c')];
    assert [] + [Booking(c)] == [Booking(c)] && [] + [c] == [c];
    OneMoreAct(empty, l, [], Booking(c));
    OneMoreAct(empty, l, [Booking(c)], Checking(0, 1));
    OneMoreAct(empty, l, acts, Booking(c'));
    OneMoreAct(empty, l, late, Checking(1, 1));
    SpentSnoc([], c, 0);
    OverMidnight(Ledger([c], {}, []), l, c, 1);
    SpentSnoc([c], c', 1);
  }

  /** The date; it never goes back, and may change between any two readings. */
  class Calendar {
    var today: int

    constructor (start: int)
      ensures today == start
    {
      today := start;
    }

    method Read() returns (day: int)
      modifies this
      ensures day == today >= old(today)
    {
      day :| day >= today;
      today := day;
    }
  }

  class CostTracker {
    const ceiling: real
    const warnThreshold: real
    const pricing: map<string, Pricing>
    const hasBark: bool
    const calendar: Calendar
    var dailyTotal: map<int, real>
    var warnedToday: set<int>
    ghost var alerts: seq<Alert>
    /** The charges booked so far. */
    ghost var charges: seq<Charge>

    function On(day: int): real
      reads this
    {
      if day in dailyTotal then dailyTotal[day] else 0.0
    }

    function Terms(): Limits {
      Limits(ceiling, warnThreshold, hasBark)
    }

    ghost function Known(): Ledger
      reads this
    {
      Ledger(charges, warnedToday, alerts)
    }

    ghost predicate Valid()
      reads this, calendar
    {
      && (forall day :: On(day) == Spent(charges, day))
      && (forall i :: 0 <= i < |charges| ==> charges[i].day <= calendar.today)
      && OneWarningEach(alerts, warnedToday)
    }

    constructor (ceiling: real, warnThreshold: real, pricing: map<string, Pricing>, hasBark: bool, calendar: Calendar)
      ensures Valid() && charges == [] && alerts == [] && this.ceiling == ceiling && this.calendar == calendar
    {
      this.ceiling := ceiling;
      this.warnThreshold := warnThreshold;
      this.pricing := pricing;
      this.hasBark := hasBark;
      this.calendar := calendar;
      dailyTotal, warnedToday, alerts, charges := map[], {}, [], [];
    }

    /** A model without a price costs nothing. */
    method Record(model: string, usage: Usage) returns (ghost booked: seq<Charge>)
      requires Valid()
      modifies this`dailyTotal, this`charges, calendar
      ensures Valid() && charges == old(charges) + booked && old(calendar.today) <= calendar.today
      ensures booked == if model in pricing then [Charge(calendar.today, CostOf(pricing[model], usage))] else []
      ensures model in pricing ==>
                1000000.0 * booked[0].cost == usage.inputTokens as real * pricing[model].inputPerM
                                              + usage.outputTokens as real * pricing[model].outputPerM
    {
      booked := [];
      if model !in pricing {
        assert charges + [] == charges;
        return;
      }
      var cost := CostOf(pricing[model], usage);
      CostIs(pricing[model], usage);
      var key := calendar.Read();
      booked := [Charge(key, cost)];
      ghost var before := charges;
      dailyTotal := dailyTotal[key := On(key) + cost];
      charges := charges + booked;
      forall day ensures On(day) == Spent(charges, day) {
        SpentSnoc(before, Charge(key, cost), day);
        assert old(On(day)) == Spent(before, day);
      }
    }

    method TodayCost() returns (cost: real, ghost day: int)
      requires Valid()
      modifies this`dailyTotal, calendar
      ensures Valid() && day == calendar.today >= old(calendar.today) && cost == Spent(charges, day)
    {
      var key := calendar.Read();
      dailyTotal := dailyTotal[key := On(key)];
      cost, day := dailyTotal[key], key;
    }

    /** Refuses when the day it read has reached the ceiling; otherwise it may
        warn, once per date. The date warned for is read after the cost, so a
        warning around midnight can carry the old day's cost. */
    method CheckAsync() returns (ok: bool, ghost day: int)
      requires Valid()
      modifies this`dailyTotal, this`warnedToday, this`alerts, calendar
      ensures Valid() && old(calendar.today) <= day <= calendar.today
      ensures ok == (Spent(charges, day) < ceiling)
      ensures Known() == Checked(old(Known()), Terms(), day, calendar.today)
      ensures RightIffOneDay(old(Known()), Known(), Terms(), day)
    {
      ghost var last, before, l := calendar.today, Known(), Terms();
      var todayCost;
      todayCost, day := TodayCost();
      var todayKey := calendar.Read();
      assert alerts + [] == alerts;
      WarningIsRightIff(before, l, last, day, todayKey);
      CheckWarnsOnce(before, l, day, todayKey);
      assert Checked(before, l, day, todayKey) == Judged(before, l, todayCost, todayKey);
      if todayCost >= ceiling {
        if hasBark {
          alerts := alerts + [Exceeded(todayCost)];
        }
        return false, day;
      }
      var level := WarnLevel(Terms());
      if todayCost >= level && todayKey !in warnedToday {
        warnedToday := warnedToday + {todayKey};
        if hasBark {
          alerts := alerts + [Warned(todayKey, todayCost)];
        }
      }
      ok := true;
    }
  }

  // ------------------------------------------------------------------ the pipeline

  datatype Tier0Verdict = Tier0Verdict(relevant: bool, tier2Hint: bool, watchlistHit: bool)

  /** What a model call comes to: an error before any usage is known, or a
      response whose payload may still be unusable. */
  datatype Reply<T> = Raises | Responds(model: string, usage: Usage, payload: Option<T>)

  datatype Tier = SkipIt | Tier1 | Tier2

  function Decide(firstParty: bool, v: Tier0Verdict): Tier {
    if firstParty then Tier2
    else if !v.relevant then SkipIt
    else if v.watchlistHit || v.tier2Hint then Tier2
    else Tier1
  }

  /** Exactly where an article goes: first-party sources to the deep extraction
      whatever the verdict; else nowhere if irrelevant. */
  lemma DecisionIs(firstParty: bool, v: Tier0Verdict)
    ensures Decide(firstParty, v) == Tier2 <==> firstParty || (v.relevant && (v.watchlistHit || v.tier2Hint))
    ensures Decide(firstParty, v) == Tier1 <==> !firstParty && v.relevant && !v.watchlistHit && !v.tier2Hint
    ensures Decide(firstParty, v) == SkipIt <==> !firstParty && !v.relevant
  {
  }

  datatype Outcome<T> = CeilingHit | Failed | Declined | Enriched(tier: Tier, record: T)

  /** What a reply costs. */
  function Bill<T>(pricing: map<string, Pricing>, reply: Reply<T>): seq<real> {
    if reply.Responds? && reply.model in pricing then [CostOf(pricing[reply.model], reply.usage)] else []
  }

  function TierBill<T>(pricing: map<string, Pricing>, tier: Tier, tier1: Reply<T>, tier2: Reply<T>): seq<real> {
    match tier
    case SkipIt => []
    case Tier1 => Bill(pricing, tier1)
    case Tier2 => Bill(pricing, tier2)
  }

  /** The first tier's bill, and that of the tier it decides on. */
  function AnswerBill<T>(pricing: map<string, Pricing>, firstParty: bool, tier0: Reply<Tier0Verdict>, tier1: Reply<T>,
                         tier2: Reply<T>): seq<real> {
    Bill(pricing, tier0)
    + match tier0
      case Responds(_, _, Some(v)) => TierBill(pricing, Decide(firstParty, v), tier1, tier2)
      case _ => []
  }

  function Amounts(call: seq<Charge>): seq<real> {
    seq(|call|, i requires 0 <= i < |call| => call[i].cost)
  }

  lemma AmountsConcat(a: seq<Charge>, b: seq<Charge>)
    ensures Amounts(a + b) == Amounts(a) + Amounts(b)
  {
  }

  class LLMPipeline {
    const cost: CostTracker
    const firstPartySources: set<string>
    /** The charges of every call so far, including refused and failed ones. */
    ghost var calls: seq<seq<Charge>>
    ghost var checks: seq<Check>

    ghost predicate Valid()
      reads this, cost, cost.calendar
    {
      && cost.Valid() && cost.charges == Flatten(calls)
      && AllChecked(calls, checks, cost.ceiling)
      && AllHonoured(calls, cost.ceiling)
      && (cost.ceiling <= 0.0 ==> Flatten(calls) == [])
    }

    constructor (cost: CostTracker, firstPartySources: set<string>)
      requires cost.Valid() && cost.charges == []
      ensures Valid() && this.cost == cost && calls == []
    {
      this.cost := cost;
      this.firstPartySources := firstPartySources;
      calls, checks := [], [];
    }

    /** In the middle of a call that has made these charges so far: they fall on
        the day its check read or on later ones, on which no earlier call
        charged anything. */
    ghost predicate Underway(call: seq<Charge>, day: int)
      reads this, cost, cost.calendar
    {
      && cost.Valid() && cost.charges == Flatten(calls) + call && AllHonoured(calls, cost.ceiling)
      && day <= cost.calendar.today
      && (forall i :: 0 <= i < |Flatten(calls)| ==> Flatten(calls)[i].day <= day)
      && (forall i :: 0 <= i < |call| ==> day <= call[i].day)
      && (call != [] ==> Passed(day))
      && (cost.ceiling <= 0.0 ==> Flatten(calls) == [])
      && AllChecked(calls, checks, cost.ceiling)
    }

    ghost predicate Passed(day: int)
      reads this, cost
    {
      Spent(Flatten(calls), day) < cost.ceiling
    }

    method CheckCeiling() returns (ok: bool, ghost day: int)
      requires Valid()
      modifies cost`dailyTotal, cost`warnedToday, cost`alerts, cost.calendar
      ensures Underway([], day) && ok == Passed(day) && old(cost.calendar.today) <= day
    {
      ok, day := cost.CheckAsync();
      assert Flatten(calls) + [] == Flatten(calls);
    }

    /** A response is charged whether or not its payload is usable. */
    method Ask<T>(reply: Reply<T>, ghost call: seq<Charge>, ghost day: int)
      returns (r: Option<T>, ghost call': seq<Charge>)
      requires Underway(call, day) && Passed(day)
      modifies cost`dailyTotal, cost`charges, cost.calendar
      ensures Underway(call', day) && Passed(day)
      ensures r == if reply.Responds? then reply.payload else None
      ensures Amounts(call') == Amounts(call) + Bill(cost.pricing, reply)
    {
      match reply
      case Raises =>
        assert Amounts(call) + [] == Amounts(call);
        r, call' := None, call;
      case Responds(model, usage, payload) =>
        ghost var booked := cost.Record(model, usage);
        Associative(Flatten(calls), call, booked);
        AmountsConcat(call, booked);
        r, call' := payload, call + booked;
    }

    /** The check comes first, and every charge of the call comes after it. */
    method Process<T>(source: string, tier0: Reply<Tier0Verdict>, tier1: Reply<T>, tier2: Reply<T>)
      returns (outcome: Outcome<T>, ghost day: int)
      requires Valid()
      modifies this, cost, cost.calendar
      ensures Valid() && |calls| == |old(calls)| + 1 && Front(calls) == old(calls)
      ensures checks == old(checks) + [Check(day, outcome.CeilingHit?)]
      ensures old(cost.calendar.today) <= day <= cost.calendar.today
      ensures outcome.CeilingHit? <==> Total(old(calls), day) >= cost.ceiling
      ensures outcome.CeilingHit? ==> Last(calls) == []
      ensures !outcome.CeilingHit? ==>
                && outcome == Answer(source in firstPartySources, tier0, tier1, tier2)
                && Amounts(Last(calls)) == AnswerBill(cost.pricing, source in firstPartySources, tier0, tier1, tier2)
    {
      var ok;
      ok, day := CheckCeiling();
      if !ok {
        Close([], day);
        return CeilingHit, day;
      }
      var tier, call := Triage(source, tier0, day);
      if tier.None? || tier.value.SkipIt? {
        Close(call, day);
        assert Bill(cost.pricing, tier0) + [] == Bill(cost.pricing, tier0);
        return if tier.None? then Failed else Declined, day;
      }
      outcome := Extract(tier.value, tier1, tier2, call, day);
    }

    /** The first tier and the router's decision. */
    method Triage(source: string, tier0: Reply<Tier0Verdict>, ghost day: int)
      returns (tier: Option<Tier>, ghost call: seq<Charge>)
      requires Underway([], day) && Passed(day)
      modifies cost`dailyTotal, cost`charges, cost.calendar
      ensures Underway(call, day) && Passed(day) && Amounts(call) == Bill(cost.pricing, tier0)
      ensures tier == match tier0
                      case Responds(_, _, Some(v)) => Some(Decide(source in firstPartySources, v))
                      case _ => None
    {
      var verdict;
      verdict, call := Ask(tier0, [], day);
      assert Amounts([]) + Bill(cost.pricing, tier0) == Bill(cost.pricing, tier0);
      tier := if verdict.Some? then Some(Decide(source in firstPartySources, verdict.value)) else None;
    }

    /** The rules have found the article relevant already. */
    method ProcessWithRules<T>(source: string, directHit: bool, tier1: Reply<T>, tier2: Reply<T>)
      returns (outcome: Outcome<T>, ghost day: int)
      requires Valid()
      modifies this, cost, cost.calendar
      ensures Valid() && |calls| == |old(calls)| + 1 && Front(calls) == old(calls)
      ensures checks == old(checks) + [Check(day, outcome.CeilingHit?)]
      ensures old(cost.calendar.today) <= day <= cost.calendar.today
      ensures outcome.CeilingHit? <==> Total(old(calls), day) >= cost.ceiling
      ensures outcome.CeilingHit? ==> Last(calls) == []
      ensures !outcome.CeilingHit? ==>
                var tier := if directHit || source in firstPartySources then Tier2 else Tier1;
                && outcome == Extracted(tier, tier1, tier2)
                && Amounts(Last(calls)) == TierBill(cost.pricing, tier, tier1, tier2)
    {
      var ok;
      ok, day := CheckCeiling();
      if !ok {
        Close([], day);
        return CeilingHit, day;
      }
      outcome := Extract(if directHit || source in firstPartySources then Tier2 else Tier1, tier1, tier2, [], day);
    }

    /** The summary or the deep extraction, which ends the call. */
    method Extract<T>(tier: Tier, tier1: Reply<T>, tier2: Reply<T>, ghost call: seq<Charge>, ghost day: int)
      returns (outcome: Outcome<T>)
      requires Underway(call, day) && Passed(day) && !tier.SkipIt?
      modifies this`calls, this`checks, cost`dailyTotal, cost`charges, cost.calendar
      ensures Valid() && |calls| == |old(calls)| + 1 && Front(calls) == old(calls)
      ensures checks == old(checks) + [Check(day, false)]
      ensures outcome == Extracted(tier, tier1, tier2) && day <= cost.calendar.today
      ensures Amounts(Last(calls)) == Amounts(call) + TierBill(cost.pricing, tier, tier1, tier2)
    {
      var r, call' := Ask(if tier.Tier2? then tier2 else tier1, call, day);
      Close(call', day);
      outcome := if r.Some? then Enriched(tier, r.value) else Failed;
    }

    /** Books a finished call into the history. */
    ghost method Close(call: seq<Charge>, day: int)
      requires Underway(call, day)
      modifies this`calls, this`checks
      ensures Valid() && calls == old(calls) + [call]
      ensures checks == old(checks) + [Check(day, !old(Passed(day)))]
    {
      forall d | Books(call, d) ensures Total(calls, d) < cost.ceiling {
        assert cost.ceiling <= 0.0 ==> Spent(Flatten(calls), day) == 0.0;
        if d != day {
          NothingBooked(Flatten(calls), d);
        }
      }
      OneMoreHonoured(calls, call, cost.ceiling);
      OneMoreChecked(calls, checks, call, Check(day, !Passed(day)), cost.ceiling);
      assert Front(calls + [call]) == calls;
      calls, checks := calls + [call], checks + [Check(day, !Passed(day))];
    }

    /** In every reachable state: a day's spend is below the ceiling but for one
        call, and a day at the ceiling is closed. */
    lemma CeilingHolds(day: int) returns (last: int)
      requires Valid()
      ensures cost.On(day) == Total(calls, day)
      ensures -1 <= last < |calls|
      ensures if last < 0 then cost.On(day) == 0.0 else cost.On(day) - Spent(calls[last], day) < cost.ceiling
      ensures forall j :: last < j < |calls| ==> !Books(calls[j], day)
    {
      last := OvershootIsOneCall(calls, cost.ceiling, day);
    }
  }

  /** The outcome of a call that passed the check. */
  function Answer<T>(firstParty: bool, tier0: Reply<Tier0Verdict>, tier1: Reply<T>, tier2: Reply<T>): Outcome<T> {
    match tier0
    case Raises => Failed
    case Responds(_, _, None) => Failed
    case Responds(_, _, Some(v)) =>
      var tier := Decide(firstParty, v);
      if tier.SkipIt? then Declined else Extracted(tier, tier1, tier2)
  }

  function Extracted<T>(tier: Tier, tier1: Reply<T>, tier2: Reply<T>): Outcome<T> {
    match (if tier.Tier2? then tier2 else tier1)
    case Responds(_, _, Some(record)) => Enriched(tier, record)
    case _ => Failed
  }

  /** What an article that passed the check comes to, reply by reply. */
  lemma AnswerIs<T>(firstParty: bool, tier0: Reply<Tier0Verdict>, tier1: Reply<T>, tier2: Reply<T>)
    ensures var outcome := Answer(firstParty, tier0, tier1, tier2);
            var judged := tier0.Responds? && tier0.payload.Some?;
            && !outcome.CeilingHit?
            && (!judged ==> outcome == Failed)
            && (judged ==>
                  var tier := Decide(firstParty, tier0.payload.value);
                  && (outcome == Declined <==> tier == SkipIt)
                  && (tier == Tier1 ==> outcome == if tier1.Responds? && tier1.payload.Some?
                                                   then Enriched(Tier1, tier1.payload.value) else Failed)
                  && (tier == Tier2 ==> outcome == if tier2.Responds? && tier2.payload.Some?
                                                   then Enriched(Tier2, tier2.payload.value) else Failed))
  {
  }

  /** What it is billed for: every reply of a priced model that was asked for. */
  lemma BillIs<T>(pricing: map<string, Pricing>, firstParty: bool, tier0: Reply<Tier0Verdict>, tier1: Reply<T>,
                  tier2: Reply<T>)
    ensures var judged := tier0.Responds? && tier0.payload.Some?;
            var tier := if judged then Decide(firstParty, tier0.payload.value) else SkipIt;
            AnswerBill(pricing, firstParty, tier0, tier1, tier2)
            == (if tier0.Responds? && tier0.model in pricing then [CostOf(pricing[tier0.model], tier0.usage)] else [])
               + (if tier == Tier1 && tier1.Responds? && tier1.model in pricing
                  then [CostOf(pricing[tier1.model], tier1.usage)] else [])
               + (if tier == Tier2 && tier2.Responds? && tier2.model in pricing
                  then [CostOf(pricing[tier2.model], tier2.usage)] else [])
  {
  }
}
