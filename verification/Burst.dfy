/** The per-ticker burst suppressor: lazily expired buckets that must agree
    with a plain log of every accepted push. */
module Burst {
  import opened Common

  /** One call: the monotonic clock reading and the tickers it names. */
  datatype Call = Call(now: real, tickers: seq<string>)

  predicate Ordered(calls: seq<Call>) {
    forall i, j :: 0 <= i < j < |calls| ==> calls[i].now <= calls[j].now
  }

  // ---------------------------------------------------------------- full log

  /** Entries a log of accepted calls holds for t at or after `cutoff`; a call
      that names t twice left two entries. */
  function Logged(log: seq<Call>, t: string, cutoff: real): nat {
    if log == [] then 0
    else Logged(Front(log), t, cutoff)
         + if Last(log).now >= cutoff then multiset(Last(log).tickers)[t] else 0
  }

  /** The rule the suppressor is for, stated on the full log. */
  predicate Accepts(log: seq<Call>, c: Call, window: int, threshold: int) {
    forall t :: t in c.tickers ==> Logged(log, t, c.now - window as real) < threshold
  }

  /** The accepted calls of a run. */
  function AcceptedLog(calls: seq<Call>, window: int, threshold: int): seq<Call> {
    if calls == [] then []
    else
      var log := AcceptedLog(Front(calls), window, threshold);
      if Accepts(log, Last(calls), window, threshold) then log + [Last(calls)] else log
  }

  /** The accept/suppress answers of a run. */
  function Decisions(calls: seq<Call>, window: int, threshold: int): (r: seq<bool>)
    ensures |r| == |calls|
  {
    if calls == [] then []
    else
      Decisions(Front(calls), window, threshold)
      + [Accepts(AcceptedLog(Front(calls), window, threshold), Last(calls), window, threshold)]
  }

  /** What a further logged call adds: an entry for each mention, if it is not
      older than the cutoff. */
  lemma LoggedIs(log: seq<Call>, c: Call, t: string, cutoff: real)
    ensures Logged([], t, cutoff) == 0
    ensures Logged(log + [c], t, cutoff)
         == Logged(log, t, cutoff) + if c.now >= cutoff then multiset(c.tickers)[t] else 0
  {
    assert Front(log + [c]) == log;
  }

  /** A call is accepted exactly if no ticker it lists has reached the threshold
      among the entries of the last `window` seconds; then, and only then, it is
      logged itself. */
  lemma AcceptedIs(calls: seq<Call>, c: Call, window: int, threshold: int)
    ensures var log := AcceptedLog(calls, window, threshold);
            var accepted := forall t :: t in c.tickers ==> Logged(log, t, c.now - window as real) < threshold;
            && Last(Decisions(calls + [c], window, threshold)) == accepted
            && AcceptedLog(calls + [c], window, threshold) == log + if accepted then [c] else []
  {
    assert Front(calls + [c]) == calls;
    var log := AcceptedLog(calls, window, threshold);
    assert log + [] == log;
  }

  // ------------------------------------------------------- run-level theorems

  /** Calls of a log that name t at a time in the closed interval [from, to]. */
  function CallsNaming(log: seq<Call>, t: string, from: real, to: real): nat {
    if log == [] then 0
    else CallsNaming(Front(log), t, from, to)
         + if t in Last(log).tickers && from <= Last(log).now <= to then 1 else 0
  }

  lemma {:induction false} NamedCallsAreLogged(log: seq<Call>, t: string, from: real, to: real, cutoff: real)
    requires cutoff <= from
    ensures CallsNaming(log, t, from, to) <= Logged(log, t, cutoff)
  {
    if log != [] {
      NamedCallsAreLogged(Front(log), t, from, to, cutoff);
    }
  }

  /** In any closed interval of window length at most `threshold` accepted
      calls name a given ticker, whatever duplicates the ticker lists hold;
      with a threshold of zero or less, none does. */
  lemma {:induction false} WindowBound(calls: seq<Call>, window: int, threshold: int, t: string, from: real)
    requires Ordered(calls)
    ensures CallsNaming(AcceptedLog(calls, window, threshold), t, from, from + window as real)
         <= if threshold < 0 then 0 else threshold
  {
    if calls != [] {
      var before := AcceptedLog(Front(calls), window, threshold);
      var c := Last(calls);
      var to := from + window as real;
      WindowBound(Front(calls), window, threshold, t, from);
      if Accepts(before, c, window, threshold) && t in c.tickers && from <= c.now <= to {
        NamedCallsAreLogged(before, t, from, to, c.now - window as real);
        assert Front(before + [c]) == before;
      } else if Accepts(before, c, window, threshold) {
        assert Front(before + [c]) == before;
      }
    }
  }

  /** Drops the positions where keep is false. */
  function Keep<T>(s: seq<T>, keep: seq<bool>): seq<T>
    requires |s| == |keep|
  {
    if s == [] then []
    else Keep(Front(s), Front(keep)) + if Last(keep) then [Last(s)] else []
  }

  /** Deleting any of the suppressed calls changes no remaining answer and no
      accepted call: a suppressed attempt never prolongs a suppression. */
  lemma {:induction false} SuppressedCallsLeaveNoTrace(
      calls: seq<Call>, keep: seq<bool>, window: int, threshold: int)
    requires |keep| == |calls|
    requires forall i :: 0 <= i < |calls| && Decisions(calls, window, threshold)[i] ==> keep[i]
    ensures AcceptedLog(Keep(calls, keep), window, threshold) == AcceptedLog(calls, window, threshold)
    ensures Decisions(Keep(calls, keep), window, threshold)
         == Keep(Decisions(calls, window, threshold), keep)
  {
    if calls != [] {
      var ds := Decisions(calls, window, threshold);
      var fs, fk := Front(calls), Front(keep);
      assert Front(ds) == Decisions(fs, window, threshold);
      assert forall i :: 0 <= i < |fs| ==> ds[i] == Decisions(fs, window, threshold)[i];
      SuppressedCallsLeaveNoTrace(fs, fk, window, threshold);
      if Last(keep) {
        assert Front(Keep(calls, keep)) == Keep(fs, fk);
      } else {
        assert Keep(calls, keep) == Keep(fs, fk);
        assert Keep(ds, keep) == Keep(Front(ds), fk);
      }
    }
  }

  lemma OneMoreCall(calls: seq<Call>, c: Call, window: int, threshold: int)
    ensures AcceptedLog(calls + [c], window, threshold)
         == var log := AcceptedLog(calls, window, threshold);
            if Accepts(log, c, window, threshold) then log + [c] else log
  {
    assert Front(calls + [c]) == calls;
  }

  lemma AcceptsIff(log: seq<Call>, c: Call, window: int, threshold: int, cutoff: real)
    requires cutoff == c.now - window as real
    ensures Accepts(log, c, window, threshold) <==> forall t :: t in c.tickers ==> Logged(log, t, cutoff) < threshold
  {
  }

  /** n calls at one instant that name only t. */
  function Volley(t: string, now: real, n: nat): (r: seq<Call>)
    ensures |r| == n
  {
    if n == 0 then [] else Volley(t, now, n - 1) + [Call(now, [t])]
  }

  lemma {:induction false} VolleyIsLogged(t: string, now: real, n: nat, from: real, to: real)
    requires from <= now <= to
    ensures Logged(Volley(t, now, n), t, from) == n && CallsNaming(Volley(t, now, n), t, from, to) == n
  {
    if n > 0 {
      VolleyIsLogged(t, now, n - 1, from, to);
      assert Front(Volley(t, now, n)) == Volley(t, now, n - 1);
      assert multiset([t])[t] == 1;
    }
  }

  lemma VolleyLeavesRoom(t: string, now: real, window: nat, threshold: nat, n: nat)
    requires n < threshold
    ensures Accepts(Volley(t, now, n), Call(now, [t]), window, threshold)
  {
    VolleyIsLogged(t, now, n, now - window as real, now);
  }

  lemma AcceptedOneMore(before: seq<Call>, c: Call, all: seq<Call>, window: int, threshold: int)
    requires all == before + [c]
    requires AcceptedLog(before, window, threshold) == before && Accepts(before, c, window, threshold)
    ensures AcceptedLog(all, window, threshold) == all
  {
    OneMoreCall(before, c, window, threshold);
  }

  lemma {:induction false} VolleyIsAccepted(t: string, now: real, window: nat, threshold: nat, n: nat)
    requires n <= threshold
    ensures AcceptedLog(Volley(t, now, n), window, threshold) == Volley(t, now, n)
  {
    if n > 0 {
      VolleyIsAccepted(t, now, window, threshold, n - 1);
      VolleyLeavesRoom(t, now, window, threshold, n - 1);
      AcceptedOneMore(Volley(t, now, n - 1), Call(now, [t]), Volley(t, now, n), window, threshold);
    }
  }

  /** With a non-negative window the bound is attained: `threshold` calls at
      one instant that name only t are all accepted. */
  lemma BoundIsAttained(t: string, now: real, window: nat, threshold: nat, n: nat)
    requires n <= threshold
    ensures AcceptedLog(Volley(t, now, n), window, threshold) == Volley(t, now, n)
    ensures CallsNaming(Volley(t, now, n), t, now, now + window as real) == n
  {
    VolleyIsAccepted(t, now, window, threshold, n);
    VolleyIsLogged(t, now, n, now, now + window as real);
  }

  // ------------------------------------------------------------ the buckets

  /** Bucket entries at or after `cutoff`. */
  function AtOrAfter(bucket: seq<real>, cutoff: real): nat {
    if bucket == [] then 0
    else AtOrAfter(Front(bucket), cutoff) + if Last(bucket) >= cutoff then 1 else 0
  }

  predicate Sorted(bucket: seq<real>) {
    forall i, j :: 0 <= i < j < |bucket| ==> bucket[i] <= bucket[j]
  }

  lemma {:induction false} PopExpired(bucket: seq<real>, cutoff: real)
    requires bucket != [] && bucket[0] < cutoff
    ensures AtOrAfter(bucket[1..], cutoff) == AtOrAfter(bucket, cutoff)
  {
    if |bucket| > 1 {
      PopExpired(Front(bucket), cutoff);
      assert Front(bucket[1..]) == Front(bucket)[1..];
    } else {
      assert Front(bucket) == [];
    }
  }

  lemma {:induction false} AllCurrent(bucket: seq<real>, cutoff: real)
    requires forall i :: 0 <= i < |bucket| ==> bucket[i] >= cutoff
    ensures AtOrAfter(bucket, cutoff) == |bucket|
  {
    if bucket != [] {
      AllCurrent(Front(bucket), cutoff);
    }
  }

  /** From `horizon` on, the bucket of t holds as many entries as the log. */
  ghost predicate Agrees(bucket: seq<real>, log: seq<Call>, t: string, clock: real, horizon: real) {
    && Sorted(bucket)
    && (forall i :: 0 <= i < |bucket| ==> bucket[i] <= clock)
    && forall cutoff :: cutoff >= horizon ==> AtOrAfter(bucket, cutoff) == Logged(log, t, cutoff)
  }

  lemma PopKeepsAgreement(bucket: seq<real>, log: seq<Call>, t: string, clock: real, horizon: real)
    requires Agrees(bucket, log, t, clock, horizon)
    requires bucket != [] && bucket[0] < horizon
    ensures Agrees(bucket[1..], log, t, clock, horizon)
  {
    forall cutoff | cutoff >= horizon
      ensures AtOrAfter(bucket[1..], cutoff) == Logged(log, t, cutoff)
    {
      PopExpired(bucket, cutoff);
    }
  }

  function Stamps(now: real, n: nat): seq<real> {
    seq(n, _ => now)
  }

  lemma {:induction false} StampsAtOrAfter(bucket: seq<real>, now: real, n: nat, cutoff: real)
    ensures AtOrAfter(bucket + Stamps(now, n), cutoff)
         == AtOrAfter(bucket, cutoff) + if now >= cutoff then n else 0
  {
    if n == 0 {
      assert bucket + Stamps(now, 0) == bucket;
    } else {
      StampsAtOrAfter(bucket, now, n - 1, cutoff);
      assert Front(bucket + Stamps(now, n)) == bucket + Stamps(now, n - 1);
    }
  }

  lemma AppendKeepsAgreement(bucket: seq<real>, log: seq<Call>, t: string, c: Call, horizon: real)
    requires Agrees(bucket, log, t, c.now, horizon)
    ensures Agrees(bucket + Stamps(c.now, multiset(c.tickers)[t]), log + [c], t, c.now, horizon)
  {
    var n := multiset(c.tickers)[t];
    assert Front(log + [c]) == log;
    forall cutoff | cutoff >= horizon
      ensures AtOrAfter(bucket + Stamps(c.now, n), cutoff) == Logged(log + [c], t, cutoff)
    {
      StampsAtOrAfter(bucket, c.now, n, cutoff);
    }
  }

  function Bucket(buckets: map<string, seq<real>>, t: string): seq<real> {
    if t in buckets then buckets[t] else []
  }

  ghost predicate AllAgree(buckets: map<string, seq<real>>, log: seq<Call>, clock: real, horizon: real) {
    forall t :: Agrees(Bucket(buckets, t), log, t, clock, horizon)
  }

  lemma AgreementAgesWell(buckets: map<string, seq<real>>, log: seq<Call>,
                          clock: real, horizon: real, clock': real, horizon': real)
    requires AllAgree(buckets, log, clock, horizon) && clock <= clock' && horizon <= horizon'
    ensures AllAgree(buckets, log, clock', horizon')
  {
    forall t ensures Agrees(Bucket(buckets, t), log, t, clock', horizon') {
      assert Agrees(Bucket(buckets, t), log, t, clock, horizon);
    }
  }

  /** `after` is `before` with one entry per mention of t appended. */
  ghost predicate Stamped(before: map<string, seq<real>>, after: map<string, seq<real>>,
                          t: string, now: real, mentions: multiset<string>) {
    Bucket(after, t) == Bucket(before, t) + Stamps(now, mentions[t])
  }

  lemma StampOne(before: map<string, seq<real>>, after: map<string, seq<real>>,
                 t: string, now: real, mentions: multiset<string>)
    requires forall u :: Stamped(before, after, u, now, mentions)
    ensures var after' := after[t := Bucket(after, t) + [now]];
            forall u :: Stamped(before, after', u, now, mentions + multiset{t})
  {
    var after' := after[t := Bucket(after, t) + [now]];
    var mentions' := mentions + multiset{t};
    forall u ensures Stamped(before, after', u, now, mentions') {
      assert Stamped(before, after, u, now, mentions);
      if u == t {
        assert Stamps(now, mentions'[t]) == Stamps(now, mentions[t]) + [now];
      }
    }
  }

  class BurstSuppressor {
    const window: int
    const threshold: int
    var buckets: map<string, seq<real>>
    /** Every attempt so far, and the clock reading of the latest. */
    ghost var calls: seq<Call>
    ghost var clock: real

    ghost predicate Valid()
      reads this
    {
      && Ordered(calls)
      && (forall i :: 0 <= i < |calls| ==> calls[i].now <= clock)
      && AllAgree(buckets, AcceptedLog(calls, window, threshold), clock, clock - window as real)
    }

    constructor (windowSeconds: int, threshold: int, ghost start: real)
      ensures Valid() && calls == [] && clock == start
      ensures window == windowSeconds && this.threshold == threshold
    {
      window := windowSeconds;
      this.threshold := threshold;
      buckets := map[];
      calls := [];
      clock := start;
    }

    /** The clock reading is a parameter; monotonic time never goes back. */
    method ShouldSend(tickers: seq<string>, now: real) returns (send: bool)
      requires Valid() && clock <= now
      modifies this
      ensures Valid() && clock == now
      ensures calls == old(calls) + [Call(now, tickers)]
      ensures send == Accepts(AcceptedLog(old(calls), window, threshold), Call(now, tickers), window, threshold)
    {
      send := Decide(tickers, now);
      Attempted(Call(now, tickers));
    }

    method Decide(tickers: seq<string>, now: real) returns (send: bool)
      requires Valid() && clock <= now
      modifies this`buckets
      ensures AllAgree(buckets, AcceptedLog(calls + [Call(now, tickers)], window, threshold), now, now - window as real)
      ensures send == Accepts(AcceptedLog(calls, window, threshold), Call(now, tickers), window, threshold)
    {
      ghost var log, c := AcceptedLog(calls, window, threshold), Call(now, tickers);
      var cutoff := now - window as real;
      AgreementAgesWell(buckets, log, clock, clock - window as real, now, cutoff);
      send := ExpireAll(tickers, log, now, cutoff);
      AcceptsIff(log, c, window, threshold, cutoff);
      OneMoreCall(calls, c, window, threshold);
      if send {
        Record(tickers, log, now, cutoff);
      }
    }

    /** The history gains an attempt the buckets already reflect. */
    ghost method Attempted(c: Call)
      requires Ordered(calls) && (forall i :: 0 <= i < |calls| ==> calls[i].now <= clock) && clock <= c.now
      requires AllAgree(buckets, AcceptedLog(calls + [c], window, threshold), c.now, c.now - window as real)
      modifies this`calls, this`clock
      ensures Valid() && clock == c.now && calls == old(calls) + [c]
    {
      calls := calls + [c];
      clock := c.now;
    }

    /** First pass: expire every listed bucket, and vote. */
    method ExpireAll(tickers: seq<string>, ghost log: seq<Call>, ghost now: real, cutoff: real) returns (send: bool)
      requires AllAgree(buckets, log, now, cutoff)
      modifies this`buckets
      ensures AllAgree(buckets, log, now, cutoff)
      ensures send == forall t :: t in tickers ==> Logged(log, t, cutoff) < threshold
    {
      send := true;
      for i := 0 to |tickers|
        invariant AllAgree(buckets, log, now, cutoff)
        invariant send == forall j :: 0 <= j < i ==> Logged(log, tickers[j], cutoff) < threshold
      {
        var size := Expire(tickers[i], log, now, cutoff);
        if size >= threshold {
          send := false;
        }
      }
    }

    /** Pops the entries of t that lie before the cutoff; what is left counts
        the log's entries from the cutoff on. */
    method Expire(t: string, ghost log: seq<Call>, ghost now: real, cutoff: real) returns (size: nat)
      requires AllAgree(buckets, log, now, cutoff)
      modifies this`buckets
      ensures AllAgree(buckets, log, now, cutoff)
      ensures size == Logged(log, t, cutoff)
    {
      assert Agrees(Bucket(buckets, t), log, t, now, cutoff);
      if t !in buckets {
        buckets := buckets[t := []];
      }
      while buckets[t] != [] && buckets[t][0] < cutoff
        invariant t in buckets && Agrees(buckets[t], log, t, now, cutoff)
        invariant forall u :: u != t ==> Bucket(buckets, u) == Bucket(old(buckets), u)
        decreases |buckets[t]|
      {
        PopKeepsAgreement(buckets[t], log, t, now, cutoff);
        buckets := buckets[t := buckets[t][1..]];
      }
      size := |buckets[t]|;
      AllCurrent(buckets[t], cutoff);
      forall u ensures Agrees(Bucket(buckets, u), log, u, now, cutoff) {
        assert u != t ==> Agrees(Bucket(old(buckets), u), log, u, now, cutoff);
      }
    }

    /** Stamps an accepted call into the bucket of every ticker it names. */
    method Record(tickers: seq<string>, ghost log: seq<Call>, now: real, ghost cutoff: real)
      requires AllAgree(buckets, log, now, cutoff)
      modifies this`buckets
      ensures AllAgree(buckets, log + [Call(now, tickers)], now, cutoff)
    {
      for i := 0 to |tickers|
        invariant forall t :: Stamped(old(buckets), buckets, t, now, multiset(tickers[..i]))
      {
        var t := tickers[i];
        assert tickers[..i + 1] == tickers[..i] + [t];
        StampOne(old(buckets), buckets, t, now, multiset(tickers[..i]));
        ghost var mentions := multiset(tickers[..i + 1]);
        assert mentions == multiset(tickers[..i]) + multiset{t};
        buckets := buckets[t := Bucket(buckets, t) + [now]];
        assert forall u :: Stamped(old(buckets), buckets, u, now, mentions);
      }
      assert tickers[..|tickers|] == tickers;
      forall t ensures Agrees(Bucket(buckets, t), log + [Call(now, tickers)], t, now, cutoff) {
        assert Stamped(old(buckets), buckets, t, now, multiset(tickers));
        assert Agrees(Bucket(old(buckets), t), log, t, now, cutoff);
        AppendKeepsAgreement(Bucket(old(buckets), t), log, t, Call(now, tickers), cutoff);
      }
    }
  }
}
