/** The fixed-window rate limiter over an atomic counter per scope and window. */
module RateLimit {
  import opened Options

  /** Times and windows in whole microseconds. */
  datatype Rule = Rule(limit: int, window: int)
  {
    predicate Valid() { limit > 0 && 1_000_000 <= window <= 86_400_000_000 }
  }

  /** A call of a workspace, principal and tool, which `scope` stands for. */
  datatype Call = Call(scope: string, now: int)

  datatype Key = Key(scope: string, bucketStart: int)

  datatype Decision = Allowed | Refused(retryAfter: int)

  function WindowStart(now: int, window: int): int
    requires window > 0
  {
    now / window * window
  }

  /** Every moment lies in the window that starts at or before it. */
  lemma {:induction false} WindowHolds(now: int, window: int)
    requires window > 0
    ensures WindowStart(now, window) <= now < WindowStart(now, window) + window
  {
  }

  /** The counting table: one row a key, raised only while below the limit. */
  class RateLimitTable {
    var counts: map<Key, int>

    constructor ()
      ensures counts == map[]
    {
      counts := map[];
    }

    method Increment(key: Key, limit: int) returns (count: Option<int>)
      modifies this
      ensures var before := if key in old(counts) then old(counts)[key] else 0;
        if key !in old(counts) || before < limit
        then counts == old(counts)[key := before + 1] && count == Some(before + 1)
        else counts == old(counts) && count == None
    {
      if key !in counts {
        counts := counts[key := 1];
        return Some(1);
      }
      if counts[key] < limit {
        counts := counts[key := counts[key] + 1];
        return Some(counts[key]);
      }
      return None;
    }
  }

  // ---- Runs of calls under one rule ----

  function KeyOf(c: Call, rule: Rule): Key
    requires rule.Valid()
  {
    Key(c.scope, WindowStart(c.now, rule.window))
  }

  /** Calls so far under the key. */
  function Calls(calls: seq<Call>, rule: Rule, key: Key): nat
    requires rule.Valid()
  {
    if calls == [] then 0
    else
      var k := |calls| - 1;
      Calls(calls[..k], rule, key) + if KeyOf(calls[k], rule) == key then 1 else 0
  }

  /** The i-th call finds fewer than `limit` earlier calls in its window. */
  predicate Admitted(calls: seq<Call>, rule: Rule, i: nat)
    requires rule.Valid() && i < |calls|
  {
    Calls(calls[..i], rule, KeyOf(calls[i], rule)) < rule.limit
  }

  ghost predicate Counts(table: map<Key, int>, calls: seq<Call>, rule: Rule)
    requires rule.Valid()
  {
    && (forall key :: key in table <==> Calls(calls, rule, key) > 0)
    && (forall key | key in table ::
          table[key] == if Calls(calls, rule, key) < rule.limit then Calls(calls, rule, key) else rule.limit)
  }

  method Check(table: RateLimitTable, call: Call, rule: Rule, ghost earlier: seq<Call>) returns (d: Decision)
    requires rule.Valid() && Counts(table.counts, earlier, rule)
    modifies table
    ensures Counts(table.counts, earlier + [call], rule)
    ensures d.Allowed? <==> Calls(earlier, rule, KeyOf(call, rule)) < rule.limit
    ensures d.Refused? ==> 0 < d.retryAfter <= rule.window && call.now + d.retryAfter == KeyOf(call, rule).bucketStart + rule.window
  {
    var key := KeyOf(call, rule);
    WindowHolds(call.now, rule.window);
    assert (earlier + [call])[..|earlier|] == earlier;
    assert forall k :: Calls(earlier + [call], rule, k) == Calls(earlier, rule, k) + if k == key then 1 else 0;
    var count := table.Increment(key, rule.limit);
    if count.None? {
      return Refused(key.bucketStart + rule.window - call.now);
    }
    d := Allowed;
  }

  /** Decisions over any sequence of calls, whatever the clock does between them. */
  method CheckAll(calls: seq<Call>, rule: Rule) returns (decisions: seq<Decision>)
    requires rule.Valid()
    ensures |decisions| == |calls|
    ensures forall i | 0 <= i < |calls| :: decisions[i].Allowed? <==> Admitted(calls, rule, i)
    ensures forall i | 0 <= i < |calls| && decisions[i].Refused? :: 0 < decisions[i].retryAfter <= rule.window
  {
    var table := new RateLimitTable();
    decisions := [];
    for k := 0 to |calls|
      invariant fresh(table) && |decisions| == k && Counts(table.counts, calls[..k], rule)
      invariant forall i | 0 <= i < k :: decisions[i].Allowed? <==> Admitted(calls, rule, i)
      invariant forall i | 0 <= i < k && decisions[i].Refused? :: 0 < decisions[i].retryAfter <= rule.window
    {
      assert calls[..k] + [calls[k]] == calls[..k + 1];
      var d := Check(table, calls[k], rule, calls[..k]);
      decisions := decisions + [d];
    }
  }

  // ---- How many calls any stretch of time admits ----

  /** Admitted calls of the scope at or after `from` and less than a window later. */
  function AdmittedWithin(calls: seq<Call>, rule: Rule, scope: string, from: int): nat
    requires rule.Valid()
  {
    if calls == [] then 0
    else
      var k := |calls| - 1;
      AdmittedWithin(calls[..k], rule, scope, from)
      + if Admitted(calls, rule, k) && calls[k].scope == scope && from <= calls[k].now < from + rule.window then 1 else 0
  }

  /** Admitted calls under the key. */
  function AdmittedUnder(calls: seq<Call>, rule: Rule, key: Key): nat
    requires rule.Valid()
  {
    if calls == [] then 0
    else
      var k := |calls| - 1;
      AdmittedUnder(calls[..k], rule, key) + if Admitted(calls, rule, k) && KeyOf(calls[k], rule) == key then 1 else 0
  }

  lemma {:induction false} UnderIsCapped(calls: seq<Call>, rule: Rule, key: Key)
    requires rule.Valid()
    ensures AdmittedUnder(calls, rule, key)
         == if Calls(calls, rule, key) < rule.limit then Calls(calls, rule, key) else rule.limit
  {
    if calls != [] {
      UnderIsCapped(calls[..|calls| - 1], rule, key);
    }
  }

  lemma {:induction false} NextMultiple(a: int, window: int)
    ensures (a + 1) * window == a * window + window
  {
  }

  lemma {:induction false} Multiples(a: int, b: int, window: int)
    requires a < b && window > 0
    ensures a * window + window <= b * window
    decreases b - a
  {
    NextMultiple(b - 1, window);
    if a < b - 1 {
      Multiples(a, b - 1, window);
    }
  }

  /** A stretch of one window touches the window it begins in and the next. */
  lemma {:induction false} TwoWindows(now: int, from: int, window: int)
    requires window > 0 && from <= now < from + window
    ensures WindowStart(now, window) == WindowStart(from, window)
         || WindowStart(now, window) == WindowStart(from, window) + window
  {
    var a, b := from / window, now / window;
    WindowHolds(from, window);
    WindowHolds(now, window);
    NextMultiple(a, window);
    if b < a {
      Multiples(b, a, window);
      assert false;
    }
    if b > a + 1 {
      Multiples(a + 1, b, window);
      assert false;
    }
  }

  lemma {:induction false} WithinTwoKeys(calls: seq<Call>, rule: Rule, scope: string, from: int)
    requires rule.Valid()
    ensures var start := WindowStart(from, rule.window);
      AdmittedWithin(calls, rule, scope, from)
        <= AdmittedUnder(calls, rule, Key(scope, start)) + AdmittedUnder(calls, rule, Key(scope, start + rule.window))
  {
    if calls != [] {
      var k := |calls| - 1;
      WithinTwoKeys(calls[..k], rule, scope, from);
      if calls[k].scope == scope && from <= calls[k].now < from + rule.window {
        TwoWindows(calls[k].now, from, rule.window);
      }
    }
  }

  /** No stretch of one window's length admits more than twice the limit. */
  lemma {:induction false} AtMostTwice(calls: seq<Call>, rule: Rule, scope: string, from: int)
    requires rule.Valid()
    ensures AdmittedWithin(calls, rule, scope, from) <= 2 * rule.limit
  {
    var start := WindowStart(from, rule.window);
    WithinTwoKeys(calls, rule, scope, from);
    UnderIsCapped(calls, rule, Key(scope, start));
    UnderIsCapped(calls, rule, Key(scope, start + rule.window));
  }

  // ---- When the bound is reached ----

  /** n calls at one moment. */
  function Burst(scope: string, now: int, n: nat): seq<Call> {
    seq(n, _ => Call(scope, now))
  }

  lemma {:induction false} BurstCalls(before: seq<Call>, scope: string, now: int, n: nat, rule: Rule, key: Key)
    requires rule.Valid()
    ensures Calls(before + Burst(scope, now, n), rule, key)
         == Calls(before, rule, key) + if KeyOf(Call(scope, now), rule) == key then n else 0
  {
    if n == 0 {
      assert before + Burst(scope, now, 0) == before;
    } else {
      var all := before + Burst(scope, now, n);
      assert all[..|all| - 1] == before + Burst(scope, now, n - 1);
      BurstCalls(before, scope, now, n - 1, rule, key);
    }
  }

  lemma {:induction false} BurstAdmitted(before: seq<Call>, scope: string, now: int, n: nat, rule: Rule, from: int)
    requires rule.Valid() && from <= now < from + rule.window
    requires Calls(before, rule, KeyOf(Call(scope, now), rule)) == 0 && n <= rule.limit
    ensures AdmittedWithin(before + Burst(scope, now, n), rule, scope, from) == AdmittedWithin(before, rule, scope, from) + n
  {
    if n == 0 {
      assert before + Burst(scope, now, 0) == before;
    } else {
      var all := before + Burst(scope, now, n);
      var k := |all| - 1;
      assert all[..k] == before + Burst(scope, now, n - 1) && all[k] == Call(scope, now);
      BurstAdmitted(before, scope, now, n - 1, rule, from);
      BurstCalls(before, scope, now, n - 1, rule, KeyOf(Call(scope, now), rule));
    }
  }

  /** Two bursts in different windows are both admitted whole. */
  lemma {:induction false} TwoBursts(rule: Rule, scope: string, a: int, b: int, from: int)
    requires rule.Valid() && from <= a < from + rule.window && from <= b < from + rule.window
    requires KeyOf(Call(scope, a), rule) != KeyOf(Call(scope, b), rule)
    ensures AdmittedWithin(Burst(scope, a, rule.limit) + Burst(scope, b, rule.limit), rule, scope, from) == 2 * rule.limit
  {
    var n := rule.limit;
    assert [] + Burst(scope, a, n) == Burst(scope, a, n);
    BurstAdmitted([], scope, a, n, rule, from);
    BurstCalls([], scope, a, n, rule, KeyOf(Call(scope, b), rule));
    BurstAdmitted(Burst(scope, a, n), scope, b, n, rule, from);
  }

  /** A stretch that begins where a window begins touches no other window. */
  lemma {:induction false} WithinOneKey(calls: seq<Call>, rule: Rule, scope: string, from: int)
    requires rule.Valid() && WindowStart(from, rule.window) == from
    ensures AdmittedWithin(calls, rule, scope, from) <= AdmittedUnder(calls, rule, Key(scope, from))
  {
    if calls != [] {
      var k := |calls| - 1;
      WithinOneKey(calls[..k], rule, scope, from);
      if calls[k].scope == scope && from <= calls[k].now < from + rule.window {
        TwoWindows(calls[k].now, from, rule.window);
        WindowHolds(calls[k].now, rule.window);
      }
    }
  }

  /** From any other moment, a burst at once and one when the next window begins are both
      admitted whole. */
  lemma {:induction false} TwiceIsReached(rule: Rule, scope: string, from: int)
    requires rule.Valid() && WindowStart(from, rule.window) != from
    ensures exists calls :: AdmittedWithin(calls, rule, scope, from) == 2 * rule.limit
  {
    var next := WindowStart(from, rule.window) + rule.window;
    WindowHolds(from, rule.window);
    TwoWindows(next, from, rule.window);
    WindowHolds(next, rule.window);
    TwoBursts(rule, scope, from, next, from);
  }

  /** A stretch of one window's length is kept to the limit, whatever the calls, exactly when
      it is a window. */
  lemma {:induction false} LimitHoldsIff(rule: Rule, scope: string, from: int)
    requires rule.Valid()
    ensures (forall calls :: AdmittedWithin(calls, rule, scope, from) <= rule.limit)
       <==> WindowStart(from, rule.window) == from
  {
    if WindowStart(from, rule.window) == from {
      forall calls
        ensures AdmittedWithin(calls, rule, scope, from) <= rule.limit
      {
        WithinOneKey(calls, rule, scope, from);
        UnderIsCapped(calls, rule, Key(scope, from));
      }
    } else {
      TwiceIsReached(rule, scope, from);
    }
  }
}
