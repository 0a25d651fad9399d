/** Counting change events and their repeats: kafka/runner/src/dedupe.ts, and `onRiskConsumerMessage`,
    `runCdcFlowTick` and the distinct-key check of kafka/runner/main.ts. */
module Dedupes {
  import opened Options
  import opened Decimals
  import opened Contract

  function Count(keys: seq<string>, key: string): nat {
    if keys == [] then 0 else Count(keys[..|keys| - 1], key) + (if keys[|keys| - 1] == key then 1 else 0)
  }

  lemma {:induction false} CountIsMembership(keys: seq<string>, key: string)
    ensures Count(keys, key) > 0 <==> key in keys
  {
    if keys != [] {
      CountIsMembership(keys[..|keys| - 1], key);
      assert keys == keys[..|keys| - 1] + [keys[|keys| - 1]];
    }
  }

  class DedupeTracker {
    var seen: map<string, nat>
    ghost var observed: seq<string>

    ghost predicate Valid()
      reads this
    {
      forall key :: (if key in seen then seen[key] else 0) == Count(observed, key)
    }

    constructor ()
      ensures Valid() && observed == []
    {
      seen, observed := map[], [];
    }

    // Reports how often the key was observed before.
    method Observe(key: string) returns (isDuplicate: bool, duplicateCount: nat)
      requires Valid()
      modifies this
      ensures Valid() && observed == old(observed) + [key]
      ensures duplicateCount == Count(old(observed), key)
      ensures isDuplicate <==> key in old(observed)
    {
      CountIsMembership(observed, key);
      var priorCount := if key in seen then seen[key] else 0;
      seen := seen[key := priorCount + 1];
      observed := observed + [key];
      assert observed[..|observed| - 1] == old(observed);
      isDuplicate, duplicateCount := priorCount != 0, priorCount;
    }
  }

  // A row change as the canal-json parser gives it; the commit timestamp may be any integer.
  datatype RowEvent = RowEvent(paymentId: string, commitTs: int)

  function SignedDecimal(n: int): string {
    if n < 0 then "-" + Decimal(-n) else Decimal(n)
  }

  function KeyOf(e: RowEvent): string {
    e.paymentId + ":" + SignedDecimal(e.commitTs)
  }

  lemma SignedDecimalIsInjective(a: int, b: int)
    requires SignedDecimal(a) == SignedDecimal(b)
    ensures a == b
  {
    if a < 0 {
      assert SignedDecimal(a)[0] == '-' && SignedDecimal(a)[1..] == Decimal(-a);
    }
    if b < 0 {
      assert SignedDecimal(b)[0] == '-' && SignedDecimal(b)[1..] == Decimal(-b);
    }
    DecimalRoundTrip(if a < 0 then -a else a);
    DecimalRoundTrip(if b < 0 then -b else b);
  }

  lemma NoColonInNumber(n: int, i: nat)
    requires i < |SignedDecimal(n)|
    ensures SignedDecimal(n)[i] != ':'
  {
  }

  // The joined key splits at its last colon, so it names one payment id and one timestamp.
  lemma KeyIsInjective(a: RowEvent, b: RowEvent)
    ensures KeyOf(a) == KeyOf(b) <==> a == b
  {
    if KeyOf(a) == KeyOf(b) {
      var s, x, y := KeyOf(a), SignedDecimal(a.commitTs), SignedDecimal(b.commitTs);
      assert s[|s| - |x| - 1] == ':' && s[|s| - |y| - 1] == ':';
      if |x| < |y| {
        NoColonInNumber(b.commitTs, |y| - |x| - 1);
      } else if |y| < |x| {
        NoColonInNumber(a.commitTs, |x| - |y| - 1);
      }
      assert x == s[|s| - |x|..] == y;
      assert a.paymentId == s[..|s| - |x| - 1] == b.paymentId;
      SignedDecimalIsInjective(a.commitTs, b.commitTs);
    }
  }

  function Keys(events: seq<RowEvent>): set<string> {
    set e | e in events :: KeyOf(e)
  }

  function Pairs(events: seq<RowEvent>): set<RowEvent> {
    set e | e in events
  }

  lemma KeysOfOneMore(events: seq<RowEvent>, e: RowEvent)
    ensures Keys(events + [e]) == Keys(events) + {KeyOf(e)}
  {
  }

  lemma OneMore<T>(s: set<T>, x: T)
    ensures |s + {x}| == if x in s then |s| else |s| + 1
  {
    if x in s {
      assert s + {x} == s;
    }
  }

  lemma KeyIsNewWithItsPair(events: seq<RowEvent>, e: RowEvent)
    ensures KeyOf(e) in Keys(events) <==> e in events
  {
    if KeyOf(e) in Keys(events) {
      var d :| d in events && KeyOf(d) == KeyOf(e);
      KeyIsInjective(d, e);
    }
  }

  lemma PairsOfOneMore(events: seq<RowEvent>, e: RowEvent)
    ensures Pairs(events + [e]) == Pairs(events) + {e}
  {
  }

  // Distinct keys correspond one to one with distinct pairs of payment id and commit timestamp.
  lemma {:induction false} KeysCountPairs(events: seq<RowEvent>)
    ensures |Keys(events)| == |Pairs(events)|
  {
    if events != [] {
      var front, last := events[..|events| - 1], events[|events| - 1];
      KeysCountPairs(front);
      assert events == front + [last];
      KeysOfOneMore(front, last);
      PairsOfOneMore(front, last);
      KeyIsNewWithItsPair(front, last);
      OneMore(Keys(front), KeyOf(last));
      OneMore(Pairs(front), last);
    }
  }

  function PaymentIds(events: seq<RowEvent>): set<string> {
    set e | e in events :: e.paymentId
  }

  ghost predicate EachChangedOnce(events: seq<RowEvent>) {
    forall d, e :: d in events && e in events && d.paymentId == e.paymentId ==> d == e
  }

  lemma PaymentIdsOfOneMore(events: seq<RowEvent>, e: RowEvent)
    ensures PaymentIds(events + [e]) == PaymentIds(events) + {e.paymentId}
  {
  }

  lemma OneMoreChange(events: seq<RowEvent>, e: RowEvent)
    ensures EachChangedOnce(events + [e]) <==>
            EachChangedOnce(events) && (e.paymentId in PaymentIds(events) ==> e in events)
  {
    var all := events + [e];
    assert forall d :: d in all <==> d in events || d == e;
    if EachChangedOnce(all) && e.paymentId in PaymentIds(events) {
      var d :| d in events && d.paymentId == e.paymentId;
      assert d in all && e in all;
    }
    if EachChangedOnce(events) && (e.paymentId in PaymentIds(events) ==> e in events) {
      forall c, d | c in all && d in all && c.paymentId == d.paymentId ensures c == d {
        if c == e && d in events {
          assert d.paymentId in PaymentIds(events);
        } else if d == e && c in events {
          assert c.paymentId in PaymentIds(events);
        }
      }
    }
  }

  // There are at least as many distinct pairs as payments, and exactly as many when none changed twice.
  lemma {:induction false} PairsCountPayments(events: seq<RowEvent>)
    ensures |PaymentIds(events)| <= |Pairs(events)|
    ensures |PaymentIds(events)| == |Pairs(events)| <==> EachChangedOnce(events)
  {
    if events != [] {
      var front, last := events[..|events| - 1], events[|events| - 1];
      PairsCountPayments(front);
      assert events == front + [last];
      PaymentIdsOfOneMore(front, last);
      PairsOfOneMore(front, last);
      OneMore(PaymentIds(front), last.paymentId);
      OneMore(Pairs(front), last);
      OneMoreChange(front, last);
    }
  }

  function KeySeq(events: seq<RowEvent>): seq<string> {
    seq(|events|, i requires 0 <= i < |events| => KeyOf(events[i]))
  }

  lemma KeySeqOfOneMore(events: seq<RowEvent>, e: RowEvent)
    ensures KeySeq(events + [e]) == KeySeq(events) + [KeyOf(e)]
  {
  }

  lemma KeySeqHoldsKeys(events: seq<RowEvent>, key: string)
    ensures key in KeySeq(events) <==> key in Keys(events)
  {
    if e :| e in events && KeyOf(e) == key {
      var i :| 0 <= i < |events| && events[i] == e;
      assert KeySeq(events)[i] == key;
    }
  }

  class RiskConsumer {
    const dedupe: DedupeTracker
    var cdcRowEventsThisTick: nat
    var duplicatesObservedTotal: nat
    var distinctCdcKeys: set<string>
    ghost var events: seq<RowEvent>
    ghost var shown: nat  // events that earlier flow ticks reported

    ghost predicate Tallied()
      reads this, dedupe
    {
      && dedupe.Valid()
      && (forall key :: key in distinctCdcKeys <==> key in dedupe.observed)
      && shown + cdcRowEventsThisTick == |dedupe.observed|
      && duplicatesObservedTotal + |distinctCdcKeys| == |dedupe.observed|
    }

    ghost predicate Valid()
      reads this, dedupe
    {
      Tallied() && dedupe.observed == KeySeq(events)
    }

    constructor ()
      ensures Valid() && events == [] && shown == 0 && fresh(dedupe)
    {
      dedupe := new DedupeTracker();
      cdcRowEventsThisTick, duplicatesObservedTotal, distinctCdcKeys := 0, 0, {};
      events, shown := [], 0;
    }

    method Tally(key: string)
      requires Tallied()
      modifies this`cdcRowEventsThisTick, this`duplicatesObservedTotal, this`distinctCdcKeys, dedupe
      ensures Tallied() && dedupe.observed == old(dedupe.observed) + [key]
      ensures distinctCdcKeys == old(distinctCdcKeys) + {key}
    {
      cdcRowEventsThisTick := cdcRowEventsThisTick + 1;
      OneMore(distinctCdcKeys, key);
      var isDuplicate, _ := dedupe.Observe(key);
      if isDuplicate {
        duplicatesObservedTotal := duplicatesObservedTotal + 1;
      }
      distinctCdcKeys := distinctCdcKeys + {key};
    }

    // Values that do not parse as a row event are skipped.
    method OnMessage(parsed: Option<RowEvent>)
      requires Valid()
      modifies this, dedupe
      ensures Valid() && shown == old(shown)
      ensures events == if parsed.Some? then old(events) + [parsed.value] else old(events)
    {
      if parsed == None { return; }
      KeySeqOfOneMore(events, parsed.value);
      events := events + [parsed.value];
      Tally(KeyOf(parsed.value));
    }

    // Every event is reported in exactly one tick.
    method RunCdcFlowTick() returns (count: nat)
      requires Valid()
      modifies this`cdcRowEventsThisTick, this`shown
      ensures Valid() && shown == old(shown) + count == |events| && cdcRowEventsThisTick == 0
    {
      count := cdcRowEventsThisTick;
      cdcRowEventsThisTick := 0;
      shown := shown + count;
    }

    // The tidb-rows-equals-cdc-distinct check, for a table with these payment ids: once every row's
    // change has come through, it passes exactly if no row was changed twice.
    method RunDistinctCheck(tidbRowCount: nat, ghost rows: set<string>) returns (status: CheckStatus)
      requires Valid() && tidbRowCount == |rows|
      ensures status == Pass || status == Pending
      ensures status == Pass <==> |Pairs(events)| == |rows|
      ensures rows == PaymentIds(events) ==> (status == Pass <==> EachChangedOnce(events))
    {
      Accounts();
      PairsCountPayments(events);
      status := if |distinctCdcKeys| == tidbRowCount then Pass else Pending;
    }

    // Repeats and distinct pairs account for every event observed.
    lemma Accounts()
      requires Valid()
      ensures shown + cdcRowEventsThisTick == |events| && distinctCdcKeys == Keys(events)
      ensures |distinctCdcKeys| == |Pairs(events)|
      ensures duplicatesObservedTotal + |Pairs(events)| == |events|
    {
      forall key ensures key in distinctCdcKeys <==> key in Keys(events) {
        KeySeqHoldsKeys(events, key);
      }
      KeysCountPairs(events);
    }
  }
}
