/** Payments and their upsert: kafka/runner/src/paymentEvent.ts and upsertSql.ts. */
module Payments {
  import opened Decimals

  datatype Payment = Payment(paymentId: string, accountId: string, amountCents: nat, currency: string, produceTs: real)

  function PadSequence(sequence: nat): string {
    PadZeros(Decimal(sequence), 6)
  }

  function CreatePayment(sequence: nat, now: real): Payment {
    Payment("payment-" + PadSequence(sequence), "acct-" + Decimal(sequence * 31 % 500),
            sequence * 7919 % 250000 + 100, "USD", now)
  }

  // Padding never makes two sequence numbers alike, also past six digits.
  lemma PaymentIdsAreDistinct(a: nat, b: nat, now: real, later: real)
    ensures CreatePayment(a, now).paymentId == CreatePayment(b, later).paymentId <==> a == b
  {
    var prefix, x, y := "payment-", PadSequence(a), PadSequence(b);
    if prefix + x == prefix + y {
      assert x == (prefix + x)[|prefix|..] && y == (prefix + y)[|prefix|..];
      PaddingKeepsValue(Decimal(a), 6);
      PaddingKeepsValue(Decimal(b), 6);
      DecimalRoundTrip(a);
      DecimalRoundTrip(b);
    }
  }

  // An id is "payment-" and the sequence number, filled up with zeros to six digits.
  lemma PaymentIdIs(sequence: nat, now: real)
    ensures var id := CreatePayment(sequence, now).paymentId;
            && |id| >= 8 + 6 && id[..8] == "payment-"
            && AllDigits(id[8..]) && Value(id[8..]) == sequence
            && (|id| > 8 + 6 ==> id[8..] == Decimal(sequence))
  {
    var id := CreatePayment(sequence, now).paymentId;
    assert id[8..] == PadSequence(sequence) && id[..8] == "payment-";
    PaddingKeepsValue(Decimal(sequence), 6);
    DecimalRoundTrip(sequence);
  }

  // Five hundred payments in a row go to five hundred accounts, and again to each in the same turn.
  lemma AccountsTakeTurns(a: nat, b: nat, now: real, later: real)
    ensures CreatePayment(a, now).accountId == CreatePayment(b, later).accountId <==> a % 500 == b % 500
  {
    var x, y := Decimal(a * 31 % 500), Decimal(b * 31 % 500);
    if "acct-" + x == "acct-" + y {
      assert x == ("acct-" + x)[5..] && y == ("acct-" + y)[5..];
      DecimalRoundTrip(a * 31 % 500);
      DecimalRoundTrip(b * 31 % 500);
    }
    TurnsOf31(a);
    TurnsOf31(b);
  }

  // 31 * 371 is 1 more than a multiple of 500.
  lemma TurnsOf31(a: nat)
    ensures a * 31 % 500 == (a % 500) * 31 % 500
    ensures (a * 31 % 500) * 371 % 500 == a % 500
  {
    var q, r := a / 500, a % 500;
    assert a * 31 == 500 * (q * 31) + r * 31;
    ModAddsMultiples(r * 31, q * 31);
    var k := r * 31 / 500;
    assert r * 31 % 500 == r * 31 - 500 * k;
    assert (r * 31 - 500 * k) * 371 == r + 500 * (23 * r) - 500 * (371 * k) + r * 0;
    assert (r * 31 % 500) * 371 == r + 500 * (23 * r - 371 * k);
    ModAddsMultiples(r, 23 * r - 371 * k);
  }

  lemma ModAddsMultiples(r: int, k: int)
    ensures (500 * k + r) % 500 == r % 500
  {
  }

  lemma AmountIsBounded(sequence: nat, now: real)
    ensures 100 <= CreatePayment(sequence, now).amountCents < 250100 && CreatePayment(sequence, now).currency == "USD"
    ensures CreatePayment(sequence, now).produceTs == now
  {
  }

  // The first payment, in full.
  lemma FirstPayment(now: real)
    ensures CreatePayment(1, now) == Payment("payment-000001", "acct-31", 8019, "USD", now)
  {
    assert Decimal(1) == "1";
    assert "0" + "00001" == "000001" && PadZeros("00001", 6) == "000001";
    assert "0" + "0001" == "00001" && PadZeros("0001", 6) == "000001";
    assert "0" + "001" == "0001" && PadZeros("001", 6) == "000001";
    assert "0" + "01" == "001" && PadZeros("01", 6) == "000001";
    assert "0" + "1" == "01" && PadZeros("1", 6) == "000001";
    assert Decimal(31) == Decimal(3) + "1" == "31";
  }

  // INSERT ... VALUES (...), (...) ON DUPLICATE KEY UPDATE every other column, row by row.
  function Upsert(table: map<string, Payment>, batch: seq<Payment>): map<string, Payment> {
    if batch == [] then table
    else Upsert(table, batch[..|batch| - 1])[batch[|batch| - 1].paymentId := batch[|batch| - 1]]
  }

  // How the deliveries are cut into batches does not matter.
  lemma {:induction false} UpsertConcat(table: map<string, Payment>, a: seq<Payment>, b: seq<Payment>)
    ensures Upsert(table, a + b) == Upsert(Upsert(table, a), b)
  {
    if b == [] {
      assert a + b == a;
    } else {
      UpsertConcat(table, a, b[..|b| - 1]);
      assert (a + b)[..|a + b| - 1] == a + b[..|b| - 1];
    }
  }

  // The topic after the producer's first |topic| sends.
  ghost predicate Produced(topic: seq<Payment>) {
    forall k :: 0 <= k < |topic| ==> topic[k] == CreatePayment(k + 1, topic[k].produceTs)
  }

  lemma SameIdSamePayment(topic: seq<Payment>, p: Payment, q: Payment)
    requires Produced(topic) && p in topic && q in topic && p.paymentId == q.paymentId
    ensures p == q
  {
    var i :| 0 <= i < |topic| && topic[i] == p;
    var j :| 0 <= j < |topic| && topic[j] == q;
    PaymentIdsAreDistinct(i + 1, j + 1, p.produceTs, q.produceTs);
  }

  // Every row is a produced payment, under its own key.
  ghost predicate HoldsOnly(table: map<string, Payment>, topic: seq<Payment>) {
    forall id :: id in table ==> table[id] in topic && table[id].paymentId == id
  }

  ghost predicate Has(table: map<string, Payment>, p: Payment) {
    p.paymentId in table && table[p.paymentId] == p
  }

  // Upserting deliveries, in any order and number of repeats, adds exactly the delivered payments.
  lemma {:induction false} UpsertAddsDelivered(topic: seq<Payment>, table: map<string, Payment>, batch: seq<Payment>)
    requires Produced(topic) && HoldsOnly(table, topic) && forall p :: p in batch ==> p in topic
    ensures HoldsOnly(Upsert(table, batch), topic)
    ensures forall p :: p in topic ==> (Has(Upsert(table, batch), p) <==> Has(table, p) || p in batch)
  {
    if batch != [] {
      var front, last := batch[..|batch| - 1], batch[|batch| - 1];
      assert batch == front + [last];
      UpsertAddsDelivered(topic, table, front);
      forall p | p in topic ensures Has(Upsert(table, batch), p) <==> Has(table, p) || p in batch {
        if p.paymentId == last.paymentId {
          SameIdSamePayment(topic, p, last);
        }
      }
    }
  }

  // No row is ever lost.
  lemma {:induction false} UpsertKeepsRows(table: map<string, Payment>, batch: seq<Payment>)
    ensures table.Keys <= Upsert(table, batch).Keys && |table| <= |Upsert(table, batch)|
  {
    if batch != [] {
      UpsertKeepsRows(table, batch[..|batch| - 1]);
    }
    SubsetOfSameSize(table.Keys, Upsert(table, batch).Keys);
    assert |table| == |table.Keys| && |Upsert(table, batch)| == |Upsert(table, batch).Keys|;
  }

  function Ids(topic: seq<Payment>): set<string> {
    if topic == [] then {} else Ids(topic[..|topic| - 1]) + {topic[|topic| - 1].paymentId}
  }

  lemma {:induction false} IdsMembers(topic: seq<Payment>, id: string)
    ensures id in Ids(topic) <==> exists k :: 0 <= k < |topic| && topic[k].paymentId == id
  {
    if topic != [] {
      var front := topic[..|topic| - 1];
      IdsMembers(front, id);
      if k :| 0 <= k < |topic| && topic[k].paymentId == id {
        assert k < |front| ==> front[k].paymentId == id;
      }
      if k :| 0 <= k < |front| && front[k].paymentId == id {
        assert topic[k].paymentId == id;
      }
    }
  }

  lemma {:induction false} OneIdEach(topic: seq<Payment>)
    requires Produced(topic)
    ensures |Ids(topic)| == |topic|
  {
    if topic != [] {
      var front, last := topic[..|topic| - 1], topic[|topic| - 1];
      OneIdEach(front);
      IdsMembers(front, last.paymentId);
      if k :| 0 <= k < |front| && front[k].paymentId == last.paymentId {
        PaymentIdsAreDistinct(k + 1, |topic|, topic[k].produceTs, last.produceTs);
      }
    }
  }

  lemma NextIdIsNew(topic: seq<Payment>, table: map<string, Payment>, now: real)
    requires Produced(topic) && HoldsOnly(table, topic)
    ensures CreatePayment(|topic| + 1, now).paymentId !in table
  {
    var id := CreatePayment(|topic| + 1, now).paymentId;
    if id in table {
      var k :| 0 <= k < |topic| && topic[k] == table[id];
      PaymentIdsAreDistinct(k + 1, |topic| + 1, table[id].produceTs, now);
    }
  }

  lemma {:induction false} SubsetOfSameSize<T>(a: set<T>, b: set<T>)
    requires a <= b
    ensures |a| <= |b|
    ensures |a| == |b| <==> a == b
  {
    if a != {} {
      var x :| x in a;
      SubsetOfSameSize(a - {x}, b - {x});
      assert a == (a - {x}) + {x} && b == (b - {x}) + {x};
    }
  }

  // Counting rows is enough: the table has as many rows as payments were produced exactly when it
  // holds each of them.
  lemma RowCountDecides(topic: seq<Payment>, table: map<string, Payment>)
    requires Produced(topic) && HoldsOnly(table, topic)
    ensures |table| <= |topic|
    ensures |table| == |topic| <==> forall p :: p in topic ==> Has(table, p)
  {
    OneIdEach(topic);
    assert |table| == |table.Keys|;
    forall id | id in table.Keys ensures id in Ids(topic) {
      var k :| 0 <= k < |topic| && topic[k] == table[id];
      IdsMembers(topic, id);
    }
    SubsetOfSameSize(table.Keys, Ids(topic));
    if table.Keys == Ids(topic) {
      forall p | p in topic ensures Has(table, p) {
        var k :| 0 <= k < |topic| && topic[k] == p;
        IdsMembers(topic, p.paymentId);
        SameIdSamePayment(topic, p, table[p.paymentId]);
      }
    }
    if forall p :: p in topic ==> Has(table, p) {
      forall id | id in Ids(topic) ensures id in table.Keys {
        IdsMembers(topic, id);
        var k :| 0 <= k < |topic| && topic[k].paymentId == id;
        assert topic[k] in topic;
      }
    }
  }

  // The table after a series of ingester ticks, each with its batch.
  function UpsertAll(table: map<string, Payment>, batches: seq<seq<Payment>>): map<string, Payment> {
    if batches == [] then table
    else Upsert(UpsertAll(table, batches[..|batches| - 1]), batches[|batches| - 1])
  }

  function Joined(batches: seq<seq<Payment>>): seq<Payment> {
    if batches == [] then [] else Joined(batches[..|batches| - 1]) + batches[|batches| - 1]
  }

  lemma {:induction false} CutsDoNotMatter(table: map<string, Payment>, batches: seq<seq<Payment>>)
    ensures UpsertAll(table, batches) == Upsert(table, Joined(batches))
  {
    if batches != [] {
      CutsDoNotMatter(table, batches[..|batches| - 1]);
      UpsertConcat(table, Joined(batches[..|batches| - 1]), batches[|batches| - 1]);
    }
  }

  // At-least-once delivery fills an empty table exactly: any deliveries that cover each produced
  // payment, however repeated, ordered or cut into batches.
  lemma CoveringDeliveriesFillTheTable(topic: seq<Payment>, batches: seq<seq<Payment>>)
    requires Produced(topic) && forall p :: p in Joined(batches) <==> p in topic
    ensures var table := UpsertAll(map[], batches);
            && HoldsOnly(table, topic) && (forall p :: p in topic ==> Has(table, p)) && |table| == |topic|
  {
    CutsDoNotMatter(map[], batches);
    UpsertAddsDelivered(topic, map[], Joined(batches));
    RowCountDecides(topic, UpsertAll(map[], batches));
  }
}
