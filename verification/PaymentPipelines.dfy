/** The Kafka demo's producer, ingester and row check: kafka/runner/main.ts. */
module PaymentPipelines {
  import opened Options
  import opened Contract
  import opened Payments

  const BASE_PRODUCE_EVENTS_PER_TICK: nat := 5

  class PaymentPipeline {
    var producerRateMultiplier: nat
    var sequence: nat
    var producedCount: nat
    var eventsThisTick: nat      // of the producer tick that is running, with eventsSent of them sent
    var eventsSent: nat
    var ingestBuffer: seq<Payment>
    var inFlight: seq<Payment>   // the batch whose query the ingester tick waits for
    var table: map<string, Payment>
    ghost var topic: seq<Payment>
    ghost var delivered: set<Payment>

    // Nothing delivered is lost between the topic and the table, and nothing else gets there.
    ghost predicate Valid()
      reads this
    {
      && Produced(topic) && sequence == |topic|
      && sequence == producedCount + eventsSent && eventsSent <= eventsThisTick
      && HoldsOnly(table, topic)
      && (forall p :: p in ingestBuffer || p in inFlight ==> p in delivered)
      && (forall p :: p in delivered ==> p in topic && (Has(table, p) || p in ingestBuffer || p in inFlight))
      && (forall p :: p in topic && Has(table, p) ==> p in delivered)
    }

    constructor ()
      ensures Valid() && topic == [] && table == map[] && delivered == {}
    {
      producerRateMultiplier, sequence, producedCount, eventsThisTick, eventsSent := 1, 0, 0, 0, 0;
      ingestBuffer, inFlight, table := [], [], map[];
      topic, delivered := [], {};
    }

    // 10 during a burst, 1 after it, 0 at the wrap-up.
    method SetRate(multiplier: nat)
      requires Valid()
      modifies this`producerRateMultiplier
      ensures Valid() && producerRateMultiplier == multiplier
    {
      producerRateMultiplier := multiplier;
    }

    method BeginProducerTick()
      requires Valid() && eventsSent == eventsThisTick == 0
      modifies this`eventsThisTick
      ensures Valid() && eventsThisTick == 5 * producerRateMultiplier
    {
      eventsThisTick := BASE_PRODUCE_EVENTS_PER_TICK * producerRateMultiplier;
    }

    method SendNext(now: real)
      requires Valid() && eventsSent < eventsThisTick
      modifies this`sequence, this`eventsSent, this`topic
      ensures Valid() && topic == old(topic) + [CreatePayment(old(sequence) + 1, now)]
      ensures eventsSent == old(eventsSent) + 1
    {
      sequence := sequence + 1;
      var event := CreatePayment(sequence, now);
      topic := topic + [event];
      eventsSent := eventsSent + 1;
      NextIdIsNew(old(topic), table, now);
    }

    method EndProducerTick()
      requires Valid() && eventsSent == eventsThisTick
      modifies this`producedCount, this`eventsThisTick, this`eventsSent
      ensures Valid() && eventsSent == eventsThisTick == 0 && producedCount == sequence
    {
      producedCount := producedCount + eventsThisTick;
      eventsThisTick, eventsSent := 0, 0;
    }

    // The broker hands over anything that was produced, as often as it likes; null values are skipped.
    method OnIngesterMessage(value: Option<Payment>)
      requires Valid() && (value.Some? ==> value.value in topic)
      modifies this`ingestBuffer, this`delivered
      ensures Valid()
      ensures value.Some? ==> ingestBuffer == old(ingestBuffer) + [value.value]
      ensures value.Some? ==> delivered == old(delivered) + {value.value}
      ensures value == None ==> ingestBuffer == old(ingestBuffer) && delivered == old(delivered)
    {
      if value == None { return; }
      ingestBuffer := ingestBuffer + [value.value];
      delivered := delivered + {value.value};
    }

    method BeginIngesterTick()
      requires Valid() && inFlight == []
      modifies this`ingestBuffer, this`inFlight
      ensures Valid() && inFlight == old(ingestBuffer) && ingestBuffer == []
    {
      inFlight := ingestBuffer;
      ingestBuffer := [];
    }

    method EndIngesterTick()
      requires Valid()
      modifies this`table, this`inFlight
      ensures Valid() && inFlight == [] && table == Upsert(old(table), old(inFlight))
      ensures old(table).Keys <= table.Keys && old(|table|) <= |table|
    {
      UpsertAddsDelivered(topic, table, inFlight);
      UpsertKeepsRows(table, inFlight);
      table := Upsert(table, inFlight);
      inFlight := [];
    }

    // The produced-equals-tidb-rows check, on a count of rows that was asked for before and may have
    // been overtaken by an upsert. It passes exactly when the rows missing from the count are as
    // many as the running producer tick has sent; so at a tick boundary it passes only if the table
    // holds every produced payment, and never early by counting a redelivery twice.
    method RunRowCountCheck(tidbRowCount: nat) returns (status: CheckStatus)
      requires Valid() && tidbRowCount <= |table|
      ensures status == Pass || status == Pending
      ensures status == Pass <==> |topic| - tidbRowCount == eventsSent
      ensures eventsSent == 0 && status == Pass ==> forall p :: p in topic ==> Has(table, p)
      ensures eventsSent == 0 && tidbRowCount == |table| ==>
                (status == Pass <==> forall p :: p in topic ==> Has(table, p))
      ensures eventsSent == 0 && tidbRowCount == |table| && ingestBuffer == inFlight == [] ==>
                (status == Pass <==> forall p :: p in topic ==> p in delivered)
    {
      RowCountDecides(topic, table);
      status := if producedCount == tidbRowCount then Pass else Pending;
    }
  }
}
