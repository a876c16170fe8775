/** The per-batch output step: every joined record gets a NULL `feedback`
    column, the augmented batch is appended to the relational store, and then
    the same batch is published to the outbound topic, one message per record. */
module Feedback {
  import opened Records

  /** The joined record with the `feedback` column added as NULL. */
  function WithFeedback(r: JoinedRecord): OutputRecord
  {
    OutputRecord(r.restaurantId, r.advCampaignId, r.advCampaignContent, r.advCampaignOwner,
                 r.advCampaignOwnerContact, r.advCampaignDatetimeStart, r.advCampaignDatetimeEnd,
                 r.datetimeCreated, r.clientId, r.triggerDatetimeCreated, Null)
  }

  /** The output record without its `feedback` column. */
  function Strip(o: OutputRecord): JoinedRecord
  {
    JoinedRecord(o.restaurantId, o.advCampaignId, o.advCampaignContent, o.advCampaignOwner,
                 o.advCampaignOwnerContact, o.advCampaignDatetimeStart, o.advCampaignDatetimeEnd,
                 o.datetimeCreated, o.clientId, o.triggerDatetimeCreated)
  }

  /** The feedback column over a whole batch: same length, same order, every
      other column unchanged, and `feedback` NULL on every record. */
  function AddFeedback(batch: seq<JoinedRecord>): (out: seq<OutputRecord>)
    ensures |out| == |batch|
    ensures forall k :: 0 <= k < |out| ==> out[k].feedback == Null && Strip(out[k]) == batch[k]
  {
    seq(|batch|, k requires 0 <= k < |batch| => WithFeedback(batch[k]))
  }

  /** Adding feedback to two micro-batches is adding it to their concatenation. */
  lemma AddFeedbackAppend(a: seq<JoinedRecord>, b: seq<JoinedRecord>)
    ensures AddFeedback(a + b) == AddFeedback(a) + AddFeedback(b)
  {
  }
}

module Sinks {
  import opened Records
  import opened Feedback

  /** One write to one of the two sinks, in the order it was performed. */
  datatype SinkWrite = StoreAppend(rows: seq<OutputRecord>) | TopicPublish(messages: seq<OutputRecord>)

  /** The write log is a sequence of batches, each appended to the store and
      then, immediately after, published to the topic unchanged. */
  ghost predicate StoreThenPublish(writes: seq<SinkWrite>)
    decreases |writes|
  {
    writes == [] ||
    (|writes| >= 2 && writes[0].StoreAppend? && writes[1] == TopicPublish(writes[0].rows)
     && StoreThenPublish(writes[2..]))
  }

  /** Everything the log appended to the store, in order. */
  ghost function Appended(writes: seq<SinkWrite>): seq<OutputRecord>
  {
    if writes == [] then []
    else (if writes[0].StoreAppend? then writes[0].rows else []) + Appended(writes[1..])
  }

  /** Everything the log published to the topic, in order. */
  ghost function Published(writes: seq<SinkWrite>): seq<OutputRecord>
  {
    if writes == [] then []
    else (if writes[0].TopicPublish? then writes[0].messages else []) + Published(writes[1..])
  }

  lemma {:induction false} AppendedConcat(a: seq<SinkWrite>, b: seq<SinkWrite>)
    ensures Appended(a + b) == Appended(a) + Appended(b)
  {
    if a == [] {
      assert a + b == b;
    } else {
      assert (a + b)[0] == a[0];
      assert (a + b)[1..] == a[1..] + b;
      AppendedConcat(a[1..], b);
    }
  }

  lemma {:induction false} PublishedConcat(a: seq<SinkWrite>, b: seq<SinkWrite>)
    ensures Published(a + b) == Published(a) + Published(b)
  {
    if a == [] {
      assert a + b == b;
    } else {
      assert (a + b)[0] == a[0];
      assert (a + b)[1..] == a[1..] + b;
      PublishedConcat(a[1..], b);
    }
  }

  /** Appending one more store-then-publish pair keeps the log well ordered. */
  lemma {:induction false} StoreThenPublishExtend(writes: seq<SinkWrite>, batch: seq<OutputRecord>)
    requires StoreThenPublish(writes)
    ensures StoreThenPublish(writes + [StoreAppend(batch)] + [TopicPublish(batch)])
  {
    var extended := writes + [StoreAppend(batch)] + [TopicPublish(batch)];
    if writes == [] {
      assert extended == [StoreAppend(batch), TopicPublish(batch)];
      assert extended[2..] == [];
    } else {
      assert extended[0] == writes[0] && extended[1] == writes[1];
      assert extended[2..] == writes[2..] + [StoreAppend(batch)] + [TopicPublish(batch)];
      StoreThenPublishExtend(writes[2..], batch);
    }
  }

  /** One store-then-publish pair appends the batch to the store and publishes it. */
  lemma OnePairLog(batch: seq<OutputRecord>)
    ensures Appended([StoreAppend(batch), TopicPublish(batch)]) == batch
    ensures Published([StoreAppend(batch), TopicPublish(batch)]) == batch
  {
    var pair := [StoreAppend(batch), TopicPublish(batch)];
    assert pair[1..] == [TopicPublish(batch)];
    assert pair[1..][1..] == [];
    assert Appended(pair[1..]) == [] + Appended([]);
    assert Published(pair[1..]) == batch + Published([]);
    assert batch + [] == batch;
  }

  /** Logging one more store-then-publish pair extends what the store and
      the topic have received by that batch. */
  lemma {:induction false} LogBatch(writes: seq<SinkWrite>, batch: seq<OutputRecord>)
    ensures Appended(writes + [StoreAppend(batch)] + [TopicPublish(batch)]) == Appended(writes) + batch
    ensures Published(writes + [StoreAppend(batch)] + [TopicPublish(batch)]) == Published(writes) + batch
  {
    var pair := [StoreAppend(batch), TopicPublish(batch)];
    assert writes + [StoreAppend(batch)] + [TopicPublish(batch)] == writes + pair;
    AppendedConcat(writes, pair);
    PublishedConcat(writes, pair);
    OnePairLog(batch);
  }

  /** In a well-ordered log the topic has received exactly what the store received. */
  lemma {:induction false} PublishedMirrorsAppended(writes: seq<SinkWrite>)
    requires StoreThenPublish(writes)
    ensures Published(writes) == Appended(writes)
  {
    if writes != [] {
      assert writes == writes[..2] + writes[2..];
      assert writes[..2] == [writes[0], writes[1]];
      AppendedConcat(writes[..2], writes[2..]);
      PublishedConcat(writes[..2], writes[2..]);
      PublishedMirrorsAppended(writes[2..]);
      assert Appended(writes[..2]) == writes[0].rows by {
        assert writes[..2][1..] == [writes[1]];
        assert writes[..2][1..][1..] == [];
      }
      assert Published(writes[..2]) == writes[0].rows by {
        assert writes[..2][1..] == [writes[1]];
        assert writes[..2][1..][1..] == [];
      }
    }
  }

  /** The sinks hold their initial contents followed by everything a
      well-ordered write log sent to each of them. */
  ghost predicate Consistent(store0: seq<OutputRecord>, outbound0: seq<OutputRecord>,
                             store: seq<OutputRecord>, outbound: seq<OutputRecord>, writes: seq<SinkWrite>)
  {
    && StoreThenPublish(writes)
    && store == store0 + Appended(writes)
    && outbound == outbound0 + Published(writes)
  }

  /** Appending a batch to the store and then publishing it keeps the sinks consistent with the log. */
  lemma DispatchKeepsConsistent(store0: seq<OutputRecord>, outbound0: seq<OutputRecord>,
                                store: seq<OutputRecord>, outbound: seq<OutputRecord>,
                                writes: seq<SinkWrite>, batch: seq<OutputRecord>)
    requires Consistent(store0, outbound0, store, outbound, writes)
    ensures Consistent(store0, outbound0, store + batch, outbound + batch,
                       writes + [StoreAppend(batch)] + [TopicPublish(batch)])
  {
    LogBatch(writes, batch);
    StoreThenPublishExtend(writes, batch);
    assert store + batch == store0 + (Appended(writes) + batch);
    assert outbound + batch == outbound0 + (Published(writes) + batch);
  }

  /** The two sinks: the relational store table and the outbound topic. */
  class SinkPair {
    var store: seq<OutputRecord>
    var outbound: seq<OutputRecord>
    /** What each sink held before this process wrote to it. */
    ghost const initialStore: seq<OutputRecord>
    ghost const initialOutbound: seq<OutputRecord>
    /** Every write this process has performed, in order. */
    ghost var writes: seq<SinkWrite>

    ghost predicate Valid()
      reads this
    {
      Consistent(initialStore, initialOutbound, store, outbound, writes)
    }

    constructor (store0: seq<OutputRecord>, outbound0: seq<OutputRecord>)
      ensures Valid()
      ensures store == initialStore == store0 && outbound == initialOutbound == outbound0
      ensures writes == []
    {
      store, outbound := store0, outbound0;
      initialStore, initialOutbound := store0, outbound0;
      writes := [];
    }

    /** The append-mode write to the store table; the topic is untouched. */
    method AppendToStore(rows: seq<OutputRecord>)
      modifies this
      ensures store == old(store) + rows
      ensures writes == old(writes) + [StoreAppend(rows)]
      ensures outbound == old(outbound)
    {
      store := store + rows;
      writes := writes + [StoreAppend(rows)];
    }

    /** The write to the outbound topic, one message per record; the store is untouched. */
    method PublishToTopic(messages: seq<OutputRecord>)
      modifies this
      ensures outbound == old(outbound) + messages
      ensures writes == old(writes) + [TopicPublish(messages)]
      ensures store == old(store)
    {
      outbound := outbound + messages;
      writes := writes + [TopicPublish(messages)];
    }

    /** The batch handler: add the feedback column, append the batch to the
        store, then publish the same batch to the topic. */
    method ForeachBatch(df: seq<JoinedRecord>)
      requires Valid()
      modifies this
      ensures Valid()
      ensures store == old(store) + AddFeedback(df)
      ensures outbound == old(outbound) + AddFeedback(df)
      ensures writes == old(writes) + [StoreAppend(AddFeedback(df))] + [TopicPublish(AddFeedback(df))]
    {
      var feedbackDf := AddFeedback(df);
      DispatchKeepsConsistent(initialStore, initialOutbound, store, outbound, writes, feedbackDf);
      AppendToStore(feedbackDf);
      PublishToTopic(feedbackDf);
    }

    /** Whatever this process has written, the topic's new messages are the
        store's new rows, in the same order. */
    lemma SinksAgree()
      requires Valid()
      ensures store[|initialStore|..] == outbound[|initialOutbound|..]
    {
      PublishedMirrorsAppended(writes);
    }
  }
}
