/** The whole record-level dataflow: the filtered event stream joined with
    the subscriber table, with the feedback column added before it reaches
    the two sinks. */
module Pipeline {
  import opened Records
  import opened TemporalFilter
  import opened JoinEngine
  import opened Feedback

  /** The dataframe the batch handler receives. */
  function Enriched(events: seq<CampaignEvent>, users: seq<SubscriberRow>, refInstant: int): seq<JoinedRecord>
  {
    Join(FilterActive(events, refInstant), users, refInstant)
  }

  /** What the sinks receive for a stream of events. */
  function Emitted(events: seq<CampaignEvent>, users: seq<SubscriberRow>, refInstant: int): seq<OutputRecord>
  {
    AddFeedback(Enriched(events, users, refInstant))
  }

  /** Every record sent to the sinks has a NULL feedback column, the run's
      trigger timestamp, the columns of an input event whose window strictly
      contains the reference instant, and the client id of a subscriber row
      with that event's (non-NULL) restaurant id. */
  lemma EmittedRecord(events: seq<CampaignEvent>, users: seq<SubscriberRow>, refInstant: int, o: OutputRecord)
    requires o in Emitted(events, users, refInstant)
    ensures o.feedback == Null && o.triggerDatetimeCreated == refInstant
    ensures o.advCampaignDatetimeStart.Value? && o.advCampaignDatetimeStart.value < refInstant
    ensures o.advCampaignDatetimeEnd.Value? && o.advCampaignDatetimeEnd.value > refInstant
    ensures EventOf(Strip(o)) in events
    ensures o.restaurantId.Value?
    ensures exists j :: 0 <= j < |users| && users[j].restaurantId == o.restaurantId && users[j].clientId == o.clientId
  {
    var active := FilterActive(events, refInstant);
    var out := Emitted(events, users, refInstant);
    var k :| 0 <= k < |out| && out[k] == o;
    var r := Strip(o);
    assert r == Enriched(events, users, refInstant)[k];
    JoinMembership(active, users, refInstant, r);
    var i, j :| 0 <= i < |active| && 0 <= j < |users|
                && KeyMatch(active[i], users[j]) && r == Enrich(active[i], users[j], refInstant);
    PassesIff(active[i], refInstant);
    FilterMembership(events, refInstant, active[i]);
    assert EventOf(r) == active[i];
  }

  /** One record per matching (active event, subscriber row) pair. */
  lemma EmittedCount(events: seq<CampaignEvent>, users: seq<SubscriberRow>, refInstant: int)
    ensures |Emitted(events, users, refInstant)| == PairCount(FilterActive(events, refInstant), users)
  {
    JoinCount(FilterActive(events, refInstant), users, refInstant);
  }

  /** Running the pipeline over a stream split into two micro-batches emits
      the same records, in the same order, as running it over the whole stream. */
  lemma EmittedAppend(a: seq<CampaignEvent>, b: seq<CampaignEvent>, users: seq<SubscriberRow>, refInstant: int)
    ensures Emitted(a + b, users, refInstant) == Emitted(a, users, refInstant) + Emitted(b, users, refInstant)
  {
    FilterAppend(a, b, refInstant);
    JoinAppend(FilterActive(a, refInstant), FilterActive(b, refInstant), users, refInstant);
    AddFeedbackAppend(Enriched(a, users, refInstant), Enriched(b, users, refInstant));
  }

  /** An event whose window does not strictly contain the reference instant
      contributes nothing, wherever it stands in the stream. */
  lemma InactiveEventIgnored(a: seq<CampaignEvent>, e: CampaignEvent, b: seq<CampaignEvent>,
                             users: seq<SubscriberRow>, refInstant: int)
    requires !Passes(e, refInstant)
    ensures Emitted(a + [e] + b, users, refInstant) == Emitted(a + b, users, refInstant)
  {
    EmittedAppend(a + [e], b, users, refInstant);
    EmittedAppend(a, [e], users, refInstant);
    EmittedAppend(a, b, users, refInstant);
    assert [e][1..] == [];
    assert FilterActive([e], refInstant) == [];
  }

  /** An active event whose restaurant id matches no subscriber row
      contributes nothing either. */
  lemma UnmatchedEventIgnored(a: seq<CampaignEvent>, e: CampaignEvent, b: seq<CampaignEvent>,
                              users: seq<SubscriberRow>, refInstant: int)
    requires forall j :: 0 <= j < |users| ==> !KeyMatch(e, users[j])
    ensures Emitted(a + [e] + b, users, refInstant) == Emitted(a + b, users, refInstant)
  {
    EmittedAppend(a + [e], b, users, refInstant);
    EmittedAppend(a, [e], users, refInstant);
    EmittedAppend(a, b, users, refInstant);
    JoinEventEmpty(e, users, refInstant);
    assert [e][1..] == [];
    var active := FilterActive([e], refInstant);
    assert Join(active, users, refInstant) == [] by {
      if active != [] {
        assert active == [e];
        assert Join(active, users, refInstant) == JoinEvent(e, users, refInstant) + Join([], users, refInstant);
      }
    }
  }

  /** A campaign for restaurant R1, live from 500 to 1500, with reference
      instant 1000 and two subscribers of R1: two records, one per client,
      both with NULL feedback and trigger timestamp 1000. */
  lemma TwoSubscriberScenario()
    ensures
      var e := CampaignEvent(Value("R1"), Value("A1"), Null, Null, Null, Value(500), Value(1500), Null);
      var users := [SubscriberRow(Value("R1"), Value("C1")), SubscriberRow(Value("R1"), Value("C2"))];
      Emitted([e], users, 1000) ==
        [ OutputRecord(Value("R1"), Value("A1"), Null, Null, Null, Value(500), Value(1500), Null, Value("C1"), 1000, Null),
          OutputRecord(Value("R1"), Value("A1"), Null, Null, Null, Value(500), Value(1500), Null, Value("C2"), 1000, Null) ]
  {
  }

  /** The same campaign, already ended at 900: nothing is emitted. */
  lemma ExpiredScenario()
    ensures
      var e := CampaignEvent(Value("R1"), Value("A1"), Null, Null, Null, Value(500), Value(900), Null);
      var users := [SubscriberRow(Value("R1"), Value("C1")), SubscriberRow(Value("R1"), Value("C2"))];
      Emitted([e], users, 1000) == []
  {
  }
}
