/** The inner join of the filtered event stream with the subscriber table on
    `restaurant_id`, projected to ten columns and stamped with the trigger
    timestamp. Output order is event by event, and within one event the
    subscriber rows in table order; nothing stated below depends on that order
    except the append lemma. */
module JoinEngine {
  import opened Records

  /** The equi-join condition. SQL equality with NULL is never true, so an
      event or a row without a restaurant id matches nothing. */
  predicate KeyMatch(e: CampaignEvent, u: SubscriberRow)
  {
    e.restaurantId.Value? && u.restaurantId == e.restaurantId
  }

  /** The projected output row for one matching (event, subscriber) pair. */
  function Enrich(e: CampaignEvent, u: SubscriberRow, refInstant: int): JoinedRecord
  {
    JoinedRecord(e.restaurantId, e.advCampaignId, e.advCampaignContent, e.advCampaignOwner,
                 e.advCampaignOwnerContact, e.advCampaignDatetimeStart, e.advCampaignDatetimeEnd,
                 e.datetimeCreated, u.clientId, refInstant)
  }

  /** `r` carries the columns of event `e` and the trigger timestamp `refInstant`. */
  predicate Carries(r: JoinedRecord, e: CampaignEvent, refInstant: int)
  {
    EventOf(r) == e && r.triggerDatetimeCreated == refInstant
  }

  /** The join output for a single event. */
  function JoinEvent(e: CampaignEvent, users: seq<SubscriberRow>, refInstant: int): seq<JoinedRecord>
  {
    if users == [] then []
    else
      (if KeyMatch(e, users[0]) then [Enrich(e, users[0], refInstant)] else [])
      + JoinEvent(e, users[1..], refInstant)
  }

  /** The join output for a stream of events. */
  function Join(events: seq<CampaignEvent>, users: seq<SubscriberRow>, refInstant: int): seq<JoinedRecord>
  {
    if events == [] then []
    else JoinEvent(events[0], users, refInstant) + Join(events[1..], users, refInstant)
  }

  // ----- Reference counts, defined independently of the join -----

  /** The number of subscriber rows whose restaurant id equals the event's. */
  function MatchCount(e: CampaignEvent, users: seq<SubscriberRow>): nat
  {
    if users == [] then 0
    else (if KeyMatch(e, users[0]) then 1 else 0) + MatchCount(e, users[1..])
  }

  /** The number of matching subscriber rows that carry client id `c`. */
  function ClientRowCount(e: CampaignEvent, c: Text, users: seq<SubscriberRow>): nat
  {
    if users == [] then 0
    else (if KeyMatch(e, users[0]) && users[0].clientId == c then 1 else 0)
         + ClientRowCount(e, c, users[1..])
  }

  /** The number of matching (event, subscriber) pairs over a stream. */
  function PairCount(events: seq<CampaignEvent>, users: seq<SubscriberRow>): nat
  {
    if events == [] then 0 else MatchCount(events[0], users) + PairCount(events[1..], users)
  }

  // ----- Properties of the join -----

  /** The enriched record is determined by its event, its client id and the
      trigger timestamp, and gives back the event's eight columns unchanged. */
  lemma EnrichCarries(e: CampaignEvent, u: SubscriberRow, refInstant: int, r: JoinedRecord)
    ensures Carries(Enrich(e, u, refInstant), e, refInstant)
    ensures Enrich(e, u, refInstant).clientId == u.clientId
    ensures Enrich(e, u, refInstant) == r <==> Carries(r, e, refInstant) && r.clientId == u.clientId
  {
  }

  /** An event whose restaurant id appears in N subscriber rows yields exactly N records. */
  lemma {:induction false} JoinEventCount(e: CampaignEvent, users: seq<SubscriberRow>, refInstant: int)
    ensures |JoinEvent(e, users, refInstant)| == MatchCount(e, users)
  {
    if users != [] {
      JoinEventCount(e, users[1..], refInstant);
    }
  }

  /** The output for one event, as a multiset: a record occurs only if it
      carries the event's columns and the trigger timestamp, and then exactly
      as often as there are matching subscriber rows with its client id. */
  lemma {:induction false} JoinEventMultiplicity(e: CampaignEvent, users: seq<SubscriberRow>, refInstant: int, r: JoinedRecord)
    ensures multiset(JoinEvent(e, users, refInstant))[r] ==
      if Carries(r, e, refInstant) then ClientRowCount(e, r.clientId, users) else 0
  {
    if users != [] {
      JoinEventMultiplicity(e, users[1..], refInstant, r);
      EnrichCarries(e, users[0], refInstant, r);
      var head := if KeyMatch(e, users[0]) then [Enrich(e, users[0], refInstant)] else [];
      assert JoinEvent(e, users, refInstant) == head + JoinEvent(e, users[1..], refInstant);
      assert multiset(JoinEvent(e, users, refInstant)) == multiset(head) + multiset(JoinEvent(e, users[1..], refInstant));
    }
  }

  /** Zero output for an event exactly when no subscriber row shares its restaurant id. */
  lemma {:induction false} JoinEventEmpty(e: CampaignEvent, users: seq<SubscriberRow>, refInstant: int)
    ensures JoinEvent(e, users, refInstant) == [] <==> forall j :: 0 <= j < |users| ==> !KeyMatch(e, users[j])
  {
    if users != [] {
      JoinEventEmpty(e, users[1..], refInstant);
      assert forall j :: 1 <= j < |users| ==> users[j] == users[1..][j - 1];
    }
  }

  /** Every record of an event's output comes from a matching subscriber row,
      and every matching subscriber row contributes a record. */
  lemma {:induction false} JoinEventMembership(e: CampaignEvent, users: seq<SubscriberRow>, refInstant: int, r: JoinedRecord)
    ensures r in JoinEvent(e, users, refInstant) <==>
      exists j :: 0 <= j < |users| && KeyMatch(e, users[j]) && r == Enrich(e, users[j], refInstant)
  {
    if users != [] {
      JoinEventMembership(e, users[1..], refInstant, r);
      assert forall j :: 1 <= j < |users| ==> users[j] == users[1..][j - 1];
      if r in JoinEvent(e, users[1..], refInstant) {
        var j :| 0 <= j < |users[1..]| && KeyMatch(e, users[1..][j]) && r == Enrich(e, users[1..][j], refInstant);
        assert users[j + 1] == users[1..][j];
      }
    }
  }

  /** Joining a stream split into two micro-batches gives the joined stream. */
  lemma {:induction false} JoinAppend(a: seq<CampaignEvent>, b: seq<CampaignEvent>, users: seq<SubscriberRow>, refInstant: int)
    ensures Join(a + b, users, refInstant) == Join(a, users, refInstant) + Join(b, users, refInstant)
  {
    if a == [] {
      assert a + b == b;
    } else {
      assert (a + b)[1..] == a[1..] + b;
      JoinAppend(a[1..], b, users, refInstant);
    }
  }

  /** The join emits one record per matching (event, subscriber) pair. */
  lemma {:induction false} JoinCount(events: seq<CampaignEvent>, users: seq<SubscriberRow>, refInstant: int)
    ensures |Join(events, users, refInstant)| == PairCount(events, users)
  {
    if events != [] {
      JoinEventCount(events[0], users, refInstant);
      JoinCount(events[1..], users, refInstant);
    }
  }

  /** A record is in the join output iff some event and some subscriber row
      with the same restaurant id produce it. */
  lemma {:induction false} JoinMembership(events: seq<CampaignEvent>, users: seq<SubscriberRow>, refInstant: int, r: JoinedRecord)
    ensures r in Join(events, users, refInstant) <==>
      exists i, j :: 0 <= i < |events| && 0 <= j < |users|
                     && KeyMatch(events[i], users[j]) && r == Enrich(events[i], users[j], refInstant)
  {
    if events != [] {
      JoinEventMembership(events[0], users, refInstant, r);
      JoinMembership(events[1..], users, refInstant, r);
      if r in Join(events[1..], users, refInstant) {
        var i, j :| 0 <= i < |events[1..]| && 0 <= j < |users|
                    && KeyMatch(events[1..][i], users[j]) && r == Enrich(events[1..][i], users[j], refInstant);
        assert events[i + 1] == events[1..][i];
      }
      if exists i, j :: 0 <= i < |events| && 0 <= j < |users|
                        && KeyMatch(events[i], users[j]) && r == Enrich(events[i], users[j], refInstant) {
        var i, j :| 0 <= i < |events| && 0 <= j < |users|
                    && KeyMatch(events[i], users[j]) && r == Enrich(events[i], users[j], refInstant);
        if i > 0 {
          assert events[1..][i - 1] == events[i];
        }
      }
    }
  }

  /** Every joined record is stamped with the one trigger timestamp of the run. */
  lemma {:induction false} JoinStamped(events: seq<CampaignEvent>, users: seq<SubscriberRow>, refInstant: int)
    ensures forall r :: r in Join(events, users, refInstant) ==> r.triggerDatetimeCreated == refInstant
  {
    forall r | r in Join(events, users, refInstant)
      ensures r.triggerDatetimeCreated == refInstant
    {
      JoinMembership(events, users, refInstant, r);
    }
  }
}
