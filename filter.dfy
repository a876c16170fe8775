/** The temporal filter applied to the inbound event stream: an event is kept
    only while its campaign window strictly contains the reference instant
    (the process-start time, passed explicitly as `refInstant`). The
    where-clause is evaluated in SQL's three-valued logic, so a NULL window
    bound makes the condition unknown and the event is dropped. */
module TemporalFilter {
  import opened Records

  /** SQL's three-valued boolean. */
  datatype Truth = SqlTrue | SqlFalse | SqlUnknown

  /** `column < bound`; unknown when the column is NULL. */
  function LessThan(column: Stamp, bound: int): Truth
  {
    match column
    case Null => SqlUnknown
    case Value(x) => if x < bound then SqlTrue else SqlFalse
  }

  /** `column > bound`; unknown when the column is NULL. */
  function GreaterThan(column: Stamp, bound: int): Truth
  {
    match column
    case Null => SqlUnknown
    case Value(x) => if x > bound then SqlTrue else SqlFalse
  }

  /** SQL `AND`: false wins over unknown, unknown wins over true. */
  function And(p: Truth, q: Truth): Truth
  {
    if p == SqlFalse || q == SqlFalse then SqlFalse
    else if p == SqlTrue && q == SqlTrue then SqlTrue
    else SqlUnknown
  }

  /** The where-condition: `start < refInstant AND end > refInstant`. */
  function Condition(e: CampaignEvent, refInstant: int): Truth
  {
    And(LessThan(e.advCampaignDatetimeStart, refInstant), GreaterThan(e.advCampaignDatetimeEnd, refInstant))
  }

  /** A where-clause keeps exactly the rows whose condition is true. */
  predicate Passes(e: CampaignEvent, refInstant: int)
  {
    Condition(e, refInstant) == SqlTrue
  }

  /** An event passes iff both window bounds are present, the start lies
      strictly before the reference instant and the end strictly after it. */
  lemma PassesIff(e: CampaignEvent, refInstant: int)
    ensures Passes(e, refInstant) <==>
      && e.advCampaignDatetimeStart.Value? && e.advCampaignDatetimeStart.value < refInstant
      && e.advCampaignDatetimeEnd.Value? && e.advCampaignDatetimeEnd.value > refInstant
  {
  }

  /** Both comparisons are strict: a window that starts or ends exactly at the
      reference instant is rejected, and so is one with a missing bound. */
  lemma BoundaryRejected(e: CampaignEvent, refInstant: int)
    requires || e.advCampaignDatetimeStart == Value(refInstant)
             || e.advCampaignDatetimeEnd == Value(refInstant)
             || e.advCampaignDatetimeStart == Null
             || e.advCampaignDatetimeEnd == Null
    ensures !Passes(e, refInstant)
  {
  }

  /** The filtered stream: the events that pass, in their original order. */
  function FilterActive(events: seq<CampaignEvent>, refInstant: int): (kept: seq<CampaignEvent>)
    ensures |kept| <= |events|
    ensures forall k :: 0 <= k < |kept| ==> Passes(kept[k], refInstant)
  {
    if events == [] then []
    else (if Passes(events[0], refInstant) then [events[0]] else []) + FilterActive(events[1..], refInstant)
  }

  /** The filter only removes events: each passing event keeps its
      multiplicity, unchanged, and every other event is gone. */
  lemma {:induction false} FilterMultiplicity(events: seq<CampaignEvent>, refInstant: int, e: CampaignEvent)
    ensures multiset(FilterActive(events, refInstant))[e] == if Passes(e, refInstant) then multiset(events)[e] else 0
  {
    if events != [] {
      assert events == [events[0]] + events[1..];
      FilterMultiplicity(events[1..], refInstant, e);
      var head := if Passes(events[0], refInstant) then [events[0]] else [];
      assert multiset(FilterActive(events, refInstant)) == multiset(head) + multiset(FilterActive(events[1..], refInstant));
    }
  }

  /** An event survives the filter iff it was in the stream and passes. */
  lemma FilterMembership(events: seq<CampaignEvent>, refInstant: int, e: CampaignEvent)
    ensures e in FilterActive(events, refInstant) <==> e in events && Passes(e, refInstant)
  {
  }

  /** Filtering a stream split into two micro-batches gives the filtered stream. */
  lemma {:induction false} FilterAppend(a: seq<CampaignEvent>, b: seq<CampaignEvent>, refInstant: int)
    ensures FilterActive(a + b, refInstant) == FilterActive(a, refInstant) + FilterActive(b, refInstant)
  {
    if a == [] {
      assert a + b == b;
    } else {
      assert (a + b)[0] == a[0];
      assert (a + b)[1..] == a[1..] + b;
      FilterAppend(a[1..], b, refInstant);
    }
  }

  /** A stream whose events all pass is left unchanged. */
  lemma {:induction false} FilterKeepsActive(events: seq<CampaignEvent>, refInstant: int)
    requires forall k :: 0 <= k < |events| ==> Passes(events[k], refInstant)
    ensures FilterActive(events, refInstant) == events
  {
    if events != [] {
      FilterKeepsActive(events[1..], refInstant);
    }
  }

  /** Filtering twice is filtering once. */
  lemma FilterIdempotent(events: seq<CampaignEvent>, refInstant: int)
    ensures FilterActive(FilterActive(events, refInstant), refInstant) == FilterActive(events, refInstant)
  {
    FilterKeepsActive(FilterActive(events, refInstant), refInstant);
  }
}
