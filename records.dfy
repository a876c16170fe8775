/** The rows that flow through the campaign-enrichment pipeline.
    Every column of a Spark dataframe may hold SQL NULL, so every column that
    the pipeline reads from outside is `Nullable`. Timestamps are epoch seconds. */
module Records {

  /** A column value that may be SQL NULL. */
  datatype Nullable<+T> = Null | Value(value: T)

  type Text = Nullable<string>

  /** Epoch seconds. */
  type Stamp = Nullable<int>

  /** A campaign event as deserialized from the inbound topic. */
  datatype CampaignEvent = CampaignEvent(
    restaurantId: Text,
    advCampaignId: Text,
    advCampaignContent: Text,
    advCampaignOwner: Text,
    advCampaignOwnerContact: Text,
    advCampaignDatetimeStart: Stamp,
    advCampaignDatetimeEnd: Stamp,
    datetimeCreated: Stamp)

  /** A row of the `subscribers_restaurants` table. */
  datatype SubscriberRow = SubscriberRow(restaurantId: Text, clientId: Text)

  /** The ten projected columns of the join: the event's eight columns, the
      subscriber's `client_id` and the pipeline's trigger timestamp. */
  datatype JoinedRecord = JoinedRecord(
    restaurantId: Text,
    advCampaignId: Text,
    advCampaignContent: Text,
    advCampaignOwner: Text,
    advCampaignOwnerContact: Text,
    advCampaignDatetimeStart: Stamp,
    advCampaignDatetimeEnd: Stamp,
    datetimeCreated: Stamp,
    clientId: Text,
    triggerDatetimeCreated: int)

  /** A joined record with the extra `feedback` column, as written to both sinks. */
  datatype OutputRecord = OutputRecord(
    restaurantId: Text,
    advCampaignId: Text,
    advCampaignContent: Text,
    advCampaignOwner: Text,
    advCampaignOwnerContact: Text,
    advCampaignDatetimeStart: Stamp,
    advCampaignDatetimeEnd: Stamp,
    datetimeCreated: Stamp,
    clientId: Text,
    triggerDatetimeCreated: int,
    feedback: Text)

  /** The eight event columns a joined record carries. */
  function EventOf(r: JoinedRecord): CampaignEvent
  {
    CampaignEvent(r.restaurantId, r.advCampaignId, r.advCampaignContent, r.advCampaignOwner,
                  r.advCampaignOwnerContact, r.advCampaignDatetimeStart, r.advCampaignDatetimeEnd,
                  r.datetimeCreated)
  }
}
