# Restaurant campaign enrichment — a Dafny model

This project models the record-level dataflow of the streaming job in
`src/scripts/final8.py`, which sends restaurant advertising campaigns to subscribers.
Campaign events come in from a topic. At import the job reads the clock once and keeps
the result as `refInstant`: `int(round(datetime.utcnow().timestamp()))`. A where-clause
keeps only the campaigns whose window strictly contains `refInstant`. Each kept event
is inner-joined with the `subscribers_restaurants` table on `restaurant_id` and
projected to ten columns, with `refInstant` stamped as `trigger_datetime_created`.
`refInstant` is the process-start instant only on a host whose local time zone is UTC;
the "## Left out" section explains why. Each batch then gets a NULL
`feedback` column. It is appended to the relational store, and after that the same
batch is published to the outbound topic.

Modules:

- `Records` (`records.dfy`): the four row shapes: campaign event, subscriber row, joined
  record and output record. Every column that comes from outside is `Nullable`,
  because Spark columns may hold SQL NULL. Timestamps are integer epoch seconds.
- `TemporalFilter` (`filter.dfy`): the where-clause of `read_adv_stream`, evaluated in
  SQL's three-valued logic, and the filtered stream `FilterActive`. The clock reading
  that the source takes at import is the explicit parameter `refInstant`.
- `JoinEngine` (`join.dfy`): the inner equi-join, the projection and the trigger
  timestamp. It comes with reference counts that are defined apart from the join
  (`MatchCount`, `ClientRowCount`, `PairCount`).
- `Feedback` and `Sinks` (`sinks.dfy`): the feedback column, and the class `SinkPair`.
  `SinkPair` holds the two sinks as sequences. Each sink has its own write method,
  `AppendToStore` or `PublishToTopic`, which updates that sink and the ghost log
  `writes` in the same body. The batch handler calls the two methods in order, so the
  order the log records is the order of the real writes.
- `Pipeline` (`pipeline.dfy`): filter, join and feedback chained together, with
  end-to-end properties and two example runs. In the first, campaign R1 is live from
  500 to 1500, the instant is 1000 and R1 has subscribers C1 and C2: the run gives two
  records. In the second, the same campaign has already ended at 900: the run gives
  no records.

## Model

| member | source | states |
|---|---|---|
| `TemporalFilter.Condition` | src/scripts/final8.py:41 | The where-condition `start < refInstant AND end > refInstant` in SQL's three-valued logic (no ensures; its meaning is stated by `PassesIff`) |
| `TemporalFilter.Passes` | src/scripts/final8.py:41 | A row is kept iff its condition is true, not false or unknown (no ensures; stated by `PassesIff` and `BoundaryRejected`) |
| `TemporalFilter.PassesIff` | src/scripts/final8.py:41 | An event passes the where-clause iff both window bounds are non-NULL, start < refInstant and end > refInstant |
| `TemporalFilter.BoundaryRejected` | src/scripts/final8.py:41 | The comparisons are strict: an event whose start or end equals refInstant, or that has a NULL bound, is rejected |
| `TemporalFilter.FilterActive` | src/scripts/final8.py:33-42 | The filtered stream is no longer than the input, and every event left in it passes the condition |
| `TemporalFilter.FilterMultiplicity` | src/scripts/final8.py:41 | The filter only removes events: a passing event appears as often as in the input, unchanged, and any other event not at all |
| `TemporalFilter.FilterMembership` | src/scripts/final8.py:41 | An event is in the filtered stream iff it is in the input and passes |
| `TemporalFilter.FilterAppend` | src/scripts/final8.py:33-42 | Filtering two consecutive micro-batches separately gives the filtered whole stream |
| `TemporalFilter.FilterKeepsActive` | src/scripts/final8.py:41 | A stream whose events all pass comes out unchanged |
| `TemporalFilter.FilterIdempotent` | src/scripts/final8.py:41 | Filtering twice is the same as filtering once |
| `JoinEngine.KeyMatch` | src/scripts/final8.py:62 | The equi-join condition on `restaurant_id`, where NULL equals nothing (no ensures; stated by `JoinEventEmpty` and `JoinMembership`) |
| `JoinEngine.Enrich` | src/scripts/final8.py:63-75 | The ten projected columns for one matching pair (no ensures; stated by `EnrichCarries`) |
| `JoinEngine.JoinEvent` | src/scripts/final8.py:61-75 | The join output for one event (no ensures; stated by `JoinEventCount`, `JoinEventMultiplicity`, `JoinEventEmpty` and `JoinEventMembership`) |
| `JoinEngine.Join` | src/scripts/final8.py:60-76 | The join output for a stream (no ensures; stated by `JoinCount`, `JoinMembership`, `JoinAppend` and `JoinStamped`) |
| `JoinEngine.EnrichCarries` | src/scripts/final8.py:62-75 | A joined record copies the event's eight columns, takes client_id from the subscriber row and trigger_datetime_created from refInstant, and is determined by those |
| `JoinEngine.JoinEventCount` | src/scripts/final8.py:61-62 | An event whose restaurant_id matches N subscriber rows yields exactly N records |
| `JoinEngine.JoinEventMultiplicity` | src/scripts/final8.py:61-75 | As a multiset, an event's output holds each record that carries the event's columns and refInstant as often as there are matching subscriber rows with that record's client_id, and nothing else |
| `JoinEngine.JoinEventEmpty` | src/scripts/final8.py:62 | Inner join: an event yields no records iff no subscriber row has its restaurant_id (a NULL key matches nothing) |
| `JoinEngine.JoinEventMembership` | src/scripts/final8.py:61-75 | A record is in an event's output iff some subscriber row with the same restaurant_id produces it |
| `JoinEngine.JoinAppend` | src/scripts/final8.py:60-76 | Joining two consecutive micro-batches separately gives the join of the whole stream |
| `JoinEngine.JoinCount` | src/scripts/final8.py:61-62 | The join emits one record per matching (event, subscriber row) pair |
| `JoinEngine.JoinMembership` | src/scripts/final8.py:60-76 | A record is in the join iff some event and some subscriber row with the same non-NULL restaurant_id produce it |
| `JoinEngine.JoinStamped` | src/scripts/final8.py:63 | Every joined record has trigger_datetime_created equal to the one refInstant of the run |
| `Feedback.WithFeedback` | src/scripts/final8.py:83 | One record with the NULL feedback column added (no ensures; stated through `AddFeedback`) |
| `Feedback.AddFeedback` | src/scripts/final8.py:83 | The feedback column keeps the batch's length and order, leaves every other column of each record unchanged, and sets feedback to NULL |
| `Feedback.AddFeedbackAppend` | src/scripts/final8.py:83 | Adding the feedback column to two micro-batches is the same as adding it to their concatenation |
| `Sinks.PublishedMirrorsAppended` | src/scripts/final8.py:85-98 | In a store-then-publish write log, the topic has received exactly the rows the store received, in the same order |
| `Sinks.DispatchKeepsConsistent` | src/scripts/final8.py:85-98 | Appending a batch to the store and then publishing it keeps each sink equal to its initial contents followed by what the log sent to it |
| `Sinks.SinkPair.AppendToStore` | src/scripts/final8.py:85-86 | The store becomes its old contents followed by the rows, the log gains one store append, and the topic is unchanged |
| `Sinks.SinkPair.PublishToTopic` | src/scripts/final8.py:93-98 | The topic becomes its old contents followed by the messages, the log gains one publish, and the store is unchanged |
| `Sinks.SinkPair.ForeachBatch` | src/scripts/final8.py:79-100 | The store becomes its old contents followed by the feedback batch; the topic becomes its old contents followed by the same batch; the store append happens first and the publish after it, and the `writes` ensures fixes that order, which holds only because the two write methods are called in that order; nothing else changes |
| `Sinks.SinkPair.SinksAgree` | src/scripts/final8.py:85-98 | Since start-up, the records newly published to the topic are exactly the rows newly appended to the store |
| `Pipeline.Enriched` | src/scripts/final8.py:105-107 | The filtered stream joined with the subscriber table, as the script chains the two (no ensures; stated by the `Emitted*` lemmas) |
| `Pipeline.Emitted` | src/scripts/final8.py:83 | What the sinks receive: `Enriched` with the feedback column (no ensures; stated by `EmittedRecord`, `EmittedCount` and `EmittedAppend`) |
| `Pipeline.EmittedRecord` | src/scripts/final8.py:41-83 | Every record sent to the sinks has NULL feedback and trigger_datetime_created = refInstant. It carries an input event whose window strictly contains refInstant, and the client_id of a subscriber row with that event's non-NULL restaurant_id |
| `Pipeline.EmittedCount` | src/scripts/final8.py:60-83 | The sinks receive one record per matching (live event, subscriber row) pair |
| `Pipeline.EmittedAppend` | src/scripts/final8.py:33-83 | Running the pipeline on two consecutive micro-batches gives the same records, in the same order, as running it on the whole stream |
| `Pipeline.InactiveEventIgnored` | src/scripts/final8.py:41 | An event whose window does not strictly contain refInstant adds nothing to the output, wherever it stands in the stream |
| `Pipeline.UnmatchedEventIgnored` | src/scripts/final8.py:62 | An event whose restaurant_id matches no subscriber row adds nothing to the output |
| `Pipeline.TwoSubscriberScenario` | src/scripts/final8.py:41-83 | Campaign R1 live over 500..1500 at instant 1000 with subscribers C1 and C2 of R1 yields two records, one per client, with NULL feedback and trigger 1000 |
| `Pipeline.ExpiredScenario` | src/scripts/final8.py:41 | The same campaign ending at 900 yields no records |

## Left out

- Spark session setup, the JDBC read of `subscribers_restaurants` and the connection options. The subscriber table is a `seq<SubscriberRow>` parameter.
- Reading from the topic and JSON decoding with `from_json`. Events are taken as already-decoded records. A payload that does not decode becomes an all-NULL row in Spark, and such a row is modelled: it fails the filter because its bounds are NULL.
- JSON encoding with `to_json` for the outbound topic. The outbound sink receives the output records themselves, one per message.
- `persist` and `unpersist`, which are caching and have no effect on the data.
- Floating-point `DoubleType` timestamps. Timestamps are integer epoch seconds; only `<` and `>` against the integer start instant are applied to them.
- The clock read at line 18. Its value is the parameter `refInstant`. `datetime.utcnow()` returns a naive datetime, and Python's `.timestamp()` takes a naive datetime to be local time. So on a host whose local time zone is not UTC, `refInstant` is the start instant shifted by the host's UTC offset. That shifted value then serves as both the filter cutoff and `trigger_datetime_created`. The session time zone set at line 12 does not affect it. Every property in the model holds for whatever value `refInstant` has.
- How the batch handler is run. The model assumes Spark calls `ForeachBatch` once per micro-batch of the joined stream. The script as written does not register it that way: lines 104-108 build the pipeline and call `foreach_batch_function(output)` once, directly on the streaming dataframe, instead of through `writeStream.foreachBatch(...).start()`. Spark refuses `.write` on a streaming dataframe, so the first write at line 85 fails. Even if it did not, the call returns `None`, so `query.isActive` at line 110 would fail. The progress-polling loop at lines 110-116 is left out too; it only reports on the run.
- Row order. Spark does not guarantee the order of join output. The model emits records event by event and, within one event, in subscriber-table order. Every property above except the `*Append` lemmas, the scenarios and `ForeachBatch` holds whatever the order.
- Offsets, commits, retries, periodic reference-table refresh and concurrency. The job has none of these; the managed streaming engine supplies them. The same goes for failed sink writes: neither sink write can fail in this model.
- Skipping the sinks for an empty batch. One might expect an event outside its window to cause no sink writes at all. The code does not skip them: the event yields an empty batch, and the batch handler still performs both writes, each with zero rows. The model follows the code.
