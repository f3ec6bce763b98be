/** Finished measurements on their way from the tier queues to the tier tables, and how they are read back. */
module StoreOffloader {
  import opened Common
  import opened MeasurementId

  datatype Record = Record(id: string, createdAt: nat, data: string)

  /** A table belongs to a tier; its primary key is the id with the rounded creation time. */
  datatype Key = Key(tier: Tier, id: string, createdAt: int)

  datatype Job = Job(tier: Tier, ids: seq<string>)

  function Rounded(createdAt: int): int {
    MakeDate(Day(createdAt), MakeTime(HourFromTime(createdAt), MinFromTime(createdAt), 0, 0))
  }

  function RowKey(tier: Tier, r: Record): Key {
    Key(tier, r.id, Rounded(r.createdAt))
  }

  /** The record was created under an id generated for this tier, late enough to be readable. */
  ghost predicate Genuine(r: Record, tier: Tier) {
    ToIdTimestamp(r.createdAt) >= 62 * 62 * 62 &&
    exists random :: |random| == RANDOM_LENGTH && r.id == Generate(r.createdAt, tier, random)
  }

  /** The key that a reader rebuilds from the id alone. */
  function KeyFromId(id: string): Option<Key> {
    match Parse(id)
    case Ok(p) => Some(Key(p.tier, id, p.minutes * 60000))
    case Err(_) => None
  }

  /** Readers and the offloader agree on table and key. */
  lemma KeyIsRebuilt(r: Record, tier: Tier)
    requires Genuine(r, tier)
    ensures KeyFromId(r.id) == Some(RowKey(tier, r))
  {
    var random :| |random| == RANDOM_LENGTH && r.id == Generate(r.createdAt, tier, random);
    ParseGenerated(r.createdAt, tier, random);
    RoundedTime(r.createdAt);
  }

  lemma TierIsRebuilt(r: Record, tier: Tier)
    requires Genuine(r, tier)
    ensures Parse(r.id).Ok? && Parse(r.id).value.tier == tier
  {
    var random :| |random| == RANDOM_LENGTH && r.id == Generate(r.createdAt, tier, random);
    ParseGenerated(r.createdAt, tier, random);
  }

  type Rows = map<Key, string>

  /** A row that is there is left as it is. */
  function Insert(rows: Rows, tier: Tier, records: seq<Record>): Rows {
    if records == [] then rows
    else
      var before, r := Insert(rows, tier, records[..|records| - 1]), records[|records| - 1];
      if RowKey(tier, r) in before then before else before[RowKey(tier, r) := r.data]
  }

  lemma {:induction false} InsertedRows(rows: Rows, tier: Tier, records: seq<Record>)
    ensures var rows' := Insert(rows, tier, records);
            && (forall k :: k in rows ==> k in rows' && rows'[k] == rows[k])
            && (forall r :: r in records ==> RowKey(tier, r) in rows')
            && (forall k :: k in rows' && k !in rows ==> exists r :: r in records && k == RowKey(tier, r) && rows'[k] == r.data)
  {
    if records != [] {
      var init := records[..|records| - 1];
      InsertedRows(rows, tier, init);
      assert records == init + [records[|records| - 1]];
    }
  }

  // ---------------------------------------------------------------- reading

  const OLD_MS: int := 30 * 60_000
  const OFFLOADED_TTL_MS: int := 60 * 60_000

  /** From the database if the measurement is old and can be found there, otherwise from Redis. */
  function Read(rows: Rows, redis: map<string, string>, id: string, now: int, dbFails: bool): Option<string> {
    match KeyFromId(id)
    case None => None
    case Some(key) =>
      if now - key.createdAt > OLD_MS && !dbFails && key in rows then Some(rows[key]) else Lookup(redis, id)
  }

  /**
    Once offloaded, with the hour that Redis keeps it from then on, a measurement can be read at any later
    time at which the database answers, and what is read is what was offloaded.
   */
  lemma OffloadedStaysReadable(rows: Rows, redis: map<string, string>, r: Record, tier: Tier, offloadedAt: int, now: int)
    requires Genuine(r, tier) && Lookup(rows, RowKey(tier, r)) == Some(r.data) && r.createdAt <= offloadedAt <= now
    requires if now < offloadedAt + OFFLOADED_TTL_MS then Lookup(redis, r.id) == Some(r.data) else r.id !in redis
    ensures Read(rows, redis, r.id, now, false) == Some(r.data)
  {
    KeyIsRebuilt(r, tier);
    RoundedTime(r.createdAt);
  }

  /**
    More than half an hour after the start of the minute in which it was created, a record comes from its row if the
    database answers with one. Before that, and without such an answer, it comes from Redis.
   */
  lemma RecordIsReadFrom(rows: Rows, redis: map<string, string>, r: Record, tier: Tier, now: int, dbFails: bool)
    requires Genuine(r, tier)
    ensures var isOld := now > r.createdAt - r.createdAt % 60_000 + 30 * 60_000;
            && (isOld && !dbFails && RowKey(tier, r) in rows ==> Read(rows, redis, r.id, now, dbFails) == Some(rows[RowKey(tier, r)]))
            && (!isOld || dbFails || RowKey(tier, r) !in rows ==> Read(rows, redis, r.id, now, dbFails) == Lookup(redis, r.id))
  {
    KeyIsRebuilt(r, tier);
    RoundedTime(r.createdAt);
  }

  // ---------------------------------------------------------------- the queues

  class StoreOffloader {
    var offloadQueues: map<Tier, seq<Record>>
    var rows: Rows
    var fallbackQueue: seq<Job>

    constructor ()
      ensures Valid() && rows == map[] && fallbackQueue == []
      ensures forall tier :: QueueOf(tier) == []
    {
      offloadQueues := map[Member := [], Special := [], Sponsor := [], Anonymous := []];
      rows, fallbackQueue := map[], [];
      new;
      forall tier: Tier ensures tier in offloadQueues {
        match tier
        case Anonymous =>
        case Member =>
        case Sponsor =>
        case Special =>
      }
    }

    ghost predicate Valid()
      reads this
    {
      forall tier: Tier :: tier in offloadQueues
    }

    function QueueOf(tier: Tier): seq<Record>
      reads this
    {
      if tier in offloadQueues then offloadQueues[tier] else []
    }

    /** The record is queued, stored, or named by a fallback job of its tier. */
    ghost predicate Kept(tier: Tier, r: Record)
      reads this
    {
      r in QueueOf(tier) || RowKey(tier, r) in rows || exists job :: job in fallbackQueue && job.tier == tier && r.id in job.ids
    }

    method EnqueueForOffload(r: Record) returns (ok: bool)
      requires Valid()
      modifies this`offloadQueues
      ensures Valid() && ok == Parse(r.id).Ok?
      ensures forall tier :: QueueOf(tier) ==
                             if ok && tier == Parse(r.id).value.tier then old(QueueOf(tier)) + [r] else old(QueueOf(tier))
      ensures forall tier :: Genuine(r, tier) ==> ok && r in QueueOf(tier)
    {
      forall tier | Genuine(r, tier) ensures Parse(r.id).Ok? && Parse(r.id).value.tier == tier {
        TierIsRebuilt(r, tier);
      }
      match Parse(r.id)
      case Err(_) =>
        ok := false;
      case Ok(parsed) =>
        var tier := parsed.tier;
        offloadQueues := offloadQueues[tier := offloadQueues[tier] + [r]];
        ok := true;
    }

    method InsertBatchToDb(tier: Tier, records: seq<Record>)
      modifies this`rows
      ensures rows == Insert(old(rows), tier, records)
    {
      for i := 0 to |records|
        invariant rows == Insert(old(rows), tier, records[..i])
      {
        assert records[..i + 1][..i] == records[..i];
        var key := RowKey(tier, records[i]);
        if key !in rows {
          rows := rows[key := records[i].data];
        }
      }
      assert records[..|records|] == records;
    }

    function IdsOf(records: seq<Record>): seq<string> {
      seq(|records|, i requires 0 <= i < |records| => records[i].id)
    }

    /** The same without the first `n` records of the queue. */
    ghost predicate KeptBeyond(tier: Tier, n: nat, r: Record)
      requires n <= |QueueOf(tier)|
      reads this
    {
      r in QueueOf(tier)[n..] || RowKey(tier, r) in rows || exists job :: job in fallbackQueue && job.tier == tier && r.id in job.ids
    }

    /**
      A batch of the queue; a failing insert becomes a fallback job. Nothing that was kept is lost, unless the
      job cannot be added either: then exactly the records of the batch that are not kept elsewhere are.
     */
    method RunBatch(tier: Tier, n: nat, dbFails: bool, fallbackFails: bool)
      requires Valid() && n <= |QueueOf(tier)|
      modifies this
      ensures Valid() && QueueOf(tier) == old(QueueOf(tier))[n..]
      ensures rows == if dbFails then old(rows) else Insert(old(rows), tier, old(QueueOf(tier))[..n])
      ensures fallbackQueue == if dbFails && !fallbackFails then old(fallbackQueue) + [Job(tier, IdsOf(old(QueueOf(tier))[..n]))]
                               else old(fallbackQueue)
      ensures forall t, r :: old(Kept(t, r)) && (t != tier || !dbFails || !fallbackFails) ==> Kept(t, r)
      ensures dbFails && fallbackFails ==> forall r :: Kept(tier, r) <==> old(KeptBeyond(tier, n, r))
    {
      var batch := offloadQueues[tier][..n];
      ghost var rest := offloadQueues[tier][n..];
      assert offloadQueues[tier] == batch + rest;
      offloadQueues := offloadQueues[tier := offloadQueues[tier][n..]];
      InsertedRows(rows, tier, batch);
      if !dbFails {
        InsertBatchToDb(tier, batch);
      } else if !fallbackFails {
        fallbackQueue := fallbackQueue + [Job(tier, IdsOf(batch))];
        forall r | r in batch ensures r.id in IdsOf(batch) {
          var i :| 0 <= i < |batch| && batch[i] == r;
          assert IdsOf(batch)[i] == r.id;
        }
        assert fallbackQueue[|fallbackQueue| - 1].ids == IdsOf(batch);
      }
    }

    /** The worker's job: `stored` gives the records that Redis still has. */
    method RunFallbackJob(stored: map<string, Record>)
      requires fallbackQueue != []
      requires forall id :: id in stored ==> stored[id].id == id
      modifies this`rows, this`fallbackQueue
      ensures fallbackQueue == old(fallbackQueue)[1..]
      ensures forall t, r :: old(Kept(t, r)) && Lookup(stored, r.id) == Some(r) ==> Kept(t, r)
      ensures forall k :: k in old(rows) ==> k in rows && rows[k] == old(rows)[k]
    {
      var job := fallbackQueue[0];
      var records: seq<Record> := [];
      for i := 0 to |job.ids|
        invariant forall r :: r in records <==> r.id in job.ids[..i] && Lookup(stored, r.id) == Some(r)
      {
        assert job.ids[..i + 1] == job.ids[..i] + [job.ids[i]];
        if job.ids[i] in stored {
          records := records + [stored[job.ids[i]]];
        }
      }
      assert job.ids[..|job.ids|] == job.ids;
      fallbackQueue := fallbackQueue[1..];
      InsertedRows(rows, job.tier, records);
      assert old(fallbackQueue) == [job] + fallbackQueue;
      InsertBatchToDb(job.tier, records);
    }
  }
}
