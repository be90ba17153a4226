/** The partitioned event processor as objects: one worker a partition, each with a
    bounded channel. */
module PartitionedProcessor {
  import opened Optional
  import opened EventLog
  import opened PartitionRouter

  class PartitionWorker {
    const partitionID: int
    var eventChan: seq<EventRecord>
    ghost var processed: seq<EventRecord>
    var stopped: bool

    constructor (partitionID: int)
      ensures this.partitionID == partitionID && Value() == Worker([], [], false)
    {
      this.partitionID, eventChan, processed, stopped := partitionID, [], [], false;
    }

    ghost function Value(): Worker
      reads this
    {
      Worker(eventChan, processed, stopped)
    }

    /** One turn of the worker's loop. */
    method Turn() returns (event: Option<EventRecord>)
      modifies this
      ensures event.Some? <==> CanWork(old(Value()))
      ensures event.Some? ==> event.value == old(eventChan)[0] && Value() == Worked(old(Value()))
      ensures event.None? ==> Value() == old(Value())
    {
      if stopped || |eventChan| == 0 {
        return None;
      }
      event := Some(eventChan[0]);
      eventChan := eventChan[1..];
      processed := processed + [event.value];
    }
  }

  class PartitionedEventProcessor {
    var partitions: map<int, PartitionWorker>
    ghost var accepted: seq<EventRecord>

    ghost predicate Valid()
      reads this, partitions.Values
    {
      && Sized(View(), |partitions|)
      && (forall i, j :: i in partitions && j in partitions && i != j ==> partitions[i] != partitions[j])
    }

    ghost function View(): Processor
      reads this, partitions.Values
    {
      Processor(map i | i in partitions :: partitions[i].Value(), accepted)
    }

    lemma OneChanged(before: Processor, i: int)
      requires i in partitions && before.workers.Keys == partitions.Keys
      requires forall k :: k in partitions && k != i ==> partitions[k].Value() == before.workers[k]
      ensures View().workers == before.workers[i := partitions[i].Value()]
    {
    }

    lemma AllNew(n: int)
      requires n >= 0 && accepted == []
      requires forall k :: k in partitions <==> 1 <= k <= n
      requires forall k :: k in partitions ==> partitions[k].Value() == Worker([], [], false)
      ensures View() == NewProcessor(n)
    {
      assert forall k :: k in partitions <==> k in NewProcessor(n).workers;
    }

    /** One worker for each of 1 to `numPartitions`; none when that is not positive. */
    constructor (numPartitions: int)
      ensures Valid() && |partitions| == (if numPartitions > 0 then numPartitions else 0)
      ensures View() == NewProcessor(|partitions|)
      ensures fresh(partitions.Values)
    {
      partitions, accepted := map[], [];
      new;
      var i := 1;
      while i <= numPartitions
        invariant 1 <= i && (i <= numPartitions + 1 || i == 1) && |partitions| == i - 1 && accepted == []
        invariant forall k :: k in partitions <==> 1 <= k < i
        invariant forall k :: k in partitions ==> fresh(partitions[k]) && partitions[k].Value() == Worker([], [], false)
        invariant forall k, j :: k in partitions && j in partitions && k != j ==> partitions[k] != partitions[j]
      {
        var worker := new PartitionWorker(i);
        partitions := partitions[i := worker];
        i := i + 1;
      }
      AllNew(i - 1);
    }

    /** The user's partition, by a loop over the characters of its id. */
    method GetPartitionForUser(userID: string) returns (partition: int)
      requires |partitions| > 0
      ensures partition == PartitionOf(userID, |partitions|)
    {
      var hash := 0;
      for k := 0 to |userID|
        invariant hash == Hash(userID[..k])
      {
        HashNext(userID, k);
        hash := Wrap(hash * 31 + userID[k] as int);
      }
      assert userID[..|userID|] == userID;
      return Remainder(hash, |partitions|) + 1;
    }

    /** Routes an event to its user's worker, or says why not. */
    method ProcessEvent(event: EventRecord) returns (r: Submission)
      requires Valid()
      modifies this`accepted, partitions.Values
      ensures r == Submitted(old(View()), |partitions|, event)
      ensures Valid() && View() == AfterSubmit(old(View()), |partitions|, event)
    {
      if event.causedBy == "" {
        return MissingUser;
      }
      if |partitions| == 0 {
        return DividesByZero;
      }
      var i := GetPartitionForUser(event.causedBy);
      if i !in partitions {
        return NoPartition(i);
      }
      var worker := partitions[i];
      if |worker.eventChan| >= CAPACITY {
        return ChannelFull(i);
      }
      ghost var view := View();
      worker.eventChan := worker.eventChan + [event];
      accepted := accepted + [event];
      OneChanged(view, i);
      return Routed(i);
    }

    /** A turn of one partition's worker. */
    method WorkerTurn(i: int)
      requires Valid() && i in partitions
      modifies partitions[i]
      ensures Valid() && View() == Step(old(View()), |partitions|, Work(i))
    {
      ghost var view := View();
      var _ := partitions[i].Turn();
      OneChanged(view, i);
    }

    /** Stops one partition's worker; what waits in its channel is not processed. */
    method StopWorker(i: int)
      requires Valid() && i in partitions
      modifies partitions[i]
      ensures Valid() && View() == Step(old(View()), |partitions|, Action.StopWorker(i))
    {
      ghost var view := View();
      partitions[i].stopped := true;
      OneChanged(view, i);
    }
  }
}
