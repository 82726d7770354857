/**
 * JobType.Schedule: check the payload against the handler's parameter kind,
 * encode it, and persist a new job record, status Queued, under a fresh key
 * in the store. The store is a map from record key to record.
 */
module Scheduler {
  import opened Wrappers
  import opened Types
  import opened Timing

  datatype Status = Queued | Executing | Finished | Failed | Cancelled

  /** The fields persisted for one job. */
  datatype JobRecord = JobRecord(typeName: string, priority: int, time: int, data: Bytes, status: Status, retries: nat)

  const KeyPrefix: string := "jobs:"

  /** The store key of the job with the given id. */
  function JobKey(id: string): string
  {
    KeyPrefix + id
  }

  /** The store keys that belong to a job with a non-empty id. */
  predicate IsJobKey(k: string)
  {
    |k| > |KeyPrefix| && k[..|KeyPrefix|] == KeyPrefix
  }

  /** The id a job key belongs to. */
  function IdOfKey(k: string): string
    requires IsJobKey(k)
  {
    k[|KeyPrefix|..]
  }

  /** Keys and ids correspond one to one; a non-empty id gives a job key. */
  lemma KeyRoundTrip(id: string)
    ensures id != "" <==> IsJobKey(JobKey(id))
    ensures id != "" ==> IdOfKey(JobKey(id)) == id
  {
  }

  lemma KeyInjective(a: string, b: string)
    ensures JobKey(a) == JobKey(b) ==> a == b
  {
    if JobKey(a) == JobKey(b) {
      assert a == JobKey(a)[|KeyPrefix|..];
      assert b == JobKey(b)[|KeyPrefix|..];
    }
  }

  /** A scheduled job, as Schedule returns it. */
  datatype Job = Job(id: string, typeName: string, priority: int, time: int, data: Bytes, status: Status, retries: nat)
  {
    function Key(): string
    {
      JobKey(id)
    }

    function Record(): JobRecord
    {
      JobRecord(typeName, priority, time, data, status, retries)
    }
  }

  /**
   * The outcome of jt.Schedule(priority, t, data) when the fresh id is `id`:
   * a payload of the wrong kind is refused with InvalidJobData, a payload the
   * codec cannot encode with EncodeFailed; otherwise the job carries the
   * arguments, the time as UTC nanoseconds, the encoded payload, the job
   * type's name and retry budget, and status Queued.
   */
  function ScheduleResult(jt: JobType, priority: int, t: Time, data: Value, id: string, encode: Encoder)
    : (r: Result<Job, Error>)
    requires ValidHandler(jt.handler)
    ensures r.Success? <==> jt.Accepts(data) && encode(data).Some?
    ensures !jt.Accepts(data) ==> r == Failure(InvalidJobData(jt.handler.params[0], KindOf(data)))
    ensures r.Success? ==>
      && r.value.id == id
      && r.value.typeName == jt.name
      && r.value.priority == priority
      && r.value.time == UnixNano(t)
      && encode(data) == Some(r.value.data)
      && r.value.status == Queued
      && r.value.retries == jt.retries
  {
    if !jt.Accepts(data) then
      Failure(InvalidJobData(jt.PayloadKind().value, KindOf(data)))
    else
      match encode(data)
      case None => Failure(EncodeFailed)
      case Some(bytes) => Success(Job(id, jt.name, priority, UnixNano(UTC(t)), bytes, Queued, jt.retries))
  }

  /** The store contents after a Schedule call whose outcome is `r`. */
  function Stored(records: map<string, JobRecord>, r: Result<Job, Error>): map<string, JobRecord>
  {
    if r.Success? then records[r.value.Key() := r.value.Record()] else records
  }

  /**
   * What one successful Schedule leaves in the store: a record under the
   * job's key whose fields read back as the priority, the scheduled time in
   * UTC, the encoded payload and status Queued; nothing else changes. A
   * failed Schedule persists nothing.
   */
  lemma ScheduleEffect(records: map<string, JobRecord>, jt: JobType, priority: int, t: Time, data: Value,
                       id: string, encode: Encoder)
    requires ValidHandler(jt.handler) && t.Valid()
    requires id != "" && JobKey(id) !in records
    ensures var r := ScheduleResult(jt, priority, t, data, id, encode);
      var records' := Stored(records, r);
      && (r.Success? ==>
        && r.value.id != ""
        && records'.Keys == records.Keys + {JobKey(id)}
        && records'[JobKey(id)].priority == priority
        && FromUnixNano(records'[JobKey(id)].time) == UTC(t)
        && Some(records'[JobKey(id)].data) == encode(data)
        && records'[JobKey(id)].status == Queued)
      && (r.Failure? ==> records' == records)
      && (forall k :: k in records ==> k in records' && records'[k] == records[k])
  {
  }

  /** The store object: job records by key. */
  class Store {
    var records: map<string, JobRecord>

    /** Every record is filed under the key of a job with a non-empty id. */
    ghost predicate Valid()
      reads this
    {
      forall k :: k in records ==> IsJobKey(k)
    }

    constructor ()
      ensures Valid() && records == map[]
    {
      records := map[];
    }

    /**
     * jt.Schedule(priority, t, data), with `id` the freshly generated job id:
     * on success the job's record is written to the store in one step; on
     * failure nothing is written.
     */
    method Schedule(jt: JobType, priority: int, t: Time, data: Value, id: string, encode: Encoder)
      returns (r: Result<Job, Error>)
      requires Valid() && ValidHandler(jt.handler)
      requires id != "" && JobKey(id) !in records
      modifies this
      ensures Valid()
      ensures r == ScheduleResult(jt, priority, t, data, id, encode)
      ensures records == Stored(old(records), r)
    {
      if |jt.handler.params| == 1 && jt.handler.params[0] != KindOf(data) {
        return Failure(InvalidJobData(jt.handler.params[0], KindOf(data)));
      }
      var encoded := encode(data);
      if encoded.None? {
        return Failure(EncodeFailed);
      }
      var job := Job(id, jt.name, priority, UnixNano(UTC(t)), encoded.value, Queued, jt.retries);
      records := records[job.Key() := job.Record()];
      r := Success(job);
    }

    /** Reads the record stored under a key, if any. */
    method Get(key: string) returns (rec: Option<JobRecord>)
      ensures rec.Some? <==> key in records
      ensures rec.Some? ==> rec.value == records[key]
    {
      if key in records {
        rec := Some(records[key]);
      } else {
        rec := None;
      }
    }
  }

  /** A call jt.Schedule(priority, time, data) together with the id it generates. */
  datatype Request = Request(jobType: JobType, priority: int, time: Time, data: Value, id: string)

  predicate ValidRequests(reqs: seq<Request>)
  {
    forall i :: 0 <= i < |reqs| ==> ValidHandler(reqs[i].jobType.handler)
  }

  /** The store contents after the given Schedule calls, in order. */
  function ScheduleAll(records: map<string, JobRecord>, reqs: seq<Request>, encode: Encoder): map<string, JobRecord>
    requires ValidRequests(reqs)
    decreases |reqs|
  {
    if reqs == [] then records
    else
      var q := reqs[0];
      ScheduleAll(Stored(records, ScheduleResult(q.jobType, q.priority, q.time, q.data, q.id, encode)), reqs[1..], encode)
  }

  /** Generated ids are non-empty, pairwise distinct and not yet in the store. */
  predicate FreshIds(records: map<string, JobRecord>, reqs: seq<Request>)
  {
    && (forall i :: 0 <= i < |reqs| ==> reqs[i].id != "" && JobKey(reqs[i].id) !in records)
    && (forall i, j :: 0 <= i < j < |reqs| ==> reqs[i].id != reqs[j].id)
  }

  /**
   * With fresh ids, Schedule never overwrites: every record already in the
   * store survives any sequence of Schedule calls unchanged, and the record
   * each successful call wrote is still there afterwards.
   */
  lemma {:induction false} ScheduleNeverOverwrites(records: map<string, JobRecord>, reqs: seq<Request>, encode: Encoder)
    requires ValidRequests(reqs) && FreshIds(records, reqs)
    ensures var final := ScheduleAll(records, reqs, encode);
      && (forall k :: k in records ==> k in final && final[k] == records[k])
      && (forall i :: 0 <= i < |reqs| ==>
            var r := ScheduleResult(reqs[i].jobType, reqs[i].priority, reqs[i].time, reqs[i].data, reqs[i].id, encode);
            r.Success? ==> JobKey(reqs[i].id) in final && final[JobKey(reqs[i].id)] == r.value.Record())
    decreases |reqs|
  {
    if reqs != [] {
      var q := reqs[0];
      var r0 := ScheduleResult(q.jobType, q.priority, q.time, q.data, q.id, encode);
      var next := Stored(records, r0);
      var rest := reqs[1..];
      forall i | 0 <= i < |rest|
        ensures rest[i].id != "" && JobKey(rest[i].id) !in next
      {
        assert rest[i] == reqs[i + 1];
        KeyInjective(q.id, rest[i].id);
      }
      assert FreshIds(next, rest);
      ScheduleNeverOverwrites(next, rest, encode);
      var final := ScheduleAll(records, reqs, encode);
      assert final == ScheduleAll(next, rest, encode);
      forall i | 0 <= i < |reqs|
        ensures var r := ScheduleResult(reqs[i].jobType, reqs[i].priority, reqs[i].time, reqs[i].data, reqs[i].id, encode);
          r.Success? ==> JobKey(reqs[i].id) in final && final[JobKey(reqs[i].id)] == r.value.Record()
      {
        if i > 0 {
          assert reqs[i] == rest[i - 1];
        }
      }
    }
  }
}
