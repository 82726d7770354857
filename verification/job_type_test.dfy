/**
 * The two scenarios of job_type_test.go, replayed against the registry and
 * the store: every check the scenarios make is an assertion here, so it
 * follows from the contracts of RegisterJobType and Schedule alone.
 */
module JobTypeTest {
  import opened Wrappers
  import opened Types
  import opened Timing
  import opened Registry
  import opened Scheduler

  /**
   * Registering "testJob1" (3 retries, handler of no parameter) succeeds and
   * files it under its name; registering the name again fails with
   * NameAlreadyRegistered; a handler of one string parameter is accepted;
   * a non-function and a two-parameter function are both refused, leaving
   * the registry unchanged.
   */
  method RegisterJobTypeScenario() returns (reg: JobTypeRegistry)
    ensures reg.Valid()
    ensures reg.jobTypes.Keys == {"testJob1", "testJobWithArg"}
    ensures reg.jobTypes["testJob1"] == JobType("testJob1", 3, Func([]))
    ensures reg.jobTypes["testJobWithArg"] == JobType("testJobWithArg", 0, Func([StringKind]))
  {
    reg := new JobTypeRegistry();
    reg.Reset();
    var r := reg.RegisterJobType("testJob1", 3, Func([]));
    assert r.Success? && r.value.name == "testJob1" && r.value.retries == 3;
    assert "testJob1" in reg.jobTypes;

    r := reg.RegisterJobType("testJob1", 0, Func([]));
    assert r == Failure(NameAlreadyRegistered("testJob1"));

    r := reg.RegisterJobType("testJobWithArg", 0, Func([StringKind]));
    assert r.Success?;

    var invalidHandlers := [NotAFunc, Func([StringKind, StringKind])];
    ghost var registered := reg.jobTypes;
    var i := 0;
    while i < |invalidHandlers|
      invariant 0 <= i <= |invalidHandlers|
      invariant reg.Valid() && reg.jobTypes == registered
    {
      r := reg.RegisterJobType("testJobWithInvalidHandler", 0, invalidHandlers[i]);
      assert r.Failure? && r.error == InvalidHandler(invalidHandlers[i]);
      i := i + 1;
    }
  }

  /**
   * Scheduling a string payload on a job type whose handler takes a string
   * stores a record under the new job's key with priority 100, the time in
   * UTC nanoseconds, the encoded payload and status Queued; scheduling an
   * int payload on the same job type fails and stores nothing.
   */
  method JobTypeScheduleScenario(now: Time, later: Time, encode: Encoder, id: string, otherId: string)
    returns (store: Store, job: Job)
    requires now.Valid() && encode(StringValue("testData")).Some?
    requires id != "" && otherId != "" && otherId != id
    ensures store.Valid()
    ensures job.id != "" && store.records.Keys == {job.Key()}
    ensures store.records[job.Key()].priority == 100
    ensures store.records[job.Key()].time == UnixNano(UTC(now))
    ensures Some(store.records[job.Key()].data) == encode(StringValue("testData"))
    ensures store.records[job.Key()].status == Queued
  {
    var reg := new JobTypeRegistry();
    var registered := reg.RegisterJobType("testJob1", 0, Func([StringKind]));
    assert registered.Success?;
    var jobType := registered.value;

    store := new Store();
    var r := store.Schedule(jobType, 100, now, StringValue("testData"), id, encode);
    assert r.Success?;
    job := r.value;
    assert job.Key() == JobKey(id);

    KeyInjective(id, otherId);
    var bad := store.Schedule(jobType, 0, later, IntValue(0), otherId, encode);
    assert bad == Failure(InvalidJobData(StringKind, IntKind));
  }
}
