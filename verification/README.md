# Job-type registry and scheduling, modelled in Dafny

This project models the core of a persistent background-job scheduler written
in Go. Clients register named job types with a handler and a retry budget. They
then schedule jobs of a type with a priority, an earliest execution time and a
payload. The model covers the two operations whose contract
`job_type_test.go` pins down:

- `RegisterJobType(name, retries, handler)` adds a `JobType` to the
  process-wide registry. It refuses a name that is already registered with
  `NameAlreadyRegistered`. It refuses a handler that is not a function of zero
  or one parameter with `InvalidHandler`.
- `JobType.Schedule(priority, time, data)` checks the payload against the
  handler's parameter kind and encodes it. It then writes one job record under
  a fresh key: the priority, the time as UTC nanoseconds, the encoded payload,
  the status `Queued`, the type name and the retry budget.

Files:

- `wrappers.dfy`: `Option` and `Result`, standing in for Go's `(value, error)` pairs.
- `types.dfy`: payload kinds and values, handler shapes, `JobType` and the errors.
  Go reflection on the handler becomes the datatype
  `HandlerShape = NotAFunc | Func(params)`. The payload's dynamic type becomes
  `KindOf(value)`.
- `registry.dfy`: the registry as a class with a `map` field. Pure functions
  give the outcome of one registration. Lemmas cover one registration and a
  sequence of them.
- `timing.dfy`: `time.Time` as seconds, nanoseconds and zone offset, with
  `UTC`, `UnixNano` and the inverse `FromUnixNano`.
- `scheduler.dfy`: job records, store keys (`"jobs:" + id`), the outcome of one
  `Schedule`, and the store as a class with a `map` field. Lemmas cover one
  call and a sequence of calls.
- `job_type_test.dfy`: the two Go test functions as client methods. Every check
  they make is an assertion that follows from the contracts above.

The codec is the parameter `encode: Value -> Option<Bytes>` because its byte
format is not part of this model. The random job id is also a parameter.
`Schedule` requires that the id is non-empty and that its key is not yet in
the store. Time is a parameter rather than a clock reading.

The implementations of `RegisterJobType` and `Schedule` are not part of this
model; only the test that exercises them is. Where the test leaves a choice
open, the model follows the system's written design:

- The duplicate-name check comes before the handler check.
- A handler of zero parameters accepts a payload of any kind.

## Model

| member | source | states |
|---|---|---|
| `Registry.RegisterResult` | job_type_test.go:17-55 | registration succeeds iff the name is new and the handler is a function of 0 or 1 parameters; the returned JobType has exactly the given name, retries and handler; a duplicate name gives `NameAlreadyRegistered(name)`; an invalid handler under a new name gives `InvalidHandler` |
| `Registry.RegisterEffect` | job_type_test.go:32-55 | a successful registration adds exactly the new name, mapped to the returned JobType, and the size grows by one; a failed one leaves the registry unchanged; other entries never change; well-formedness is kept |
| `Registry.RegisteredNeverReplaced` | job_type_test.go:36-41 | across any sequence of registrations, every name already registered keeps its JobType, and the registry stays well formed |
| `Registry.FirstRegistrationWins` | job_type_test.go:18-41 | after a successful registration of a new name, that name maps to the JobType with the given name and retries, whatever registrations follow |
| `Registry.JobTypeRegistry.constructor` | job_type_test.go:16 | a new registry is empty and valid |
| `Registry.JobTypeRegistry.Reset` | job_type_test.go:16 | resetting empties the registry |
| `Registry.JobTypeRegistry.RegisterJobType` | job_type_test.go:17-55 | the method returns `RegisterResult` of the old contents; the new contents are the old plus the registered JobType on success and unchanged on failure; validity is kept |
| `Registry.JobTypeRegistry.Lookup` | job_type_test.go:32-35 | a lookup finds a name iff it is a key of the registry, and returns the JobType filed under that name with a valid handler |
| `Timing.FromUnixNano` | job_type_test.go:70 | the time rebuilt from a nanosecond count is normalised, in UTC, and has exactly that nanosecond count |
| `Timing.UnixNanoOfUTC` | job_type_test.go:70 | converting to UTC does not change the nanosecond count |
| `Timing.UnixNanoRoundTrip` | job_type_test.go:70 | the stored nanosecond count gives back the scheduled time, presented in UTC |
| `Timing.UnixNanoInjective` | job_type_test.go:86 | two normalised times with equal nanosecond counts are the same instant |
| `Scheduler.KeyRoundTrip` | job_type_test.go:81-84 | an id is non-empty iff its key is a job key, and the id is recovered from its key |
| `Scheduler.KeyInjective` | job_type_test.go:84 | distinct ids have distinct store keys |
| `Scheduler.ScheduleResult` | job_type_test.go:76-92 | Schedule succeeds iff the handler accepts the payload's kind and the codec encodes it; a kind mismatch gives `InvalidJobData(expected, got)`; a successful job has the given id, the type's name and retries, the priority, the time's UTC nanoseconds, the encoded payload and status Queued |
| `Scheduler.ScheduleEffect` | job_type_test.go:80-92 | a successful Schedule adds one record under the job's key, with the priority, a time that reads back as the scheduled time in UTC, the encoded payload and status Queued; other records are unchanged; a failed Schedule stores nothing |
| `Scheduler.ScheduleNeverOverwrites` | job_type_test.go:76-84 | with fresh, distinct ids, any sequence of Schedule calls keeps every earlier record unchanged and leaves each successful call's record in the store |
| `Scheduler.Store.constructor` | job_type_test.go:59 | a new store is empty and valid |
| `Scheduler.Store.Schedule` | job_type_test.go:76-92 | the method returns `ScheduleResult`; the store gains that job's record on success and is unchanged on failure; every key stays the key of a non-empty id |
| `Scheduler.Store.Get` | job_type_test.go:84-88 | a read finds a record iff the key is in the store and returns that record |
| `JobTypeTest.RegisterJobTypeScenario` | job_type_test.go:12-56 | after the scenario the registry holds exactly `testJob1` (3 retries, no-parameter handler) and `testJobWithArg` (string handler); the duplicate and both invalid handlers are refused and leave the registry unchanged |
| `JobTypeTest.JobTypeScheduleScenario` | job_type_test.go:58-93 | the scheduled job has a non-empty id; the store holds exactly its record, with priority 100, the time's UTC nanoseconds, the encoded payload and status Queued; the int payload is refused with `InvalidJobData(StringKind, IntKind)` |

## Left out

- The durable store is an in-memory `map` from key to record. Connections, field-level storage, the store's own failures and the ordered pending-job index are not modelled.
- The payload codec is the parameter `encode`, and its byte format is not modelled. Decoding is not modelled.
- Random id generation is the parameter `id`, with a precondition that the id is fresh.
- Go reflection is replaced by `HandlerShape` and `KindOf`. Payload kinds are limited to string, int, bool and bytes. Variadic handlers and struct or pointer payloads are not modelled.
- The global `jobTypes` variable and its lock are an object of class `JobTypeRegistry`. Concurrency is not modelled.
- Reading the clock (`time.Now`) is not modelled; times are parameters.
- `Timing.UnixNano`: int64 overflow outside the years 1678 to 2262 is not modelled, because the count is an unbounded integer.
- `Scheduler.ScheduleResult`: priority is an unbounded integer, so 64-bit overflow of Go's `int` is not modelled.
- Claiming, status transitions after `Queued`, retries and the worker pool are not modelled. They are not part of the core file.
