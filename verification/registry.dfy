/**
 * The process-wide job-type registry: a map from name to JobType that
 * RegisterJobType extends, refusing duplicate names and handlers that are
 * not functions of zero or one parameter.
 */
module Registry {
  import opened Wrappers
  import opened Types

  /** Every entry is filed under its own name and carries a handler that was accepted. */
  ghost predicate WellFormed(types: map<string, JobType>)
  {
    forall n :: n in types ==> types[n].name == n && ValidHandler(types[n].handler)
  }

  /**
   * The outcome of RegisterJobType(name, retries, handler) against the
   * registry contents `types`.
   */
  function RegisterResult(types: map<string, JobType>, name: string, retries: nat, handler: HandlerShape)
    : (r: Result<JobType, Error>)
    ensures r.Success? <==> name !in types && ValidHandler(handler)
    ensures r.Success? ==> r.value.name == name && r.value.retries == retries && r.value.handler == handler
    ensures name in types ==> r == Failure(NameAlreadyRegistered(name))
    ensures name !in types && !ValidHandler(handler) ==> r.Failure? && r.error.InvalidHandler?
  {
    if name in types then Failure(NameAlreadyRegistered(name))
    else if !ValidHandler(handler) then Failure(InvalidHandler(handler))
    else Success(JobType(name, retries, handler))
  }

  /** The registry contents after a registration whose outcome is `r`. */
  function RegisteredTypes(types: map<string, JobType>, r: Result<JobType, Error>): map<string, JobType>
  {
    if r.Success? then types[r.value.name := r.value] else types
  }

  /**
   * One registration changes the registry exactly when it succeeds: the new
   * name is then present with the returned JobType, and every other entry is
   * untouched; a failed registration leaves the registry as it was.
   */
  lemma RegisterEffect(types: map<string, JobType>, name: string, retries: nat, handler: HandlerShape)
    requires WellFormed(types)
    ensures var r := RegisterResult(types, name, retries, handler);
      var types' := RegisteredTypes(types, r);
      && WellFormed(types')
      && (r.Success? ==> types'.Keys == types.Keys + {name} && types'[name] == r.value && |types'| == |types| + 1)
      && (r.Failure? ==> types' == types)
      && (forall n :: n in types ==> n in types' && types'[n] == types[n])
  {
  }

  /** A request to register a job type, as RegisterJobType receives it. */
  datatype Registration = Registration(name: string, retries: nat, handler: HandlerShape)

  /** The registry contents after the given registrations, in order. */
  function RegisterAll(types: map<string, JobType>, regs: seq<Registration>): map<string, JobType>
    decreases |regs|
  {
    if regs == [] then types
    else
      var g := regs[0];
      RegisterAll(RegisteredTypes(types, RegisterResult(types, g.name, g.retries, g.handler)), regs[1..])
  }

  /**
   * Once registered, a name keeps its JobType for good: no later
   * registration, successful or not, replaces or removes it, and the
   * registry stays well formed.
   */
  lemma {:induction false} RegisteredNeverReplaced(types: map<string, JobType>, regs: seq<Registration>)
    requires WellFormed(types)
    ensures var final := RegisterAll(types, regs);
      && WellFormed(final)
      && forall n :: n in types ==> n in final && final[n] == types[n]
    decreases |regs|
  {
    if regs != [] {
      var g := regs[0];
      var next := RegisteredTypes(types, RegisterResult(types, g.name, g.retries, g.handler));
      RegisterEffect(types, g.name, g.retries, g.handler);
      RegisteredNeverReplaced(next, regs[1..]);
    }
  }

  /**
   * The first successful registration of a name decides its JobType: if the
   * name is new and registered with a valid handler, it is in the registry
   * after any further registrations with exactly that name and retry count.
   */
  lemma {:induction false} FirstRegistrationWins(types: map<string, JobType>, g: Registration, rest: seq<Registration>)
    requires WellFormed(types)
    requires g.name !in types && ValidHandler(g.handler)
    ensures var final := RegisterAll(types, [g] + rest);
      && g.name in final
      && final[g.name] == JobType(g.name, g.retries, g.handler)
  {
    var next := RegisteredTypes(types, RegisterResult(types, g.name, g.retries, g.handler));
    assert ([g] + rest)[1..] == rest;
    RegisterEffect(types, g.name, g.retries, g.handler);
    RegisteredNeverReplaced(next, rest);
  }

  /** The registry object: the process-wide map from name to JobType. */
  class JobTypeRegistry {
    var jobTypes: map<string, JobType>

    ghost predicate Valid()
      reads this
    {
      WellFormed(jobTypes)
    }

    constructor ()
      ensures Valid() && jobTypes == map[]
    {
      jobTypes := map[];
    }

    /** Empties the registry, as a test does before it starts. */
    method Reset()
      modifies this
      ensures Valid() && jobTypes == map[]
    {
      jobTypes := map[];
    }

    /**
     * Registers a job type: fails with NameAlreadyRegistered on a duplicate
     * name, with InvalidHandler on a handler that is not a function of zero
     * or one parameter, and otherwise adds the new JobType under its name.
     */
    method RegisterJobType(name: string, retries: nat, handler: HandlerShape) returns (r: Result<JobType, Error>)
      requires Valid()
      modifies this
      ensures Valid()
      ensures r == RegisterResult(old(jobTypes), name, retries, handler)
      ensures jobTypes == RegisteredTypes(old(jobTypes), r)
    {
      if name in jobTypes {
        return Failure(NameAlreadyRegistered(name));
      }
      if !handler.Func? || |handler.params| > 1 {
        return Failure(InvalidHandler(handler));
      }
      var jobType := JobType(name, retries, handler);
      jobTypes := jobTypes[name := jobType];
      r := Success(jobType);
    }

    /** Looks a job type up by name. */
    method Lookup(name: string) returns (jt: Option<JobType>)
      requires Valid()
      ensures jt.Some? <==> name in jobTypes
      ensures jt.Some? ==> jt.value == jobTypes[name] && jt.value.name == name && ValidHandler(jt.value.handler)
    {
      if name in jobTypes {
        jt := Some(jobTypes[name]);
      } else {
        jt := None;
      }
    }
  }
}
