/** The scheduler's job table and its handlers, which look a token up before they act on a job. */
module CIScheduler {
  import opened Wrappers
  import opened CIJobs

  datatype Code = OK | NoContent | BadRequest | Unauthorized | InternalError

  const BEARER := "Bearer "

  /** strings.TrimPrefix with "Bearer ", and no token without the prefix. */
  function BearerToken(header: string): (r: Option<string>)
    ensures forall token :: r == Some(token) <==> token != "" && header == "Bearer " + token
  {
    var token := if |BEARER| <= |header| && header[..|BEARER|] == BEARER then header[|BEARER|..] else header;
    assert forall t: string :: header == BEARER + t ==> header[..|BEARER|] == BEARER && header[|BEARER|..] == t;
    if token == "" || token == header then None else Some(token)
  }

  lemma OneJobPerToken(s: Sched, id: nat, h: string, found: Option<nat>)
    requires TableOk(s)
    requires found.Some? ==> Accepts(s, found.value, h) && found.value != id
    requires found.None? ==> !Accepts(s, id, h)
    ensures !Accepts(s, id, h)
  {
    assert forall k :: k in s.jobs && id in s.jobs && k != id ==> PairOk(s.jobs[id], s.jobs[k]);
  }

  class Scheduler {
    const hash: string -> string
    var jobs: map<nat, Job>
    var nextID: nat
    ghost var issued: set<string>
    var now: int

    ghost function State(): Sched
      reads this
    {
      Sched(jobs, issued, now)
    }

    ghost predicate Valid()
      reads this
    {
      TableOk(State()) && forall id :: id in jobs ==> id < nextID
    }

    constructor (hash: string -> string, now: int)
      ensures Valid() && jobs == map[] && this.hash == hash && this.now == now
    {
      this.hash, jobs, nextID, issued, this.now := hash, map[], 0, {}, now;
    }

    method Tick(elapsed: nat)
      requires Valid()
      modifies this`now
      ensures Valid() && State() == Next(old(State()), Event.Tick(elapsed))
    {
      StepKeeps(State(), Event.Tick(elapsed));
      now := now + elapsed;
    }

    method InsertCIJob() returns (id: nat)
      requires Valid()
      modifies this`jobs, this`nextID
      ensures Valid() && id !in old(jobs) && State() == Next(old(State()), Insert(id))
      ensures jobs == old(jobs)[id := Job(now, Queued, None, None, None, None, None, None, None, None)]
    {
      id := nextID;
      StepKeeps(State(), Insert(id));
      jobs := jobs[id := NewJob(now)];
      nextID := nextID + 1;
    }

    /** The query of ClaimCIJob: an oldest queued job, unless the pod already holds one. */
    method SelectOldest(pod: string) returns (id: Option<nat>)
      ensures id.Some? ==> Claimable(jobs, pod, id.value)
      ensures id.None? ==> forall k :: !Claimable(jobs, pod, k)
      ensures id.Some? <==>
        && (exists k :: k in jobs && jobs[k].status == Queued)
        && !exists k :: k in jobs && jobs[k].status == Claimed && jobs[k].pod == Some(pod)
      ensures id.Some? ==>
        && id.value in jobs && jobs[id.value].status == Queued
        && forall k :: k in jobs && jobs[k].status == Queued ==> jobs[id.value].createdAt <= jobs[k].createdAt
    {
      id := None;
      if exists k :: k in jobs && Holds(jobs, pod, k) {
        return;
      }
      var todo := jobs.Keys;
      while todo != {}
        invariant todo <= jobs.Keys
        invariant id.Some? ==> IsQueued(jobs, id.value)
        invariant forall k :: IsQueued(jobs, k) && k !in todo ==>
            id.Some? && jobs[id.value].createdAt <= jobs[k].createdAt
        decreases |todo|
      {
        var k :| k in todo;
        if jobs[k].status == Queued && (id.None? || jobs[k].createdAt < jobs[id.value].createdAt) {
          id := Some(k);
        }
        todo := todo - {k};
      }
    }

    /**
     * handleClaim: claims a job and stores the hash of a new token for it. Without a token, which
     * is how a failure after the claim shows, the job stays claimed until it is reaped.
     */
    method HandleClaim(pod: string, podIP: string, plaintext: Option<string>) returns (code: Code, id: Option<nat>)
      requires Valid() && (plaintext.Some? ==> hash(plaintext.value) !in issued)
      modifies this`jobs, this`issued
      ensures Valid()
      ensures id.None? ==> code == NoContent && State() == old(State()) && forall k :: !Claimable(jobs, pod, k)
      ensures id.Some? ==>
        var hashed := if plaintext.Some? then Some(hash(plaintext.value)) else None;
        && Claimable(old(jobs), pod, id.value) && State() == Next(old(State()), Claim(id.value, pod, podIP, hashed))
        && code == (if plaintext.Some? then OK else InternalError)
        && (plaintext.Some? ==> Accepts(State(), id.value, hash(plaintext.value)))
        && (var j := old(jobs)[id.value].(
              status := Claimed, claimedAt := Some(now), pod := Some(pod), podIP := Some(podIP));
            jobs == old(jobs)[id.value :=
              if plaintext.None? then j
              else j.(token := Some(hash(plaintext.value)), tokenExp := Some(now + 86_400_000_000))])
    {
      id := SelectOldest(pod);
      if id.None? {
        return NoContent, None;
      }
      ghost var hashed := if plaintext.Some? then Some(hash(plaintext.value)) else None;
      hide TableOk, Claimable;
      StepKeeps(State(), Claim(id.value, pod, podIP, hashed));
      ghost var o := Next(State(), Claim(id.value, pod, podIP, hashed));
      jobs := jobs[id.value := ClaimedBy(jobs[id.value], pod, podIP, now)];
      if plaintext.None? {
        assert State() == o;
        return InternalError, id;
      }
      StoreRequestToken(id.value, hash(plaintext.value), now + TOKEN_LIFE);
      issued := issued + {hash(plaintext.value)};
      assert jobs == o.jobs;
      assert State() == o;
      code := OK;
    }

    method StoreRequestToken(id: nat, hashed: string, exp: int)
      requires id in jobs
      modifies this`jobs
      ensures jobs == old(jobs)[id := old(jobs)[id].(token := Some(hashed), tokenExp := Some(exp))]
    {
      jobs := jobs[id := jobs[id].(token := Some(hashed), tokenExp := Some(exp))];
    }

    /** LookupRequestToken: the claimed job with this unexpired token. */
    method LookupRequestToken(hashed: string) returns (id: Option<nat>)
      ensures id.Some? ==> Accepts(State(), id.value, hashed)
      ensures id.None? ==> forall k :: !Accepts(State(), k, hashed)
      ensures id.Some? ==>
        && id.value in jobs && jobs[id.value].status == Claimed && jobs[id.value].token == Some(hashed)
        && jobs[id.value].tokenExp.Some? && now < jobs[id.value].tokenExp.value
      ensures id.None? ==> !exists k ::
        && k in jobs && jobs[k].status == Claimed && jobs[k].token == Some(hashed)
        && jobs[k].tokenExp.Some? && now < jobs[k].tokenExp.value
    {
      var todo := jobs.Keys;
      while todo != {}
        invariant forall k :: k in jobs && k !in todo ==> !Accepts(State(), k, hashed)
        decreases |todo|
      {
        var k :| k in todo;
        if k in jobs && jobs[k].token == Some(hashed) && jobs[k].tokenExp.Some? && jobs[k].tokenExp.value > now
           && jobs[k].status == Claimed {
          return Some(k);
        }
        todo := todo - {k};
      }
      id := None;
    }

    /** lookupByToken and the check that the token is this job's. */
    method Authenticate(id: nat, header: string) returns (ok: bool)
      requires Valid()
      ensures ok <==> exists token :: BearerToken(header) == Some(token) && Accepts(State(), id, hash(token))
    {
      var token := BearerToken(header);
      if token.None? {
        return false;
      }
      var job := LookupRequestToken(hash(token.value));
      if job.None? || job.value != id {
        OneJobPerToken(State(), id, hash(token.value), job);
        return false;
      }
      ok := true;
    }

    method HandleHeartbeat(id: nat, header: string) returns (code: Code)
      requires Valid()
      modifies this`jobs
      ensures Valid() && code in {NoContent, Unauthorized}
      ensures code == NoContent <==> exists token ::
          BearerToken(header) == Some(token) && Accepts(old(State()), id, hash(token))
      ensures forall token ::
          BearerToken(header) == Some(token) ==> State() == Next(old(State()), Heartbeat(id, hash(token)))
      ensures BearerToken(header).None? ==> State() == old(State())
      ensures jobs == if code == NoContent && id in old(jobs) then
        old(jobs)[id := old(jobs)[id].(lastHeartbeat := Some(now))] else old(jobs)
    {
      var ok := Authenticate(id, header);
      if !ok {
        return Unauthorized;
      }
      StepKeeps(State(), Heartbeat(id, hash(BearerToken(header).value)));
      jobs := jobs[id := jobs[id].(lastHeartbeat := Some(now))];
      code := NoContent;
    }

    method HandleComplete(id: nat, header: string, status: string, logURL: Option<string>, errorMessage: Option<string>)
      returns (code: Code)
      requires Valid()
      modifies this`jobs
      ensures Valid() && code in {NoContent, Unauthorized, BadRequest}
      ensures code == Unauthorized <==> !exists token ::
          BearerToken(header) == Some(token) && Accepts(old(State()), id, hash(token))
      ensures code != Unauthorized ==> (code == NoContent <==> Terminal(status))
      ensures forall token :: BearerToken(header) == Some(token) ==>
        State() == Next(old(State()), Complete(id, hash(token), status, logURL, errorMessage))
      ensures BearerToken(header).None? ==> State() == old(State())
      ensures code == NoContent ==> id in old(jobs)
      ensures code != Unauthorized ==> (code == NoContent <==> status == "passed" || status == "failed")
      ensures jobs == if code != NoContent || id !in old(jobs) then old(jobs) else
        old(jobs)[id := old(jobs)[id].(status := if status == "passed" then Passed else Failed,
          logURL := logURL, errorMessage := errorMessage, token := None, tokenExp := None)]
    {
      var ok := Authenticate(id, header);
      if !ok {
        return Unauthorized;
      }
      if status == "" {
        return BadRequest;
      }
      if status != "passed" && status != "failed" {
        return BadRequest;
      }
      StepKeeps(State(), Complete(id, hash(BearerToken(header).value), status, logURL, errorMessage));
      jobs := jobs[id := Finished(jobs[id], status, logURL, errorMessage)];
      code := NoContent;
    }

    /** The update of ReapStaleCIJobs, row by row. */
    method RequeueStale() returns (reaped: set<nat>)
      modifies this`jobs
      ensures jobs == Reaped(old(jobs), now)
      ensures forall id :: id in reaped <==> id in old(jobs) && Stale(old(jobs)[id], now)
    {
      hide Requeued, Stale;
      reaped := {};
      var todo := jobs.Keys;
      while todo != {}
        invariant todo <= jobs.Keys == old(jobs).Keys
        invariant forall id :: id in jobs ==> jobs[id] == if id !in todo
          && Stale(old(jobs)[id], now) then Requeued(old(jobs)[id]) else old(jobs)[id]
        invariant forall id :: id in reaped <==> id in old(jobs) && id !in todo && Stale(old(jobs)[id], now)
        decreases |todo|
      {
        var id :| id in todo;
        assert jobs[id] == old(jobs)[id];
        if Stale(jobs[id], now) {
          jobs := jobs[id := Requeued(jobs[id])];
          reaped := reaped + {id};
        }
        todo := todo - {id};
      }
    }

    /** ReapStaleCIJobs: requeues the stale jobs and returns them. */
    method ReapStaleCIJobs() returns (reaped: set<nat>)
      requires Valid()
      modifies this`jobs
      ensures Valid() && State() == Next(old(State()), Reap)
      ensures forall id :: id in reaped <==>
        && id in old(jobs) && old(jobs)[id].status == Claimed
        && (match old(jobs)[id].lastHeartbeat
            case Some(at) => at < now - 120_000_000
            case None => old(jobs)[id].claimedAt.Some? && old(jobs)[id].claimedAt.value < now - 120_000_000)
      ensures jobs.Keys == old(jobs).Keys
      ensures forall id :: id in jobs ==>
        jobs[id] == if id !in reaped then old(jobs)[id] else
          old(jobs)[id].(status := Queued, claimedAt := None, lastHeartbeat := None, pod := None, podIP := None,
                         token := None, tokenExp := None)
    {
      StepKeeps(State(), Reap);
      reaped := RequeueStale();
    }
  }
}
