/**
 * The CI job lease (internal/db/ci_jobs.go and the handlers of cmd/ci-scheduler): queued, claimed,
 * passed or failed, with request tokens, heartbeats and a reaper. Handlers are atomic steps, times
 * are microseconds of one clock, and tokens are known by their hash.
 */
module CIJobs {
  import opened Wrappers

  const TWO_MINUTES: int := 120_000_000

  const TOKEN_LIFE: int := 86_400_000_000

  datatype JobStatus = Queued | Claimed | Passed | Failed

  datatype Job = Job(
    createdAt: int, status: JobStatus, claimedAt: Option<int>, lastHeartbeat: Option<int>,
    pod: Option<string>, podIP: Option<string>, token: Option<string>, tokenExp: Option<int>,
    logURL: Option<string>, errorMessage: Option<string>)

  /** The table, the token hashes handed out so far, and the time. */
  datatype Sched = Sched(jobs: map<nat, Job>, issued: set<string>, now: int)

  function NewJob(now: int): Job { Job(now, Queued, None, None, None, None, None, None, None, None) }

  /** COALESCE(last_heartbeat_at, claimed_at). */
  function LastSign(j: Job): Option<int> { if j.lastHeartbeat.Some? then j.lastHeartbeat else j.claimedAt }

  /** The reaper's condition; a NULL sign of life is never stale. */
  predicate Stale(j: Job, now: int) {
    j.status == Claimed && LastSign(j).Some? && LastSign(j).value < now - TWO_MINUTES
  }

  function Requeued(j: Job): Job {
    j.(status := Queued, claimedAt := None, lastHeartbeat := None, pod := None, podIP := None, token := None,
      tokenExp := None)
  }

  function ClaimedBy(j: Job, pod: string, podIP: string, now: int): Job {
    j.(status := Claimed, claimedAt := Some(now), pod := Some(pod), podIP := Some(podIP))
  }

  predicate Holds(jobs: map<nat, Job>, pod: string, id: nat) {
    id in jobs && jobs[id].status == Claimed && jobs[id].pod == Some(pod)
  }

  predicate IsQueued(jobs: map<nat, Job>, id: nat) { id in jobs && jobs[id].status == Queued }

  /** The row the claim query may pick: an oldest queued one, unless the pod already holds a claim. */
  ghost predicate Claimable(jobs: map<nat, Job>, pod: string, id: nat) {
    && IsQueued(jobs, id) && (forall k :: !Holds(jobs, pod, k))
    && (forall k :: IsQueued(jobs, k) ==> jobs[id].createdAt <= jobs[k].createdAt)
  }

  /** The token hash h authenticates for job id. */
  predicate Accepts(s: Sched, id: nat, h: string) {
    && id in s.jobs && s.jobs[id].token == Some(h) && s.jobs[id].status == Claimed
    && s.jobs[id].tokenExp.Some? && s.jobs[id].tokenExp.value > s.now
  }

  /** Claim's hash is absent when the handler failed after the claim and handed out no token. */
  datatype Event =
    | Insert(id: nat)
    | Claim(id: nat, pod: string, podIP: string, hash: Option<string>)
    | Heartbeat(id: nat, h: string)
    | Complete(id: nat, h: string, status: string, logURL: Option<string>, errorMessage: Option<string>)
    | Reap
    | Tick(elapsed: nat)

  ghost predicate Enabled(s: Sched, e: Event) {
    match e
    case Insert(id) => id !in s.jobs
    case Claim(id, pod, _, hash) => Claimable(s.jobs, pod, id) && (hash.Some? ==> hash.value !in s.issued)
    case Heartbeat(_, _) => true
    case Complete(_, _, _, _, _) => true
    case Reap => true
    case Tick(_) => true
  }

  function Reaped(jobs: map<nat, Job>, now: int): map<nat, Job> {
    map id | id in jobs :: if Stale(jobs[id], now) then Requeued(jobs[id]) else jobs[id]
  }

  function WithToken(j: Job, hash: Option<string>, now: int): Job {
    if hash.Some? then j.(token := hash, tokenExp := Some(now + TOKEN_LIFE)) else j
  }

  function Issue(issued: set<string>, hash: Option<string>): set<string> {
    if hash.Some? then issued + {hash.value} else issued
  }

  predicate Terminal(status: string) { status == "passed" || status == "failed" }

  function Finished(j: Job, status: string, logURL: Option<string>, errorMessage: Option<string>): Job {
    j.(status := if status == "passed" then Passed else Failed, logURL := logURL, errorMessage := errorMessage,
       token := None, tokenExp := None)
  }

  ghost function Next(s: Sched, e: Event): Sched
    requires Enabled(s, e)
  {
    match e
    case Insert(id) => s.(jobs := s.jobs[id := NewJob(s.now)])
    case Claim(id, pod, podIP, hash) =>
      s.(jobs := s.jobs[id := WithToken(ClaimedBy(s.jobs[id], pod, podIP, s.now), hash, s.now)],
        issued := Issue(s.issued, hash))
    case Heartbeat(id, h) =>
      if Accepts(s, id, h) then s.(jobs := s.jobs[id := s.jobs[id].(lastHeartbeat := Some(s.now))]) else s
    case Complete(id, h, status, logURL, errorMessage) =>
      if Accepts(s, id, h) && Terminal(status)
      then s.(jobs := s.jobs[id := Finished(s.jobs[id], status, logURL, errorMessage)]) else s
    case Reap => s.(jobs := Reaped(s.jobs, s.now))
    case Tick(elapsed) => s.(now := s.now + elapsed)
  }

  // ---------------------------------------------------------------------------
  // The invariant
  // ---------------------------------------------------------------------------

  predicate JobOk(j: Job, issued: set<string>, now: int) {
    && (j.status == Claimed ==> j.claimedAt.Some? && j.pod.Some? && j.claimedAt.value <= now)
    && (j.status == Claimed && j.lastHeartbeat.Some? ==> j.claimedAt.value <= j.lastHeartbeat.value <= now)
    && (j.status == Queued ==> j.claimedAt.None? && j.lastHeartbeat.None? && j.pod.None?)
    && (j.status != Claimed ==> j.token.None? && j.tokenExp.None?)
    && (j.token.Some? <==> j.tokenExp.Some?)
    && (j.token.Some? ==> j.token.value in issued)
  }

  /** Two rows share no token, and no pod holds both. */
  predicate PairOk(j: Job, k: Job) {
    && (j.token.Some? ==> j.token != k.token)
    && (j.status == Claimed && k.status == Claimed ==> j.pod != k.pod)
  }

  ghost predicate TableOk(s: Sched) {
    && (forall id :: id in s.jobs ==> JobOk(s.jobs[id], s.issued, s.now))
    && (forall id, k :: id in s.jobs && k in s.jobs && id != k ==> PairOk(s.jobs[id], s.jobs[k]))
  }

  lemma HeartbeatKeeps(s: Sched, e: Event)
    requires TableOk(s) && e.Heartbeat?
    ensures TableOk(Next(s, e))
  {
  }

  lemma CompleteKeeps(s: Sched, e: Event)
    requires TableOk(s) && e.Complete?
    ensures TableOk(Next(s, e))
  {
  }

  lemma InsertKeeps(s: Sched, e: Event)
    requires TableOk(s) && e.Insert? && Enabled(s, e)
    ensures TableOk(Next(s, e))
  {
  }

  lemma ReapKeeps(s: Sched)
    requires TableOk(s)
    ensures TableOk(Next(s, Reap))
  {
  }

  lemma ClaimKeeps(s: Sched, e: Event)
    requires TableOk(s) && e.Claim? && Enabled(s, e)
    ensures TableOk(Next(s, e))
  {
    assert forall k :: k in s.jobs ==> !Holds(s.jobs, e.pod, k);
  }

  /** Every handler keeps the invariant. */
  lemma StepKeeps(s: Sched, e: Event)
    requires TableOk(s) && Enabled(s, e)
    ensures TableOk(Next(s, e))
  {
    hide PairOk;
    match e
    case Insert(id) => InsertKeeps(s, e);
    case Claim(_, _, _, _) => ClaimKeeps(s, e);
    case Heartbeat(_, _) => HeartbeatKeeps(s, e);
    case Complete(_, _, _, _, _) => CompleteKeeps(s, e);
    case Reap => ReapKeeps(s);
    case Tick(_) =>
  }

  // ---------------------------------------------------------------------------
  // Runs
  // ---------------------------------------------------------------------------

  ghost predicate Run(s: Sched, es: seq<Event>, t: Sched)
    decreases |es|
  {
    if es == [] then t == s else Enabled(s, es[0]) && Run(Next(s, es[0]), es[1..], t)
  }

  /** No job has the token. */
  ghost predicate Dead(s: Sched, h: string) {
    h in s.issued && forall id :: id in s.jobs ==> s.jobs[id].token != Some(h)
  }

  lemma DeadStep(s: Sched, e: Event, h: string)
    requires Dead(s, h) && Enabled(s, e)
    ensures Dead(Next(s, e), h)
  {
  }

  lemma {:induction false} RunKeeps(s: Sched, es: seq<Event>, t: Sched)
    requires TableOk(s) && Run(s, es, t)
    ensures TableOk(t)
    decreases |es|
  {
    hide TableOk, Enabled, Next;
    if es != [] {
      StepKeeps(s, es[0]);
      RunKeeps(Next(s, es[0]), es[1..], t);
    }
  }

  lemma DeadIsRefused(s: Sched, h: string)
    requires Dead(s, h)
    ensures forall id :: !Accepts(s, id, h)
  {
  }

  lemma {:induction false} DeadForEver(s: Sched, es: seq<Event>, t: Sched, h: string)
    requires Dead(s, h) && Run(s, es, t)
    ensures forall id :: !Accepts(t, id, h)
    decreases |es|
  {
    hide Enabled, Next, Dead;
    if es == [] {
      assert forall id :: !Accepts(t, id, h) by { DeadIsRefused(s, h); }
    } else {
      DeadStep(s, es[0], h);
      DeadForEver(Next(s, es[0]), es[1..], t, h);
    }
  }

  /**
   * Fencing: once the job that a token was handed out for has been completed or requeued, no
   * later run makes the token authenticate, for that job or any other.
   */
  lemma TokenIsFenced(s: Sched, e: Event, es: seq<Event>, t: Sched, id: nat, h: string)
    requires TableOk(s) && Enabled(s, e) && Run(Next(s, e), es, t)
    requires id in s.jobs && s.jobs[id].token == Some(h)
    requires id in Next(s, e).jobs && Next(s, e).jobs[id].status != Claimed
    ensures forall k :: !Accepts(t, k, h)
  {
    hide Run;
    StepKeeps(s, e);
    assert forall k :: k in s.jobs && k != id ==> PairOk(s.jobs[id], s.jobs[k]);
    assert Dead(Next(s, e), h);
    DeadForEver(Next(s, e), es, t, h);
  }

  lemma HistoryStep(s: Sched, e: Event, id: nat)
    requires TableOk(s) && Enabled(s, e) && id in s.jobs
    ensures var o := Next(s, e);
      && id in o.jobs && o.jobs[id].createdAt == s.jobs[id].createdAt && s.now <= o.now
      && (s.jobs[id].status == Passed || s.jobs[id].status == Failed ==> o.jobs[id] == s.jobs[id])
  {
  }

  /** No job is lost, creation times stay, and a passed or failed job is never touched again. */
  lemma {:induction false} JobsStay(s: Sched, es: seq<Event>, t: Sched, id: nat)
    requires TableOk(s) && Run(s, es, t) && id in s.jobs
    ensures id in t.jobs && t.jobs[id].createdAt == s.jobs[id].createdAt
    ensures s.jobs[id].status == Passed || s.jobs[id].status == Failed ==> t.jobs[id] == s.jobs[id]
    decreases |es|
  {
    hide TableOk, Enabled, Next;
    if es != [] {
      HistoryStep(s, es[0], id);
      StepKeeps(s, es[0]);
      JobsStay(Next(s, es[0]), es[1..], t, id);
    }
  }

  /** In every reachable state a token belongs to one job and a pod to one claimed job. */
  lemma OneTokenOnePod(s: Sched, es: seq<Event>, t: Sched, id: nat, k: nat)
    requires TableOk(s) && Run(s, es, t)
    ensures forall h, g :: Accepts(t, id, h) && Accepts(t, id, g) ==> h == g
    ensures forall h :: Accepts(t, id, h) && Accepts(t, k, h) ==> id == k
    ensures forall pod :: Holds(t.jobs, pod, id) && Holds(t.jobs, pod, k) ==> id == k
  {
    hide Run;
    RunKeeps(s, es, t);
    assert id in t.jobs && k in t.jobs && id != k ==> PairOk(t.jobs[id], t.jobs[k]);
  }

  // ---------------------------------------------------------------------------
  // The lease
  // ---------------------------------------------------------------------------

  /** The time of the last claim or accepted heartbeat of the job, as the event leaves it. */
  function SeenAfter(s: Sched, e: Event, id: nat, seen: Option<int>): Option<int> {
    match e
    case Claim(k, _, _, _) => if k == id then Some(s.now) else seen
    case Heartbeat(k, h) =>
      if k == id && id in s.jobs && s.jobs[id].status == Claimed && s.jobs[id].token == Some(h)
         && s.jobs[id].tokenExp.Some? && s.now < s.jobs[id].tokenExp.value
      then Some(s.now) else seen
    case _ => seen
  }

  ghost function Seen(s: Sched, es: seq<Event>, id: nat, seen: Option<int>): Option<int>
    decreases |es|
  {
    if es == [] || !Enabled(s, es[0]) then seen
    else Seen(Next(s, es[0]), es[1..], id, SeenAfter(s, es[0], id, seen))
  }

  /** The row tells when the job was last heard of. */
  predicate Tells(s: Sched, id: nat, seen: Option<int>) {
    id in s.jobs && s.jobs[id].status == Claimed ==> seen.Some? && LastSign(s.jobs[id]) == seen
  }

  lemma TellsStep(s: Sched, e: Event, id: nat, seen: Option<int>)
    requires TableOk(s) && Enabled(s, e) && Tells(s, id, seen)
    ensures Tells(Next(s, e), id, SeenAfter(s, e, id, seen))
  {
  }

  lemma {:induction false} RunTells(s: Sched, es: seq<Event>, t: Sched, id: nat, seen: Option<int>)
    requires TableOk(s) && Run(s, es, t) && Tells(s, id, seen)
    ensures TableOk(t) && Tells(t, id, Seen(s, es, id, seen))
    decreases |es|
  {
    hide TableOk, Enabled, Next, Tells, SeenAfter;
    if es != [] {
      TellsStep(s, es[0], id, seen);
      StepKeeps(s, es[0]);
      RunTells(Next(s, es[0]), es[1..], t, id, SeenAfter(s, es[0], id, seen));
    }
  }

  /**
   * Whatever has happened since before a job was inserted, the next reap requeues it, without its
   * claim and its token, if and only if it is claimed and was last heard of more than two minutes
   * ago; otherwise the reap leaves it alone.
   */
  lemma ReapIsExact(s: Sched, es: seq<Event>, t: Sched, id: nat)
    requires TableOk(s) && Run(s, es, t) && id !in s.jobs && id in t.jobs
    ensures var o, seen := Next(t, Reap), Seen(s, es, id, None);
      && id in o.jobs
      && (t.jobs[id].status == Claimed ==> seen.Some?)
      && o.jobs[id] == if t.jobs[id].status == Claimed && t.now - seen.value > 120_000_000
           then t.jobs[id].(status := Queued, claimedAt := None, lastHeartbeat := None, pod := None, podIP := None,
                            token := None, tokenExp := None)
           else t.jobs[id]
  {
    hide Run, Seen, TableOk;
    RunTells(s, es, t, id, None);
  }

  /** No reap of the run finds the job unheard of for more than two minutes, and no request completes it. */
  ghost predicate Lively(s: Sched, es: seq<Event>, id: nat, seen: int)
    decreases |es|
  {
    es == [] ||
    (&& Enabled(s, es[0])
     && (es[0].Reap? ==> s.now - seen <= 120_000_000)
     && (es[0].Complete? && es[0].id == id && (es[0].status == "passed" || es[0].status == "failed") ==>
           !Accepts(s, id, es[0].h))
     && Lively(Next(s, es[0]), es[1..], id, SeenAfter(s, es[0], id, Some(seen)).value))
  }

  lemma LivelyStep(s: Sched, e: Event, id: nat, seen: int)
    requires TableOk(s) && Enabled(s, e) && id in s.jobs && s.jobs[id].status == Claimed && Tells(s, id, Some(seen))
    requires e.Reap? ==> s.now - seen <= 120_000_000
    requires e.Complete? && e.id == id && (e.status == "passed" || e.status == "failed") ==> !Accepts(s, id, e.h)
    ensures var j, o := s.jobs[id], Next(s, e);
      id in o.jobs && o.jobs[id] == j.(lastHeartbeat := o.jobs[id].lastHeartbeat)
  {
  }

  lemma {:induction false} LivelyKeeps(s: Sched, es: seq<Event>, t: Sched, id: nat, seen: int)
    requires TableOk(s) && Run(s, es, t) && id in s.jobs && s.jobs[id].status == Claimed
    requires Tells(s, id, Some(seen)) && Lively(s, es, id, seen)
    ensures id in t.jobs && t.jobs[id] == s.jobs[id].(lastHeartbeat := t.jobs[id].lastHeartbeat)
    decreases |es|
  {
    hide TableOk, Enabled, Next, Tells, Accepts;
    if es != [] {
      LivelyStep(s, es[0], id, seen);
      TellsStep(s, es[0], id, Some(seen));
      StepKeeps(s, es[0]);
      LivelyKeeps(Next(s, es[0]), es[1..], t, id, SeenAfter(s, es[0], id, Some(seen)).value);
    }
  }

  /**
   * From its claim on, a job that is heard of often enough for every reap, and is not completed,
   * stays claimed by its pod with its token, which lives for a day.
   */
  lemma LiveLeaseIsKept(s: Sched, id: nat, pod: string, podIP: string, hash: Option<string>, es: seq<Event>, t: Sched)
    requires TableOk(s) && Enabled(s, Claim(id, pod, podIP, hash))
    requires Run(Next(s, Claim(id, pod, podIP, hash)), es, t)
    requires Lively(Next(s, Claim(id, pod, podIP, hash)), es, id, s.now)
    ensures id in t.jobs && t.jobs[id].status == Claimed && t.jobs[id].claimedAt == Some(s.now)
    ensures t.jobs[id].pod == Some(pod) && t.jobs[id].podIP == Some(podIP)
    ensures t.jobs[id].token == hash
    ensures t.jobs[id].tokenExp == if hash.Some? then Some(s.now + 86_400_000_000) else None
  {
    hide Run, Lively;
    var e := Claim(id, pod, podIP, hash);
    StepKeeps(s, e);
    LivelyKeeps(Next(s, e), es, t, id, s.now);
  }

  /** A completed job has the status reported, and no token. */
  lemma CompletedMeans(s: Sched, id: nat, h: string, status: string, logURL: Option<string>, message: Option<string>)
    requires TableOk(s) && Accepts(s, id, h) && (status == "passed" || status == "failed")
    ensures id in s.jobs
    ensures var o := Next(s, Complete(id, h, status, logURL, message));
      o.jobs == s.jobs[id := s.jobs[id].(status := if status == "passed" then Passed else Failed,
        logURL := logURL, errorMessage := message, token := None, tokenExp := None)]
  {
  }
}
