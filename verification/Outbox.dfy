/**
 * The webhook outbox (internal/events/outbox.go): one dispatcher claims batches of due rows, posts
 * them one after another, and retries with exponential backoff until a subscription is suspended.
 * Times are seconds. Database writes succeed; `posts` counts the HTTP requests sent for a row.
 */
module Outbox {
  import opened Wrappers

  const MAX_ATTEMPTS: nat := 10

  const IN_FLIGHT: int := 300

  const MAX_BACKOFF: int := 3600

  datatype Row = Row(sub: nat, attempts: nat, nextAttempt: int, deliveredAt: Option<int>)

  datatype Sub = Sub(suspendedAt: Option<int>, failures: nat, webhook: bool, url: string)

  /** A claimed row, as it was read. */
  datatype OutboxRow = OutboxRow(id: nat, sub: nat, attempts: nat, url: string)

  /** What becomes of a request: it cannot be built, or it is sent and answered 2xx, or not. */
  datatype Outcome = BuildError | Sent(ok: bool)

  datatype State = State(
    rows: map<nat, Row>, subs: map<nat, Sub>, now: int, batch: seq<OutboxRow>, posts: map<nat, nat>)

  predicate Eligible(rows: map<nat, Row>, subs: map<nat, Sub>, now: int, id: nat) {
    && id in rows && rows[id].deliveredAt.None? && rows[id].nextAttempt <= now && rows[id].attempts < MAX_ATTEMPTS
    && rows[id].sub in subs && subs[rows[id].sub].suspendedAt.None? && subs[rows[id].sub].webhook
  }

  function Read(rows: map<nat, Row>, subs: map<nat, Sub>, id: nat): OutboxRow
    requires id in rows && rows[id].sub in subs
  {
    OutboxRow(id, rows[id].sub, rows[id].attempts, subs[rows[id].sub].url)
  }

  /** What the claim query returns: due rows, each once, earliest first, and none left out while there is room. */
  ghost predicate IsBatch(rows: map<nat, Row>, subs: map<nat, Sub>, now: int, size: nat, batch: seq<OutboxRow>) {
    && |batch| <= size
    && (forall i :: 0 <= i < |batch| ==>
        Eligible(rows, subs, now, batch[i].id) && batch[i] == Read(rows, subs, batch[i].id))
    && (forall i, j :: 0 <= i < j < |batch| ==>
        batch[i].id != batch[j].id && rows[batch[i].id].nextAttempt <= rows[batch[j].id].nextAttempt)
    && (forall id :: Eligible(rows, subs, now, id) && (forall i :: 0 <= i < |batch| ==> batch[i].id != id) ==>
          |batch| == size && forall i :: 0 <= i < |batch| ==> rows[batch[i].id].nextAttempt <= rows[id].nextAttempt)
  }

  predicate InBatch(batch: seq<OutboxRow>, id: nat) { exists i :: 0 <= i < |batch| && batch[i].id == id }

  /** The claimed rows are not due again for five minutes. */
  function MarkInFlight(rows: map<nat, Row>, batch: seq<OutboxRow>, now: int): map<nat, Row> {
    map id | id in rows :: if InBatch(batch, id) then rows[id].(nextAttempt := now + IN_FLIGHT) else rows[id]
  }

  function Pow2(n: nat): nat { if n == 0 then 1 else 2 * Pow2(n - 1) }

  /** 2^attempts seconds, an hour at most. */
  function Backoff(attempts: nat): int { if Pow2(attempts) > MAX_BACKOFF then MAX_BACKOFF else Pow2(attempts) }

  function Failed(row: Row, attempts: nat, now: int): Row {
    row.(attempts := attempts + 1, nextAttempt := now + Backoff(attempts))
  }

  function Suspended(subs: map<nat, Sub>, sub: nat, now: int): map<nat, Sub> {
    if sub in subs then subs[sub := subs[sub].(suspendedAt := Some(now), failures := subs[sub].failures + 1)] else subs
  }

  function Posted(posts: map<nat, nat>, id: nat): map<nat, nat> {
    posts[id := (if id in posts then posts[id] else 0) + 1]
  }

  /** The update of a claimed row, which finds no row when its subscription was deleted meanwhile. */
  function MarkDelivered(rows: map<nat, Row>, id: nat, now: int): map<nat, Row> {
    if id in rows then rows[id := rows[id].(deliveredAt := Some(now))] else rows
  }

  function MarkAttempt(rows: map<nat, Row>, id: nat, attempts: nat, now: int): map<nat, Row> {
    if id in rows then rows[id := Failed(rows[id], attempts, now)] else rows
  }

  /** The tables after deliverWebhook, which does not read the row again. */
  function Delivered(s: State, r: OutboxRow, outcome: Outcome): State {
    if r.url == "" then s
    else
      var posts := if outcome.Sent? then Posted(s.posts, r.id) else s.posts;
      if outcome == Sent(true) then s.(rows := MarkDelivered(s.rows, r.id, s.now), posts := posts)
      else
        s.(rows := MarkAttempt(s.rows, r.id, r.attempts, s.now), posts := posts,
           subs := if r.attempts + 1 >= MAX_ATTEMPTS then Suspended(s.subs, r.sub, s.now) else s.subs)
  }

  /** Deleting a subscription deletes its rows. */
  function Cascaded(rows: map<nat, Row>, sub: nat): map<nat, Row> {
    map id | id in rows && rows[id].sub != sub :: rows[id]
  }

  /** Restart is a dispatcher that stops between two deliveries: its batch is forgotten. */
  datatype Event =
    | Enqueue(id: nat, sub: nat)
    | Claim(claimed: seq<OutboxRow>)
    | Deliver(outcome: Outcome)
    | Restart
    | Subscribe(sub: nat, url: string, webhook: bool)
    | Resume(sub: nat)
    | Unsubscribe(sub: nat)
    | Cleanup(id: nat)
    | Tick(elapsed: nat)

  ghost predicate Enabled(s: State, e: Event) {
    match e
    case Enqueue(id, sub) => id !in s.rows && id !in s.posts && sub in s.subs
    case Claim(claimed) => s.batch == [] && IsBatch(s.rows, s.subs, s.now, 50, claimed)
    case Deliver(_) => s.batch != []
    case Cleanup(id) => id in s.rows && s.rows[id].deliveredAt.Some? && s.rows[id].deliveredAt.value < s.now - 604800
    case Resume(sub) => sub in s.subs
    case Unsubscribe(sub) => sub in s.subs
    case _ => true
  }

  ghost function Next(s: State, e: Event): State
    requires Enabled(s, e)
  {
    match e
    case Enqueue(id, sub) => s.(rows := s.rows[id := Row(sub, 0, s.now, None)], posts := s.posts[id := 0])
    case Claim(claimed) => s.(rows := MarkInFlight(s.rows, claimed, s.now), batch := claimed)
    case Deliver(outcome) => Delivered(s, s.batch[0], outcome).(batch := s.batch[1..])
    case Restart => s.(batch := [])
    case Subscribe(sub, url, webhook) =>
      s.(subs := s.subs[sub :=
        if sub in s.subs then s.subs[sub].(url := url, webhook := webhook) else Sub(None, 0, webhook, url)])
    case Resume(sub) => s.(subs := s.subs[sub := s.subs[sub].(suspendedAt := None, failures := 0)])
    case Unsubscribe(sub) => s.(subs := s.subs - {sub}, rows := Cascaded(s.rows, sub))
    case Cleanup(id) => s.(rows := s.rows - {id})
    case Tick(elapsed) => s.(now := s.now + elapsed)
  }

  // ---------------------------------------------------------------------------
  // The invariant
  // ---------------------------------------------------------------------------

  predicate RowOk(row: Row, posts: nat) {
    && row.attempts <= MAX_ATTEMPTS && (row.deliveredAt.Some? ==> row.attempts < MAX_ATTEMPTS)
    && posts <= row.attempts + (if row.deliveredAt.Some? then 1 else 0)
  }

  /** A claimed row was posted once an attempt at most; it is gone, or undelivered and as it was read. */
  predicate ClaimOk(rows: map<nat, Row>, posts: map<nat, nat>, r: OutboxRow) {
    && r.attempts < MAX_ATTEMPTS && r.id in posts && posts[r.id] <= r.attempts
    && (r.id in rows ==>
          rows[r.id].deliveredAt.None? && rows[r.id].attempts == r.attempts && rows[r.id].sub == r.sub)
  }

  /** Every claimed row is claimed once. */
  predicate BatchOk(rows: map<nat, Row>, posts: map<nat, nat>, batch: seq<OutboxRow>) {
    && (forall i :: 0 <= i < |batch| ==> ClaimOk(rows, posts, batch[i]))
    && (forall i, j :: 0 <= i < j < |batch| ==> batch[i].id != batch[j].id)
  }

  predicate Good(s: State) {
    && (forall id :: id in s.rows ==> id in s.posts && s.rows[id].sub in s.subs && RowOk(s.rows[id], s.posts[id]))
    && (forall id :: id in s.posts ==> s.posts[id] <= MAX_ATTEMPTS)
    && BatchOk(s.rows, s.posts, s.batch)
  }

  lemma DeliverKeeps(s: State, outcome: Outcome)
    requires Good(s) && s.batch != []
    ensures Good(Delivered(s, s.batch[0], outcome).(batch := s.batch[1..]))
  {
    var b := s.batch[1..];
    assert forall i :: 0 <= i < |b| ==> b[i] == s.batch[i + 1] && b[i].id != s.batch[0].id;
  }

  lemma StepKeeps(s: State, e: Event)
    requires Good(s) && Enabled(s, e)
    ensures Good(Next(s, e))
  {
    hide Delivered, Pow2;
    if e.Deliver? {
      DeliverKeeps(s, e.outcome);
    }
  }

  ghost predicate Run(s: State, es: seq<Event>, t: State)
    decreases |es|
  {
    if es == [] then t == s else Enabled(s, es[0]) && Run(Next(s, es[0]), es[1..], t)
  }

  lemma {:induction false} RunKeeps(s: State, es: seq<Event>, t: State)
    requires Good(s) && Run(s, es, t)
    ensures Good(t)
    decreases |es|
  {
    hide Good, Enabled, Next;
    if es != [] {
      StepKeeps(s, es[0]);
      RunKeeps(Next(s, es[0]), es[1..], t);
    }
  }

  /** In every run a row is posted at most ten times, across any suspensions and resumptions. */
  lemma PostsAreBounded(s: State, es: seq<Event>, t: State, id: nat)
    requires s.rows == map[] && s.batch == [] && s.posts == map[] && Run(s, es, t)
    ensures id in t.posts ==> t.posts[id] <= 10
    ensures id in t.rows ==>
        id in t.posts && t.posts[id] <= t.rows[id].attempts + (if t.rows[id].deliveredAt.Some? then 1 else 0)
  {
    hide Run;
    RunKeeps(s, es, t);
  }

  /** Delivered, given up, or gone and not claimed. */
  predicate Finished(s: State, id: nat) {
    && id in s.posts
    && if id in s.rows then s.rows[id].deliveredAt.Some? || s.rows[id].attempts == MAX_ATTEMPTS
       else !InBatch(s.batch, id)
  }

  lemma FinishedStep(s: State, e: Event, id: nat)
    requires Good(s) && Enabled(s, e) && Finished(s, id)
    ensures var o := Next(s, e);
      Finished(o, id) && o.posts[id] == s.posts[id] && (id in o.rows ==> id in s.rows && o.rows[id] == s.rows[id])
  {
    hide Pow2;
    if e.Deliver? {
      assert s.batch[0].id != id;
    }
  }

  lemma FinishedHasPosts(s: State, id: nat)
    requires Finished(s, id)
    ensures id in s.posts
  {
  }

  /** A row that was delivered, or has failed ten times, is never posted again, whatever is resumed. */
  lemma {:induction false} FinishedForGood(s: State, es: seq<Event>, t: State, id: nat)
    requires Good(s) && Run(s, es, t) && Finished(s, id)
    ensures Finished(t, id) && t.posts[id] == s.posts[id]
    decreases |es|
  {
    hide Good, Enabled, Next, Finished;
    if es == [] {
      FinishedHasPosts(s, id);
    } else {
      FinishedStep(s, es[0], id);
      FinishedHasPosts(s, id);
      StepKeeps(s, es[0]);
      FinishedForGood(Next(s, es[0]), es[1..], t, id);
    }
  }

  function OnceClaimed(s: State, id: nat): nat { if InBatch(s.batch, id) then 1 else 0 }

  lemma GoneStep(s: State, e: Event, id: nat)
    requires Good(s) && Enabled(s, e) && id in s.posts && id !in s.rows
    ensures var o := Next(s, e);
      && id in o.posts && id !in o.rows && s.posts[id] <= o.posts[id]
      && o.posts[id] + OnceClaimed(o, id) <= s.posts[id] + OnceClaimed(s, id)
  {
    hide Pow2;
    if e.Deliver? {
      var b := s.batch[1..];
      if i :| 0 <= i < |b| && b[i].id == id {
        assert s.batch[i + 1].id == id && s.batch[0].id != id;
      }
    }
  }

  /** A row deleted with its subscription never comes back, and is posted once more at most: when it is claimed. */
  lemma {:induction false} GoneRowIsPostedOnce(s: State, es: seq<Event>, t: State, id: nat)
    requires Good(s) && Run(s, es, t) && id in s.posts && id !in s.rows
    ensures id in t.posts && id !in t.rows && s.posts[id] <= t.posts[id] <= s.posts[id] + OnceClaimed(s, id)
    decreases |es|
  {
    hide Good, Enabled, Next, InBatch;
    if es != [] {
      GoneStep(s, es[0], id);
      StepKeeps(s, es[0]);
      GoneRowIsPostedOnce(Next(s, es[0]), es[1..], t, id);
    }
  }

  // ---------------------------------------------------------------------------
  // One delivery
  // ---------------------------------------------------------------------------

  lemma SmallPowers(n: nat)
    requires n < 10
    ensures Backoff(n) == Pow2(n) == [1, 2, 4, 8, 16, 32, 64, 128, 256, 512][n]
  {
    assert Pow2(2) == 4 && Pow2(4) == 16 && Pow2(6) == 64 && Pow2(8) == 256;
  }

  /**
   * A delivery with a URL finishes the row or brings it one attempt nearer to its end. A failure
   * waits exactly 2^attempts seconds, and the tenth one suspends the subscription. A row that is
   * gone is posted all the same.
   */
  lemma DeliveryProgress(s: State, outcome: Outcome)
    requires Good(s) && s.batch != [] && s.batch[0].url != ""
    ensures var r := s.batch[0];
      var o := Next(s, Deliver(outcome));
      && r.id in s.posts && r.id in o.posts
      && o.posts[r.id] == s.posts[r.id] + (if outcome.Sent? then 1 else 0)
      && (r.id in o.rows <==> r.id in s.rows)
      && (forall id :: id in s.rows && id != r.id ==> id in o.rows && o.rows[id] == s.rows[id])
      && (outcome == Sent(true) ==>
            && o.subs == s.subs
            && (r.id in s.rows ==> o.rows[r.id] == s.rows[r.id].(deliveredAt := Some(s.now))))
      && (outcome != Sent(true) ==>
            && r.attempts < 10
            && (r.id in s.rows ==> o.rows[r.id] == s.rows[r.id].(attempts := s.rows[r.id].attempts + 1,
                  nextAttempt := s.now + [1, 2, 4, 8, 16, 32, 64, 128, 256, 512][r.attempts]))
            && o.subs == if r.attempts < 9 || r.sub !in s.subs then s.subs else
                 s.subs[r.sub := s.subs[r.sub].(suspendedAt := Some(s.now), failures := s.subs[r.sub].failures + 1)])
  {
    SmallPowers(s.batch[0].attempts);
  }

  /** A row whose subscription has no URL is left as it is. */
  lemma NoUrlNoDelivery(s: State, outcome: Outcome)
    requires s.batch != [] && s.batch[0].url == ""
    ensures Next(s, Deliver(outcome)) == s.(batch := s.batch[1..])
  {
  }

  /**
   * A claim takes rows that are undelivered, due, and failed less than ten times, of subscriptions
   * that exist, are not suspended and are webhooks, with their present URL, earliest first.
   */
  lemma ClaimIsDue(s: State, claimed: seq<OutboxRow>)
    requires Enabled(s, Claim(claimed))
    ensures |claimed| <= 50 && s.batch == []
    ensures forall i :: 0 <= i < |claimed| ==>
      var r := claimed[i];
      && r.id in s.rows && r.sub == s.rows[r.id].sub && r.attempts == s.rows[r.id].attempts
      && s.rows[r.id].deliveredAt.None? && s.rows[r.id].nextAttempt <= s.now && r.attempts < 10
      && r.sub in s.subs && s.subs[r.sub].suspendedAt.None? && s.subs[r.sub].webhook && r.url == s.subs[r.sub].url
    ensures forall i, j :: 0 <= i < j < |claimed| ==>
      && claimed[i].id != claimed[j].id && claimed[i].id in s.rows && claimed[j].id in s.rows
      && s.rows[claimed[i].id].nextAttempt <= s.rows[claimed[j].id].nextAttempt
  {
  }

  /** It leaves a row of this kind out only for fifty earlier ones. */
  lemma ClaimIsFull(s: State, claimed: seq<OutboxRow>, id: nat)
    requires Enabled(s, Claim(claimed)) && id in s.rows
    requires s.rows[id].deliveredAt.None? && s.rows[id].nextAttempt <= s.now && s.rows[id].attempts < 10
    requires s.rows[id].sub in s.subs && s.subs[s.rows[id].sub].suspendedAt.None? && s.subs[s.rows[id].sub].webhook
    requires forall i :: 0 <= i < |claimed| ==> claimed[i].id != id
    ensures |claimed| == 50
    ensures forall i :: 0 <= i < 50 ==>
      claimed[i].id in s.rows && s.rows[claimed[i].id].nextAttempt <= s.rows[id].nextAttempt
  {
    assert Eligible(s.rows, s.subs, s.now, id);
  }

  /** It puts the rows it takes five minutes off, and changes nothing else. */
  lemma ClaimPostpones(s: State, claimed: seq<OutboxRow>, id: nat)
    requires Enabled(s, Claim(claimed))
    ensures var o := Next(s, Claim(claimed));
      && o.rows.Keys == s.rows.Keys && o.subs == s.subs && o.posts == s.posts && o.batch == claimed
      && (id in s.rows ==>
            o.rows[id] == if exists i :: 0 <= i < |claimed| && claimed[i].id == id
                          then s.rows[id].(nextAttempt := s.now + 300) else s.rows[id])
  {
    hide IsBatch;
    assert id in s.rows ==> (InBatch(claimed, id) <==> exists i :: 0 <= i < |claimed| && claimed[i].id == id);
  }

  /** Only a claim adds to what is to be posted, and only a delivery posts, the first of the batch. */
  lemma PostsAreClaimed(s: State, e: Event, id: nat)
    requires Enabled(s, e) && id in s.posts
    ensures !e.Claim? ==> forall r :: r in Next(s, e).batch ==> r in s.batch
    ensures id in Next(s, e).posts
    ensures Next(s, e).posts[id] != s.posts[id] ==>
      e.Deliver? && e.outcome.Sent? && s.batch != [] && s.batch[0].id == id
  {
  }

  /** A row comes with no attempt used, due at once, for a subscription that exists. */
  lemma RowsCome(s: State, e: Event, id: nat)
    requires Enabled(s, e) && id !in s.rows && id in Next(s, e).rows
    ensures e.Enqueue? && e.id == id && id !in s.posts && e.sub in s.subs
    ensures Next(s, e).rows[id] == Row(e.sub, 0, s.now, None) && Next(s, e).posts == s.posts[id := 0]
  {
  }

  /** A suspension ends when the subscription is resumed, or deleted. */
  lemma SuspensionEnds(s: State, e: Event, sub: nat)
    requires Enabled(s, e) && sub in s.subs && s.subs[sub].suspendedAt.Some?
    ensures sub !in Next(s, e).subs <==> e == Unsubscribe(sub)
    ensures sub in Next(s, e).subs && Next(s, e).subs[sub].suspendedAt.None? <==> e == Resume(sub)
  {
  }

  /** A row goes when its subscription is deleted, or a week after its delivery. */
  lemma RowsGo(s: State, e: Event, id: nat)
    requires Enabled(s, e) && id in s.rows && id !in Next(s, e).rows
    ensures (e.Unsubscribe? && e.sub == s.rows[id].sub)
      || (s.rows[id].deliveredAt.Some? && s.rows[id].deliveredAt.value < s.now - 7 * 24 * 3600)
  {
  }

  // ---------------------------------------------------------------------------
  // The dispatcher
  // ---------------------------------------------------------------------------

  ghost predicate NextDue(rows: map<nat, Row>, subs: map<nat, Sub>, now: int, taken: set<nat>, id: nat) {
    && Eligible(rows, subs, now, id) && id !in taken
    && (forall k :: Eligible(rows, subs, now, k) && k !in taken ==> rows[id].nextAttempt <= rows[k].nextAttempt)
  }

  /** The batch so far holds the rows taken, in order, and no other row is due earlier. */
  ghost predicate EarliestFirst(rows: map<nat, Row>, subs: map<nat, Sub>, now: int, batch: seq<OutboxRow>,
      taken: set<nat>)
  {
    && (forall i :: 0 <= i < |batch| ==>
          Eligible(rows, subs, now, batch[i].id) && batch[i] == Read(rows, subs, batch[i].id) && batch[i].id in taken)
    && (forall id :: id in taken ==> InBatch(batch, id))
    && (forall i, j :: 0 <= i < j < |batch| ==>
        batch[i].id != batch[j].id && rows[batch[i].id].nextAttempt <= rows[batch[j].id].nextAttempt)
    && (forall id, i :: Eligible(rows, subs, now, id) && id !in taken && 0 <= i < |batch| ==>
          rows[batch[i].id].nextAttempt <= rows[id].nextAttempt)
  }

  lemma NothingTaken(rows: map<nat, Row>, subs: map<nat, Sub>, now: int)
    ensures EarliestFirst(rows, subs, now, [], {})
  {
  }

  lemma TakenGrows(batch: seq<OutboxRow>, r: OutboxRow, taken: set<nat>)
    requires forall id :: id in taken ==> InBatch(batch, id)
    ensures forall id :: id in taken + {r.id} ==> InBatch(batch + [r], id)
  {
    var more := batch + [r];
    forall k | k in taken + {r.id} ensures InBatch(more, k) {
      if k == r.id {
        assert more[|batch|].id == k;
      } else {
        var i :| 0 <= i < |batch| && batch[i].id == k;
        assert more[i].id == k;
      }
    }
  }

  lemma TakeNext(rows: map<nat, Row>, subs: map<nat, Sub>, now: int, batch: seq<OutboxRow>, taken: set<nat>, id: nat)
    requires EarliestFirst(rows, subs, now, batch, taken) && NextDue(rows, subs, now, taken, id)
    ensures EarliestFirst(rows, subs, now, batch + [Read(rows, subs, id)], taken + {id})
  {
    hide InBatch;
    TakenGrows(batch, Read(rows, subs, id), taken);
    var more := batch + [Read(rows, subs, id)];
    assert forall i :: 0 <= i < |batch| ==> more[i] == batch[i] && more[i].id in taken;
  }

  lemma TakenIsBatch(rows: map<nat, Row>, subs: map<nat, Sub>, now: int, size: nat, batch: seq<OutboxRow>,
      taken: set<nat>)
    requires EarliestFirst(rows, subs, now, batch, taken) && |batch| <= size
    requires |batch| == size || forall k :: Eligible(rows, subs, now, k) ==> k in taken
    ensures IsBatch(rows, subs, now, size, batch)
  {
    hide Eligible;
    assert forall id :: id in taken ==> exists i :: 0 <= i < |batch| && batch[i].id == id by {
      forall id | id in taken ensures exists i :: 0 <= i < |batch| && batch[i].id == id {
        assert InBatch(batch, id);
      }
    }
  }

  lemma ClaimIsStep(s: State, batch: seq<OutboxRow>)
    requires s.batch == [] && IsBatch(s.rows, s.subs, s.now, 50, batch)
    ensures Enabled(s, Claim(batch))
      && Next(s, Claim(batch)) == s.(rows := MarkInFlight(s.rows, batch, s.now), batch := batch)
  {
  }

  lemma BatchHead(s: State)
    requires s.batch != []
    ensures forall outcome :: Enabled(s, Deliver(outcome))
  {
  }

  lemma DeliverIsStep(s: State, outcome: Outcome)
    requires s.batch != []
    ensures Enabled(s, Deliver(outcome))
      && Next(s, Deliver(outcome)) == Delivered(s, s.batch[0], outcome).(batch := s.batch[1..])
    ensures Delivered(s, s.batch[0], outcome).batch == s.batch
  {
  }

  lemma RunOne(s: State, e: Event)
    requires Enabled(s, e)
    ensures Run(s, [e], Next(s, e))
  {
    assert Run(Next(s, e), [e][1..], Next(s, e));
  }

  lemma {:induction false} RunSnoc(s: State, es: seq<Event>, t: State, e: Event)
    requires Run(s, es, t) && Enabled(t, e)
    ensures Run(s, es + [e], Next(t, e))
    decreases |es|
  {
    hide Enabled, Next;
    if es == [] {
      RunOne(s, e);
      assert [] + [e] == [e];
    } else {
      RunSnoc(Next(s, es[0]), es[1..], t, e);
      assert (es + [e])[1..] == es[1..] + [e];
    }
  }

  class Dispatcher {
    var rows: map<nat, Row>
    var subs: map<nat, Sub>
    var now: int
    ghost var posts: map<nat, nat>

    ghost function Snapshot(batch: seq<OutboxRow>): State
      reads this
    {
      State.State(rows, subs, now, batch, posts)
    }

    /** An earliest due row that is not taken yet. */
    method EarliestDue(taken: set<nat>) returns (id: Option<nat>)
      ensures id.Some? ==> NextDue(rows, subs, now, taken, id.value)
      ensures id.None? ==> forall k :: Eligible(rows, subs, now, k) ==> k in taken
    {
      id := None;
      var todo := rows.Keys - taken;
      while todo != {}
        invariant todo <= rows.Keys - taken
        invariant id.Some? ==> Eligible(rows, subs, now, id.value) && id.value !in taken
        invariant forall k :: Eligible(rows, subs, now, k) && k !in taken && k !in todo ==>
          id.Some? && rows[id.value].nextAttempt <= rows[k].nextAttempt
        decreases |todo|
      {
        var k :| k in todo;
        if Eligible(rows, subs, now, k) && (id.None? || rows[k].nextAttempt < rows[id.value].nextAttempt) {
          id := Some(k);
        }
        todo := todo - {k};
      }
    }

    method SelectDue(size: nat) returns (batch: seq<OutboxRow>)
      ensures IsBatch(rows, subs, now, size, batch)
      ensures forall i :: 0 <= i < |batch| ==>
        var r := batch[i];
        && r.id in rows && r.sub == rows[r.id].sub && r.attempts == rows[r.id].attempts
        && rows[r.id].deliveredAt.None? && rows[r.id].nextAttempt <= now && r.attempts < 10
        && r.sub in subs && subs[r.sub].suspendedAt.None? && subs[r.sub].webhook && r.url == subs[r.sub].url
    {
      hide EarliestFirst;
      batch := [];
      var taken: set<nat> := {};
      NothingTaken(rows, subs, now);
      var id := EarliestDue(taken);
      while |batch| < size && id.Some?
        invariant |batch| <= size && EarliestFirst(rows, subs, now, batch, taken)
        invariant id.Some? ==> NextDue(rows, subs, now, taken, id.value)
        invariant id.None? ==> forall k :: Eligible(rows, subs, now, k) ==> k in taken
        decreases size - |batch|
      {
        TakeNext(rows, subs, now, batch, taken, id.value);
        batch := batch + [Read(rows, subs, id.value)];
        taken := taken + {id.value};
        id := EarliestDue(taken);
      }
      TakenIsBatch(rows, subs, now, size, batch, taken);
    }

    method ClaimOutboxBatch(size: nat) returns (batch: seq<OutboxRow>)
      modifies this`rows
      ensures IsBatch(old(rows), subs, now, size, batch) && rows == MarkInFlight(old(rows), batch, now)
      ensures rows.Keys == old(rows).Keys
      ensures forall id :: id in rows ==>
        rows[id] == if exists i :: 0 <= i < |batch| && batch[i].id == id then old(rows)[id].(nextAttempt := now + 300)
                    else old(rows)[id]
    {
      batch := SelectDue(size);
      rows := map id | id in rows :: if InBatch(batch, id) then rows[id].(nextAttempt := now + IN_FLIGHT) else rows[id];
    }

    method MarkFailed(r: OutboxRow)
      modifies this`rows, this`subs
      ensures rows == MarkAttempt(old(rows), r.id, r.attempts, now)
      ensures subs == if r.attempts + 1 >= MAX_ATTEMPTS then Suspended(old(subs), r.sub, now) else old(subs)
    {
      var newAttempts := r.attempts + 1;
      var backoff: int := Pow2(r.attempts);
      if backoff > MAX_BACKOFF {
        backoff := MAX_BACKOFF;
      }
      if r.id in rows {
        rows := rows[r.id := rows[r.id].(attempts := newAttempts, nextAttempt := now + backoff)];
      }
      if newAttempts >= MAX_ATTEMPTS {
        if r.sub in subs {
          subs := subs[r.sub := subs[r.sub].(suspendedAt := Some(now), failures := subs[r.sub].failures + 1)];
        }
      }
    }

    method DeliverWebhook(r: OutboxRow, outcome: Outcome, ghost batch: seq<OutboxRow>)
      modifies this`rows, this`subs, this`posts
      ensures Snapshot(batch) == Delivered(old(Snapshot(batch)), r, outcome)
    {
      if r.url == "" {
        return;
      }
      if outcome.BuildError? {
        MarkFailed(r);
        return;
      }
      posts := Posted(posts, r.id);
      if !outcome.ok {
        MarkFailed(r);
        return;
      }
      if r.id in rows {
        rows := rows[r.id := rows[r.id].(deliveredAt := Some(now))];
      }
    }

    /** One pass: claims up to 50 rows and delivers them in turn; the whole pass is a run of the model. */
    method ProcessOutboxBatch(answer: OutboxRow -> Outcome) returns (ghost es: seq<Event>)
      requires Good(Snapshot([]))
      modifies this`rows, this`subs, this`posts
      ensures Good(Snapshot([])) && Run(old(Snapshot([])), es, Snapshot([]))
      ensures |es| > 0 && es[0].Claim? && |es| == 1 + |es[0].claimed|
      ensures forall i :: 0 < i < |es| ==> es[i] == Deliver(answer(es[0].claimed[i - 1]))
    {
      hide Good, Next, Enabled, Delivered, Run, IsBatch, MarkInFlight;
      ghost var start := Snapshot([]);
      var batch := ClaimOutboxBatch(50);
      es := [Claim(batch)];
      assert Enabled(start, Claim(batch))
        && Snapshot(batch) == Next(start, Claim(batch)) by { ClaimIsStep(start, batch); }
      StepKeeps(start, Claim(batch));
      RunOne(start, Claim(batch));
      assert batch[0..] == batch;
      for i := 0 to |batch|
        invariant |es| == i + 1 && es[0] == Claim(batch) && Good(Snapshot(batch[i..]))
          && Run(start, es, Snapshot(batch[i..]))
        invariant forall j :: 0 < j < |es| ==> es[j] == Deliver(answer(batch[j - 1]))
      {
        ghost var s := Snapshot(batch[i..]);
        assert batch[i..][0] == batch[i] && batch[i..][1..] == batch[i + 1..];
        assert forall outcome :: Enabled(s, Deliver(outcome)) by { BatchHead(s); }
        StepKeeps(s, Deliver(answer(batch[i])));
        DeliverWebhook(batch[i], answer(batch[i]), batch[i..]);
        DeliverIsStep(s, answer(batch[i]));
        RunSnoc(start, es, s, Deliver(answer(batch[i])));
        es := es + [Deliver(answer(batch[i]))];
      }
      assert batch[|batch|..] == [];
    }
  }
}
