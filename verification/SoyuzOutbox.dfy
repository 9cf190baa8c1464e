/** The outbox of Soyuz callbacks: leased, at-least-once delivery. */
module SoyuzOutbox {
  import opened Wrappers
  import opened Sorting
  import opened Seqs

  // Every operation runs under the index lock, so each is one atomic transition on the list
  // of entries.  ISO timestamps are their time value in milliseconds since the epoch.

  const MAX_PAYLOAD_BYTES := 12000

  const MAX_PENDING := 5000

  const MAX_DELIVERED := 500

  newtype byte = x: int | 0 <= x < 256

  datatype DeliveryState = Pending | Delivering | Delivered

  datatype OutboxEntry = OutboxEntry(
    callbackId: string,
    externalRunId: string,
    eventType: string,
    payload: seq<byte>,
    attemptCount: nat,
    nextAttemptAt: nat,
    lastError: Option<string>,
    deliveryState: DeliveryState,
    leaseExpiresAt: Option<nat>,
    createdAt: nat,
    deliveredAt: Option<nat>)

  type Outbox = seq<OutboxEntry>

  datatype AddResult = Added(outbox: Outbox) | PayloadTooLarge | IdReused | OutboxFull

  function Id(e: OutboxEntry): string { e.callbackId }

  predicate Undelivered(e: OutboxEntry) { !e.deliveryState.Delivered? }

  function PendingCount(outbox: Outbox): nat { |Filter(outbox, Undelivered)| }

  // ---------------------------------------------------------------- operations

  /** `addOutboxEntry`. */
  function Add(outbox: Outbox, entry: OutboxEntry): AddResult {
    if |entry.payload| > MAX_PAYLOAD_BYTES then PayloadTooLarge
    else
      var same := Filter(outbox, HasId(entry.callbackId));
      if same != [] then
        var existing := same[0];
        if existing.eventType != entry.eventType || existing.externalRunId != entry.externalRunId
           || existing.payload != entry.payload
        then IdReused
        else Added(outbox)
      else if PendingCount(outbox) >= MAX_PENDING then OutboxFull
      else Added(outbox + [entry])
  }

  function HasId(id: string): OutboxEntry -> bool { (e: OutboxEntry) => e.callbackId == id }

  predicate IsDue(e: OutboxEntry, now: nat) {
    && Undelivered(e)
    && e.nextAttemptAt <= now
    && (!e.deliveryState.Delivering? || e.leaseExpiresAt.None? || e.leaseExpiresAt.value <= now)
  }

  function DueAt(now: nat): OutboxEntry -> bool { (e: OutboxEntry) => IsDue(e, now) }

  function NextAttempt(e: OutboxEntry): int { e.nextAttemptAt }

  function Leased(e: OutboxEntry, until: nat): OutboxEntry {
    e.(attemptCount := e.attemptCount + 1, deliveryState := Delivering, leaseExpiresAt := Some(until))
  }

  /** The due entries, earliest first, cut at `limit`. */
  function Selected(outbox: Outbox, now: nat, limit: nat): Outbox {
    var due := StableSort(Filter(outbox, DueAt(now)), NextAttempt);
    if limit < |due| then due[..limit] else due
  }

  function Ids(s: Outbox): set<string> { set e <- s :: e.callbackId }

  function LeaseIn(ids: set<string>, until: nat): OutboxEntry -> OutboxEntry {
    (e: OutboxEntry) => if e.callbackId in ids then Leased(e, until) else e
  }

  function IdIn(ids: set<string>): OutboxEntry -> bool { (e: OutboxEntry) => e.callbackId in ids }

  /** `claimDueSoyuzCallbacks`: the outbox it writes and the entries it returns. */
  function Claim(outbox: Outbox, now: nat, leaseMs: nat, limit: nat): (Outbox, Outbox) {
    var ids := Ids(Selected(outbox, now, limit));
    var claimed := Map(outbox, LeaseIn(ids, now + leaseMs));
    (claimed, Filter(claimed, IdIn(ids)))
  }

  function MarkDelivered(id: string, now: nat): OutboxEntry -> OutboxEntry {
    (e: OutboxEntry) => if e.callbackId == id
         then e.(deliveryState := Delivered, deliveredAt := Some(now), leaseExpiresAt := None)
         else e
  }

  predicate IsDelivered(e: OutboxEntry) { e.deliveryState.Delivered? }

  /** Newest delivery first; a missing delivery time sorts last. */
  function NewestFirst(e: OutboxEntry): int {
    match e.deliveredAt
    case Some(t) => -(t as int)
    case None => 1
  }

  function DeliveredNewestFirst(outbox: Outbox): Outbox {
    StableSort(Filter(outbox, IsDelivered), NewestFirst)
  }

  function Newest(outbox: Outbox): Outbox {
    var delivered := DeliveredNewestFirst(outbox);
    if |delivered| <= MAX_DELIVERED then delivered else delivered[..MAX_DELIVERED]
  }

  function Surplus(outbox: Outbox): Outbox {
    var delivered := DeliveredNewestFirst(outbox);
    if |delivered| <= MAX_DELIVERED then [] else delivered[MAX_DELIVERED..]
  }

  function NotIn(ids: set<string>): OutboxEntry -> bool { (e: OutboxEntry) => e.callbackId !in ids }

  function Compact(outbox: Outbox): Outbox {
    Filter(outbox, NotIn(Ids(Surplus(outbox))))
  }

  /** `completeSoyuzCallback`. */
  function Complete(outbox: Outbox, id: string, now: nat): Outbox {
    Compact(Map(outbox, MarkDelivered(id, now)))
  }

  function Rescheduled(id: string, next: nat, error: string): OutboxEntry -> OutboxEntry {
    (e: OutboxEntry) => if e.callbackId == id
         then e.(deliveryState := Pending, nextAttemptAt := next, lastError := Some(error), leaseExpiresAt := None)
         else e
  }

  /** `retrySoyuzCallback`, with `error` already cut to 500 characters. */
  function Retry(outbox: Outbox, id: string, next: nat, error: string): Outbox {
    Map(outbox, Rescheduled(id, next, error))
  }

  datatype Event =
    | Enqueue(entry: OutboxEntry)
    | ClaimDue(now: nat, leaseMs: nat, limit: nat)
    | Completed(id: string, now: nat)
    | Retried(id: string, next: nat, error: string)

  /** One operation; a refused enqueue throws and writes nothing. */
  function Apply(outbox: Outbox, e: Event): Outbox {
    match e
    case Enqueue(entry) => (match Add(outbox, entry) case Added(o) => o case _ => outbox)
    case ClaimDue(now, leaseMs, limit) => Claim(outbox, now, leaseMs, limit).0
    case Completed(id, now) => Complete(outbox, id, now)
    case Retried(id, next, error) => Retry(outbox, id, next, error)
  }

  function Run(outbox: Outbox, events: seq<Event>): Outbox
    decreases |events|
  {
    if events == [] then outbox else Run(Apply(outbox, events[0]), events[1..])
  }

  // ---------------------------------------------------------------- unique ids

  predicate Unique(outbox: Outbox) { Distinct(outbox, Id) }

  lemma MapKeepsIds(outbox: Outbox, f: OutboxEntry -> OutboxEntry)
    requires Unique(outbox) && forall e: OutboxEntry :: f(e).callbackId == e.callbackId
    ensures Unique(Map(outbox, f))
  {
  }

  lemma AddKeepsUnique(outbox: Outbox, entry: OutboxEntry)
    requires Unique(outbox)
    ensures Unique(Apply(outbox, Enqueue(entry)))
  {
    if Filter(outbox, HasId(entry.callbackId)) == [] {
      forall e <- outbox ensures e.callbackId != entry.callbackId {
        assert HasId(entry.callbackId)(e) ==> e in Filter(outbox, HasId(entry.callbackId));
      }
    }
  }

  lemma CompactKeepsUnique(outbox: Outbox)
    requires Unique(outbox)
    ensures Unique(Compact(outbox))
  {
    FilterKeepsDistinct(outbox, NotIn(Ids(Surplus(outbox))), Id);
  }

  lemma StepKeepsUnique(outbox: Outbox, e: Event)
    requires Unique(outbox)
    ensures Unique(Apply(outbox, e))
  {
    hide Add, Surplus, Selected, Unique;
    match e
    case Enqueue(entry) => AddKeepsUnique(outbox, entry);
    case ClaimDue(now, leaseMs, limit) =>
      MapKeepsIds(outbox, LeaseIn(Ids(Selected(outbox, now, limit)), now + leaseMs));
    case Completed(id, now) =>
      MapKeepsIds(outbox, MarkDelivered(id, now));
      CompactKeepsUnique(Map(outbox, MarkDelivered(id, now)));
    case Retried(id, next, error) =>
      MapKeepsIds(outbox, Rescheduled(id, next, error));
  }

  /** Callback ids stay unique over every run. */
  lemma {:induction false} RunKeepsUnique(outbox: Outbox, events: seq<Event>)
    requires Unique(outbox)
    ensures Unique(Run(outbox, events))
    decreases |events|
  {
    if events != [] {
      StepKeepsUnique(outbox, events[0]);
      RunKeepsUnique(Apply(outbox, events[0]), events[1..]);
    }
  }

  // ---------------------------------------------------------------- enqueuing

  /** The same callback, as the caller tells it: its id may be used again for nothing else. */
  predicate SameMessage(a: OutboxEntry, b: OutboxEntry) {
    a.callbackId == b.callbackId && a.eventType == b.eventType && a.externalRunId == b.externalRunId && a.payload == b.payload
  }

  /**
   What becomes of a callback: too large a payload, an id in use for something else, and a full outbox refuse
   it; a callback that is there already is accepted without another entry; any other is appended.
   */
  lemma EnqueueOutcome(outbox: Outbox, entry: OutboxEntry)
    requires Unique(outbox)
    ensures var r := Add(outbox, entry);
            var fits, isNew := |entry.payload| <= 12000, forall e <- outbox :: e.callbackId != entry.callbackId;
            && (r.PayloadTooLarge? <==> !fits)
            && (r.IdReused? <==> fits && exists e <- outbox :: e.callbackId == entry.callbackId && !SameMessage(e, entry))
            && (r.OutboxFull? <==> fits && isNew && PendingCount(outbox) >= 5000)
            && (r == Added(outbox) <==> fits && exists e <- outbox :: SameMessage(e, entry))
            && (r == Added(outbox + [entry]) <==> fits && isNew && PendingCount(outbox) < 5000)
  {
    var same := Filter(outbox, HasId(entry.callbackId));
    hide PendingCount;
    forall e <- outbox | e.callbackId == entry.callbackId ensures same != [] && e == same[0] {
      assert HasId(entry.callbackId)(e) && e in same;
      assert same[0] in same;
      SameIdSameEntry(outbox, e, same[0]);
    }
    if same != [] { assert same[0] in same; }
    assert |outbox + [entry]| != |outbox|;
  }

  // ---------------------------------------------------------------- claiming

  lemma SelectedAreDue(outbox: Outbox, now: nat, limit: nat)
    ensures var sel := Selected(outbox, now, limit);
            && |sel| == (if limit < |Filter(outbox, DueAt(now))| then limit else |Filter(outbox, DueAt(now))|)
            && (forall e <- sel :: e in outbox && IsDue(e, now))
            && (forall e <- outbox :: IsDue(e, now) && e !in sel ==>
                  forall c <- sel :: c.nextAttemptAt <= e.nextAttemptAt)
  {
    var all := Filter(outbox, DueAt(now));
    var due := StableSort(all, NextAttempt);
    var sel := Selected(outbox, now, limit);
    StableSortSorts(all, NextAttempt);
    StableSortMembers(all, NextAttempt);
    forall e <- outbox | IsDue(e, now) && e !in sel
      ensures forall c <- sel :: c.nextAttemptAt <= e.nextAttemptAt
    {
      assert e in due;
      var i :| 0 <= i < |due| && due[i] == e;
      forall c <- sel ensures c.nextAttemptAt <= e.nextAttemptAt {
        var j :| 0 <= j < |sel| && sel[j] == c;
        assert j < i && due[j] == c;
        assert NextAttempt(due[j]) <= NextAttempt(due[i]);
      }
    }
  }

  lemma SelectedIsUnique(outbox: Outbox, now: nat, limit: nat)
    requires Unique(outbox)
    ensures Unique(Selected(outbox, now, limit))
  {
    FilterKeepsDistinct(outbox, DueAt(now), Id);
    SortKeepsDistinct(Filter(outbox, DueAt(now)), NextAttempt, Id);
  }

  /** With unique ids, leasing by id touches exactly the selected entries. */
  lemma IdsFindSelected(outbox: Outbox, now: nat, limit: nat, e: OutboxEntry)
    requires Unique(outbox) && e in outbox
    ensures e.callbackId in Ids(Selected(outbox, now, limit)) <==> e in Selected(outbox, now, limit)
  {
    SelectedAreDue(outbox, now, limit);
    var sel := Selected(outbox, now, limit);
    if e.callbackId in Ids(sel) {
      var c :| c in sel && c.callbackId == e.callbackId;
      SameIdSameEntry(outbox, c, e);
    }
  }

  lemma SameIdSameEntry(outbox: Outbox, a: OutboxEntry, b: OutboxEntry)
    requires Unique(outbox) && a in outbox && b in outbox && a.callbackId == b.callbackId
    ensures a == b
  {
    var i, j :| 0 <= i < |outbox| && outbox[i] == a && 0 <= j < |outbox| && outbox[j] == b;
    assert Id(outbox[i]) == Id(outbox[j]);
  }

  /** A claim leases exactly the selected entries and leaves every other entry as it was. */
  lemma ClaimLeasesSelected(outbox: Outbox, now: nat, leaseMs: nat, limit: nat)
    requires Unique(outbox)
    ensures var o' := Claim(outbox, now, leaseMs, limit).0;
            |o'| == |outbox| &&
            forall i :: 0 <= i < |outbox| ==>
              o'[i] == if outbox[i] in Selected(outbox, now, limit)
                       then outbox[i].(attemptCount := outbox[i].attemptCount + 1, deliveryState := Delivering,
                                       leaseExpiresAt := Some(now + leaseMs))
                       else outbox[i]
  {
    forall i | 0 <= i < |outbox|
      ensures outbox[i].callbackId in Ids(Selected(outbox, now, limit)) <==> outbox[i] in Selected(outbox, now, limit)
    {
      IdsFindSelected(outbox, now, limit, outbox[i]);
    }
  }

  lemma ReturnedAreLeased(outbox: Outbox, now: nat, leaseMs: nat, limit: nat, g: OutboxEntry)
    requires Unique(outbox) && g in Claim(outbox, now, leaseMs, limit).1
    ensures exists e <- Selected(outbox, now, limit) :: g == Leased(e, now + leaseMs)
  {
    hide Selected;
    var o' := Claim(outbox, now, leaseMs, limit).0;
    ClaimLeasesSelected(outbox, now, leaseMs, limit);
    var i :| 0 <= i < |o'| && o'[i] == g;
    IdsFindSelected(outbox, now, limit, outbox[i]);
    assert outbox[i] in Selected(outbox, now, limit);
  }

  lemma SelectedAreReturned(outbox: Outbox, now: nat, leaseMs: nat, limit: nat, e: OutboxEntry)
    requires Unique(outbox) && e in Selected(outbox, now, limit)
    ensures Leased(e, now + leaseMs) in Claim(outbox, now, leaseMs, limit).1
  {
    SelectedAreDue(outbox, now, limit);
    hide Selected;
    var o' := Claim(outbox, now, leaseMs, limit).0;
    ClaimLeasesSelected(outbox, now, leaseMs, limit);
    var i :| 0 <= i < |outbox| && outbox[i] == e;
    assert o'[i] == Leased(e, now + leaseMs) && IdIn(Ids(Selected(outbox, now, limit)))(o'[i]);
  }

  /** The caller gets the leased form of each selected entry, once, and nothing else. */
  lemma ClaimReturnsSelected(outbox: Outbox, now: nat, leaseMs: nat, limit: nat)
    requires Unique(outbox)
    ensures var got := Claim(outbox, now, leaseMs, limit).1;
            var sel := Selected(outbox, now, limit);
            && |got| == |sel| && |got| <= limit && Unique(got)
            && (forall g <- got :: exists e <- sel :: g == Leased(e, now + leaseMs))
            && (forall e <- sel :: Leased(e, now + leaseMs) in got)
  {
    var sel := Selected(outbox, now, limit);
    var (o', got) := Claim(outbox, now, leaseMs, limit);
    StepKeepsUnique(outbox, ClaimDue(now, leaseMs, limit));
    FilterKeepsDistinct(o', IdIn(Ids(sel)), Id);
    SelectedIsUnique(outbox, now, limit);
    SelectedAreDue(outbox, now, limit);
    hide Selected;
    hide Claim;
    forall g <- got ensures exists e <- sel :: g == Leased(e, now + leaseMs) {
      ReturnedAreLeased(outbox, now, leaseMs, limit, g);
    }
    forall e <- sel ensures Leased(e, now + leaseMs) in got {
      SelectedAreReturned(outbox, now, leaseMs, limit, e);
    }
    SameIdsSameLength(sel, got, now + leaseMs);
  }

  lemma SameIdsSameLength(sel: Outbox, got: Outbox, until: nat)
    requires Unique(sel) && Unique(got)
    requires forall g <- got :: exists e <- sel :: g == Leased(e, until)
    requires forall e <- sel :: Leased(e, until) in got
    ensures |got| == |sel|
  {
    DistinctCardinality(got, Id);
    DistinctCardinality(sel, Id);
    forall k | k in Keys(sel, Id) ensures k in Keys(got, Id) {
      var e :| e in sel && Id(e) == k;
      assert Id(Leased(e, until)) == k;
    }
    assert Keys(got, Id) == Keys(sel, Id);
  }

  // ---------------------------------------------------------------- leases over a run

  /** The entry with this id is out for delivery until `until`. */
  predicate OnLease(outbox: Outbox, id: string, until: nat) {
    exists e <- outbox :: e.callbackId == id && e.deliveryState.Delivering? && e.leaseExpiresAt == Some(until)
  }

  /** The event neither completes nor retries the callback, and its clock is inside the lease. */
  predicate InsideLease(e: Event, id: string, until: nat) {
    match e
    case Enqueue(_) => true
    case ClaimDue(now, _, _) => now < until
    case Completed(other, _) => other != id
    case Retried(other, _, _) => other != id
  }

  lemma ClaimStartsLease(outbox: Outbox, now: nat, leaseMs: nat, limit: nat, g: OutboxEntry)
    requires Unique(outbox) && g in Claim(outbox, now, leaseMs, limit).1
    ensures OnLease(Claim(outbox, now, leaseMs, limit).0, g.callbackId, now + leaseMs)
  {
    ReturnedAreLeased(outbox, now, leaseMs, limit, g);
    assert g in Claim(outbox, now, leaseMs, limit).0;
  }

  lemma LeasedIsNotSelected(outbox: Outbox, id: string, until: nat, now: nat, limit: nat)
    requires Unique(outbox) && OnLease(outbox, id, until) && now < until
    ensures id !in Ids(Selected(outbox, now, limit))
  {
    SelectedAreDue(outbox, now, limit);
    var e :| e in outbox && e.callbackId == id && e.deliveryState.Delivering? && e.leaseExpiresAt == Some(until);
    forall c <- Selected(outbox, now, limit) ensures c.callbackId != id {
      if c.callbackId == id { SameIdSameEntry(outbox, c, e); }
    }
  }

  lemma MapKeepsEntry(outbox: Outbox, f: OutboxEntry -> OutboxEntry, e: OutboxEntry)
    requires e in outbox && f(e) == e
    ensures e in Map(outbox, f)
  {
    var i :| 0 <= i < |outbox| && outbox[i] == e;
    var mapped := Map(outbox, f);
    assert mapped[i] == f(outbox[i]);
    assert mapped[i] in mapped;
  }

  lemma SurplusIsDelivered(outbox: Outbox)
    ensures forall d <- Surplus(outbox) :: d in outbox && d.deliveryState.Delivered?
  {
    StableSortMembers(Filter(outbox, IsDelivered), NewestFirst);
    forall d <- Surplus(outbox) ensures d in DeliveredNewestFirst(outbox) {}
  }

  /** Compaction keeps every undelivered entry. */
  lemma CompactKeepsUndelivered(outbox: Outbox, e: OutboxEntry)
    requires Unique(outbox) && e in outbox && Undelivered(e)
    ensures e in Compact(outbox)
  {
    SurplusIsDelivered(outbox);
    hide Surplus;
    forall d <- Surplus(outbox) ensures d.callbackId != e.callbackId {
      if d.callbackId == e.callbackId { SameIdSameEntry(outbox, d, e); }
    }
    assert NotIn(Ids(Surplus(outbox)))(e);
  }

  lemma StepKeepsLease(outbox: Outbox, e: Event, id: string, until: nat)
    requires Unique(outbox) && OnLease(outbox, id, until) && InsideLease(e, id, until)
    ensures OnLease(Apply(outbox, e), id, until)
  {
    var x :| x in outbox && x.callbackId == id && x.deliveryState.Delivering? && x.leaseExpiresAt == Some(until);
    match e
    case Enqueue(entry) =>
      assert x in Apply(outbox, e);
    case ClaimDue(now, leaseMs, limit) =>
      LeasedIsNotSelected(outbox, id, until, now, limit);
      MapKeepsEntry(outbox, LeaseIn(Ids(Selected(outbox, now, limit)), now + leaseMs), x);
    case Completed(other, now) =>
      var marked := Map(outbox, MarkDelivered(other, now));
      MapKeepsEntry(outbox, MarkDelivered(other, now), x);
      MapKeepsIds(outbox, MarkDelivered(other, now));
      CompactKeepsUndelivered(marked, x);
    case Retried(other, next, error) =>
      MapKeepsEntry(outbox, Rescheduled(other, next, error), x);
  }

  /**
   Two claims inside one lease never return the same callback unless it was completed or
   retried in between, whatever else happens to the outbox.
   */
  lemma {:induction false} LeaseExcludesSecondClaim(outbox: Outbox, events: seq<Event>, id: string, until: nat, now: nat, leaseMs: nat, limit: nat)
    requires Unique(outbox) && OnLease(outbox, id, until)
    requires forall e <- events :: InsideLease(e, id, until)
    requires now < until
    ensures var o := Run(outbox, events);
            OnLease(o, id, until) && forall g <- Claim(o, now, leaseMs, limit).1 :: g.callbackId != id
    decreases |events|
  {
    if events == [] {
      LeasedIsNotSelected(outbox, id, until, now, limit);
    } else {
      StepKeepsUnique(outbox, events[0]);
      StepKeepsLease(outbox, events[0], id, until);
      LeaseExcludesSecondClaim(Apply(outbox, events[0]), events[1..], id, until, now, leaseMs, limit);
    }
  }

  // ---------------------------------------------------------------- retries over a run

  /** The callback waits for its next attempt at `next`, held by nobody. */
  predicate Waiting(outbox: Outbox, id: string, next: nat) {
    exists e <- outbox :: e.callbackId == id && e.deliveryState.Pending? && e.nextAttemptAt == next
  }

  /** A retry: the callback waits for the given time with its error, and nothing else of it or of the others changes. */
  lemma RetryReschedules(outbox: Outbox, id: string, next: nat, error: string)
    ensures var o' := Retry(outbox, id, next, error);
            |o'| == |outbox| && forall i :: 0 <= i < |outbox| ==>
              var (e, r) := (outbox[i], o'[i]);
              if e.callbackId != id then r == e
              else && r.deliveryState == Pending && r.nextAttemptAt == next && r.lastError == Some(error) && r.leaseExpiresAt == None
                   && SameCallback(e, r) && r.attemptCount == e.attemptCount && r.deliveredAt == e.deliveredAt
                   && forall now: nat :: IsDue(r, now) <==> next <= now
    ensures (exists e <- outbox :: e.callbackId == id) ==> Waiting(Retry(outbox, id, next, error), id, next)
  {
    var o' := Retry(outbox, id, next, error);
    if e :| e in outbox && e.callbackId == id {
      var i :| 0 <= i < |outbox| && outbox[i] == e;
      assert o'[i] in o';
    }
  }

  lemma WaitingIsNotSelected(outbox: Outbox, id: string, next: nat, now: nat, limit: nat)
    requires Unique(outbox) && Waiting(outbox, id, next) && now < next
    ensures id !in Ids(Selected(outbox, now, limit))
  {
    SelectedAreDue(outbox, now, limit);
    var e :| e in outbox && e.callbackId == id && e.deliveryState.Pending? && e.nextAttemptAt == next;
    forall c <- Selected(outbox, now, limit) ensures c.callbackId != id {
      if c.callbackId == id { SameIdSameEntry(outbox, c, e); }
    }
  }

  /**
   A retried callback over any run in which it is not completed or retried again: no claim returns it
   before its time, and from that time on a claim returns it, unless `limit` earlier ones are due.
   */
  lemma RetriedWaits(outbox: Outbox, events: seq<Event>, id: string, next: nat, error: string,
                                        now: nat, leaseMs: nat, limit: nat)
    requires Unique(outbox) && exists e <- outbox :: e.callbackId == id
    requires forall e <- events :: InsideLease(e, id, next)
    ensures var o := Run(Retry(outbox, id, next, error), events);
            && (now < next ==> forall g <- Claim(o, now, leaseMs, limit).1 :: g.callbackId != id)
            && (next <= now && |o| <= limit ==> exists g <- Claim(o, now, leaseMs, limit).1 :: g.callbackId == id)
  {
    var start := Retry(outbox, id, next, error);
    RetryReschedules(outbox, id, next, error);
    StepKeepsUnique(outbox, Retried(id, next, error));
    var x :| x in start && x.callbackId == id && x.deliveryState.Pending? && x.nextAttemptAt == next;
    hide Retry;
    RunKeepsResting(start, events, x, next);
    RunKeepsUnique(start, events);
    var o := Run(start, events);
    assert Waiting(o, id, next);
    if now < next {
      WaitingIsNotSelected(o, id, next, now, limit);
    } else if |o| <= limit {
      DueIsReturned(o, x, now, leaseMs, limit);
      assert Leased(x, now + leaseMs).callbackId == id;
    }
  }

  /** The entry is not to be delivered before `until`. */
  ghost predicate RestsUntil(e: OutboxEntry, until: nat) { Undelivered(e) && forall now: nat :: now < until ==> !IsDue(e, now) }

  /** Such an entry is left as it is by every event before that time but its own completion or retry. */
  lemma StepKeepsResting(outbox: Outbox, e: Event, x: OutboxEntry, until: nat)
    requires Unique(outbox) && x in outbox && RestsUntil(x, until) && InsideLease(e, x.callbackId, until)
    ensures x in Apply(outbox, e)
  {
    hide IsDue;
    match e
    case Enqueue(entry) => AddKeepsEntries(outbox, entry, x);
    case ClaimDue(now, leaseMs, limit) =>
      SelectedAreDue(outbox, now, limit);
      IdsFindSelected(outbox, now, limit, x);
      MapKeepsEntry(outbox, LeaseIn(Ids(Selected(outbox, now, limit)), now + leaseMs), x);
    case Completed(other, now) => MarkDeliveredKeepsOthers(outbox, other, now, x);
    case Retried(other, at, error) => MapKeepsEntry(outbox, Rescheduled(other, at, error), x);
  }

  lemma {:induction false} RunKeepsResting(outbox: Outbox, events: seq<Event>, x: OutboxEntry, until: nat)
    requires Unique(outbox) && x in outbox && RestsUntil(x, until) && forall e <- events :: InsideLease(e, x.callbackId, until)
    ensures x in Run(outbox, events)
    decreases |events|
  {
    hide RestsUntil;
    if events != [] {
      StepKeepsUnique(outbox, events[0]);
      StepKeepsResting(outbox, events[0], x, until);
      RunKeepsResting(Apply(outbox, events[0]), events[1..], x, until);
    }
  }

  lemma DueIsReturned(outbox: Outbox, e: OutboxEntry, now: nat, leaseMs: nat, limit: nat)
    requires Unique(outbox) && e in outbox && IsDue(e, now) && |outbox| <= limit
    ensures Leased(e, now + leaseMs) in Claim(outbox, now, leaseMs, limit).1
  {
    var due := Filter(outbox, DueAt(now));
    assert DueAt(now)(e) && e in due;
    StableSortMember(due, NextAttempt, e);
    StableSortSorts(due, NextAttempt);
    assert e in Selected(outbox, now, limit);
    SelectedAreReturned(outbox, now, leaseMs, limit, e);
  }

  lemma ReturnedRests(outbox: Outbox, now: nat, leaseMs: nat, limit: nat, g: OutboxEntry)
    requires Unique(outbox) && g in Claim(outbox, now, leaseMs, limit).1
    ensures RestsUntil(g, now + leaseMs)
    ensures forall later: nat :: now + leaseMs <= later ==> IsDue(g, later)
  {
    hide Selected, Claim, Leased, RestsUntil, IsDue, Unique;
    ReturnedAreLeased(outbox, now, leaseMs, limit, g);
    var e :| e in Selected(outbox, now, limit) && g == Leased(e, now + leaseMs);
    SelectedIsDue(outbox, now, limit, e);
    LeasedRests(e, now, now + leaseMs, g);
  }

  lemma ReturnedIsClaimed(outbox: Outbox, now: nat, leaseMs: nat, limit: nat, g: OutboxEntry)
    requires g in Claim(outbox, now, leaseMs, limit).1
    ensures g in Claim(outbox, now, leaseMs, limit).0
  {
    hide Selected;
  }

  lemma SelectedIsDue(outbox: Outbox, now: nat, limit: nat, e: OutboxEntry)
    requires e in Selected(outbox, now, limit)
    ensures IsDue(e, now)
  {
    hide IsDue;
    SelectedAreDue(outbox, now, limit);
  }

  lemma LeasedRests(e: OutboxEntry, now: nat, until: nat, g: OutboxEntry)
    requires IsDue(e, now) && now <= until && g == Leased(e, until)
    ensures RestsUntil(g, until)
    ensures forall later: nat :: until <= later ==> IsDue(g, later)
  {
  }

  /**
   At least once: a callback that a claim returned, and that is neither completed nor retried, say because its
   worker died, is returned again once the lease has run out, with one more attempt, if there is room for all.
   */
  lemma LeaseRunsOut(outbox: Outbox, now: nat, leaseMs: nat, limit: nat, g: OutboxEntry, events: seq<Event>, later: nat, room: nat)
    requires Unique(outbox) && g in Claim(outbox, now, leaseMs, limit).1
    requires forall e <- events :: InsideLease(e, g.callbackId, now + leaseMs)
    ensures var o := Run(Claim(outbox, now, leaseMs, limit).0, events);
            now + leaseMs <= later && |o| <= room ==>
              exists h <- Claim(o, later, leaseMs, room).1 :: SameCallback(g, h) && h.attemptCount == g.attemptCount + 1
  {
    ReturnedRests(outbox, now, leaseMs, limit, g);
    ReturnedIsClaimed(outbox, now, leaseMs, limit, g);
    StepKeepsUnique(outbox, ClaimDue(now, leaseMs, limit));
    var claimed := Claim(outbox, now, leaseMs, limit).0;
    hide Claim, Unique, RestsUntil, IsDue;
    RunKeepsResting(claimed, events, g, now + leaseMs);
    RunKeepsUnique(claimed, events);
    var o := Run(claimed, events);
    if now + leaseMs <= later && |o| <= room {
      DueIsReturned(o, g, later, leaseMs, room);
      var h := Leased(g, later + leaseMs);
      assert h in Claim(o, later, leaseMs, room).1;
    }
  }

  /** A completion marks exactly this callback as delivered now; what it keeps of the others it leaves as they are. */
  lemma CompletionMarks(outbox: Outbox, id: string, now: nat, r: OutboxEntry)
    requires r in Complete(outbox, id, now)
    ensures exists e <- outbox ::
              && SameCallback(e, r) && r.attemptCount == e.attemptCount
              && (if e.callbackId == id then r.deliveryState == Delivered && r.deliveredAt == Some(now) && r.leaseExpiresAt == None
                  else r == e)
  {
    var marked := Map(outbox, MarkDelivered(id, now));
    assert r in marked;
    var i :| 0 <= i < |marked| && marked[i] == r;
    assert outbox[i] in outbox;
  }

  // ---------------------------------------------------------------- conservation and bounds

  /** The same callback: everything an operation may not change. */
  predicate SameCallback(a: OutboxEntry, b: OutboxEntry) {
    && a.callbackId == b.callbackId && a.externalRunId == b.externalRunId
    && a.eventType == b.eventType && a.payload == b.payload && a.createdAt == b.createdAt
    && a.attemptCount <= b.attemptCount
  }

  lemma MapKeepsCallback(outbox: Outbox, f: OutboxEntry -> OutboxEntry, e: OutboxEntry) returns (r: OutboxEntry)
    requires e in outbox
    ensures r in Map(outbox, f) && r == f(e)
  {
    var i :| 0 <= i < |outbox| && outbox[i] == e;
    r := Map(outbox, f)[i];
  }

  lemma MarkDeliveredKeepsOthers(outbox: Outbox, id: string, now: nat, x: OutboxEntry)
    requires Unique(outbox) && x in outbox && Undelivered(x) && id != x.callbackId
    ensures x in Complete(outbox, id, now)
  {
    MapKeepsEntry(outbox, MarkDelivered(id, now), x);
    MapKeepsIds(outbox, MarkDelivered(id, now));
    CompactKeepsUndelivered(Map(outbox, MarkDelivered(id, now)), x);
  }

  /** No operation drops an undelivered callback; only its own completion delivers it. */
  lemma UndeliveredSurvives(outbox: Outbox, e: Event, x: OutboxEntry)
    requires Unique(outbox) && x in outbox && Undelivered(x)
    requires e.Completed? ==> e.id != x.callbackId
    ensures exists y <- Apply(outbox, e) :: SameCallback(x, y) && Undelivered(y)
  {
    hide Complete;
    hide Selected;
    hide Add;
    var y: OutboxEntry;
    match e {
      case Enqueue(entry) =>
        AddKeepsEntries(outbox, entry, x);
        y := x;
      case ClaimDue(now, leaseMs, limit) =>
        y := MapKeepsCallback(outbox, LeaseIn(Ids(Selected(outbox, now, limit)), now + leaseMs), x);
      case Completed(id, now) =>
        MarkDeliveredKeepsOthers(outbox, id, now, x);
        y := x;
      case Retried(id, next, error) =>
        y := MapKeepsCallback(outbox, Rescheduled(id, next, error), x);
    }
    assert y in Apply(outbox, e) && SameCallback(x, y) && Undelivered(y);
  }

  lemma AddKeepsEntries(outbox: Outbox, entry: OutboxEntry, x: OutboxEntry)
    requires x in outbox
    ensures x in Apply(outbox, Enqueue(entry))
  {
  }

  predicate HasDelivered(outbox: Outbox, id: string) {
    exists x <- outbox :: x.callbackId == id && IsDelivered(x)
  }

  /** The retry reopens a callback that was already delivered. */
  predicate ReopensDelivered(outbox: Outbox, e: Event) {
    e.Retried? && HasDelivered(outbox, e.id)
  }

  lemma {:induction false} MapPendingCount(outbox: Outbox, f: OutboxEntry -> OutboxEntry)
    requires forall e <- outbox :: Undelivered(f(e)) ==> Undelivered(e)
    ensures PendingCount(Map(outbox, f)) <= PendingCount(outbox)
  {
    if outbox != [] {
      MapPendingCount(outbox[1..], f);
      assert Map(outbox, f)[1..] == Map(outbox[1..], f);
    }
  }

  lemma {:induction false} FilterPendingCount(outbox: Outbox, keep: OutboxEntry -> bool)
    ensures PendingCount(Filter(outbox, keep)) <= PendingCount(outbox)
  {
    if outbox != [] {
      FilterPendingCount(outbox[1..], keep);
      var rest := Filter(outbox[1..], keep);
      if keep(outbox[0]) {
        assert Filter(outbox, keep)[1..] == rest;
      } else {
        assert Filter(outbox, keep) == rest;
      }
    }
  }

  lemma TailIsUnique(outbox: Outbox)
    requires Unique(outbox) && outbox != []
    ensures Unique(outbox[1..])
    ensures forall x <- outbox[1..] :: x.callbackId != outbox[0].callbackId
  {
    var rest := outbox[1..];
    forall i, j | 0 <= i < j < |rest| ensures Id(rest[i]) != Id(rest[j]) {
      assert Id(outbox[i + 1]) != Id(outbox[j + 1]);
    }
    forall x <- rest ensures x.callbackId != outbox[0].callbackId {
      var j :| 0 <= j < |rest| && rest[j] == x;
      assert Id(outbox[0]) != Id(outbox[j + 1]);
    }
  }

  lemma HasDeliveredSplit(outbox: Outbox, id: string)
    requires outbox != []
    ensures HasDelivered(outbox, id)
            <==> (outbox[0].callbackId == id && IsDelivered(outbox[0])) || HasDelivered(outbox[1..], id)
  {
    assert outbox == [outbox[0]] + outbox[1..];
  }

  lemma PendingSplit(outbox: Outbox)
    requires outbox != []
    ensures PendingCount(outbox) == PendingCount(outbox[1..]) + if Undelivered(outbox[0]) then 1 else 0
  {
  }

  lemma {:induction false} ReopeningAddsOne(outbox: Outbox, id: string, next: nat, error: string)
    requires Unique(outbox)
    ensures PendingCount(Retry(outbox, id, next, error)) == PendingCount(outbox) + if HasDelivered(outbox, id) then 1 else 0
  {
    if outbox != [] {
      var f, rest := Rescheduled(id, next, error), outbox[1..];
      TailIsUnique(outbox);
      ReopeningAddsOne(rest, id, next, error);
      assert Map(outbox, f) == [f(outbox[0])] + Map(rest, f);
      assert Map(outbox, f)[1..] == Map(rest, f);
      PendingSplit(outbox);
      PendingSplit(Map(outbox, f));
      HasDeliveredSplit(outbox, id);
    }
  }

  lemma AddRespectsBound(outbox: Outbox, entry: OutboxEntry)
    requires PendingCount(outbox) <= MAX_PENDING
    ensures PendingCount(Apply(outbox, Enqueue(entry))) <= MAX_PENDING
  {
    FilterAppend(outbox, [entry], Undelivered);
    assert |Filter([entry], Undelivered)| <= 1;
  }

  lemma ClaimRespectsBound(outbox: Outbox, now: nat, leaseMs: nat, limit: nat)
    requires Unique(outbox)
    ensures PendingCount(Claim(outbox, now, leaseMs, limit).0) <= PendingCount(outbox)
  {
    var f := LeaseIn(Ids(Selected(outbox, now, limit)), now + leaseMs);
    SelectedAreDue(outbox, now, limit);
    hide Selected;
    forall x <- outbox ensures Undelivered(f(x)) ==> Undelivered(x) {
      IdsFindSelected(outbox, now, limit, x);
    }
    MapPendingCount(outbox, f);
  }

  lemma CompleteRespectsBound(outbox: Outbox, id: string, now: nat)
    ensures PendingCount(Complete(outbox, id, now)) <= PendingCount(outbox)
  {
    hide Surplus;
    MapPendingCount(outbox, MarkDelivered(id, now));
    var marked := Map(outbox, MarkDelivered(id, now));
    FilterPendingCount(marked, NotIn(Ids(Surplus(marked))));
  }

  /**
   The exact bound: an operation keeps at most 5000 undelivered callbacks if and only if it is
   not a retry that reopens a delivered callback while the outbox is already full.
   */
  lemma PendingBoundKeptIff(outbox: Outbox, e: Event)
    requires Unique(outbox) && PendingCount(outbox) <= MAX_PENDING
    ensures PendingCount(Apply(outbox, e)) <= MAX_PENDING
            <==> !(ReopensDelivered(outbox, e) && PendingCount(outbox) == MAX_PENDING)
  {
    hide PendingCount;
    hide Claim;
    hide Complete;
    match e
    case Enqueue(entry) => AddRespectsBound(outbox, entry);
    case ClaimDue(now, leaseMs, limit) => ClaimRespectsBound(outbox, now, leaseMs, limit);
    case Completed(id, now) => CompleteRespectsBound(outbox, id, now);
    case Retried(id, next, error) => ReopeningAddsOne(outbox, id, next, error);
  }

  ghost predicate NeverReopensWhenFull(outbox: Outbox, events: seq<Event>)
    decreases |events|
  {
    events == [] ||
    (!(ReopensDelivered(outbox, events[0]) && PendingCount(outbox) == MAX_PENDING)
     && NeverReopensWhenFull(Apply(outbox, events[0]), events[1..]))
  }

  lemma {:induction false} RunKeepsPendingBound(outbox: Outbox, events: seq<Event>)
    requires Unique(outbox) && PendingCount(outbox) <= MAX_PENDING
    requires NeverReopensWhenFull(outbox, events)
    ensures PendingCount(Run(outbox, events)) <= MAX_PENDING
    decreases |events|
  {
    if events != [] {
      PendingBoundKeptIff(outbox, events[0]);
      StepKeepsUnique(outbox, events[0]);
      RunKeepsPendingBound(Apply(outbox, events[0]), events[1..]);
    }
  }

  /** The first was delivered no earlier than the second; an unknown time counts as the earliest. */
  predicate DeliveredNoEarlier(a: OutboxEntry, b: OutboxEntry) {
    b.deliveredAt.Some? ==> a.deliveredAt.Some? && a.deliveredAt.value >= b.deliveredAt.value
  }

  lemma NewestFirstMeans(a: OutboxEntry, b: OutboxEntry)
    ensures NewestFirst(a) <= NewestFirst(b) <==> DeliveredNoEarlier(a, b)
  {
  }

  /** Every entry a completion compacts away is delivered and no newer than any delivered entry it keeps. */
  lemma CompletionKeepsNewestDelivered(outbox: Outbox, id: string, now: nat)
    requires Unique(outbox)
    ensures var marked, left := Map(outbox, MarkDelivered(id, now)), Complete(outbox, id, now);
            && (forall e <- left :: e in marked)
            && forall gone <- marked :: gone !in left ==>
                 IsDelivered(gone) && forall kept <- left :: IsDelivered(kept) ==> DeliveredNoEarlier(kept, gone)
  {
    var marked, left := Map(outbox, MarkDelivered(id, now)), Complete(outbox, id, now);
    MapKeepsIds(outbox, MarkDelivered(id, now));
    hide Compact, IsDelivered, NewestFirst, DeliveredNoEarlier;
    forall gone <- marked | gone !in left
      ensures IsDelivered(gone) && forall kept <- left :: IsDelivered(kept) ==> DeliveredNoEarlier(kept, gone)
    {
      GoneIsDelivered(marked, gone);
      forall kept <- left | IsDelivered(kept) ensures DeliveredNoEarlier(kept, gone) {
        CompactDropsOldest(marked, kept, gone);
        NewestFirstMeans(kept, gone);
      }
    }
    CompactKeepsEntries(marked);
  }

  lemma CompactKeepsEntries(outbox: Outbox)
    ensures forall e <- Compact(outbox) :: e in outbox
  {
  }

  lemma GoneIsDelivered(outbox: Outbox, gone: OutboxEntry)
    requires Unique(outbox) && gone in outbox && gone !in Compact(outbox)
    ensures IsDelivered(gone)
  {
    GoneIsSurplus(outbox, gone);
    SurplusIsDelivered(outbox);
  }

  /** After a completion at most 500 delivered entries remain. */
  lemma CompletionBoundsDelivered(outbox: Outbox, id: string, now: nat)
    requires Unique(outbox)
    ensures |Filter(Complete(outbox, id, now), IsDelivered)| <= MAX_DELIVERED
  {
    MapKeepsIds(outbox, MarkDelivered(id, now));
    CompactBoundsDelivered(Map(outbox, MarkDelivered(id, now)));
  }

  lemma KeptDeliveredIsNewest(outbox: Outbox, e: OutboxEntry)
    requires e in Compact(outbox) && IsDelivered(e)
    ensures e in Newest(outbox)
  {
    StableSortMember(Filter(outbox, IsDelivered), NewestFirst, e);
    assert DeliveredNewestFirst(outbox) == Newest(outbox) + Surplus(outbox);
    assert NotIn(Ids(Surplus(outbox)))(e);
    assert e in Newest(outbox) + Surplus(outbox);
  }

  lemma GoneIsSurplus(outbox: Outbox, e: OutboxEntry)
    requires Unique(outbox) && e in outbox && e !in Compact(outbox)
    ensures e in Surplus(outbox)
  {
    SurplusIsDelivered(outbox);
    hide Surplus;
    assert !NotIn(Ids(Surplus(outbox)))(e);
    var d :| d in Surplus(outbox) && d.callbackId == e.callbackId;
    SameIdSameEntry(outbox, d, e);
  }

  lemma NewestBeforeSurplus(outbox: Outbox, a: OutboxEntry, b: OutboxEntry)
    requires a in Newest(outbox) && b in Surplus(outbox)
    ensures NewestFirst(a) <= NewestFirst(b)
  {
    var delivered := DeliveredNewestFirst(outbox);
    StableSortSorts(Filter(outbox, IsDelivered), NewestFirst);
    var i :| 0 <= i < |Newest(outbox)| && Newest(outbox)[i] == a;
    var j :| 0 <= j < |Surplus(outbox)| && Surplus(outbox)[j] == b;
    assert delivered[i] == a && delivered[MAX_DELIVERED + j] == b;
  }

  lemma CompactDropsOldest(outbox: Outbox, kept: OutboxEntry, gone: OutboxEntry)
    requires Unique(outbox)
    requires kept in Compact(outbox) && IsDelivered(kept)
    requires gone in outbox && gone !in Compact(outbox)
    ensures IsDelivered(gone) && NewestFirst(kept) <= NewestFirst(gone)
  {
    KeptDeliveredIsNewest(outbox, kept);
    GoneIsSurplus(outbox, gone);
    SurplusIsDelivered(outbox);
    NewestBeforeSurplus(outbox, kept, gone);
  }

  lemma CompactBoundsDelivered(outbox: Outbox)
    requires Unique(outbox)
    ensures |Filter(Compact(outbox), IsDelivered)| <= MAX_DELIVERED
  {
    var kept, newest := Filter(Compact(outbox), IsDelivered), Newest(outbox);
    FilterKeepsDistinct(outbox, NotIn(Ids(Surplus(outbox))), Id);
    FilterKeepsDistinct(Compact(outbox), IsDelivered, Id);
    FilterKeepsDistinct(outbox, IsDelivered, Id);
    SortKeepsDistinct(Filter(outbox, IsDelivered), NewestFirst, Id);
    assert |newest| <= MAX_DELIVERED && Distinct(newest, Id);
    hide Newest;
    hide Compact;
    forall k | k in Keys(kept, Id) ensures k in Keys(newest, Id) {
      var e :| e in kept && Id(e) == k;
      KeptDeliveredIsNewest(outbox, e);
    }
    DistinctCardinality(kept, Id);
    DistinctCardinality(newest, Id);
    SubsetCardinality(Keys(kept, Id), Keys(newest, Id));
  }

  lemma {:induction false} SubsetCardinality<T>(a: set<T>, b: set<T>)
    requires a <= b
    ensures |a| <= |b|
  {
    if a != {} {
      var x :| x in a;
      SubsetCardinality(a - {x}, b - {x});
    }
  }
}
