/** How the bound on undelivered callbacks can break: a retry of a delivered callback on a full outbox. */
module OutboxOverflow {
  import opened Wrappers
  import opened Seqs
  import opened SoyuzOutbox

  /** A callback with an id of its own for every number. */
  function Numbered(n: nat): OutboxEntry {
    OutboxEntry(seq(n, _ => '|'), "run", "event", [], 0, 0, None, Pending, None, 0, None)
  }

  function FirstNumbered(n: nat): Outbox {
    if n == 0 then [] else FirstNumbered(n - 1) + [Numbered(n)]
  }

  function Enqueues(n: nat): seq<Event> {
    if n == 0 then [] else Enqueues(n - 1) + [Enqueue(Numbered(n))]
  }

  lemma {:induction false} FirstNumberedFacts(n: nat)
    ensures PendingCount(FirstNumbered(n)) == n
    ensures forall e <- FirstNumbered(n) :: |e.callbackId| <= n
  {
    if n > 0 {
      FirstNumberedFacts(n - 1);
      FilterAppend(FirstNumbered(n - 1), [Numbered(n)], Undelivered);
      assert Filter([Numbered(n)], Undelivered) == [Numbered(n)];
      forall e <- FirstNumbered(n) ensures |e.callbackId| <= n {
        assert e in FirstNumbered(n - 1) || e == Numbered(n);
      }
    }
  }

  lemma {:induction false} RunSnoc(outbox: Outbox, events: seq<Event>, e: Event)
    ensures Run(outbox, events + [e]) == Apply(Run(outbox, events), e)
    decreases |events|
  {
    if events == [] {
      assert [] + [e] == [e] && [e][1..] == [];
    } else {
      assert (events + [e])[1..] == events[1..] + [e];
      RunSnoc(Apply(outbox, events[0]), events[1..], e);
    }
  }

  /** The outbox with one delivered callback and `n` pending ones. */
  function Filled(first: OutboxEntry, n: nat): Outbox { [first] + FirstNumbered(n) }

  lemma FilledFacts(first: OutboxEntry, n: nat)
    requires first.callbackId == "" && IsDelivered(first)
    ensures PendingCount(Filled(first, n)) == n
    ensures forall e <- Filled(first, n) :: |e.callbackId| <= n
  {
    FirstNumberedFacts(n);
    FilterAppend([first], FirstNumbered(n), Undelivered);
    assert Filter([first], Undelivered) == [];
  }

  lemma EnqueueAddsOne(first: OutboxEntry, n: nat)
    requires first.callbackId == "" && IsDelivered(first) && n < MAX_PENDING
    requires Unique(Filled(first, n))
    ensures Apply(Filled(first, n), Enqueue(Numbered(n + 1))) == Filled(first, n + 1)
    ensures Unique(Filled(first, n + 1))
  {
    FilledFacts(first, n);
    var before, e := Filled(first, n), Numbered(n + 1);
    assert |e.callbackId| == n + 1;
    forall x <- before ensures x.callbackId != e.callbackId {
    }
    assert Filled(first, n + 1) == before + [e];
    hide Filled, FirstNumbered, PendingCount, Numbered;
    assert Filter(before, HasId(e.callbackId)) == [] by {
      NoneWithId(before, e.callbackId);
    }
    AddKeepsUnique(before, e);
    PayloadOfNumbered(n + 1);
  }

  lemma PayloadOfNumbered(n: nat)
    ensures Numbered(n).payload == []
  {
  }

  lemma {:induction false} NoneWithId(outbox: Outbox, id: string)
    requires forall x <- outbox :: x.callbackId != id
    ensures Filter(outbox, HasId(id)) == []
  {
    if outbox != [] {
      NoneWithId(outbox[1..], id);
    }
  }

  lemma NothingEnqueued(first: OutboxEntry)
    ensures Run([first], Enqueues(0)) == Filled(first, 0) && Unique(Filled(first, 0))
  {
    assert Filled(first, 0) == [first];
  }

  lemma EnqueuesSplit(n: nat)
    requires n > 0
    ensures Enqueues(n) == Enqueues(n - 1) + [Enqueue(Numbered(n))]
  {
  }

  lemma {:induction false} EnqueuesAdd(first: OutboxEntry, n: nat)
    requires first.callbackId == "" && IsDelivered(first) && n <= MAX_PENDING
    ensures Run([first], Enqueues(n)) == Filled(first, n) && Unique(Filled(first, n))
  {
    hide Filled, Unique, IsDelivered, Apply, Run, Numbered, Enqueues;
    if n == 0 {
      NothingEnqueued(first);
    } else {
      EnqueuesAdd(first, n - 1);
      EnqueuesSplit(n);
      RunSnoc([first], Enqueues(n - 1), Enqueue(Numbered(n)));
      EnqueueAddsOne(first, n - 1);
    }
  }

  lemma RetryAddsOne(first: OutboxEntry, n: nat)
    requires first.callbackId == "" && IsDelivered(first) && Unique(Filled(first, n))
    ensures PendingCount(Apply(Filled(first, n), Retried("", 2, "late"))) == n + 1
  {
    FilledFacts(first, n);
    var full := Filled(first, n);
    assert first in full && HasDelivered(full, "");
    hide PendingCount, Filled, IsDelivered, HasDelivered, Retry;
    ReopeningAddsOne(full, "", 2, "late");
  }

  /**
   For `n` the bound of 5000: a run from the empty outbox that ends with 5001 undelivered callbacks,
   whose last event retries a delivered one.
   */
  lemma RetryOverfillsOutbox(n: nat)
    requires n == MAX_PENDING
    ensures var events := [Enqueue(Numbered(0)), Completed("", 1)] + Enqueues(n);
            && PendingCount(Run([], events)) == n
            && PendingCount(Run([], events + [Retried("", 2, "late")])) == n + 1
  {
    hide PendingCount, Enqueues, Filled, IsDelivered, Apply, Run, Unique, Numbered, MarkDelivered;
    var first := MarkDelivered("", 1)(Numbered(0));
    var two := [Enqueue(Numbered(0)), Completed("", 1)];
    DeliveredAlone(first);
    FilledFacts(first, n);
    RunsInTwo([], two, Enqueues(n));
    EnqueuesAdd(first, n);
    RetryAddsOne(first, n);
    RunSnoc([], two + Enqueues(n), Retried("", 2, "late"));
  }

  lemma DeliveredAlone(first: OutboxEntry)
    requires first == MarkDelivered("", 1)(Numbered(0))
    ensures first.callbackId == "" && IsDelivered(first)
    ensures Run([], [Enqueue(Numbered(0)), Completed("", 1)]) == [first]
  {
    var e := Numbered(0);
    assert e.callbackId == "" && Filter([], HasId("")) == [] && Filter([], Undelivered) == [];
    assert Add([], e) == Added([e]);
    assert Map([e], MarkDelivered("", 1)) == [first];
    var events := [Enqueue(e), Completed("", 1)];
    assert events[1..] == [Completed("", 1)] && events[1..][1..] == [];
    assert Surplus([first]) == [];
    assert Ids(Surplus([first])) == {};
    assert Filter([first], NotIn({})) == [first];
    assert Complete([e], "", 1) == [first];
  }

  lemma {:induction false} RunsInTwo(outbox: Outbox, a: seq<Event>, b: seq<Event>)
    ensures Run(outbox, a + b) == Run(Run(outbox, a), b)
    decreases |a|
  {
    if a == [] {
      assert a + b == b;
    } else {
      assert (a + b)[1..] == a[1..] + b;
      RunsInTwo(Apply(outbox, a[0]), a[1..], b);
    }
  }
}
