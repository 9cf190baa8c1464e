/** The submission route: claim, submit, store, all inside one idempotency lock. */
module RunSubmission {
  import opened Wrappers
  import opened Lines
  import opened IdempotencyLog
  import opened IdempotencyStore

  // `Submit` runs the three store operations on any store that shares the log, and is proved
  // to be the transition `SubmitStep` on the reference reading of the log.  So a run of
  // submissions through any mix of stores is a run of `SubmitStep`, and deduplication is
  // proved there.

  /**
   What becomes of a claimed request: a job; a definite failure, which releases the claim; or nothing
   that can be relied on, because the remote service failed after the request may have reached it, or
   the process died between the claim and the answer.  Then the claim stays.
   */
  datatype Outcome = Created(response: Response) | NotCreated | Unknown

  /** One request, claimed at `claimAt` and finished at `finishAt`. */
  datatype Submission = Submission(key: string, fingerprint: string, claimAt: int, finishAt: int, outcome: Outcome)

  datatype Reply =
    | Submitted(response: Response)
    | SubmissionFailed
    | SubmissionUnknown
    | Conflict
    | Deduplicated(response: Response)
    | Refused

  function SubmitStep(m: Cache, s: Submission, ttl: nat): (Cache, Reply) {
    var live := Live(m, s.key, s.claimAt);
    match Decide(live, s.fingerprint, s.claimAt)
    case Claimed =>
      var claim := ClaimEntry(live, s.key, s.fingerprint, s.claimAt, ttl);
      (match s.outcome
       case Created(response) =>
         (m[s.key := FulfilledEntry(Some(claim), s.key, response, s.fingerprint, s.finishAt, ttl)], Submitted(response))
       case NotCreated => (m - {s.key}, SubmissionFailed)
       case Unknown => (m[s.key := claim], SubmissionUnknown))
    case StillPending => (m, Conflict)
    case AlreadyFulfilled(response) => (m, Deduplicated(response))
    case FingerprintMismatch => (m, Refused)
  }

  /** Reading back only its own claim, the store finds exactly that claim, expired or not. */
  lemma ClaimIsReadBack(c: Codec, v: View, content: string, e: Entry, now: int)
    requires c.Sound() && WellMade(e)
    requires v.position <= |content| && v.remainder == ""
    requires content[v.position..] == c.render(Persisted(e)) + "\n"
    requires Lookup(v.cache, e.key) == Some(e)
    ensures Lookup(ReadAll(c, v.cache, NewLines(v, content), now), e.key) == Some(e)
  {
    var line := c.render(Persisted(e));
    assert c.parse(line) == Some(Persisted(e)) && NoNewline(line);
    OneLine(line);
    assert "" + (line + "\n") == line + "\n";
    assert NewLines(v, content) == [line];
    assert Front([line]) == [];
    assert ReadAll(c, v.cache, [line], now) == Read(c, v.cache, line, now);
    RestorePersisted(e);
  }

  lemma ClaimsAreReleasable(live: Option<Entry>, s: Submission, ttl: nat)
    requires Decide(live, s.fingerprint, s.claimAt).Claimed?
    ensures var e := ClaimEntry(live, s.key, s.fingerprint, s.claimAt, ttl);
            e.state.Pending? && e.fingerprint == s.fingerprint && e.jobId == "" && e.expiresAt == s.claimAt + ttl
  {
  }

  /** Overwriting or removing the claim leaves what `SubmitStep` says. */
  lemma ClaimThenFinish(m: Cache, s: Submission, ttl: nat)
    requires Decide(Live(m, s.key, s.claimAt), s.fingerprint, s.claimAt).Claimed?
    ensures var e := ClaimEntry(Live(m, s.key, s.claimAt), s.key, s.fingerprint, s.claimAt, ttl);
            SubmitStep(m, s, ttl) == Finished(m[s.key := e], e, s, ttl)
  {
    var e := ClaimEntry(Live(m, s.key, s.claimAt), s.key, s.fingerprint, s.claimAt, ttl);
    assert m[s.key := e] - {s.key} == m - {s.key};
    if s.outcome.Created? {
      var f := FulfilledEntry(Some(e), s.key, s.outcome.response, s.fingerprint, s.finishAt, ttl);
      assert m[s.key := e][s.key := f] == m[s.key := f];
    }
  }

  /** What the route does to its claim `e`, and what it answers. */
  function Finished(claimed: Cache, e: Entry, s: Submission, ttl: nat): (Cache, Reply) {
    match s.outcome
    case Created(response) =>
      (claimed[s.key := FulfilledEntry(Some(e), s.key, response, s.fingerprint, s.finishAt, ttl)], Submitted(response))
    case NotCreated => (claimed - {s.key}, SubmissionFailed)
    case Unknown => (claimed, SubmissionUnknown)
  }

  /** The submission route on one store. */
  method Submit(store: IdempotencyStore, s: Submission) returns (reply: Reply)
    requires store.Valid(s.claimAt) && LogOk(store.codec, store.log.content, s.claimAt, store.ttl)
    requires s.claimAt <= s.finishAt
    modifies store, store.log
    ensures store.Valid(s.finishAt) && LogOk(store.codec, store.log.content, s.finishAt, store.ttl)
    ensures (store.Recorded(), reply) == SubmitStep(old(store.Recorded()), s, store.ttl)
  {
    ghost var before := store.Recorded();
    LatestIsWellMade(store.codec, Complete(store.log.content));
    var claim := store.ClaimOrGet(s.key, s.fingerprint, s.claimAt);
    LogOkAges(store.codec, store.log.content, s.claimAt, s.finishAt, store.ttl);
    StoreAges(store, s.claimAt, s.finishAt);
    match claim
    case AlreadyFulfilled(response) => reply := Deduplicated(response);
    case StillPending => reply := Conflict;
    case FingerprintMismatch => reply := Refused;
    case Claimed =>
      ClaimThenFinish(before, s, store.ttl);
      reply := Finish(store, s, Live(before, s.key, s.claimAt));
  }

  /** The part of the route after a successful claim. */
  method Finish(store: IdempotencyStore, s: Submission, ghost live: Option<Entry>) returns (reply: Reply)
    requires store.Valid(s.finishAt) && LogOk(store.codec, store.log.content, s.finishAt, store.ttl)
    requires Decide(live, s.fingerprint, s.claimAt).Claimed? && (live.Some? ==> live.value.key == s.key)
    requires var e := ClaimEntry(live, s.key, s.fingerprint, s.claimAt, store.ttl);
             && WellMade(e)
             && Lookup(store.cache, s.key) == Some(e) && store.own == [store.codec.render(Persisted(e))]
             && store.position <= |store.log.content|
             && store.log.content[store.position..] == store.own[0] + "\n"
    modifies store, store.log
    ensures store.Valid(s.finishAt) && LogOk(store.codec, store.log.content, s.finishAt, store.ttl)
    ensures (store.Recorded(), reply)
            == Finished(old(store.Recorded()), ClaimEntry(live, s.key, s.fingerprint, s.claimAt, store.ttl), s, store.ttl)
  {
    ghost var e := ClaimEntry(live, s.key, s.fingerprint, s.claimAt, store.ttl);
    ClaimsAreReleasable(live, s, store.ttl);
    ClaimIsReadBack(store.codec, store.State(), store.log.content, e, s.finishAt);
    match s.outcome {
      case Created(response) =>
        store.StoreResponse(s.key, response, s.fingerprint, s.finishAt);
        reply := Submitted(response);
      case NotCreated =>
        store.ReleasePendingClaim(s.key, s.fingerprint, s.finishAt);
        reply := SubmissionFailed;
      case Unknown =>
        reply := SubmissionUnknown;
    }
  }

  lemma StoreAges(store: IdempotencyStore, now: int, later: int)
    requires store.Valid(now) && now <= later
    ensures store.Valid(later)
  {
    var content := store.log.content;
    AppendKeepsInStep(store.codec, store.State(), store.own, content, "", now, later);
    assert content + "" == content;
  }

  // ---------------------------------------------------------------- runs of submissions

  function Run(m: Cache, subs: seq<Submission>, ttl: nat): Cache {
    if subs == [] then m else SubmitStep(Run(m, Front(subs), ttl), Last(subs), ttl).0
  }

  function ReplyAt(m: Cache, subs: seq<Submission>, i: nat, ttl: nat): Reply
    requires i < |subs|
  {
    SubmitStep(Run(m, subs[..i], ttl), subs[i], ttl).1
  }

  predicate InOrder(subs: seq<Submission>) {
    forall i, j :: 0 <= i < j < |subs| ==> subs[i].claimAt <= subs[j].claimAt
  }

  /** The key belongs to one job, with the response given for it, until the claim expires. */
  predicate Settled(m: Cache, key: string, fingerprint: string, response: Response, until: int) {
    Answers(m, key, fingerprint, response) && m[key].expiresAt == until
  }

  lemma SubmittedSettles(m: Cache, s: Submission, ttl: nat)
    requires SubmitStep(m, s, ttl).1.Submitted?
    ensures var (m', reply) := SubmitStep(m, s, ttl);
            Settled(m', s.key, s.fingerprint, reply.response, s.claimAt + ttl)
            && s.outcome == Created(reply.response)
  {
    ClaimsAreReleasable(Live(m, s.key, s.claimAt), s, ttl);
  }

  /** No submission changes a settled key, and every request for it is answered with the same job or refused. */
  lemma SettledAnswers(m: Cache, s: Submission, ttl: nat, key: string, fingerprint: string, response: Response, until: int)
    requires Settled(m, key, fingerprint, response, until)
    requires s.key == key ==> s.claimAt <= until
    ensures var (m', reply) := SubmitStep(m, s, ttl);
            && Settled(m', key, fingerprint, response, until)
            && (s.key == key ==> reply == if s.fingerprint == fingerprint then Deduplicated(response) else Refused)
  {
  }

  lemma {:induction false} SettledThroughRun(m: Cache, subs: seq<Submission>, ttl: nat, i: nat, j: nat)
    requires InOrder(subs) && i < j <= |subs|
    requires ReplyAt(m, subs, i, ttl).Submitted?
    requires j > i + 1 ==> subs[j - 1].claimAt <= subs[i].claimAt + ttl
    ensures Settled(Run(m, subs[..j], ttl), subs[i].key, subs[i].fingerprint, ReplyAt(m, subs, i, ttl).response, subs[i].claimAt + ttl)
    decreases j
  {
    assert Front(subs[..j]) == subs[..j - 1] && Last(subs[..j]) == subs[j - 1];
    if j == i + 1 {
      SubmittedSettles(Run(m, subs[..i], ttl), subs[i], ttl);
    } else {
      SettledThroughRun(m, subs, ttl, i, j - 1);
      SettledAnswers(Run(m, subs[..j - 1], ttl), subs[j - 1], ttl, subs[i].key, subs[i].fingerprint,
                     ReplyAt(m, subs, i, ttl).response, subs[i].claimAt + ttl);
    }
  }

  /**
   Deduplication: once a submission has produced a job, every later one with the same key within
   the time to live is answered with that job, or refused when its payload differs, whatever
   other keys are submitted in between.
   */
  lemma OneJobPerKey(m: Cache, subs: seq<Submission>, ttl: nat, i: nat, j: nat)
    requires InOrder(subs) && i < j < |subs|
    requires subs[j].key == subs[i].key && subs[j].claimAt <= subs[i].claimAt + ttl
    requires ReplyAt(m, subs, i, ttl).Submitted?
    ensures ReplyAt(m, subs, j, ttl) ==
            if subs[j].fingerprint == subs[i].fingerprint then Deduplicated(ReplyAt(m, subs, i, ttl).response) else Refused
  {
    SettledThroughRun(m, subs, ttl, i, j);
    SettledAnswers(Run(m, subs[..j], ttl), subs[j], ttl, subs[i].key, subs[i].fingerprint,
                   ReplyAt(m, subs, i, ttl).response, subs[i].claimAt + ttl);
  }

  predicate NonePending(m: Cache) {
    forall key <- m :: m[key].state == ClaimState.Fulfilled
  }

  lemma StepLeavesNonePending(m: Cache, s: Submission, ttl: nat)
    requires NonePending(m) && !s.outcome.Unknown?
    ensures NonePending(SubmitStep(m, s, ttl).0) && !SubmitStep(m, s, ttl).1.Conflict?
  {
  }

  /** While every submission ends one way or the other, no key stays pending and the route never answers with a conflict. */
  lemma {:induction false} NoConflictWithoutCrash(m: Cache, subs: seq<Submission>, ttl: nat, i: nat)
    requires NonePending(m) && i <= |subs|
    requires forall s <- subs :: !s.outcome.Unknown?
    ensures NonePending(Run(m, subs[..i], ttl))
    ensures i < |subs| ==> !ReplyAt(m, subs, i, ttl).Conflict?
  {
    if i > 0 {
      NoConflictWithoutCrash(m, subs, ttl, i - 1);
      assert Front(subs[..i]) == subs[..i - 1] && Last(subs[..i]) == subs[i - 1];
      assert subs[i - 1] in subs;
      StepLeavesNonePending(Run(m, subs[..i - 1], ttl), subs[i - 1], ttl);
    }
    if i < |subs| {
      assert subs[i] in subs;
      StepLeavesNonePending(Run(m, subs[..i], ttl), subs[i], ttl);
    }
  }

  // ---------------------------------------------------------------- after a crash

  /** The key is held by a claim without a job, made at `since`. */
  predicate Held(m: Cache, key: string, fingerprint: string, since: int, ttl: nat) {
    key in m && m[key].state.Pending? && m[key].jobId == "" && m[key].fingerprint == fingerprint
    && m[key].requestTime == since && m[key].expiresAt == since + ttl
  }

  /** A submission at `now` is late for a claim made at `since`: it was abandoned, or has run out. */
  predicate Late(now: int, since: int, ttl: nat) {
    now - since > STALE_PENDING_THRESHOLD_MS || now > since + ttl
  }

  lemma UnknownHolds(m: Cache, s: Submission, ttl: nat)
    requires SubmitStep(m, s, ttl).1.SubmissionUnknown?
    ensures Held(SubmitStep(m, s, ttl).0, s.key, s.fingerprint, s.claimAt, ttl)
  {
    ClaimsAreReleasable(Live(m, s.key, s.claimAt), s, ttl);
  }

  /**
   A held key: a request for it gets a job of its own, a second one if the first was created after all,
   exactly when it comes late, with the same payload or after the claim ran out; before that it is a
   conflict, or refused, and the claim stays as it is.
   */
  lemma HeldAnswers(m: Cache, s: Submission, ttl: nat, key: string, fingerprint: string, since: int)
    requires Held(m, key, fingerprint, since, ttl)
    ensures var (m', reply) := SubmitStep(m, s, ttl);
            var claims := s.key == key && (s.claimAt > since + ttl
                                           || (s.fingerprint == fingerprint && Late(s.claimAt, since, ttl)));
            && (s.key == key ==> (reply.Submitted? || reply.SubmissionFailed? || reply.SubmissionUnknown? <==> claims))
            && (s.key == key && !claims ==> reply == if s.fingerprint == fingerprint then Conflict else Refused)
            && (!claims ==> Held(m', key, fingerprint, since, ttl))
  {
  }

  /** No request for the key among `subs` comes late. */
  predicate NoneLate(subs: seq<Submission>, key: string, since: int, ttl: nat) {
    forall s <- subs :: s.key == key ==> !Late(s.claimAt, since, ttl)
  }

  lemma {:induction false} HeldThroughRun(m: Cache, subs: seq<Submission>, ttl: nat, key: string, fingerprint: string, since: int)
    requires Held(m, key, fingerprint, since, ttl) && NoneLate(subs, key, since, ttl)
    ensures Held(Run(m, subs, ttl), key, fingerprint, since, ttl)
  {
    if subs != [] {
      HeldThroughRun(m, Front(subs), ttl, key, fingerprint, since);
      assert Last(subs) in subs;
      HeldAnswers(Run(m, Front(subs), ttl), Last(subs), ttl, key, fingerprint, since);
    }
  }

  /**
   When a second job becomes possible: after a crash, or an unknown outcome, and any run in which no
   request for the key came late, the next request for it with the same payload goes ahead if and only
   if it comes late itself.
   */
  lemma SecondJobIff(m: Cache, crashed: Submission, between: seq<Submission>, next: Submission, ttl: nat)
    requires SubmitStep(m, crashed, ttl).1.SubmissionUnknown?
    requires NoneLate(between, crashed.key, crashed.claimAt, ttl)
    requires next.key == crashed.key && next.fingerprint == crashed.fingerprint && next.outcome.Created?
    ensures var reply := SubmitStep(Run(SubmitStep(m, crashed, ttl).0, between, ttl), next, ttl).1;
            && (reply.Submitted? <==> Late(next.claimAt, crashed.claimAt, ttl))
            && (!reply.Submitted? ==> reply == Conflict)
  {
    UnknownHolds(m, crashed, ttl);
    HeldThroughRun(SubmitStep(m, crashed, ttl).0, between, ttl, crashed.key, crashed.fingerprint, crashed.claimAt);
    HeldAnswers(Run(SubmitStep(m, crashed, ttl).0, between, ttl), next, ttl, crashed.key, crashed.fingerprint, crashed.claimAt);
  }

  // ---------------------------------------------------------------- expiries

  /** No recorded claim outlives one made at `now`. */
  predicate Horizon(m: Cache, now: int, ttl: nat) {
    forall key <- m :: m[key].expiresAt <= now + ttl
  }

  lemma StepKeepsHorizon(m: Cache, s: Submission, ttl: nat)
    requires Horizon(m, s.claimAt, ttl)
    ensures var m' := SubmitStep(m, s, ttl).0;
            Horizon(m', s.claimAt, ttl)
            && forall key <- m' :: (key in m && m[key].expiresAt <= m'[key].expiresAt) || m'[key].expiresAt == s.claimAt + ttl
  {
  }

  lemma {:induction false} RunKeepsHorizon(m: Cache, subs: seq<Submission>, ttl: nat, start: int)
    requires InOrder(subs) && Horizon(m, start, ttl) && forall s <- subs :: start <= s.claimAt
    ensures Horizon(Run(m, subs, ttl), if subs == [] then start else Last(subs).claimAt, ttl)
  {
    if subs != [] {
      var front := Front(subs);
      RunKeepsHorizon(m, front, ttl, start);
      assert Last(subs) in subs;
      if front != [] { assert front[|front| - 1] == subs[|subs| - 2]; }
      StepKeepsHorizon(Run(m, front, ttl), Last(subs), ttl);
    }
  }

  /** Submissions with a clock that does not go back, none before `start`. */
  predicate InOrderFrom(subs: seq<Submission>, start: int) {
    InOrder(subs) && forall s <- subs :: start <= s.claimAt
  }

  /** What is recorded before submission `i`. */
  function StateAt(m: Cache, subs: seq<Submission>, ttl: nat, i: nat): Cache
    requires i <= |subs|
  {
    Run(m, subs[..i], ttl)
  }

  /**
   Over every run of submissions the expiry recorded for a key never goes down, not even when its claim
   was released and made again in between: the routes claim before they store.
   */
  lemma {:induction false} ExpiryNeverDecreases(m: Cache, subs: seq<Submission>, ttl: nat, start: int, i: nat, j: nat, key: string)
    requires InOrderFrom(subs, start) && Horizon(m, start, ttl) && i <= j <= |subs|
    requires key in StateAt(m, subs, ttl, i) && key in StateAt(m, subs, ttl, j)
    ensures StateAt(m, subs, ttl, i)[key].expiresAt <= StateAt(m, subs, ttl, j)[key].expiresAt
    decreases j
  {
    hide StateAt, SubmitStep, InOrderFrom;
    if i < j {
      RunOne(m, subs, ttl, j);
      var was, before := StateAt(m, subs, ttl, i), StateAt(m, subs, ttl, j - 1);
      ExpiryBounded(m, subs, ttl, start, i, j - 1);
      ExpiryBounded(m, subs, ttl, start, j - 1, j - 1);
      if key in before {
        ExpiryNeverDecreases(m, subs, ttl, start, i, j - 1, key);
      }
      ExpiryStep(before, subs[j - 1], ttl, key, was[key].expiresAt);
    }
  }

  lemma RunOne(m: Cache, subs: seq<Submission>, ttl: nat, j: nat)
    requires 0 < j <= |subs|
    ensures StateAt(m, subs, ttl, j) == SubmitStep(StateAt(m, subs, ttl, j - 1), subs[j - 1], ttl).0
  {
    assert Front(subs[..j]) == subs[..j - 1] && Last(subs[..j]) == subs[j - 1];
  }

  lemma ExpiryStep(before: Cache, s: Submission, ttl: nat, key: string, earlier: int)
    requires Horizon(before, s.claimAt, ttl) && earlier <= s.claimAt + ttl
    requires key in SubmitStep(before, s, ttl).0 && (key in before ==> earlier <= before[key].expiresAt)
    ensures earlier <= SubmitStep(before, s, ttl).0[key].expiresAt
  {
    hide SubmitStep;
    StepKeepsHorizon(before, s, ttl);
  }

  lemma ExpiryBounded(m: Cache, subs: seq<Submission>, ttl: nat, start: int, i: nat, n: nat)
    requires InOrderFrom(subs, start) && Horizon(m, start, ttl) && i <= n < |subs|
    ensures Horizon(StateAt(m, subs, ttl, i), subs[n].claimAt, ttl)
  {
    PrefixFacts(subs, i, start);
    hide SubmitStep, Run;
    RunKeepsHorizon(m, subs[..i], ttl, start);
    assert i < n ==> subs[i].claimAt <= subs[n].claimAt;
  }

  lemma PrefixFacts(subs: seq<Submission>, i: nat, start: int)
    requires InOrder(subs) && i < |subs| && forall s <- subs :: start <= s.claimAt
    ensures InOrder(subs[..i]) && (forall s <- subs[..i] :: start <= s.claimAt)
    ensures (if subs[..i] == [] then start else Last(subs[..i]).claimAt) <= subs[i].claimAt
  {
    assert subs[i] in subs;
  }
}
