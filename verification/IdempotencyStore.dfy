/** The idempotency store: an in-memory cache in front of the shared log. */
module IdempotencyStore {
  import opened Wrappers
  import opened Lines
  import opened IdempotencyLog

  // Each public method runs under the store lock, so it is one transition on the cache and the
  // log.  Several stores may share one `LogFile`; appends of the others keep `InStep`
  // (`IdempotencyLog.AppendKeepsInStep`).

  class LogFile {
    var content: string

    constructor ()
      ensures content == ""
    {
      content := "";
    }
  }

  datatype ClaimResult = Claimed | StillPending | AlreadyFulfilled(response: Response) | FingerprintMismatch

  /** The pending entry of a fresh claim. */
  function FreshClaim(key: string, fingerprint: string, now: int, ttl: nat): Entry {
    Entry(key, fingerprint, Pending, "", now, Response("", "queued", now, None, None), now + ttl)
  }

  predicate IsAbandoned(e: Entry, now: int) {
    e.state.Pending? && e.jobId == "" && now - e.requestTime > STALE_PENDING_THRESHOLD_MS
  }

  /** What a claim answers, given the entry that is live for the key. */
  function Decide(live: Option<Entry>, fingerprint: string, now: int): ClaimResult {
    if live.None? then Claimed
    else if live.value.fingerprint != fingerprint then FingerprintMismatch
    else if IsAbandoned(live.value, now) then Claimed
    else if live.value.state.Pending? then StillPending
    else AlreadyFulfilled(live.value.response)
  }

  /** The entry a successful claim records. */
  function ClaimEntry(live: Option<Entry>, key: string, fingerprint: string, now: int, ttl: nat): Entry {
    match live
    case None => FreshClaim(key, fingerprint, now, ttl)
    case Some(e) => e.(requestTime := now, expiresAt := now + ttl)
  }

  /** A claim is pending and names no job; a fresh one holds a queued placeholder, a reclaimed one what the abandoned one held. */
  lemma ClaimsArePending(live: Option<Entry>, key: string, fingerprint: string, now: int, ttl: nat)
    requires Decide(live, fingerprint, now).Claimed? && (live.Some? ==> live.value.key == key)
    ensures var e := ClaimEntry(live, key, fingerprint, now, ttl);
            && e.key == key && e.fingerprint == fingerprint && e.state == Pending && e.jobId == ""
            && e.requestTime == now && e.expiresAt == now + ttl
            && e.response == (if live.Some? then live.value.response else Response("", "queued", now, None, None))
  {
  }

  /** The entry `storeResponse` records over the one it finds in the cache, expired or not. */
  function FulfilledEntry(existing: Option<Entry>, key: string, response: Response, fingerprint: string, now: int, ttl: nat): Entry {
    match existing
    case Some(e) => e.(fingerprint := fingerprint, state := Fulfilled, jobId := response.id, response := response)
    case None => Entry(key, fingerprint, Fulfilled, response.id, now, response, now + ttl)
  }

  /** The key is bound to this very response, and the record names its job. */
  predicate Answers(m: Cache, key: string, fingerprint: string, response: Response) {
    key in m && m[key].state.Fulfilled? && m[key].fingerprint == fingerprint && m[key].jobId == response.id
    && m[key].response == response
  }

  predicate Keyed(cache: Cache) {
    forall key <- cache :: cache[key].key == key && WellMade(cache[key])
  }

  function Lookup(cache: Cache, key: string): Option<Entry> {
    if key in cache then Some(cache[key]) else None
  }

  /** `releasePendingClaim` only undoes the caller's own claim that produced no job. */
  predicate MayRelease(existing: Option<Entry>, fingerprint: string) {
    existing.Some? && existing.value.state.Pending? && existing.value.fingerprint == fingerprint && existing.value.jobId == ""
  }

  /** What every writer finds and leaves: whole, orderly lines, none of which outlives a fresh one. */
  ghost predicate LogOk(c: Codec, content: string, now: int, ttl: nat) {
    && Remainder(content) == ""
    && Orderly(c, Complete(content), now)
    && Bounded(c, Complete(content), now + ttl)
  }

  lemma LogOkAges(c: Codec, content: string, now: int, later: int, ttl: nat)
    requires LogOk(c, content, now, ttl) && now <= later
    ensures LogOk(c, content, later, ttl)
  {
    OrderlyAges(c, Complete(content), now, later);
  }

  lemma OneLine(line: string)
    requires NoNewline(line)
    ensures Split(line + "\n") == [line, ""]
  {
    assert line + "\n" + "" == line + "\n";
    SplitFirstLine(line, "");
    assert Split("") == [""];
  }

  lemma AppendLine(content: string, line: string)
    requires Remainder(content) == "" && NoNewline(line)
    ensures Complete(content + line + "\n") == Complete(content) + [line]
    ensures Remainder(content + line + "\n") == ""
  {
    SplitChunk(content, line + "\n");
    assert content + (line + "\n") == content + line + "\n";
    OneLine(line);
    assert "" + (line + "\n") == line + "\n";
    assert Front(Complete(content) + [line, ""]) == Complete(content) + [line];
  }

  /** An entry that does not shorten a live one keeps the log in order. */
  lemma PutKeepsLogOk(c: Codec, content: string, e: Entry, now: int, ttl: nat)
    requires c.Sound() && LogOk(c, content, now, ttl)
    requires WellMade(e) && e.expiresAt <= now + ttl
    requires var latest := Latest(c, Complete(content));
             e.key in latest ==> latest[e.key].expiresAt <= e.expiresAt || latest[e.key].expiresAt < now
    ensures var content' := content + c.render(Persisted(e)) + "\n";
            && LogOk(c, content', now, ttl)
            && Latest(c, Complete(content')) == Latest(c, Complete(content))[e.key := e]
    ensures Write(c, Latest(c, Complete(content)), c.render(Persisted(e))) == Latest(c, Complete(content))[e.key := e]
  {
    var line := c.render(Persisted(e));
    AppendLine(content, line);
    assert c.parse(line) == Some(Persisted(e));
    RestorePersisted(e);
    LatestAppend(c, Complete(content), line);
    OrderlyAppend(c, Complete(content), line, now);
  }

  lemma RemoveKeepsLogOk(c: Codec, content: string, key: string, now: int, ttl: nat)
    requires c.Sound() && LogOk(c, content, now, ttl)
    ensures var content' := content + c.render(Remove(key, now)) + "\n";
            && LogOk(c, content', now, ttl)
            && Latest(c, Complete(content')) == Latest(c, Complete(content)) - {key}
    ensures Write(c, Latest(c, Complete(content)), c.render(Remove(key, now))) == Latest(c, Complete(content)) - {key}
  {
    var line := c.render(Remove(key, now));
    AppendLine(content, line);
    assert c.parse(line) == Some(Remove(key, now));
    LatestAppend(c, Complete(content), line);
    OrderlyAppend(c, Complete(content), line, now);
  }

  /** A store that has read nothing is in step with any log. */
  lemma EmptyReader(c: Codec, content: string, now: int)
    ensures InStep(c, View(map[], 0, ""), [], content, now)
  {
    assert content[..0] == "" && Split("") == [""];
  }

  lemma NothingNew(v: View, content: string)
    requires v.position == |content| && v.remainder == Remainder(content)
    ensures NewLines(v, content) == []
  {
    assert content[v.position..] == "" && v.remainder + "" == v.remainder;
    SplitPrepend(v.remainder, "");
  }

  lemma UpToDate(c: Codec, v: View, content: string, now: int)
    requires InStep(c, v, [], content, now) && v.position == |content|
    ensures Agree(v.cache, Latest(c, Complete(content)), now)
  {
    assert content[..v.position] == content;
    assert Complete(content) + [] == Complete(content);
  }

  lemma PutKeepsAgreement(a: Cache, b: Cache, e: Entry, now: int)
    requires Agree(a, b, now)
    ensures Agree(a[e.key := e], b[e.key := e], now)
  {
    var a', b' := a[e.key := e], b[e.key := e];
    forall key ensures Live(a', key, now) == Live(b', key, now) {
      assert Live(a, key, now) == Live(b, key, now);
    }
  }

  lemma RemoveKeepsAgreement(a: Cache, b: Cache, gone: string, now: int)
    requires Agree(a, b, now)
    ensures Agree(a - {gone}, b - {gone}, now)
  {
    var a', b' := a - {gone}, b - {gone};
    forall key ensures Live(a', key, now) == Live(b', key, now) {
      assert Live(a, key, now) == Live(b, key, now);
    }
  }

  /** Having appended a line and applied it to the cache, the store is still in step. */
  lemma PersistStaysInStep(c: Codec, v: View, content: string, line: string, cache': Cache, now: int)
    requires c.Sound() && InStep(c, v, [], content, now) && v.position == |content|
    requires Remainder(content) == "" && NoNewline(line)
    requires Agree(cache', Write(c, Latest(c, Complete(content)), line), now)
    ensures InStep(c, View(cache', v.position, v.remainder), [line], content + line + "\n", now)
  {
    assert content[..v.position] == content;
    assert (content + line + "\n")[..v.position] == content;
    LatestAppend(c, Complete(content), line);
  }

  /**
   Expiries along the log may decrease for a key: a store that still caches an old, expired claim
   fulfils that one, although a later claim in the log, expired too, ran longer.  `LineOrderly`
   holds all the same, and it is what agreement needs.
   */
  lemma ExpiriesMayDecrease(c: Codec, response: Response)
    requires c.Sound()
    ensures var first, second := FreshClaim("k", "f", 0, 50), FreshClaim("k", "f", 100, 50);
            var lines := [c.render(Persisted(first)), c.render(Persisted(second))];
            var loaded := ReadAll(c, map["k" := first], [lines[1]], 300);
            var stored := FulfilledEntry(Lookup(loaded, "k"), "k", response, "f", 300, 50);
            && Orderly(c, lines, 300)
            && stored.expiresAt < Latest(c, lines)["k"].expiresAt
            && LineOrderly(c, Latest(c, lines), c.render(Persisted(stored)), 300)
  {
    var first, second := FreshClaim("k", "f", 0, 50), FreshClaim("k", "f", 100, 50);
    var lines := [c.render(Persisted(first)), c.render(Persisted(second))];
    assert c.parse(lines[0]) == Some(Persisted(first)) && c.parse(lines[1]) == Some(Persisted(second));
    assert Front([lines[1]]) == [] && Front(lines) == [lines[0]] && Front([lines[0]]) == [];
    assert ReadAll(c, map["k" := first], [lines[1]], 300) == Read(c, map["k" := first], lines[1], 300);
    assert Latest(c, lines) == Write(c, Latest(c, [lines[0]]), lines[1]);
    assert lines[..0] == [] && lines[..1] == [lines[0]];
    assert Latest(c, [lines[0]]) == Write(c, map[], lines[0]);
  }

  function Pruned(cache: Cache, now: int): Cache {
    map key | key in cache && now <= cache[key].expiresAt :: cache[key]
  }

  lemma PruningKeepsLive(cache: Cache, recorded: Cache, now: int)
    ensures Agree(Pruned(cache, now), recorded, now) <==> Agree(cache, recorded, now)
  {
    forall key ensures Live(Pruned(cache, now), key, now) == Live(cache, key, now) {}
  }

  // ---------------------------------------------------------------- rewriting the log

  /** Every line of the text is the line of some entry of the cache, and together they read as the cache. */
  ghost predicate IsRendering(c: Codec, cache: Cache, content: string) {
    && Remainder(content) == ""
    && Latest(c, Complete(content)) == cache
    && forall line <- Complete(content) :: exists key <- cache :: line == c.render(Persisted(cache[key]))
  }

  lemma RenderedIsLatest(c: Codec, cache: Cache, content: string)
    requires IsRendering(c, cache, content)
    ensures Remainder(content) == "" && Latest(c, Complete(content)) == cache
  {
  }

  lemma PruningKeepsKeyed(cache: Cache, now: int)
    requires Keyed(cache)
    ensures Keyed(Pruned(cache, now))
  {
  }

  /** Every key is still recorded, with no earlier expiry. */
  ghost predicate NoneLower(before: Cache, after: Cache) {
    forall k <- before :: k in after && before[k].expiresAt <= after[k].expiresAt
  }

  /** A claim never lowers a recorded expiry: none lies beyond the one it gets. */
  lemma ClaimsNeverLower(c: Codec, content: string, key: string, fingerprint: string, now: int, ttl: nat)
    requires LogOk(c, content, now, ttl)
    ensures var m := Latest(c, Complete(content));
            var e := ClaimEntry(Live(m, key, now), key, fingerprint, now, ttl);
            NoneLower(m, m[key := e]) && NoneLower(m, m)
  {
  }

  /** A line without its beginning is not a line: what is left of a JSON object never parses as one. */
  ghost predicate TornLinesFail(c: Codec) {
    forall r: Record, k: nat :: 0 < k <= |c.render(r)| ==> c.parse(c.render(r)[k..]) == None
  }

  /** Read from any position, a text gives lines of the whole, except that the first may lack its beginning. */
  lemma LinesFromPosition(content: string, position: nat)
    requires position <= |content| && Remainder(content) == ""
    ensures var lines := Complete(content[position..]);
            forall i :: 0 <= i < |lines| ==>
              exists line <- Complete(content), k: nat :: k <= |line| && lines[i] == line[k..]
  {
    var a, b := content[..position], content[position..];
    var pieces, carried := Split(b), Last(Split(a));
    SplitChunk(a, b);
    assert a + b == content;
    SplitPrepend(carried, b);
    var joined := carried + pieces[0];
    assert Split(content) == Front(Split(a)) + ([joined] + pieces[1..]);
    var lines := Complete(b);
    forall i | 0 <= i < |lines|
      ensures exists line <- Complete(content), k: nat :: k <= |line| && lines[i] == line[k..]
    {
      var at := |Front(Split(a))| + i;
      assert at < |Complete(content)| && Complete(content)[at] == Split(content)[at];
      var line := Complete(content)[at];
      assert line in Complete(content);
      if i == 0 {
        assert line == joined && lines[0] == line[|carried|..];
      } else {
        assert line == pieces[i] == lines[i] && line[0..] == line;
      }
    }
  }

  lemma {:induction false} NothingToLearn(c: Codec, cache: Cache, lines: seq<string>, now: int)
    requires forall line <- lines :: Read(c, cache, line, now) == cache
    ensures ReadAll(c, cache, lines, now) == cache
  {
    if lines != [] {
      NothingToLearn(c, cache, Front(lines), now);
    }
  }

  /** A store that rewrote the log from its cache learns nothing from its next read, wherever that starts. */
  lemma OwnRewriteReadsBack(c: Codec, v: View, content: string, now: int)
    requires c.Sound() && TornLinesFail(c) && Keyed(v.cache)
    requires IsRendering(c, v.cache, content) && v.remainder == "" && v.position <= |content|
    ensures ReadAll(c, v.cache, NewLines(v, content), now) == v.cache
  {
    var lines := NewLines(v, content);
    assert "" + content[v.position..] == content[v.position..];
    LinesFromPosition(content, v.position);
    forall line <- lines ensures Read(c, v.cache, line, now) == v.cache {
      var i :| 0 <= i < |lines| && lines[i] == line;
      var whole: string, k: nat :| whole in Complete(content) && k <= |whole| && lines[i] == whole[k..];
      var key :| key in v.cache && whole == c.render(Persisted(v.cache[key]));
      if k == 0 {
        assert line == whole && c.parse(line) == Some(Persisted(v.cache[key]));
        RestorePersisted(v.cache[key]);
      } else {
        assert c.parse(c.render(Persisted(v.cache[key]))[k..]) == None;
      }
    }
    NothingToLearn(c, v.cache, lines, now);
  }

  lemma {:induction false} LoadKeepsLoop(c: Codec, cache: Cache, base: seq<string>, lines: seq<string>, own: seq<string>, i: nat,
                                         now: int)
    requires LoopInStep(c, cache, base, lines, own, 0, now) && Orderly(c, base + lines, now) && i <= |lines|
    ensures LoopInStep(c, ReadAll(c, cache, lines[..i], now), base, lines, own, i, now)
  {
    hide LoopInStep, Orderly, Read;
    if i > 0 {
      LoadKeepsLoop(c, cache, base, lines, own, i - 1, now);
      assert Front(lines[..i]) == lines[..i - 1] && Last(lines[..i]) == lines[i - 1];
      LoopStep(c, ReadAll(c, cache, lines[..i - 1], now), base, lines, own, i - 1, now);
    } else {
      assert lines[..0] == [];
    }
  }

  /** What a load makes of a store in step agrees with the log. */
  lemma LoadAgrees(c: Codec, v: View, own: seq<string>, content: string, now: int)
    requires InStep(c, v, own, content, now) && Orderly(c, Complete(content), now)
    ensures Agree(ReadAll(c, v.cache, NewLines(v, content), now), Latest(c, Complete(content)), now)
  {
    hide Orderly, Read, Latest, Agree;
    var lines, base := NewLines(v, content), Complete(content[..v.position]);
    ReadsCoverFile(v, content);
    if own != [] { OwnLineComesFirst(c, v, own, content, now); }
    assert lines[..Applied(0, own)] == own && lines[..|lines|] == lines;
    LoadKeepsLoop(c, v.cache, base, lines, own, |lines|, now);
    assert lines[..Applied(|lines|, own)] == lines;
  }

  /** A store in step has every live entry exactly when its unread lines say nothing new about one. */
  lemma CacheCompleteIff(c: Codec, v: View, own: seq<string>, content: string, now: int)
    requires InStep(c, v, own, content, now) && Orderly(c, Complete(content), now)
    ensures Agree(v.cache, Latest(c, Complete(content)), now)
            <==> Agree(v.cache, ReadAll(c, v.cache, NewLines(v, content), now), now)
  {
    LoadAgrees(c, v, own, content, now);
  }

  /** A cleanup that finds another store's claim unread drops it from the log although it is live. */
  lemma CleanupDropsUnreadClaim(c: Codec)
    requires c.Sound()
    ensures var mine, other := FreshClaim("a", "f", 0, 50), FreshClaim("b", "g", 40, 50);
            var read, content := c.render(Persisted(mine)) + "\n", c.render(Persisted(mine)) + "\n" + c.render(Persisted(other)) + "\n";
            var v := View(map["a" := mine], |read|, "");
            && InStep(c, v, [], content, 60)
            && Live(Latest(c, Complete(content)), "b", 60) == Some(other)
            && Pruned(v.cache, 60) == map[]
            && !Agree(Pruned(v.cache, 60), Latest(c, Complete(content)), 60)
  {
    var mine, other := FreshClaim("a", "f", 0, 50), FreshClaim("b", "g", 40, 50);
    var line, next := c.render(Persisted(mine)), c.render(Persisted(other));
    assert c.parse(line) == Some(Persisted(mine)) && c.parse(next) == Some(Persisted(other));
    var read := line + "\n";
    OneLine(line);
    assert Complete(read) == [line] && Remainder(read) == "";
    AppendLine(read, next);
    var content := read + next + "\n";
    assert content[..|read|] == read;
    assert Front([line]) == [] && [line] + [] == [line];
    assert Latest(c, [line]) == Write(c, map[], line) == map["a" := mine];
    LatestAppend(c, [line], next);
    assert Latest(c, Complete(content)) == map["a" := mine, "b" := other];
    assert Live(Latest(c, Complete(content)), "b", 60) == Some(other);
    assert Live(Pruned(map["a" := mine], 60), "b", 60) == None;
  }

  lemma AgreeBothWays(a: Cache, b: Cache, d: Cache, now: int)
    requires Agree(d, b, now)
    ensures forall x: Cache :: Agree(x, b, now) ==> Agree(x, d, now)
  {
    forall x: Cache | Agree(x, b, now) ensures Agree(x, d, now) {
      forall key ensures Live(x, key, now) == Live(d, key, now) {
        assert Live(x, key, now) == Live(b, key, now) && Live(d, key, now) == Live(b, key, now);
      }
    }
  }

  lemma UpToDateWithoutOwn(c: Codec, v: View, content: string, now: int)
    requires v.position == |content| && v.remainder == Remainder(content) && Agree(v.cache, Latest(c, Complete(content)), now)
    ensures InStep(c, v, [], content, now)
  {
    assert content[..v.position] == content;
    assert Complete(content) + [] == Complete(content);
  }

  // ---------------------------------------------------------------- runs of operations

  /** One operation on the log, with the cache its store has loaded where that matters. */
  datatype Op =
    | Claiming(key: string, fingerprint: string, now: int)
    | Storing(key: string, response: Response, fingerprint: string, now: int, loaded: Cache)
    | Releasing(key: string, fingerprint: string, now: int, loaded: Cache)

  /** What the operation makes of the recorded state. */
  function Recording(m: Cache, op: Op, ttl: nat): Cache {
    match op
    case Claiming(key, fingerprint, now) =>
      var live := Live(m, key, now);
      if Decide(live, fingerprint, now).Claimed? then m[key := ClaimEntry(live, key, fingerprint, now, ttl)] else m
    case Storing(key, response, fingerprint, now, loaded) =>
      m[key := FulfilledEntry(Lookup(loaded, key), key, response, fingerprint, now, ttl)]
    case Releasing(key, fingerprint, _, loaded) =>
      if MayRelease(Lookup(loaded, key), fingerprint) then m - {key} else m
  }

  function RecordingAll(m: Cache, ops: seq<Op>, ttl: nat): Cache {
    if ops == [] then m else Recording(RecordingAll(m, Front(ops), ttl), Last(ops), ttl)
  }

  /** The operation comes from a store in step with the log, while `until` lies ahead, and stores no other response under the key. */
  ghost predicate Leaves(m: Cache, op: Op, key: string, until: int) {
    && op.now <= until
    && (!op.Claiming? ==> Agree(op.loaded, m, op.now))
    && !(op.Storing? && op.key == key)
  }

  ghost predicate AllLeave(m: Cache, ops: seq<Op>, key: string, until: int, ttl: nat) {
    ops == [] || (AllLeave(m, Front(ops), key, until, ttl) && Leaves(RecordingAll(m, Front(ops), ttl), Last(ops), key, until))
  }

  lemma OpKeepsAnswer(m: Cache, op: Op, ttl: nat, key: string, fingerprint: string, response: Response)
    requires Answers(m, key, fingerprint, response) && Leaves(m, op, key, m[key].expiresAt)
    ensures var m' := Recording(m, op, ttl); key in m' && m'[key] == m[key]
  {
    if op.Releasing? && op.key == key {
      assert Live(op.loaded, key, op.now) == Live(m, key, op.now);
    }
  }

  /**
   A stored response answers for its key: over any run of operations of any stores in step, claims and
   releases of the key included, the entry stays as it is until it expires, and a claim with the same
   payload gets that very response.
   */
  lemma {:induction false} StoredResponseAnswers(m: Cache, ops: seq<Op>, ttl: nat, key: string, fingerprint: string,
                                                 response: Response, now: int)
    requires Answers(m, key, fingerprint, response) && AllLeave(m, ops, key, m[key].expiresAt, ttl)
    requires now <= m[key].expiresAt
    ensures var m' := RecordingAll(m, ops, ttl);
            && key in m' && m'[key] == m[key]
            && Decide(Live(m', key, now), fingerprint, now) == AlreadyFulfilled(response)
            && forall other: string :: other != fingerprint ==> Decide(Live(m', key, now), other, now) == FingerprintMismatch
  {
    if ops != [] {
      StoredResponseAnswers(m, Front(ops), ttl, key, fingerprint, response, now);
      OpKeepsAnswer(RecordingAll(m, Front(ops), ttl), Last(ops), ttl, key, fingerprint, response);
    }
  }

  class IdempotencyStore {
    const codec: Codec
    const ttl: nat
    const log: LogFile
    var cache: Cache
    var position: nat
    var remainder: string
    ghost var own: seq<string>

    ghost function State(): View
      reads this
    {
      View(cache, position, remainder)
    }

    ghost predicate Valid(now: int)
      reads this, log
    {
      codec.Sound() && InStep(codec, State(), own, log.content, now) && Keyed(cache)
    }

    /** The shared reference reading of the log. */
    ghost function Recorded(): Cache
      reads this, log
    {
      Latest(codec, Complete(log.content))
    }

    constructor (codec: Codec, ttl: nat, log: LogFile)
      requires codec.Sound()
      ensures this.codec == codec && this.ttl == ttl && this.log == log
      ensures Valid(0) && cache == map[] && position == 0
    {
      this.codec, this.ttl, this.log := codec, ttl, log;
      cache, position, remainder, own := map[], 0, "", [];
      new;
      assert Complete("") == [] && Remainder("") == "";
      assert log.content[..0] == "";
    }

    /**
     `loadFromDisk`.  However the earlier reads cut the file and whoever appended in between,
     the live part of the cache is the one a replay of the whole log would give.
     */
    method LoadFromDisk(now: int)
      requires codec.Sound() && Keyed(cache)
      requires position <= |log.content| ==> InStep(codec, State(), own, log.content, now)
      requires Orderly(codec, Complete(log.content), now)
      modifies this`cache, this`position, this`remainder, this`own
      ensures Valid(now) && own == [] && position == |log.content|
      ensures Agree(cache, Recorded(), now)
      ensures Agree(cache, Replay(codec, Complete(log.content), now), now)
      ensures old(position) <= |log.content| ==> cache == ReadAll(codec, old(cache), NewLines(old(State()), log.content), now)
    {
      EmptyReader(codec, log.content, now);
      hide Agree, Orderly, Replay, Latest, Read, ReadAll;
      if |log.content| < position {
        position, remainder, cache, own := 0, "", map[], [];
      }
      ghost var start := State();
      LoadAgrees(codec, start, own, log.content, now);
      ReadsCoverFile(start, log.content);
      ReplayAgrees(codec, Complete(log.content), now);
      AgreeBothWays(cache, Recorded(), Replay(codec, Complete(log.content), now), now);
      if |log.content| == position {
        assert log.content[..position] == log.content;
        NothingNew(start, log.content);
        NothingToLearn(codec, cache, [], now);
        UpToDateWithoutOwn(codec, start, log.content, now);
        return;
      }
      var pieces := Split(remainder + log.content[position..]);
      position := |log.content|;
      remainder := Last(pieces);
      ReadLines(Front(pieces), now);
      own := [];
      UpToDateWithoutOwn(codec, State(), log.content, now);
    }

    /** The line loop of `loadFromDisk`. */
    method ReadLines(lines: seq<string>, now: int)
      requires Keyed(cache)
      modifies this`cache
      ensures Keyed(cache)
      ensures cache == ReadAll(codec, old(cache), lines, now)
    {
      assert lines[..0] == [];
      for i := 0 to |lines|
        invariant Keyed(cache)
        invariant cache == ReadAll(codec, old(cache), lines[..i], now)
      {
        assert Front(lines[..i + 1]) == lines[..i];
        var r := codec.parse(lines[i]);
        if r.Some? && r.value.Put? { RestoredIsWellMade(r.value); }
        if r.Some? {
          if r.value.Remove? {
            cache := cache - {r.value.key};
          } else if now <= r.value.expiresAt {
            cache := cache[r.value.key := Restore(r.value)];
          }
        }
      }
      assert lines[..|lines|] == lines;
    }

    /** `persistToDisk` after a load: the appended line is the next one this store will read. */
    method Persist(e: Entry, now: int)
      requires Valid(now) && own == [] && position == |log.content|
      requires LogOk(codec, log.content, now, ttl)
      requires WellMade(e) && e.expiresAt <= now + ttl
      requires e.key in Recorded() ==> Recorded()[e.key].expiresAt <= e.expiresAt || Recorded()[e.key].expiresAt < now
      modifies this`cache, this`own, log
      ensures Valid(now) && LogOk(codec, log.content, now, ttl)
      ensures Recorded() == old(Recorded())[e.key := e]
      ensures cache == old(cache)[e.key := e]
      ensures log.content == old(log.content) + codec.render(Persisted(e)) + "\n"
      ensures own == [codec.render(Persisted(e))]
    {
      PutKeepsLogOk(codec, log.content, e, now, ttl);
      UpToDate(codec, State(), log.content, now);
      PutKeepsAgreement(cache, Recorded(), e, now);
      PersistStaysInStep(codec, State(), log.content, codec.render(Persisted(e)), cache[e.key := e], now);
      cache := cache[e.key := e];
      log.content := log.content + codec.render(Persisted(e)) + "\n";
      own := [codec.render(Persisted(e))];
    }

    /** `persistRemovalToDisk` after a load. */
    method PersistRemoval(key: string, now: int)
      requires Valid(now) && own == [] && position == |log.content|
      requires LogOk(codec, log.content, now, ttl)
      modifies this`cache, this`own, log
      ensures Valid(now) && LogOk(codec, log.content, now, ttl)
      ensures Recorded() == old(Recorded()) - {key}
    {
      RemoveKeepsLogOk(codec, log.content, key, now, ttl);
      UpToDate(codec, State(), log.content, now);
      RemoveKeepsAgreement(cache, Recorded(), key, now);
      PersistStaysInStep(codec, State(), log.content, codec.render(Remove(key, now)), cache - {key}, now);
      cache := cache - {key};
      log.content := log.content + codec.render(Remove(key, now)) + "\n";
      own := [codec.render(Remove(key, now))];
    }

    /** `claimOrGet`: the answer and the recorded entry depend on the log alone, not on which store is asked. */
    method ClaimOrGet(key: string, fingerprint: string, now: int) returns (r: ClaimResult)
      requires Valid(now) && LogOk(codec, log.content, now, ttl)
      modifies this`cache, this`position, this`remainder, this`own, log
      ensures Valid(now) && LogOk(codec, log.content, now, ttl)
      ensures r == Decide(Live(old(Recorded()), key, now), fingerprint, now)
      ensures Recorded() == Recording(old(Recorded()), Claiming(key, fingerprint, now), ttl)
      ensures forall response :: Answers(old(Recorded()), key, fingerprint, response) && now <= old(Recorded())[key].expiresAt ==>
                r == AlreadyFulfilled(response)
      ensures NoneLower(old(Recorded()), Recorded())
      ensures !r.Claimed? ==> log.content == old(log.content)
      ensures r.Claimed? ==>
                var e := ClaimEntry(Live(old(Recorded()), key, now), key, fingerprint, now, ttl);
                && Recorded() == old(Recorded())[key := e]
                && Lookup(cache, key) == Some(e) && own == [codec.render(Persisted(e))]
                && log.content == old(log.content) + own[0] + "\n" && position == |old(log.content)|
    {
      ClaimsNeverLower(codec, log.content, key, fingerprint, now, ttl);
      LoadFromDisk(now);
      LatestIsWellMade(codec, Complete(log.content));
      assert Live(cache, key, now) == Live(Recorded(), key, now);
      hide Latest, LogOk, InStep, Keyed, Complete, NoneLower;
      var entry := Lookup(cache, key);
      if entry.None? || now > entry.value.expiresAt {
        Persist(FreshClaim(key, fingerprint, now, ttl), now);
        return Claimed;
      }
      if entry.value.fingerprint != fingerprint {
        return FingerprintMismatch;
      }
      if entry.value.state.Pending? && entry.value.jobId == "" && now - entry.value.requestTime > STALE_PENDING_THRESHOLD_MS {
        Persist(entry.value.(requestTime := now, expiresAt := now + ttl), now);
        return Claimed;
      }
      if entry.value.state.Pending? {
        return StillPending;
      }
      r := AlreadyFulfilled(entry.value.response);
    }

    /** The cache as `loadFromDisk` will leave it. */
    ghost function Loaded(now: int): Cache
      requires position <= |log.content|
      reads this, log
    {
      ReadAll(codec, cache, NewLines(State(), log.content), now)
    }

    /**
     `storeResponse`: the claim found in the cache becomes fulfilled and keeps its expiry.  The expiry
     recorded for the key goes down exactly when the cache holds an older claim than the log, and then
     both had run out.
     */
    method StoreResponse(key: string, response: Response, fingerprint: string, now: int)
      requires Valid(now) && LogOk(codec, log.content, now, ttl)
      modifies this`cache, this`position, this`remainder, this`own, log
      ensures Valid(now) && LogOk(codec, log.content, now, ttl)
      ensures Recorded() == Recording(old(Recorded()), Storing(key, response, fingerprint, now, old(Loaded(now))), ttl)
      ensures Agree(old(Loaded(now)), old(Recorded()), now)
      ensures Answers(Recorded(), key, fingerprint, response)
      ensures Recorded()[key].expiresAt == if key in old(Loaded(now)) then old(Loaded(now))[key].expiresAt else now + ttl
      ensures key in old(Recorded()) ==>
                (Recorded()[key].expiresAt < old(Recorded())[key].expiresAt
                 <==> key in old(Loaded(now)) && old(Loaded(now))[key].expiresAt < old(Recorded())[key].expiresAt)
      ensures key in old(Recorded()) && Recorded()[key].expiresAt < old(Recorded())[key].expiresAt ==>
                old(Recorded())[key].expiresAt < now
    {
      LoadFromDisk(now);
      assert Live(cache, key, now) == Live(Recorded(), key, now);
      var existing := Lookup(cache, key);
      Persist(FulfilledEntry(existing, key, response, fingerprint, now, ttl), now);
    }

    /** `releasePendingClaim`: undoes the caller's own unfulfilled claim and nothing else. */
    method ReleasePendingClaim(key: string, fingerprint: string, now: int)
      requires Valid(now) && LogOk(codec, log.content, now, ttl)
      modifies this`cache, this`position, this`remainder, this`own, log
      ensures Valid(now) && LogOk(codec, log.content, now, ttl)
      ensures Recorded() == Recording(old(Recorded()), Releasing(key, fingerprint, now, old(Loaded(now))), ttl)
      ensures Agree(old(Loaded(now)), old(Recorded()), now)
    {
      LoadFromDisk(now);
      var existing := Lookup(cache, key);
      if existing.None? || !existing.value.state.Pending? || existing.value.fingerprint != fingerprint
         || existing.value.jobId != "" {
        return;
      }
      PersistRemoval(key, now);
    }

    /**
     `cleanup`, which runs without the lock and rewrites the whole log from this cache.  When it
     rewrites, the log keeps its live entries if and only if the cache had them all, which for a store
     in step means that its unread lines say nothing new about a live entry.  The position stays where
     it was, and still this store's next read finds nothing to change; if the log is now shorter than
     the position, the next read starts over.
     */
    method Cleanup(now: int)
      requires codec.Sound() && Keyed(cache)
      modifies this`cache, log
      ensures cache == Pruned(old(cache), now)
      ensures cache == old(cache) ==> log.content == old(log.content)
      ensures cache != old(cache) ==> Remainder(log.content) == "" && Recorded() == cache
      ensures cache != old(cache) ==>
                (Agree(Recorded(), old(Recorded()), now) <==> Agree(old(cache), old(Recorded()), now))
      ensures cache != old(cache) && old(Valid(now)) && old(Orderly(codec, Complete(log.content), now)) ==>
                (Agree(Recorded(), old(Recorded()), now) <==> Agree(old(cache), old(ReadAll(codec, cache, NewLines(State(), log.content), now)), now))
      ensures cache != old(cache) ==> IsRendering(codec, cache, log.content) && Keyed(cache)
      ensures cache != old(cache) && TornLinesFail(codec) && remainder == "" && position <= |log.content| ==>
                forall later: int :: ReadAll(codec, cache, NewLines(State(), log.content), later) == cache
    {
      hide Agree, IsRendering, TornLinesFail, Keyed;
      if Valid(now) && Orderly(codec, Complete(log.content), now) {
        CacheCompleteIff(codec, State(), own, log.content, now);
      }
      ghost var recorded, before := Recorded(), cache;
      PruningKeepsLive(before, recorded, now);
      PruningKeepsKeyed(before, now);
      var removed := DropExpired(now);
      if removed > 0 {
        log.content := RenderAll();
        RenderedIsLatest(codec, cache, log.content);
        if TornLinesFail(codec) && remainder == "" && position <= |log.content| {
          forall later: int ensures ReadAll(codec, cache, NewLines(State(), log.content), later) == cache {
            OwnRewriteReadsBack(codec, State(), log.content, later);
          }
        }
      }
    }

    /** The loop of `cleanup` over the cache. */
    method DropExpired(now: int) returns (removed: nat)
      modifies this`cache
      ensures cache == Pruned(old(cache), now)
      ensures removed > 0 <==> cache != old(cache)
    {
      var keys := cache.Keys;
      removed := 0;
      ghost var before := cache;
      while keys != {}
        invariant keys <= before.Keys
        invariant cache == map key | key in before && (key in keys || now <= before[key].expiresAt) :: before[key]
        invariant removed > 0 <==> cache != before
        decreases keys
      {
        var key :| key in keys;
        if now > cache[key].expiresAt {
          assert key in before && key !in cache - {key};
          cache := cache - {key};
          removed := removed + 1;
        }
        keys := keys - {key};
      }
      assert cache == Pruned(before, now);
    }

    /** The lines of the cache, in any order, read back as the cache. */
    method RenderAll() returns (text: string)
      requires codec.Sound() && Keyed(cache)
      ensures IsRendering(codec, cache, text)
    {
      text := "";
      assert Split("") == [""];
      var keys := cache.Keys;
      while keys != {}
        invariant keys <= cache.Keys
        invariant Remainder(text) == ""
        invariant Latest(codec, Complete(text)) == map key | key in cache && key !in keys :: cache[key]
        invariant forall line <- Complete(text) :: exists key <- cache :: line == codec.render(Persisted(cache[key]))
        decreases keys
      {
        var key :| key in keys;
        var line := codec.render(Persisted(cache[key]));
        assert codec.parse(line) == Some(Persisted(cache[key]));
        RestorePersisted(cache[key]);
        AppendLine(text, line);
        LatestAppend(codec, Complete(text), line);
        text := text + line + "\n";
        keys := keys - {key};
      }
      assert cache == map key | key in cache && key !in keys :: cache[key];
    }
  }
}
