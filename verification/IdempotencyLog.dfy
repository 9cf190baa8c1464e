/** The idempotency log and what its readers make of it. */
module IdempotencyLog {
  import opened Wrappers
  import opened Lines

  // The log is an append-only file of lines.  Every store keeps a cache that it brings up to
  // date by reading only what was appended since its last read, and that skips lines which
  // have expired by then.  The reference is `Latest`, the plain last-line-wins reading of the
  // whole log; cache, replay from byte 0 and reference agree on every entry that is still live.

  const STALE_PENDING_THRESHOLD_MS := 30000

  datatype ClaimState = Pending | Fulfilled

  datatype Response = Response(id: string, status: string, createdAt: int, requestId: Option<string>, correlationId: Option<string>)

  datatype Entry = Entry(
    key: string,
    fingerprint: string,
    state: ClaimState,
    jobId: string,
    requestTime: int,
    response: Response,
    expiresAt: int)

  /** A parsed line; older writers left fields out. */
  datatype Record =
    | Remove(key: string, expiresAt: int)
    | Put(key: string, fingerprint: Option<string>, state: Option<ClaimState>, jobId: Option<string>,
          requestTime: Option<int>, response: Option<Response>, requestId: Option<string>,
          correlationId: Option<string>, expiresAt: int)

  /** `JSON.parse` and `JSON.stringify` on log lines; an unparsable line reads as `None`. */
  datatype Codec = Codec(parse: string -> Option<Record>, render: Record -> string) {
    ghost predicate Sound() {
      forall r :: parse(render(r)) == Some(r) && NoNewline(render(r))
    }
  }

  type Cache = map<string, Entry>

  function NonEmpty(s: Option<string>): Option<string> {
    if s == Some("") then None else s
  }

  /** How `loadFromDisk` completes a line whose fields may be missing or empty. */
  function Restore(r: Record): Entry
    requires r.Put?
  {
    var requestTime := r.requestTime.GetOr(0);
    var fromResponse := if r.response.Some? then r.response.value.id else "";
    var jobId := NonEmpty(r.jobId).GetOr(fromResponse);
    Entry(r.key, r.fingerprint.GetOr(""), r.state.GetOr(Fulfilled), jobId, requestTime,
          r.response.GetOr(Response(jobId, "queued", requestTime, r.requestId, r.correlationId)), r.expiresAt)
  }

  /** The line `persistToDisk` writes for an entry. */
  function Persisted(e: Entry): Record {
    Put(e.key, Some(e.fingerprint), Some(e.state), Some(e.jobId), Some(e.requestTime), Some(e.response), None, None, e.expiresAt)
  }

  /** Every entry in a cache is of this form, and such entries read back as they were written. */
  predicate WellMade(e: Entry) {
    e.jobId == "" ==> e.response.id == ""
  }

  lemma RestorePersisted(e: Entry)
    ensures WellMade(e) <==> Restore(Persisted(e)) == e
  {
  }

  /**
   A line of an older writer: without a state it counts as fulfilled, its job is the one named, or else the
   one of its response, and a missing response is a queued one for that job.
   */
  lemma RestoreFills(r: Record)
    requires r.Put?
    ensures var e := Restore(r);
            && e.key == r.key && e.expiresAt == r.expiresAt
            && (r.fingerprint == None ==> e.fingerprint == "") && (r.fingerprint.Some? ==> e.fingerprint == r.fingerprint.value)
            && (e.state == Pending <==> r.state == Some(Pending))
            && (r.requestTime == None ==> e.requestTime == 0) && (r.requestTime.Some? ==> e.requestTime == r.requestTime.value)
            && (r.jobId.Some? && r.jobId.value != "" ==> e.jobId == r.jobId.value)
            && (r.jobId.None? || r.jobId.value == "" ==> e.jobId == if r.response.Some? then r.response.value.id else "")
            && (r.response.Some? ==> e.response == r.response.value)
            && (r.response.None? ==> e.response == Response(e.jobId, "queued", e.requestTime, r.requestId, r.correlationId))
  {
  }

  lemma RestoredIsWellMade(r: Record)
    requires r.Put?
    ensures Restore(r).key == r.key && Restore(r).expiresAt == r.expiresAt && WellMade(Restore(r))
  {
  }

  // ---------------------------------------------------------------- three readings of the log

  /** One iteration of the line loop of `loadFromDisk` at time `now`. */
  function Read(c: Codec, cache: Cache, line: string, now: int): Cache {
    var r := c.parse(line);
    if r.None? then cache
    else if r.value.Remove? then cache - {r.value.key}
    else if now > r.value.expiresAt then cache
    else cache[r.value.key := Restore(r.value)]
  }

  function ReadAll(c: Codec, cache: Cache, lines: seq<string>, now: int): Cache {
    if lines == [] then cache else Read(c, ReadAll(c, cache, Front(lines), now), Last(lines), now)
  }

  /** The simple replay that the incremental cache stands in for: the whole log, from the start. */
  function Replay(c: Codec, lines: seq<string>, now: int): Cache {
    ReadAll(c, map[], lines, now)
  }

  function Write(c: Codec, before: Cache, line: string): Cache {
    var r := c.parse(line);
    if r.None? then before
    else if r.value.Remove? then before - {r.value.key}
    else before[r.value.key := Restore(r.value)]
  }

  /** Last line wins, expired or not. */
  function Latest(c: Codec, lines: seq<string>): Cache {
    if lines == [] then map[] else Write(c, Latest(c, Front(lines)), Last(lines))
  }

  function Live(cache: Cache, key: string, now: int): Option<Entry> {
    if key in cache && now <= cache[key].expiresAt then Some(cache[key]) else None
  }

  ghost predicate Agree(a: Cache, b: Cache, now: int) {
    forall key :: Live(a, key, now) == Live(b, key, now)
  }

  // ---------------------------------------------------------------- what writers maintain

  /** The line does not shadow a live entry by one that expires earlier. */
  predicate LineOrderly(c: Codec, before: Cache, line: string, now: int) {
    var r := c.parse(line);
    r.Some? && r.value.Put? && r.value.key in before ==>
      before[r.value.key].expiresAt <= r.value.expiresAt || before[r.value.key].expiresAt < now
  }

  predicate Orderly(c: Codec, lines: seq<string>, now: int) {
    forall n :: 0 <= n < |lines| ==> LineOrderly(c, Latest(c, lines[..n]), lines[n], now)
  }

  /** No line outlives a fresh one; all stores use the same time to live. */
  predicate Bounded(c: Codec, lines: seq<string>, horizon: int) {
    forall key <- Latest(c, lines) :: Latest(c, lines)[key].expiresAt <= horizon
  }

  lemma AgreementAges(a: Cache, b: Cache, now: int, later: int)
    requires Agree(a, b, now) && now <= later
    ensures Agree(a, b, later)
  {
    forall key ensures Live(a, key, later) == Live(b, key, later) {
      assert Live(a, key, now) == Live(b, key, now);
    }
  }

  lemma LatestAppend(c: Codec, lines: seq<string>, line: string)
    ensures Latest(c, lines + [line]) == Write(c, Latest(c, lines), line)
  {
    assert Front(lines + [line]) == lines && Last(lines + [line]) == line;
  }

  lemma {:induction false} LatestIsWellMade(c: Codec, lines: seq<string>)
    ensures forall key <- Latest(c, lines) :: Latest(c, lines)[key].key == key && WellMade(Latest(c, lines)[key])
  {
    if lines != [] {
      LatestIsWellMade(c, Front(lines));
      var r := c.parse(Last(lines));
      if r.Some? && r.value.Put? { RestoredIsWellMade(r.value); }
    }
  }

  /** Reading the next line keeps the cache in step with the reference. */
  lemma ReadKeepsAgreement(c: Codec, cache: Cache, lines: seq<string>, line: string, now: int)
    requires Agree(cache, Latest(c, lines), now)
    requires LineOrderly(c, Latest(c, lines), line, now)
    ensures Agree(Read(c, cache, line, now), Latest(c, lines + [line]), now)
  {
    LatestAppend(c, lines, line);
    var before, after := Latest(c, lines), Latest(c, lines + [line]);
    forall key ensures Live(Read(c, cache, line, now), key, now) == Live(after, key, now) {
      assert Live(cache, key, now) == Live(before, key, now);
    }
  }

  /** Reading a line again that the cache already reflects changes nothing that is live. */
  lemma RereadKeepsAgreement(c: Codec, cache: Cache, lines: seq<string>, line: string, now: int)
    requires Agree(cache, Latest(c, lines + [line]), now)
    ensures Agree(Read(c, cache, line, now), Latest(c, lines + [line]), now)
  {
    LatestAppend(c, lines, line);
    var after := Latest(c, lines + [line]);
    forall key ensures Live(Read(c, cache, line, now), key, now) == Live(after, key, now) {
      assert Live(cache, key, now) == Live(after, key, now);
    }
  }

  lemma OrderlyPrefix(c: Codec, lines: seq<string>, n: nat, now: int)
    requires Orderly(c, lines, now) && n <= |lines|
    ensures Orderly(c, lines[..n], now)
  {
    forall k | 0 <= k < n ensures LineOrderly(c, Latest(c, lines[..n][..k]), lines[..n][k], now) {
      assert lines[..n][..k] == lines[..k];
    }
  }

  lemma OrderlyAges(c: Codec, lines: seq<string>, now: int, later: int)
    requires Orderly(c, lines, now) && now <= later
    ensures Orderly(c, lines, later)
  {
  }

  lemma OrderlyAppend(c: Codec, lines: seq<string>, line: string, now: int)
    requires Orderly(c, lines, now) && LineOrderly(c, Latest(c, lines), line, now)
    ensures Orderly(c, lines + [line], now)
  {
    var all := lines + [line];
    forall n | 0 <= n < |all| ensures LineOrderly(c, Latest(c, all[..n]), all[n], now) {
      if n < |lines| { assert all[..n] == lines[..n]; } else { assert all[..n] == lines; }
    }
  }

  lemma EmptyAgrees(now: int)
    ensures Agree(map[], map[], now)
  {
  }

  /** The replay from byte 0 agrees with the reference on every live entry. */
  lemma {:induction false} ReplayAgrees(c: Codec, lines: seq<string>, now: int)
    requires Orderly(c, lines, now)
    ensures Agree(Replay(c, lines, now), Latest(c, lines), now)
  {
    hide LineOrderly;
    hide Read;
    hide Write;
    hide Agree;
    if lines == [] {
      EmptyAgrees(now);
    } else {
      OrderlyPrefix(c, lines, |lines| - 1, now);
      assert LineOrderly(c, Latest(c, lines[..|lines| - 1]), lines[|lines| - 1], now);
      ReplayAgrees(c, Front(lines), now);
      ReadKeepsAgreement(c, Replay(c, Front(lines), now), Front(lines), Last(lines), now);
      assert Front(lines) + [Last(lines)] == lines;
    }
  }

  // ---------------------------------------------------------------- incremental reading

  /** The complete lines of a file; the rest is the carried remainder. */
  function Complete(content: string): seq<string> { Front(Split(content)) }

  function Remainder(content: string): string { Last(Split(content)) }

  /** What a store remembers between two reads of the log. */
  datatype View = View(cache: Cache, position: nat, remainder: string)

  /**
   The store has read `content[..position]`, and possibly applied the next line `own`, which it
   appended itself, before reading it back.
   */
  ghost predicate InStep(c: Codec, v: View, own: seq<string>, content: string, now: int) {
    && v.position <= |content|
    && v.remainder == Remainder(content[..v.position])
    && |own| <= 1
    && (own != [] ==> v.remainder == "" && content[..v.position] + own[0] + "\n" <= content && NoNewline(own[0]))
    && Agree(v.cache, Latest(c, Complete(content[..v.position]) + own), now)
  }

  lemma AppendKeepsInStep(c: Codec, v: View, own: seq<string>, content: string, more: string, now: int, later: int)
    requires InStep(c, v, own, content, now) && now <= later
    ensures InStep(c, v, own, content + more, later)
  {
    assert (content + more)[..v.position] == content[..v.position];
    AgreementAges(v.cache, Latest(c, Complete(content[..v.position]) + own), now, later);
  }

  /** The lines that the next read finds: the carried remainder glued to the new bytes. */
  function NewLines(v: View, content: string): seq<string>
    requires v.position <= |content|
  {
    Complete(v.remainder + content[v.position..])
  }

  /** Whatever the cut, the lines read so far followed by the new ones are the lines of the file. */
  lemma ReadsCoverFile(v: View, content: string)
    requires v.position <= |content| && v.remainder == Remainder(content[..v.position])
    ensures Complete(content) == Complete(content[..v.position]) + NewLines(v, content)
    ensures Remainder(content) == Remainder(v.remainder + content[v.position..])
  {
    SplitChunk(content[..v.position], content[v.position..]);
    assert content[..v.position] + content[v.position..] == content;
  }

  lemma OwnLineComesFirst(c: Codec, v: View, own: seq<string>, content: string, now: int)
    requires InStep(c, v, own, content, now) && own != []
    ensures var lines := NewLines(v, content); |lines| > 0 && lines[0] == own[0]
  {
    var pre := content[..v.position] + own[0] + "\n";
    var rest := content[|pre|..];
    assert content[v.position..] == own[0] + "\n" + rest by {
      assert content == pre + rest;
    }
    assert v.remainder + content[v.position..] == own[0] + "\n" + rest;
    SplitFirstLine(own[0], rest);
  }

  /** How many of the new lines the cache reflects after `i` iterations of the line loop. */
  function Applied(i: nat, own: seq<string>): nat {
    if i < |own| then |own| else i
  }

  ghost predicate LoopInStep(c: Codec, cache: Cache, base: seq<string>, lines: seq<string>, own: seq<string>, i: nat, now: int) {
    && |own| <= 1 && |own| <= |lines| && (own != [] ==> lines[0] == own[0])
    && i <= |lines|
    && Agree(cache, Latest(c, base + lines[..Applied(i, own)]), now)
  }

  lemma LoopStep(c: Codec, cache: Cache, base: seq<string>, lines: seq<string>, own: seq<string>, i: nat, now: int)
    requires LoopInStep(c, cache, base, lines, own, i, now) && i < |lines|
    requires Orderly(c, base + lines, now)
    ensures LoopInStep(c, Read(c, cache, lines[i], now), base, lines, own, i + 1, now)
  {
    hide LineOrderly;
    hide Read;
    hide Agree;
    hide Latest;
    if i < |own| {
      assert base + lines[..1] == base + [lines[0]];
      RereadKeepsAgreement(c, cache, base, lines[0], now);
      assert lines[..1] == lines[..Applied(i, own)] == lines[..Applied(i + 1, own)];
    } else {
      var all := base + lines;
      var n := |base| + i;
      assert LineOrderly(c, Latest(c, all[..n]), all[n], now);
      assert all[..n] == base + lines[..i] && all[n] == lines[i];
      ReadKeepsAgreement(c, cache, base + lines[..i], lines[i], now);
      assert base + lines[..i] + [lines[i]] == base + lines[..i + 1];
    }
  }
}
