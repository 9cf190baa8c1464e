/** Allocation of instance ids `kaseki-N` (src/job-persistence-manager.ts), under the id lock. */
module InstanceIds {
  import opened Wrappers

  const PREFIX := "kaseki-"

  const MAX_ATTEMPTS := 10000

  // ---------------------------------------------------------------- numerals

  function Digit(d: nat): char
    requires d < 10
  {
    '0' + d as char
  }

  predicate IsDigit(c: char) { '0' <= c <= '9' }

  function Decimal(n: nat): (s: string)
    ensures s != "" && forall c <- s :: IsDigit(c)
  {
    if n < 10 then [Digit(n)] else Decimal(n / 10) + [Digit(n % 10)]
  }

  predicate AllDigits(s: string) { s != "" && forall c <- s :: IsDigit(c) }

  function Value(s: string): nat
    requires forall c <- s :: IsDigit(c)
  {
    if s == "" then 0
    else
      assert IsDigit(s[|s| - 1]);
      assert forall c <- s[..|s| - 1] :: c in s;
      10 * Value(s[..|s| - 1]) + (s[|s| - 1] as int - '0' as int)
  }

  lemma {:induction false} ValueOfDecimal(n: nat)
    ensures Value(Decimal(n)) == n
  {
    if n >= 10 {
      ValueOfDecimal(n / 10);
      var s := Decimal(n);
      assert s[..|s| - 1] == Decimal(n / 10) && s[|s| - 1] == Digit(n % 10);
    } else {
      var s := Decimal(n);
      assert s[..0] == "" && s[0] == Digit(n);
    }
  }

  /** `parseInstanceNumber`: the number of an id of the form `kaseki-N` with a positive N. */
  function ParseInstanceNumber(id: string): Option<nat> {
    if PREFIX <= id && AllDigits(id[|PREFIX|..]) && Value(id[|PREFIX|..]) > 0 then Some(Value(id[|PREFIX|..])) else None
  }

  function InstanceId(n: nat): string { PREFIX + Decimal(n) }

  /** An id is read back as the number it was made from. */
  lemma ParseInstanceId(n: nat)
    requires n > 0
    ensures ParseInstanceNumber(InstanceId(n)) == Some(n)
  {
    assert InstanceId(n)[|PREFIX|..] == Decimal(n);
    ValueOfDecimal(n);
  }

  function Zeros(k: nat): string { seq(k, _ => '0') }

  /** A text of digits is the decimal of its value behind some zeros. */
  lemma {:induction false} DigitsAreDecimal(s: string) returns (k: nat)
    requires AllDigits(s) && Value(s) > 0
    ensures s == Zeros(k) + Decimal(Value(s))
  {
    var front, d := s[..|s| - 1], s[|s| - 1] as int - '0' as int;
    assert s[|s| - 1] in s && IsDigit(s[|s| - 1]) && s[|s| - 1] == Digit(d);
    assert forall c <- front :: c in s;
    assert Value(s) == 10 * Value(front) + d && s == front + [Digit(d)];
    if Value(front) == 0 {
      NoValue(front);
      k := |front|;
      assert Decimal(Value(s)) == [Digit(d)];
    } else {
      k := DigitsAreDecimal(front);
      assert Value(s) / 10 == Value(front) && Value(s) % 10 == d;
      assert Zeros(k) + Decimal(Value(front)) + [Digit(d)] == Zeros(k) + (Decimal(Value(front)) + [Digit(d)]);
    }
  }

  lemma {:induction false} NoValue(s: string)
    requires (forall c <- s :: IsDigit(c)) && Value(s) == 0
    ensures s == Zeros(|s|)
  {
    if s != "" {
      var front := s[..|s| - 1];
      assert s[|s| - 1] in s && forall c <- front :: c in s;
      NoValue(front);
      assert s == front + [s[|s| - 1]];
    }
  }

  lemma {:induction false} ValueBehindZeros(k: nat, s: string)
    requires forall c <- s :: IsDigit(c)
    ensures (forall c <- Zeros(k) + s :: IsDigit(c)) && Value(Zeros(k) + s) == Value(s)
  {
    var all := Zeros(k) + s;
    if s != "" {
      var front := s[..|s| - 1];
      assert forall c <- front :: c in s;
      ValueBehindZeros(k, front);
      assert all[..|all| - 1] == Zeros(k) + front && all[|all| - 1] == s[|s| - 1];
    } else if k > 0 {
      ValueBehindZeros(k - 1, "");
      assert all[..|all| - 1] == Zeros(k - 1) + "";
    }
  }

  /** The names that carry number `n` are `kaseki-` with its decimal, possibly behind zeros; no other name carries any. */
  lemma ParsedIff(id: string, n: nat)
    ensures ParseInstanceNumber(id) == Some(n) <==> n > 0 && exists k: nat :: id == PREFIX + (Zeros(k) + Decimal(n))
  {
    if ParseInstanceNumber(id) == Some(n) {
      var k := DigitsAreDecimal(id[|PREFIX|..]);
      assert id == PREFIX + (Zeros(k) + Decimal(n));
    }
    if n > 0 {
      if k: nat :| id == PREFIX + (Zeros(k) + Decimal(n)) {
        assert id[|PREFIX|..] == Zeros(k) + Decimal(n);
        ValueBehindZeros(k, Decimal(n));
        ValueOfDecimal(n);
      }
    }
  }

  // ---------------------------------------------------------------- allocation

  /** The results directory: what each entry's name is, and whether it is a directory. */
  type Entries = map<string, bool>

  predicate Numbered(jobIds: set<string>, entries: Entries, n: nat) {
    (exists id <- jobIds :: ParseInstanceNumber(id) == Some(n))
    || exists e <- entries :: entries[e] && ParseInstanceNumber(e) == Some(n)
  }

  /** The greatest number among `names`, if it is greater than `least`. */
  method GreatestNumber(names: set<string>, least: nat) returns (maxId: nat)
    ensures maxId >= least
    ensures forall x <- names :: ParseInstanceNumber(x).Some? ==> ParseInstanceNumber(x).value <= maxId
    ensures maxId == least || exists x <- names :: ParseInstanceNumber(x) == Some(maxId)
  {
    hide ParseInstanceNumber;
    maxId := least;
    var todo := names;
    while todo != {}
      invariant todo <= names && maxId >= least
      invariant forall x <- names - todo :: ParseInstanceNumber(x).Some? ==> ParseInstanceNumber(x).value <= maxId
      invariant maxId == least || exists x <- names :: ParseInstanceNumber(x) == Some(maxId)
      decreases |todo|
    {
      var x :| x in todo;
      todo := todo - {x};
      var n := ParseInstanceNumber(x);
      if n.Some? && n.value > maxId { maxId := n.value; }
    }
  }

  /** `discoverNextId`: one more than the greatest number among the job ids and the result directories. */
  method DiscoverNextId(jobIds: set<string>, entries: Entries) returns (next: nat)
    ensures next > 0
    ensures forall n: nat :: Numbered(jobIds, entries, n) ==> n < next
    ensures next == 1 || Numbered(jobIds, entries, next - 1)
  {
    hide ParseInstanceNumber;
    var fromJobs := GreatestNumber(jobIds, 0);
    var directories := set e <- entries | entries[e] :: e;
    var maxId := GreatestNumber(directories, fromJobs);
    next := maxId + 1;
  }

  /** The number is taken: a job has the id, or something stands at its result path. */
  predicate Taken(jobIds: set<string>, entries: Entries, n: nat) {
    InstanceId(n) in jobIds || InstanceId(n) in entries
  }

  /** `n` is the first number from `from` on, within the allowed attempts, that is not taken. */
  ghost predicate FirstFree(jobIds: set<string>, entries: Entries, from: nat, n: nat) {
    && from <= n < from + MAX_ATTEMPTS && !Taken(jobIds, entries, n)
    && forall k: nat :: from <= k < n ==> Taken(jobIds, entries, k)
  }

  /** Past every numbered id, no job can have the candidate's id: only a path in the way can be in use. */
  lemma MembershipIsRedundant(jobIds: set<string>, entries: Entries, from: nat, n: nat)
    requires from > 0 && n >= from && forall k: nat :: Numbered(jobIds, entries, k) ==> k < from
    ensures InstanceId(n) !in jobIds
    ensures InstanceId(n) in entries ==> !entries[InstanceId(n)]
  {
    ParseInstanceId(n);
    assert !Numbered(jobIds, entries, n);
  }

  class InstanceIdAllocator {
    /** The number in the next-id file; `None` if it is missing or does not hold a positive number. */
    var nextId: Option<nat>

    ghost predicate Valid()
      reads this
    {
      nextId.Some? ==> nextId.value > 0
    }

    constructor (persisted: Option<nat>)
      requires persisted.Some? ==> persisted.value > 0
      ensures Valid() && nextId == persisted
    {
      nextId := persisted;
    }

    /**
     * `generateInstanceId`. The number is at least the persisted one, above every numbered job and result
     * directory, and the first of those whose path is free; the file then holds its successor.
     */
    method GenerateInstanceId(jobIds: set<string>, entries: Entries) returns (id: Option<string>, ghost start: nat, ghost number: nat)
      requires Valid()
      modifies this
      ensures Valid()
      ensures id.Some? ==>
                && id.value == InstanceId(number) && nextId == Some(number + 1)
                && number > 0 && (old(nextId).Some? ==> number >= old(nextId).value)
                && (forall n: nat :: Numbered(jobIds, entries, n) ==> n < number)
                && id.value !in jobIds && id.value !in entries
      ensures id.None? ==> nextId == old(nextId)
      ensures forall n: nat :: Numbered(jobIds, entries, n) ==> n < start
      ensures start == 1 || old(nextId) == Some(start) || (start > 1 && Numbered(jobIds, entries, start - 1))
      ensures id.Some? ==> FirstFree(jobIds, entries, start, number)
      ensures id.None? ==> forall k: nat :: start <= k < start + MAX_ATTEMPTS ==> InstanceId(k) in entries
    {
      var discovered := DiscoverNextId(jobIds, entries);
      var persisted := nextId.GetOr(1);
      var from := if persisted > discovered then persisted else discovered;
      var next := from;
      start := from;
      var attempt := 0;
      hide InstanceId, Numbered;
      while attempt < MAX_ATTEMPTS
        invariant 0 <= attempt <= MAX_ATTEMPTS && next == from + attempt && nextId == old(nextId)
        invariant forall k: nat :: from <= k < next ==> Taken(jobIds, entries, k)
      {
        if InstanceId(next) !in jobIds && InstanceId(next) !in entries {
          nextId := Some(next + 1);
          id, number := Some(InstanceId(next)), next;
          assert FirstFree(jobIds, entries, from, number);
          return;
        }
        next, attempt := next + 1, attempt + 1;
      }
      id, number := None, 0;
      forall k: nat | from <= k < from + MAX_ATTEMPTS ensures InstanceId(k) in entries {
        MembershipIsRedundant(jobIds, entries, from, k);
        assert Taken(jobIds, entries, k);
      }
    }
  }

  // ---------------------------------------------------------------- runs

  /** A call of the allocator with the jobs and the listing that it finds, or a restart of the process. */
  datatype Call = Allocate(jobIds: set<string>, entries: Entries) | Restart

  function NumberOf(id: string): nat { ParseInstanceNumber(id).GetOr(0) }

  /** The id is new to the call that gave it: above every numbered job and directory, and at a free path. */
  ghost predicate NewFor(call: Call, id: string) {
    call.Allocate? && (forall n: nat :: Numbered(call.jobIds, call.entries, n) ==> n < NumberOf(id)) && id !in call.jobIds && id !in call.entries && NumberOf(id) > 0 && id == InstanceId(NumberOf(id))
  }

  /** The numbers given grow strictly, with failed calls and restarts passed over. */
  predicate Growing(ids: seq<Option<string>>) {
    forall i, j :: 0 <= i < j < |ids| && ids[i].Some? && ids[j].Some? ==> NumberOf(ids[i].value) < NumberOf(ids[j].value)
  }

  lemma GrowingDiffer(ids: seq<Option<string>>, i: nat, j: nat)
    requires Growing(ids) && i < j < |ids| && ids[i].Some? && ids[j].Some?
    ensures ids[i] != ids[j]
  {
    assert NumberOf(ids[i].value) < NumberOf(ids[j].value);
  }

  lemma GrowingAppend(ids: seq<Option<string>>, id: Option<string>)
    requires Growing(ids)
    requires id.Some? ==> forall i :: 0 <= i < |ids| && ids[i].Some? ==> NumberOf(ids[i].value) < NumberOf(id.value)
    ensures Growing(ids + [id])
  {
    var more := ids + [id];
    forall i, j | 0 <= i < j < |more| && more[i].Some? && more[j].Some?
      ensures NumberOf(more[i].value) < NumberOf(more[j].value)
    {
      assert more[i] == ids[i];
    }
  }

  /** Nothing given so far has the persisted number, or a greater one. */
  predicate Below(ids: seq<Option<string>>, nextId: Option<nat>) {
    forall i :: 0 <= i < |ids| && ids[i].Some? ==> nextId.Some? && NumberOf(ids[i].value) < nextId.value
  }

  lemma GivenIsNew(call: Call, number: nat)
    requires call.Allocate? && InstanceId(number) !in call.jobIds && InstanceId(number) !in call.entries && number > 0
    requires forall n: nat :: Numbered(call.jobIds, call.entries, n) ==> n < number
    ensures NewFor(call, InstanceId(number)) && NumberOf(InstanceId(number)) == number
  {
    ParseInstanceId(number);
  }

  /**
   * Any sequence of allocations, whatever jobs and listings they find, with failures and restarts in
   * between: each id given is new, and no id is given twice, because the numbers grow.
   */
  method RunAllocations(persisted: Option<nat>, calls: seq<Call>) returns (ids: seq<Option<string>>)
    requires persisted.Some? ==> persisted.value > 0
    ensures |ids| == |calls| && Growing(ids)
    ensures forall i :: 0 <= i < |ids| && ids[i].Some? ==> NewFor(calls[i], ids[i].value)
    ensures forall i, j :: 0 <= i < j < |ids| && ids[i].Some? && ids[j].Some? ==> ids[i] != ids[j]
  {
    ids := [];
    var allocator := new InstanceIdAllocator(persisted);
    for i := 0 to |calls|
      invariant fresh(allocator) && allocator.Valid() && |ids| == i
      invariant Growing(ids) && Below(ids, allocator.nextId)
      invariant forall k :: 0 <= k < i && ids[k].Some? ==> NewFor(calls[k], ids[k].value)
    {
      hide InstanceId, ParseInstanceNumber, Growing, FirstFree, Taken, Numbered, NewFor, NumberOf;
      var id: Option<string> := None;
      match calls[i] {
        case Restart =>
          allocator := new InstanceIdAllocator(allocator.nextId);
        case Allocate(jobIds, entries) =>
          ghost var number: nat;
          ghost var start: nat;
          id, start, number := allocator.GenerateInstanceId(jobIds, entries);
          if id.Some? {
            GivenIsNew(calls[i], number);
          }
      }
      GrowingAppend(ids, id);
      ids := ids + [id];
    }
    forall i, j | 0 <= i < j < |ids| && ids[i].Some? && ids[j].Some? ensures ids[i] != ids[j] {
      GrowingDiffer(ids, i, j);
    }
  }
}
