/**
 The audit log: every event carries a sequence number, the hash of the event before it and its own
 hash. `Record` extends the chain, `VerifyChain` checks it, and two stores keep the events.

 SHA-256 over the JSON payload is the parameter `hash`. Nothing is assumed about it: where the
 security argument needs collision resistance, the collision itself is the lemma's other outcome.
 */
module Audit {
  import opened Wrappers

  datatype Event = Event(
    id: string, number: int, prevHash: string, hash: string,
    actorID: string, actorEmail: string, action: string,
    targetType: string, targetID: string, metadata: map<string, string>, createdAt: int)

  /** The fields the hash covers: everything but the hash itself. */
  datatype Payload = Payload(
    number: int, prevHash: string, id: string,
    actorID: string, actorEmail: string, action: string,
    targetType: string, targetID: string, metadata: map<string, string>, createdAt: int)

  type Hasher = Payload -> string

  datatype RecordRequest = RecordRequest(
    actorID: string, actorEmail: string, action: string,
    targetType: string, targetID: string, metadata: map<string, string>)

  datatype AuditError = InvalidInput | NotFound | DuplicateKey

  datatype ChainError = NumberMismatch(id: string) | PrevHashMismatch(id: string) | HashMismatch(id: string)

  function PayloadOf(e: Event): Payload {
    Payload(e.number, e.prevHash, e.id, e.actorID, e.actorEmail, e.action,
            e.targetType, e.targetID, e.metadata, e.createdAt)
  }

  /** What a verified log is, read off its entries: numbered 1, 2, 3, ..., each linked to the one before. */
  ghost predicate Chained(hash: Hasher, log: seq<Event>) {
    forall i :: 0 <= i < |log| ==> Linked(hash, log, i)
  }

  ghost predicate Linked(hash: Hasher, log: seq<Event>, i: nat)
    requires i < |log|
  {
    && log[i].number == i + 1
    && log[i].prevHash == (if i == 0 then "" else log[i - 1].hash)
    && log[i].hash == hash(PayloadOf(log[i]))
  }

  /** The event list is, in some order, a chained log. */
  ghost predicate Verifiable(hash: Hasher, events: seq<Event>) {
    exists log :: Chained(hash, log) && multiset(log) == multiset(events)
  }

  // ---------------------------------------------------------------------------------------------
  // Sorting. The library sort is only known to return a sorted permutation; ties are unspecified.

  datatype Order = OldestFirst | NewestFirst

  function Key(e: Event, order: Order): int {
    if order.OldestFirst? then e.number else -e.number
  }

  ghost predicate Sorted(s: seq<Event>, order: Order) {
    forall i, j :: 0 <= i < j < |s| ==> Key(s[i], order) <= Key(s[j], order)
  }

  ghost predicate StrictlySorted(s: seq<Event>, order: Order) {
    forall i, j :: 0 <= i < j < |s| ==> Key(s[i], order) < Key(s[j], order)
  }

  /** Event ids are UUIDs; two events never share one. */
  ghost predicate DistinctIds(s: seq<Event>) {
    forall i, j :: 0 <= i < j < |s| ==> s[i].id != s[j].id
  }

  function Insert(e: Event, s: seq<Event>, order: Order): seq<Event> {
    if s == [] || Key(e, order) <= Key(s[0], order) then [e] + s
    else [s[0]] + Insert(e, s[1..], order)
  }

  function Sort(s: seq<Event>, order: Order): seq<Event> {
    if s == [] then [] else Insert(s[0], Sort(s[1..], order), order)
  }

  lemma {:induction false} InsertAdds(e: Event, s: seq<Event>, order: Order)
    ensures multiset(Insert(e, s, order)) == multiset(s) + multiset{e}
  {
    if s != [] {
      InsertAdds(e, s[1..], order);
      assert s == [s[0]] + s[1..];
    }
  }

  lemma {:induction false} InsertMembers(e: Event, s: seq<Event>, order: Order)
    ensures forall x :: x in Insert(e, s, order) ==> x == e || x in s
  {
    if s != [] { InsertMembers(e, s[1..], order); }
  }

  lemma {:induction false} InsertSorts(e: Event, s: seq<Event>, order: Order)
    requires Sorted(s, order)
    ensures Sorted(Insert(e, s, order), order)
  {
    if s != [] && Key(e, order) > Key(s[0], order) {
      var rest := Insert(e, s[1..], order);
      InsertSorts(e, s[1..], order);
      InsertMembers(e, s[1..], order);
      forall k | 0 <= k < |rest| ensures Key(s[0], order) <= Key(rest[k], order) {
        assert rest[k] in rest;
      }
    }
  }

  lemma {:induction false} SortSorts(s: seq<Event>, order: Order)
    ensures Sorted(Sort(s, order), order) && multiset(Sort(s, order)) == multiset(s)
  {
    if s != [] {
      SortSorts(s[1..], order);
      InsertSorts(s[0], Sort(s[1..], order), order);
      InsertAdds(s[0], Sort(s[1..], order), order);
      assert s == [s[0]] + s[1..];
    }
  }

  /** With distinct numbers the sorted order is the only one: any sorted permutation is equal to it. */
  lemma {:induction false} SortedIsUnique(sorted: seq<Event>, ordered: seq<Event>, order: Order)
    requires multiset(sorted) == multiset(ordered) && Sorted(sorted, order) && StrictlySorted(ordered, order)
    ensures sorted == ordered
  {
    assert |sorted| == |multiset(sorted)| && |ordered| == |multiset(ordered)|;
    if ordered != [] {
      LeastIsFirst(sorted, ordered, order);
      SortedIsUnique(sorted[1..], ordered[1..], order);
      assert sorted == [sorted[0]] + sorted[1..] && ordered == [ordered[0]] + ordered[1..];
    }
  }

  lemma LeastIsFirst(sorted: seq<Event>, ordered: seq<Event>, order: Order)
    requires multiset(sorted) == multiset(ordered) && Sorted(sorted, order) && StrictlySorted(ordered, order)
    requires sorted != [] && ordered != []
    ensures sorted[0] == ordered[0]
    ensures multiset(sorted[1..]) == multiset(ordered[1..])
    ensures Sorted(sorted[1..], order) && StrictlySorted(ordered[1..], order)
  {
    assert sorted[0] == ordered[0] by {
      assert ordered[0] in multiset(sorted);
      var k :| 0 <= k < |sorted| && sorted[k] == ordered[0];
      assert sorted[0] in multiset(ordered);
      var l :| 0 <= l < |ordered| && ordered[l] == sorted[0];
    }
    DropFirst(sorted);
    DropFirst(ordered);
  }

  lemma DropFirst(s: seq<Event>)
    requires s != []
    ensures multiset(s[1..]) == multiset(s) - multiset{s[0]}
  {
    assert s == [s[0]] + s[1..];
  }

  function Reverse(s: seq<Event>): (r: seq<Event>)
    ensures |r| == |s| && forall i :: 0 <= i < |s| ==> r[i] == s[|s| - 1 - i]
  {
    if s == [] then [] else Reverse(s[1..]) + [s[0]]
  }

  // ---------------------------------------------------------------------------------------------
  // Verification

  /** Sorts a copy and walks it once. It succeeds exactly on the permutations of chained logs. */
  method VerifyChain(hash: Hasher, events: seq<Event>) returns (r: Result<(), ChainError>)
    ensures r.Ok? <==> Verifiable(hash, events)
  {
    var ordered := Sort(events, OldestFirst);
    SortSorts(events, OldestFirst);
    var prevHash := "";
    for index := 0 to |ordered|
      invariant forall i :: 0 <= i < index ==> Linked(hash, ordered, i)
      invariant prevHash == if index == 0 then "" else ordered[index - 1].hash
    {
      var event := ordered[index];
      if event.number != index + 1 {
        UnlinkedIsNotVerifiable(hash, events, ordered, index);
        return Err(NumberMismatch(event.id));
      }
      if event.prevHash != prevHash {
        UnlinkedIsNotVerifiable(hash, events, ordered, index);
        return Err(PrevHashMismatch(event.id));
      }
      if event.hash != hash(PayloadOf(event)) {
        UnlinkedIsNotVerifiable(hash, events, ordered, index);
        return Err(HashMismatch(event.id));
      }
      prevHash := event.hash;
    }
    assert Chained(hash, ordered);
    return Ok(());
  }

  lemma UnlinkedIsNotVerifiable(hash: Hasher, events: seq<Event>, ordered: seq<Event>, i: nat)
    requires Sorted(ordered, OldestFirst) && multiset(ordered) == multiset(events)
    requires i < |ordered| && !Linked(hash, ordered, i)
    ensures !Verifiable(hash, events)
  {
    forall log | Chained(hash, log) && multiset(log) == multiset(events)
      ensures false
    {
      ChainAscends(hash, log);
      SortedIsUnique(ordered, log, OldestFirst);
    }
  }

  lemma ChainAscends(hash: Hasher, log: seq<Event>)
    requires Chained(hash, log)
    ensures StrictlySorted(log, OldestFirst)
  {
    forall i, j | 0 <= i < j < |log| ensures log[i].number < log[j].number {
      assert Linked(hash, log, i) && Linked(hash, log, j);
    }
  }

  // ---------------------------------------------------------------------------------------------
  // Tamper evidence

  /** Two different payloads with one hash. */
  ghost predicate Collide(hash: Hasher, p: Payload, q: Payload) {
    p != q && hash(p) == hash(q)
  }

  /**
   Chained logs that end in the same hash are the same log, field by field, unless the two logs
   exhibit a hash collision, in which case it is returned.
   */
  lemma {:induction false} ChainedLogsAgree(hash: Hasher, a: seq<Event>, b: seq<Event>)
    returns (collision: Option<(Payload, Payload)>)
    requires Chained(hash, a) && Chained(hash, b)
    requires a != [] && b != [] && a[|a| - 1].hash == b[|b| - 1].hash
    ensures collision.None? ==> a == b
    ensures collision.Some? ==>
              && Collide(hash, collision.value.0, collision.value.1)
              && (exists i :: 0 <= i < |a| && collision.value.0 == PayloadOf(a[i]))
              && (exists j :: 0 <= j < |b| && collision.value.1 == PayloadOf(b[j]))
    decreases |a|
  {
    var m, n := |a| - 1, |b| - 1;
    assert Linked(hash, a, m) && Linked(hash, b, n);
    if PayloadOf(a[m]) != PayloadOf(b[n]) {
      return Some((PayloadOf(a[m]), PayloadOf(b[n])));
    }
    assert a[m] == b[n] && m == n;
    if m == 0 {
      return None;
    }
    PrefixIsChained(hash, a, m);
    PrefixIsChained(hash, b, m);
    assert Linked(hash, a, m - 1) && Linked(hash, b, m - 1);
    collision := ChainedLogsAgree(hash, a[..m], b[..m]);
    if collision.None? {
      assert a == a[..m] + [a[m]] && b == b[..m] + [b[m]];
    }
  }

  lemma PrefixIsChained(hash: Hasher, log: seq<Event>, n: nat)
    requires Chained(hash, log) && n <= |log|
    ensures Chained(hash, log[..n])
  {
    forall i | 0 <= i < n ensures Linked(hash, log[..n], i) {
      assert Linked(hash, log, i);
    }
  }

  /** The event with the highest number, which is the tail the next `Record` will link to. */
  ghost predicate IsNewest(e: Event, events: seq<Event>) {
    e in events && forall x :: x in events ==> x.number <= e.number
  }

  /**
   The tamper-evidence theorem. If both event lists verify and their newest events carry the same
   hash, then under an injective hash they hold the same events: no edit, removal, insertion or
   replacement can keep both the chain valid and the last hash.
   */
  lemma TamperEvidence(hash: Hasher, original: seq<Event>, tampered: seq<Event>, last: Event, last': Event)
    requires forall p: Payload, q: Payload :: hash(p) == hash(q) ==> p == q
    requires Verifiable(hash, original) && Verifiable(hash, tampered)
    requires IsNewest(last, original) && IsNewest(last', tampered) && last.hash == last'.hash
    ensures multiset(original) == multiset(tampered) && |original| == |tampered|
  {
    var a :| Chained(hash, a) && multiset(a) == multiset(original);
    var b :| Chained(hash, b) && multiset(b) == multiset(tampered);
    NewestIsLast(hash, a, original, last);
    NewestIsLast(hash, b, tampered, last');
    var collision := ChainedLogsAgree(hash, a, b);
    assert |original| == |multiset(original)| && |tampered| == |multiset(tampered)|;
  }

  lemma NewestIsLast(hash: Hasher, log: seq<Event>, events: seq<Event>, last: Event)
    requires Chained(hash, log) && multiset(log) == multiset(events) && IsNewest(last, events)
    ensures log != [] && log[|log| - 1] == last
  {
    assert last in multiset(log);
    var k :| 0 <= k < |log| && log[k] == last;
    assert Linked(hash, log, k) && Linked(hash, log, |log| - 1);
    assert log[|log| - 1] in multiset(events);
  }

  // ---------------------------------------------------------------------------------------------
  // Recording

  /** The event `Record` builds and `fillChain` completes, given the store's tail. */
  function Filled(hash: Hasher, request: RecordRequest, id: string, now: int, tail: Option<Event>): Event {
    var number := if tail.Some? then tail.value.number + 1 else 1;
    var prevHash := if tail.Some? then tail.value.hash else "";
    var draft := Event(id, number, prevHash, "", request.actorID, request.actorEmail, request.action,
                       request.targetType, request.targetID, request.metadata, now);
    draft.(hash := hash(PayloadOf(draft)))
  }

  function TailOf(log: seq<Event>): Option<Event> {
    if log == [] then None else Some(log[|log| - 1])
  }

  /** One `Record` call with the UUID and the clock reading it draws. */
  datatype Call = Call(request: RecordRequest, id: string, now: int)

  predicate Acceptable(request: RecordRequest) {
    request.action != "" && request.targetType != ""
  }

  /** The event says who did what to which target, as the request does. */
  ghost predicate Tells(e: Event, call: Call) {
    && e.id == call.id && e.createdAt == call.now
    && e.actorID == call.request.actorID && e.actorEmail == call.request.actorEmail
    && e.action == call.request.action && e.action != ""
    && e.targetType == call.request.targetType && e.targetType != "" && e.targetID == call.request.targetID
    && e.metadata == call.request.metadata
  }

  /** The log after one call: rejected input leaves it alone. */
  function Recorded(hash: Hasher, log: seq<Event>, call: Call): seq<Event> {
    if Acceptable(call.request) then log + [Filled(hash, call.request, call.id, call.now, TailOf(log))] else log
  }

  /** The log after a run of calls on an empty store. */
  function Run(hash: Hasher, calls: seq<Call>): seq<Event> {
    if calls == [] then [] else Recorded(hash, Run(hash, calls[..|calls| - 1]), calls[|calls| - 1])
  }

  /** Every run leaves a log that verifies in whatever order its events are supplied. */
  lemma {:induction false} RunVerifies(hash: Hasher, calls: seq<Call>, supplied: seq<Event>)
    requires multiset(supplied) == multiset(Run(hash, calls))
    ensures Chained(hash, Run(hash, calls)) && Verifiable(hash, supplied)
  {
    if calls != [] {
      var earlier, call := calls[..|calls| - 1], calls[|calls| - 1];
      RunVerifies(hash, earlier, Run(hash, earlier));
      RecordKeepsChain(hash, Run(hash, earlier), call.request, call.id, call.now);
    }
    assert Chained(hash, Run(hash, calls)) && multiset(Run(hash, calls)) == multiset(supplied);
  }

  /** Appending an event filled from the tail keeps the log chained. */
  lemma RecordKeepsChain(hash: Hasher, log: seq<Event>, request: RecordRequest, id: string, now: int)
    requires Chained(hash, log)
    ensures Chained(hash, log + [Filled(hash, request, id, now, TailOf(log))])
  {
    var log' := log + [Filled(hash, request, id, now, TailOf(log))];
    forall i | 0 <= i < |log'| ensures Linked(hash, log', i) {
      if i < |log| { assert Linked(hash, log, i); }
      if i == |log| && i > 0 { assert Linked(hash, log, i - 1); }
    }
  }

  // ---------------------------------------------------------------------------------------------
  // Interleaved calls

  /** A save whose call read the tail when the log held `read` events. */
  datatype Save = Save(call: Call, read: nat)

  /**
   The saves of a run of interleaved calls, in the order they reach the store: each reads the tail at some
   earlier moment, whatever was saved in between.
   */
  ghost predicate Interleaved(saves: seq<Save>) {
    forall i :: 0 <= i < |saves| ==> saves[i].read <= i
  }

  function LogOf(hash: Hasher, saves: seq<Save>): (log: seq<Event>)
    requires Interleaved(saves)
    ensures |log| == |saves|
  {
    if saves == [] then []
    else
      var log, save := LogOf(hash, saves[..|saves| - 1]), saves[|saves| - 1];
      log + [Filled(hash, save.call.request, save.call.id, save.call.now, TailOf(log[..save.read]))]
  }

  lemma {:induction false} EachIsFilled(hash: Hasher, saves: seq<Save>, i: nat)
    requires Interleaved(saves) && i < |saves|
    ensures var log, c := LogOf(hash, saves), saves[i].call;
            log[i] == Filled(hash, c.request, c.id, c.now, TailOf(log[..saves[i].read]))
  {
    var log, earlier := LogOf(hash, saves), LogOf(hash, saves[..|saves| - 1]);
    assert log[..|saves| - 1] == earlier;
    assert log[..saves[i].read] == earlier[..saves[i].read];
    if i < |saves| - 1 { EachIsFilled(hash, saves[..|saves| - 1], i); }
  }

  /** No event can have a number above its position. */
  lemma {:induction false} NumbersLag(hash: Hasher, saves: seq<Save>, i: nat)
    requires Interleaved(saves) && i < |saves|
    ensures var log := LogOf(hash, saves);
            && 1 <= log[i].number <= saves[i].read + 1
            && log[i].number == (if saves[i].read == 0 then 0 else log[saves[i].read - 1].number) + 1
  {
    EachIsFilled(hash, saves, i);
    if saves[i].read > 0 { NumbersLag(hash, saves, saves[i].read - 1); }
  }

  /** In a list that verifies, no two events share a number. */
  lemma NumbersDiffer(hash: Hasher, events: seq<Event>, i: nat, j: nat)
    requires Verifiable(hash, events) && i < j < |events|
    ensures events[i].number != events[j].number
  {
    var chain :| Chained(hash, chain) && multiset(chain) == multiset(events);
    var e, e' := events[i], events[j];
    assert e in multiset(chain) && e' in multiset(chain);
    var m :| 0 <= m < |chain| && chain[m] == e;
    var n :| 0 <= n < |chain| && chain[n] == e';
    assert Linked(hash, chain, m) && Linked(hash, chain, n);
    if e.number == e'.number {
      assert m == n && e == e';
      TwoIndicesMeanDuplicate(events, i, j);
      ChainAscends(hash, chain);
      DuplicateMeansTwoIndices(chain, e);
    }
  }

  lemma TwoIndicesMeanDuplicate(s: seq<Event>, i: nat, j: nat)
    requires i < j < |s| && s[i] == s[j]
    ensures multiset(s)[s[i]] >= 2
  {
    assert s == s[..i] + [s[i]] + s[i + 1..j] + [s[j]] + s[j + 1..];
  }

  /** Different numbers that never exceed their positions are the positions. */
  lemma {:induction false} NumbersCatchUp(log: seq<Event>, i: nat)
    requires i < |log|
    requires forall k :: 0 <= k < |log| ==> 1 <= log[k].number <= k + 1
    requires forall k, l :: 0 <= k < l < |log| ==> log[k].number != log[l].number
    ensures log[i].number == i + 1
    decreases i
  {
    if log[i].number != i + 1 {
      var k := log[i].number - 1;
      NumbersCatchUp(log, k);
    }
  }

  /**
   Why `Record` has to be atomic, exactly: the log of a run of interleaved calls verifies if and only if
   every call saved right after it read the tail, with no other save in between.
   */
  lemma InterleavedLogVerifiesIff(hash: Hasher, saves: seq<Save>)
    requires Interleaved(saves)
    ensures Verifiable(hash, LogOf(hash, saves)) <==> forall i :: 0 <= i < |saves| ==> saves[i].read == i
  {
    var log := LogOf(hash, saves);
    if forall i :: 0 <= i < |saves| ==> saves[i].read == i {
      AtomicSavesChain(hash, saves);
      assert Chained(hash, log) && multiset(log) == multiset(log);
    }
    if Verifiable(hash, log) {
      forall k | 0 <= k < |log| ensures 1 <= log[k].number <= k + 1 { NumbersLag(hash, saves, k); }
      forall k, l | 0 <= k < l < |log| ensures log[k].number != log[l].number { NumbersDiffer(hash, log, k, l); }
      forall i | 0 <= i < |saves| ensures saves[i].read == i {
        NumbersLag(hash, saves, i);
        NumbersCatchUp(log, i);
      }
    }
  }

  lemma {:induction false} AtomicSavesChain(hash: Hasher, saves: seq<Save>)
    requires forall i :: 0 <= i < |saves| ==> saves[i].read == i
    ensures Chained(hash, LogOf(hash, saves))
  {
    if saves != [] {
      var init, save := saves[..|saves| - 1], saves[|saves| - 1];
      AtomicSavesChain(hash, init);
      var log := LogOf(hash, init);
      assert log[..save.read] == log;
      RecordKeepsChain(hash, log, save.call.request, save.call.id, save.call.now);
    }
  }

  /** Whatever is in the log and whatever is appended: two saves that read one tail break verification for good. */
  lemma InterleavedRecordsBreakChain(hash: Hasher, log: seq<Event>, r1: RecordRequest, r2: RecordRequest,
                                     id1: string, id2: string, t1: int, t2: int, rest: seq<Event>)
    ensures !Verifiable(hash, log + [Filled(hash, r1, id1, t1, TailOf(log)),
                                     Filled(hash, r2, id2, t2, TailOf(log))] + rest)
  {
    var events := log + [Filled(hash, r1, id1, t1, TailOf(log)), Filled(hash, r2, id2, t2, TailOf(log))] + rest;
    if Verifiable(hash, events) { NumbersDiffer(hash, events, |log|, |log| + 1); }
  }

  lemma {:induction false} DuplicateMeansTwoIndices(s: seq<Event>, e: Event)
    requires multiset(s)[e] >= 2
    ensures exists a, b :: 0 <= a < b < |s| && s[a] == e && s[b] == e
  {
    assert s == [s[0]] + s[1..];
    if s[0] == e {
      assert e in multiset(s[1..]);
      var b :| 0 <= b < |s| - 1 && s[1..][b] == e;
      assert s[b + 1] == e;
    } else {
      DuplicateMeansTwoIndices(s[1..], e);
      var a, b :| 0 <= a < b < |s| - 1 && s[1..][a] == e && s[1..][b] == e;
      assert s[a + 1] == e && s[b + 1] == e;
    }
  }

  // ---------------------------------------------------------------------------------------------
  // Stores

  function ByActor(s: seq<Event>, actorID: string): (r: seq<Event>)
    ensures forall e :: e in r <==> e in s && e.actorID == actorID
  {
    if s == [] then [] else
      (if s[0].actorID == actorID then [s[0]] else []) + ByActor(s[1..], actorID)
  }

  lemma {:induction false} ByActorConcat(s: seq<Event>, t: seq<Event>, actorID: string)
    ensures ByActor(s + t, actorID) == ByActor(s, actorID) + ByActor(t, actorID)
  {
    if s == [] {
      assert s + t == t;
    } else {
      assert (s + t)[1..] == s[1..] + t;
      ByActorConcat(s[1..], t, actorID);
    }
  }

  /** Events in append order; every reader walks them backwards. */
  class MemoryStore {
    var events: seq<Event>

    constructor ()
      ensures events == []
    {
      events := [];
    }

    method SaveEvent(event: Event)
      modifies this
      ensures events == old(events) + [event]
    {
      events := events + [event];
    }

    method EventsByActor(actorID: string) returns (r: Result<seq<Event>, AuditError>)
      ensures r == if actorID == "" then Err(InvalidInput) else Ok(ByActor(Reverse(events), actorID))
    {
      if actorID == "" {
        return Err(InvalidInput);
      }
      var found := [];
      var index := |events|;
      while index > 0
        invariant 0 <= index <= |events|
        invariant found == ByActor(Reverse(events[index..]), actorID)
      {
        index := index - 1;
        ReverseTail(events, index);
        ByActorConcat(Reverse(events[index + 1..]), [events[index]], actorID);
        if events[index].actorID == actorID {
          found := found + [events[index]];
        }
      }
      assert events[0..] == events;
      return Ok(found);
    }

    method AllEvents() returns (r: seq<Event>)
      ensures r == Reverse(events)
    {
      r := [];
      var index := |events|;
      while index > 0
        invariant 0 <= index <= |events|
        invariant r == Reverse(events[index..])
      {
        index := index - 1;
        ReverseTail(events, index);
        r := r + [events[index]];
      }
      assert events[0..] == events;
    }

    method Tail() returns (r: Result<Event, AuditError>)
      ensures r == if events == [] then Err(NotFound) else Ok(events[|events| - 1])
    {
      if |events| == 0 {
        return Err(NotFound);
      }
      return Ok(events[|events| - 1]);
    }
  }

  lemma ReverseTail(s: seq<Event>, i: nat)
    requires i < |s|
    ensures Reverse(s[i..]) == Reverse(s[i + 1..]) + [s[i]]
  {
    assert s[i..][1..] == s[i + 1..];
  }

  /** The rows hold exactly the log's events, each under its own id. */
  ghost predicate Represents(rows: map<string, Event>, log: seq<Event>) {
    && DistinctIds(log)
    && (forall e :: e in log ==> e.id in rows && rows[e.id] == e)
    && (forall id :: id in rows ==> rows[id] in log && rows[id].id == id)
  }

  /** Rows keyed by event id. The list query has no ORDER BY, so rows arrive in any order. */
  class SqlStore {
    var rows: map<string, Event>

    constructor ()
      ensures rows == map[]
    {
      rows := map[];
    }

    method SaveEvent(event: Event) returns (r: Result<(), AuditError>)
      modifies this
      ensures r.Err? <==> event.id in old(rows)
      ensures rows == if r.Ok? then old(rows)[event.id := event] else old(rows)
    {
      if event.id in rows {
        return Err(DuplicateKey);
      }
      rows := rows[event.id := event];
      return Ok(());
    }

    /** The rows whose owner matches (all of them for `None`), in an order the database picks. */
    method List(owner: Option<string>) returns (r: seq<Event>)
      requires forall id :: id in rows ==> rows[id].id == id
      ensures forall e :: e in r <==> e.id in rows && rows[e.id] == e && (owner.Some? ==> e.actorID == owner.value)
      ensures DistinctIds(r)
    {
      r := [];
      var pending := rows.Keys;
      while pending != {}
        invariant pending <= rows.Keys
        invariant forall e :: e in r <==>
                    && e.id in rows && e.id !in pending && rows[e.id] == e
                    && (owner.Some? ==> e.actorID == owner.value)
        invariant DistinctIds(r)
        decreases |pending|
      {
        var id :| id in pending;
        pending := pending - {id};
        if owner.None? || rows[id].actorID == owner.value {
          r := r + [rows[id]];
        }
      }
    }

    method EventsByActor(actorID: string, ghost log: seq<Event>) returns (r: Result<seq<Event>, AuditError>)
      requires Represents(rows, log) && StrictlySorted(log, OldestFirst)
      ensures r == if actorID == "" then Err(InvalidInput) else Ok(ByActor(Reverse(log), actorID))
    {
      if actorID == "" {
        return Err(InvalidInput);
      }
      var listed := List(Some(actorID));
      ghost var wanted := ByActor(Reverse(log), actorID);
      ReverseKeepsEvents(log);
      ByActorKeepsOrder(Reverse(log), actorID);
      SameElementsSameMultiset(listed, wanted);
      SortSorts(listed, NewestFirst);
      SortedIsUnique(Sort(listed, NewestFirst), wanted, NewestFirst);
      return Ok(Sort(listed, NewestFirst));
    }

    method AllEvents(ghost log: seq<Event>) returns (r: seq<Event>)
      requires Represents(rows, log) && StrictlySorted(log, OldestFirst)
      ensures r == Reverse(log)
    {
      var listed := List(None);
      ReverseKeepsEvents(log);
      SameElementsSameMultiset(listed, Reverse(log));
      r := Sort(listed, NewestFirst);
      SortSorts(listed, NewestFirst);
      SortedIsUnique(r, Reverse(log), NewestFirst);
    }

    method Tail(ghost log: seq<Event>) returns (r: Result<Event, AuditError>)
      requires Represents(rows, log) && StrictlySorted(log, OldestFirst)
      ensures r == if log == [] then Err(NotFound) else Ok(log[|log| - 1])
    {
      var events := AllEvents(log);
      if |events| == 0 {
        return Err(NotFound);
      }
      return Ok(events[0]);
    }
  }

  /** Walking a log backwards lists the same events, newest first. */
  lemma ReverseKeepsEvents(log: seq<Event>)
    requires StrictlySorted(log, OldestFirst) && DistinctIds(log)
    ensures StrictlySorted(Reverse(log), NewestFirst) && DistinctIds(Reverse(log))
    ensures forall e :: e in Reverse(log) <==> e in log
  {
    forall e | e in log ensures e in Reverse(log) {
      var i :| 0 <= i < |log| && log[i] == e;
      assert Reverse(log)[|log| - 1 - i] == e;
    }
  }

  lemma SameElementsSameMultiset(s: seq<Event>, t: seq<Event>)
    requires forall e :: e in s <==> e in t
    requires DistinctIds(s) && DistinctIds(t)
    ensures multiset(s) == multiset(t)
  {
    forall e ensures multiset(s)[e] == multiset(t)[e] {
      CountIsZeroOrOne(s, e);
      CountIsZeroOrOne(t, e);
      assert e in s <==> e in multiset(s);
      assert e in t <==> e in multiset(t);
    }
  }

  lemma CountIsZeroOrOne(s: seq<Event>, e: Event)
    requires DistinctIds(s)
    ensures multiset(s)[e] <= 1
  {
    if multiset(s)[e] >= 2 {
      DuplicateMeansTwoIndices(s, e);
    }
  }

  /** Filtering a newest-first list of distinct events keeps it newest first and distinct. */
  lemma {:induction false} ByActorKeepsOrder(s: seq<Event>, actorID: string)
    requires StrictlySorted(s, NewestFirst) && DistinctIds(s)
    ensures StrictlySorted(ByActor(s, actorID), NewestFirst) && DistinctIds(ByActor(s, actorID))
  {
    if s != [] {
      var kept := ByActor(s[1..], actorID);
      ByActorKeepsOrder(s[1..], actorID);
      forall k | 0 <= k < |kept| ensures kept[k].number < s[0].number && kept[k].id != s[0].id {
        assert kept[k] in kept;
        assert kept[k] in s[1..];
      }
      if s[0].actorID == actorID {
        PrependKeepsOrder(s[0], kept);
      } else {
        assert ByActor(s, actorID) == [] + kept == kept;
      }
    }
  }

  lemma PrependKeepsOrder(e: Event, s: seq<Event>)
    requires StrictlySorted(s, NewestFirst) && DistinctIds(s)
    requires forall k :: 0 <= k < |s| ==> s[k].number < e.number && s[k].id != e.id
    ensures StrictlySorted([e] + s, NewestFirst) && DistinctIds([e] + s)
  {}

  // ---------------------------------------------------------------------------------------------
  // The service, over either store

  class Service {
    const hash: Hasher
    const store: MemoryStore

    constructor (hash: Hasher, store: MemoryStore)
      ensures this.hash == hash && this.store == store
    {
      this.hash, this.store := hash, store;
    }

    method Record(call: Call) returns (r: Result<Event, AuditError>)
      modifies store
      ensures r.Ok? <==> Acceptable(call.request)
      ensures r.Ok? ==> r.value == Filled(hash, call.request, call.id, call.now, TailOf(old(store.events)))
      ensures store.events == Recorded(hash, old(store.events), call)
      ensures r.Ok? ==> Tells(r.value, call) && store.events == old(store.events) + [r.value]
    {
      var request := call.request;
      if request.action == "" || request.targetType == "" {
        return Err(InvalidInput);
      }
      var event := Event(call.id, 1, "", "", request.actorID, request.actorEmail, request.action,
                         request.targetType, request.targetID, request.metadata, call.now);
      var tail := store.Tail();
      if tail.Ok? {
        event := event.(number := tail.value.number + 1, prevHash := tail.value.hash);
      }
      event := event.(hash := hash(PayloadOf(event)));
      store.SaveEvent(event);
      return Ok(event);
    }
  }

  class SqlService {
    const hash: Hasher
    const store: SqlStore

    constructor (hash: Hasher, store: SqlStore)
      ensures this.hash == hash && this.store == store
    {
      this.hash, this.store := hash, store;
    }

    /** The same use case over SQL rows: it represents the log the in-memory store would hold. */
    method Record(call: Call, ghost log: seq<Event>)
      returns (r: Result<Event, AuditError>, ghost log': seq<Event>)
      requires Represents(store.rows, log) && Chained(hash, log)
      modifies store
      ensures r.Ok? <==> Acceptable(call.request) && call.id !in old(store.rows)
      ensures r.Ok? ==> r.value == Filled(hash, call.request, call.id, call.now, TailOf(log))
      ensures log' == if call.id in old(store.rows) then log else Recorded(hash, log, call)
      ensures Represents(store.rows, log') && Chained(hash, log')
      ensures r.Ok? ==> Tells(r.value, call) && log' == log + [r.value]
    {
      log' := log;
      var request := call.request;
      if request.action == "" || request.targetType == "" {
        return Err(InvalidInput), log;
      }
      RecordKeepsChain(hash, log, request, call.id, call.now);
      ChainAscends(hash, log);
      var event := Event(call.id, 1, "", "", request.actorID, request.actorEmail, request.action,
                         request.targetType, request.targetID, request.metadata, call.now);
      var tail := store.Tail(log);
      if tail.Ok? {
        event := event.(number := tail.value.number + 1, prevHash := tail.value.hash);
      }
      event := event.(hash := hash(PayloadOf(event)));
      var saved := store.SaveEvent(event);
      if saved.Err? {
        return Err(saved.error), log;
      }
      log' := log + [event];
      return Ok(event), log';
    }
  }
}
