/**
 Import preview batches. A preview looks the file's hash up and, failing that, parses the file and
 saves a new batch unless another preview of the same file got there first. Applying a batch loads
 it and saves it back with the commit's metadata.

 The source hash and the parser are parameters. File-name and size checks are not modelled.
 */
module ImportBatches {
  import opened Wrappers
  import opened Text

  /** A parsed row. The amount and the date are carried as the results of their parsers. */
  datatype Row = Row(
    rowNumber: int, errors: seq<string>, kind: string, account: string, destinationAccount: string,
    category: string, currency: string, amountCents: Option<int>, occurredAt: Option<nat>)

  datatype Status = Preview | Applied

  datatype Batch = Batch(
    id: string, userID: string, source: string, sourceHash: string, status: Status, rows: seq<Row>,
    appliedBookID: string, appliedEntryIDs: seq<string>, appliedSkippedRows: seq<(int, string)>, appliedAt: int)

  datatype ImportError = InvalidInput | NotFound

  const WACAI: string := "wacai"

  /** The identity a batch is indexed under. */
  datatype Key = HashKey(userID: string, source: string, sourceHash: string)

  /** A positive error count: some row has errors. */
  predicate HasRowErrors(b: Batch) { exists i :: 0 <= i < |b.rows| && b.rows[i].errors != [] }

  function KeyOf(b: Batch): Key { HashKey(b.userID, b.source, b.sourceHash) }

  /** `batchHashKey`: the text the index really uses for a key. */
  function KeyText(k: Key): string {
    k.userID + "\0" + k.source + "\0" + k.sourceHash
  }

  /** Digests have one length, so the text of a Wacai key determines the key: the index may use either. */
  lemma KeyTextIsInjective(k: Key, k': Key)
    requires k.source == k'.source == WACAI && |k.sourceHash| == |k'.sourceHash|
    ensures KeyText(k) == KeyText(k') <==> k == k'
  {
    if KeyText(k) == KeyText(k') {
      var t, t' := KeyText(k), KeyText(k');
      assert |k.userID| == |k'.userID|;
      assert k.userID == t[..|k.userID|] && k'.userID == t'[..|k'.userID|];
      assert k.sourceHash == t[|k.userID| + |WACAI| + 2..] && k'.sourceHash == t'[|k'.userID| + |WACAI| + 2..];
    }
  }

  // ---------------------------------------------------------------------------------------------
  // The store

  datatype State = State(batches: map<string, Batch>, byHash: map<Key, string>)

  function Saved(st: State, b: Batch): State {
    State(st.batches[b.id := b], st.byHash[KeyOf(b) := b.id])
  }

  function SavedIfAbsent(st: State, b: Batch): State {
    if KeyOf(b) in st.byHash then st else Saved(st, b)
  }

  /** The two maps are inverse: every batch is indexed under its own key, and nothing else is. */
  ghost predicate Inverse(st: State) {
    && (forall id :: id in st.batches ==>
          && st.batches[id].id == id
          && KeyOf(st.batches[id]) in st.byHash && st.byHash[KeyOf(st.batches[id])] == id)
    && (forall key :: key in st.byHash ==> st.byHash[key] in st.batches && KeyOf(st.batches[st.byHash[key]]) == key)
  }

  class MemoryStore {
    var batches: map<string, Batch>
    var byHash: map<Key, string>

    constructor ()
      ensures Contents() == State(map[], map[])
    {
      batches, byHash := map[], map[];
    }

    function Contents(): State
      reads this
    {
      State(batches, byHash)
    }

    method SaveBatch(b: Batch)
      modifies this
      ensures Contents() == Saved(old(Contents()), b)
    {
      batches := batches[b.id := b];
      byHash := byHash[KeyOf(b) := b.id];
    }

    method SaveBatchIfAbsent(b: Batch) returns (stored: Batch, created: bool)
      requires Inverse(Contents())
      modifies this
      ensures Contents() == SavedIfAbsent(old(Contents()), b)
      ensures created <==> KeyOf(b) !in old(byHash)
      ensures stored == batches[byHash[KeyOf(b)]]
    {
      var key := KeyOf(b);
      if key in byHash {
        return batches[byHash[key]], false;
      }
      batches := batches[b.id := b];
      byHash := byHash[key := b.id];
      return b, true;
    }

    method Batch(userID: string, id: string) returns (r: Result<Batch, ImportError>)
      ensures r == if id in batches && batches[id].userID == userID then Ok(batches[id]) else Err(NotFound)
    {
      if id !in batches || batches[id].userID != userID {
        return Err(NotFound);
      }
      return Ok(batches[id]);
    }

    method BatchByHash(userID: string, source: string, sourceHash: string) returns (r: Result<Batch, ImportError>)
      requires Inverse(Contents())
      ensures r == if HashKey(userID, source, sourceHash) in byHash
                   then Ok(batches[byHash[HashKey(userID, source, sourceHash)]]) else Err(NotFound)
    {
      var key := HashKey(userID, source, sourceHash);
      if key !in byHash {
        return Err(NotFound);
      }
      return Ok(batches[byHash[key]]);
    }
  }

  // ---------------------------------------------------------------------------------------------
  // Requests and their atomic effect

  datatype Env = Env(hash: string -> string, parse: string -> Option<seq<Row>>)

  datatype Upload = Upload(userID: string, data: string)

  datatype Mark = Mark(
    userID: string, batchID: string, bookID: string, entryIDs: seq<string>, skippedRows: seq<(int, string)>)

  function UploadKey(env: Env, u: Upload): Key { HashKey(u.userID, WACAI, env.hash(u.data)) }

  function NewBatch(env: Env, u: Upload, id: string, rows: seq<Row>): Batch {
    Batch(id, u.userID, WACAI, env.hash(u.data), Preview, rows, "", [], [], 0)
  }

  /** The trimmed non-blank ids, each at its first occurrence. */
  function Normalized(ids: seq<string>): (r: seq<string>)
    ensures forall id :: id in r <==> id != "" && exists i :: 0 <= i < |ids| && Trim(ids[i]) == id
    ensures forall i, j :: 0 <= i < j < |r| ==> r[i] != r[j]
  {
    if ids == [] then []
    else
      var init, id := Normalized(ids[..|ids| - 1]), Trim(ids[|ids| - 1]);
      if id != "" && id !in init then init + [id] else init
  }

  lemma NormalizedIsEmptyIff(ids: seq<string>)
    ensures Normalized(ids) != [] <==> exists i :: 0 <= i < |ids| && Trim(ids[i]) != ""
  {
    if Normalized(ids) != [] { assert Normalized(ids)[0] in Normalized(ids); }
    if i :| 0 <= i < |ids| && Trim(ids[i]) != "" { assert Trim(ids[i]) in Normalized(ids); }
  }

  method NormalizeAppliedEntryIDs(ids: seq<string>) returns (r: seq<string>)
    ensures r == Normalized(ids)
  {
    r := [];
    for i := 0 to |ids|
      invariant r == Normalized(ids[..i])
    {
      assert ids[..i + 1][..i] == ids[..i];
      var id := Trim(ids[i]);
      if id != "" && id !in r {
        r := r + [id];
      }
    }
    assert ids[..|ids|] == ids;
  }

  function Stamped(b: Batch, m: Mark, now: int): Batch {
    b.(status := Applied, appliedBookID := m.bookID, appliedEntryIDs := Normalized(m.entryIDs),
       appliedSkippedRows := m.skippedRows, appliedAt := now)
  }

  predicate WellFormed(m: Mark) {
    m.userID != "" && m.batchID != "" && m.bookID != "" && Normalized(m.entryIDs) != []
  }

  /** Can the mark change the stored batch? It is there, the user's own, and not applied yet. */
  predicate Marks(st: State, m: Mark) {
    && WellFormed(m) && m.batchID in st.batches && st.batches[m.batchID].userID == m.userID
    && st.batches[m.batchID].status == Preview
  }

  datatype Call = DoPreview(upload: Upload, id: string) | DoMark(mark: Mark, now: int)

  /** The store after one call that nothing interrupts. */
  function Atomic(env: Env, st: State, c: Call): State {
    match c
    case DoPreview(u, id) =>
      if u.userID == "" || u.data == "" || UploadKey(env, u) in st.byHash || env.parse(u.data).None? then st
      else SavedIfAbsent(st, NewBatch(env, u, id, env.parse(u.data).value))
    case DoMark(m, now) =>
      if Marks(st, m) then Saved(st, Stamped(st.batches[m.batchID], m, now)) else st
  }

  class Service {
    const env: Env
    const store: MemoryStore

    constructor (env: Env, store: MemoryStore)
      ensures this.env == env && this.store == store
    {
      this.env, this.store := env, store;
    }

    /** `id` is the UUID the call draws. */
    method PreviewWacaiFile(u: Upload, id: string) returns (r: Result<Batch, ImportError>)
      requires Inverse(store.Contents()) && id !in store.batches
      modifies store
      ensures Inverse(store.Contents())
      ensures store.Contents() == Atomic(env, old(store.Contents()), DoPreview(u, id))
      ensures r.Ok? ==>
                && UploadKey(env, u) in store.byHash
                && r.value == store.batches[store.byHash[UploadKey(env, u)]]
                && r.value.userID == u.userID && r.value.source == "wacai" && r.value.sourceHash == env.hash(u.data)
      ensures var known := HashKey(u.userID, "wacai", env.hash(u.data)) in old(store.byHash);
              && (r.Ok? <==> u.userID != "" && u.data != "" && (known || env.parse(u.data).Some?))
              && (r.Ok? && !known ==>
                    && r.value.id == id && r.value.rows == env.parse(u.data).value && r.value.status == Preview
                    && store.batches == old(store.batches)[id := r.value])
              && (r.Ok? && known ==> store.Contents() == old(store.Contents()))
    {
      if u.userID == "" || u.data == "" {
        return Err(InvalidInput);
      }
      var existing := store.BatchByHash(u.userID, WACAI, env.hash(u.data));
      if existing.Ok? {
        return existing;
      }
      var rows := env.parse(u.data);
      if rows.None? {
        return Err(InvalidInput);
      }
      var stored, created := store.SaveBatchIfAbsent(NewBatch(env, u, id, rows.value));
      return Ok(stored);
    }

    method MarkApplied(m: Mark, now: int) returns (r: Result<Batch, ImportError>)
      requires Inverse(store.Contents())
      modifies store
      ensures Inverse(store.Contents())
      ensures store.Contents() == Atomic(env, old(store.Contents()), DoMark(m, now))
      ensures r.Ok? ==>
                && m.batchID in store.batches && r.value == store.batches[m.batchID]
                && r.value.status == Applied && r.value.appliedBookID == m.bookID
      ensures r.Ok? <==>
                && m.userID != "" && m.batchID != "" && m.bookID != ""
                && (exists i :: 0 <= i < |m.entryIDs| && Trim(m.entryIDs[i]) != "")
                && m.batchID in old(store.batches) && old(store.batches)[m.batchID].userID == m.userID
                && (old(store.batches)[m.batchID].status == Applied ==>
                      old(store.batches)[m.batchID].appliedBookID == m.bookID)
      ensures r.Ok? ==>
                var before := old(store.batches)[m.batchID];
                && r.value.id == before.id && r.value.userID == before.userID && r.value.rows == before.rows
                && r.value.source == before.source && r.value.sourceHash == before.sourceHash
                && (before.status == Applied ==> r.value == before)
                && (before.status == Preview ==>
                      && r.value.appliedEntryIDs == Normalized(m.entryIDs) && r.value.appliedAt == now
                      && r.value.appliedSkippedRows == m.skippedRows)
    {
      if m.userID == "" || m.batchID == "" || m.bookID == "" {
        return Err(InvalidInput);
      }
      var entryIDs := NormalizeAppliedEntryIDs(m.entryIDs);
      NormalizedIsEmptyIff(m.entryIDs);
      if |entryIDs| == 0 {
        return Err(InvalidInput);
      }
      var batch :- store.Batch(m.userID, m.batchID);
      if batch.status == Applied {
        if batch.appliedBookID != m.bookID {
          return Err(InvalidInput);
        }
        return Ok(batch);
      }
      var stamped := batch.(status := Applied, appliedBookID := m.bookID, appliedEntryIDs := entryIDs,
                            appliedSkippedRows := m.skippedRows, appliedAt := now);
      store.SaveBatch(stamped);
      return Ok(stamped);
    }
  }

  /** Uninterrupted calls never touch an applied batch again. */
  lemma {:induction false} AppliedBatchesAreFrozen(env: Env, st: State, calls: seq<Call>, id: string)
    requires Inverse(st) && id in st.batches && st.batches[id].status == Applied
    requires FreshIds(env, st, calls)
    ensures var st' := AtomicRun(env, st, calls);
            Inverse(st') && id in st'.batches && st'.batches[id] == st.batches[id]
    decreases |calls|
  {
    if calls != [] {
      AppliedBatchesAreFrozen(env, Atomic(env, st, calls[0]), calls[1..], id);
    }
  }

  function AtomicRun(env: Env, st: State, calls: seq<Call>): State
    decreases |calls|
  {
    if calls == [] then st else AtomicRun(env, Atomic(env, st, calls[0]), calls[1..])
  }

  /** No preview draws the id of a stored batch. */
  ghost predicate FreshIds(env: Env, st: State, calls: seq<Call>)
    decreases |calls|
  {
    calls != [] ==>
      && (calls[0].DoPreview? ==> calls[0].id !in st.batches)
      && FreshIds(env, Atomic(env, st, calls[0]), calls[1..])
  }

  // ---------------------------------------------------------------------------------------------
  // Interleaved calls

  /** Where a running call stands between two store operations. */
  datatype Process =
    | Looking(upload: Upload)                 // preview, before BatchByHash
    | Saving(upload: Upload, batch: Batch)    // preview, before SaveBatchIfAbsent
    | Previewed(upload: Upload, id: string)   // preview, returned this batch
    | Loading(mark: Mark)                     // mark, before Batch
    | Stamping(batch: Batch)                  // mark, before SaveBatch
    | Finished

  /** `used` holds every UUID drawn so far. */
  datatype System = System(store: State, procs: seq<Process>, used: set<string>)

  datatype Choice =
    | Spawn(proc: Process)
    /** Process `k` takes its next step; `id` is the UUID a preview may draw, `now` the clock. */
    | Advance(k: nat, id: string, now: int)

  function Put(s: System, k: nat, p: Process): System
    requires k < |s.procs|
  {
    s.(procs := s.procs[k := p])
  }

  /** One step. A choice that is not possible changes nothing. */
  function Next(env: Env, s: System, c: Choice): System {
    match c
    case Spawn(p) =>
      if p.Looking? || p.Loading? then s.(procs := s.procs + [p]) else s
    case Advance(k, id, now) =>
      if k >= |s.procs| then s
      else
        match s.procs[k]
        case Looking(u) =>
          if u.userID == "" || u.data == "" then Put(s, k, Finished)
          else if UploadKey(env, u) in s.store.byHash then Put(s, k, Previewed(u, s.store.byHash[UploadKey(env, u)]))
          else if env.parse(u.data).None? then Put(s, k, Finished)
          else if id in s.used then s
          else Put(s, k, Saving(u, NewBatch(env, u, id, env.parse(u.data).value))).(used := s.used + {id})
        case Saving(u, b) =>
          var store := SavedIfAbsent(s.store, b);
          Put(s, k, Previewed(u, store.byHash[KeyOf(b)])).(store := store)
        case Loading(m) =>
          if Marks(s.store, m) then Put(s, k, Stamping(Stamped(s.store.batches[m.batchID], m, now)))
          else Put(s, k, Finished)
        case Stamping(b) => Put(s, k, Finished).(store := Saved(s.store, b))
        case _ => s
  }

  function Reach(env: Env, run: seq<Choice>): System {
    if run == [] then System(State(map[], map[]), [], {})
    else Next(env, Reach(env, run[..|run| - 1]), run[|run| - 1])
  }

  /** A batch waiting to be saved has an id of its own; one waiting to be stamped is stored under its key. */
  ghost predicate ProcessOk(env: Env, s: System, p: Process) {
    match p
    case Saving(u, b) => b.id in s.used && b.id !in s.store.batches && KeyOf(b) == UploadKey(env, u)
    case Previewed(u, id) => UploadKey(env, u) in s.store.byHash && s.store.byHash[UploadKey(env, u)] == id
    case Stamping(b) => b.id in s.store.batches && KeyOf(b) == KeyOf(s.store.batches[b.id])
    case _ => true
  }

  ghost predicate Invariant(env: Env, s: System) {
    && Inverse(s.store) && s.store.batches.Keys <= s.used
    && (forall i :: 0 <= i < |s.procs| ==> ProcessOk(env, s, s.procs[i]))
    && (forall i, j :: 0 <= i < j < |s.procs| && s.procs[i].Saving? && s.procs[j].Saving? ==>
          s.procs[i].batch.id != s.procs[j].batch.id)
  }

  /** The store moved on without losing a batch, a key or an index entry. */
  ghost predicate Extends(st: State, st': State) {
    && (forall id :: id in st.batches ==> id in st'.batches && KeyOf(st'.batches[id]) == KeyOf(st.batches[id]))
    && (forall key :: key in st.byHash ==> key in st'.byHash && st'.byHash[key] == st.byHash[key])
  }

  /** Replacing one process and extending the store keeps what the other processes rely on. */
  lemma OthersKeep(env: Env, s: System, s': System, k: nat)
    requires Invariant(env, s) && k < |s.procs| == |s'.procs| && s'.procs == s.procs[k := s'.procs[k]]
    requires Extends(s.store, s'.store) && Inverse(s'.store) && s.used <= s'.used && s'.store.batches.Keys <= s'.used
    requires ProcessOk(env, s', s'.procs[k])
    requires forall i :: 0 <= i < |s.procs| && i != k && s.procs[i].Saving? ==>
               && s.procs[i].batch.id !in s'.store.batches
               && (s'.procs[k].Saving? ==> s.procs[i].batch.id != s'.procs[k].batch.id)
    ensures Invariant(env, s')
  {
    forall i | 0 <= i < |s'.procs| ensures ProcessOk(env, s', s'.procs[i]) {
      assert ProcessOk(env, s, s.procs[i]);
    }
  }

  lemma NextKeepsInvariant(env: Env, s: System, c: Choice)
    requires Invariant(env, s)
    ensures Invariant(env, Next(env, s, c))
  {
    match c
    case Spawn(p) =>
      var s' := Next(env, s, c);
      forall i | 0 <= i < |s'.procs| ensures ProcessOk(env, s', s'.procs[i]) {
        if i < |s.procs| { assert ProcessOk(env, s, s.procs[i]); }
      }
    case Advance(k, id, now) =>
      if k < |s.procs| {
        assert ProcessOk(env, s, s.procs[k]);
        match s.procs[k]
        case Looking(_) => LookingKeeps(env, s, k, id, now);
        case Saving(_, _) => SavingKeeps(env, s, k, id, now);
        case Loading(_) => LoadingKeeps(env, s, k, id, now);
        case Stamping(_) => StampingKeeps(env, s, k, id, now);
        case _ =>
      }
  }

  lemma ReplacingKeeps(env: Env, s: System, k: nat, p: Process)
    requires Invariant(env, s) && k < |s.procs| && !p.Saving? && ProcessOk(env, s, p)
    ensures Invariant(env, Put(s, k, p))
  {
    forall i | 0 <= i < |s.procs| && s.procs[i].Saving? ensures s.procs[i].batch.id !in s.store.batches {
      assert ProcessOk(env, s, s.procs[i]);
    }
    OthersKeep(env, s, Put(s, k, p), k);
  }

  lemma DrawingKeeps(env: Env, s: System, k: nat, u: Upload, b: Batch)
    requires Invariant(env, s) && k < |s.procs| && b.id !in s.used && KeyOf(b) == UploadKey(env, u)
    ensures Invariant(env, Put(s, k, Saving(u, b)).(used := s.used + {b.id}))
  {
    forall i | 0 <= i < |s.procs| && s.procs[i].Saving?
      ensures s.procs[i].batch.id in s.used && s.procs[i].batch.id !in s.store.batches
    {
      assert ProcessOk(env, s, s.procs[i]);
    }
    OthersKeep(env, s, Put(s, k, Saving(u, b)).(used := s.used + {b.id}), k);
  }

  lemma LookingKeeps(env: Env, s: System, k: nat, id: string, now: int)
    requires Invariant(env, s) && k < |s.procs| && s.procs[k].Looking?
    ensures Invariant(env, Next(env, s, Advance(k, id, now)))
  {
    var u := s.procs[k].upload;
    ReplacingKeeps(env, s, k, Finished);
    if u.userID != "" && u.data != "" {
      if UploadKey(env, u) in s.store.byHash {
        ReplacingKeeps(env, s, k, Previewed(u, s.store.byHash[UploadKey(env, u)]));
      } else if env.parse(u.data).Some? && id !in s.used {
        DrawingKeeps(env, s, k, u, NewBatch(env, u, id, env.parse(u.data).value));
      }
    }
  }

  lemma SavingKeeps(env: Env, s: System, k: nat, id: string, now: int)
    requires Invariant(env, s) && k < |s.procs| && s.procs[k].Saving?
    ensures Invariant(env, Next(env, s, Advance(k, id, now)))
  {
    assert ProcessOk(env, s, s.procs[k]);
    SaveKeepsInverse(s.store, s.procs[k].batch);
    forall i | 0 <= i < |s.procs| && i != k && s.procs[i].Saving?
      ensures s.procs[i].batch.id !in SavedIfAbsent(s.store, s.procs[k].batch).batches
    {
      assert ProcessOk(env, s, s.procs[i]);
    }
    OthersKeep(env, s, Next(env, s, Advance(k, id, now)), k);
  }

  lemma LoadingKeeps(env: Env, s: System, k: nat, id: string, now: int)
    requires Invariant(env, s) && k < |s.procs| && s.procs[k].Loading?
    ensures Invariant(env, Next(env, s, Advance(k, id, now)))
  {
    forall i | 0 <= i < |s.procs| && s.procs[i].Saving? ensures s.procs[i].batch.id !in s.store.batches {
      assert ProcessOk(env, s, s.procs[i]);
    }
    OthersKeep(env, s, Next(env, s, Advance(k, id, now)), k);
  }

  lemma StampingKeeps(env: Env, s: System, k: nat, id: string, now: int)
    requires Invariant(env, s) && k < |s.procs| && s.procs[k].Stamping?
    ensures Invariant(env, Next(env, s, Advance(k, id, now)))
  {
    assert ProcessOk(env, s, s.procs[k]);
    StampKeepsInverse(s.store, s.procs[k].batch);
    forall i | 0 <= i < |s.procs| && s.procs[i].Saving? ensures s.procs[i].batch.id !in s.store.batches {
      assert ProcessOk(env, s, s.procs[i]);
    }
    OthersKeep(env, s, Next(env, s, Advance(k, id, now)), k);
  }

  lemma StampKeepsInverse(st: State, b: Batch)
    requires Inverse(st) && b.id in st.batches && KeyOf(b) == KeyOf(st.batches[b.id])
    ensures Inverse(Saved(st, b)) && Extends(st, Saved(st, b)) && Saved(st, b).batches.Keys == st.batches.Keys
  {}

  lemma SaveKeepsInverse(st: State, b: Batch)
    requires Inverse(st) && b.id !in st.batches
    ensures var st' := SavedIfAbsent(st, b);
            && Inverse(st') && Extends(st, st') && KeyOf(b) in st'.byHash
            && st'.batches.Keys <= st.batches.Keys + {b.id}
  {}

  lemma {:induction false} ReachKeepsInvariant(env: Env, run: seq<Choice>)
    ensures Invariant(env, Reach(env, run))
  {
    if run != [] {
      ReachKeepsInvariant(env, run[..|run| - 1]);
      NextKeepsInvariant(env, Reach(env, run[..|run| - 1]), run[|run| - 1]);
    }
  }

  /**
   Idempotent previews: however calls interleave, all previews of the same user and bytes that have
   returned have returned the same batch, and it is the one the hash index names.
   */
  lemma PreviewsAgree(env: Env, run: seq<Choice>, i: nat, j: nat)
    requires i < |Reach(env, run).procs| && j < |Reach(env, run).procs|
    requires Reach(env, run).procs[i].Previewed? && Reach(env, run).procs[j].Previewed?
    requires Reach(env, run).procs[i].upload == Reach(env, run).procs[j].upload
    ensures var s := Reach(env, run);
            && Inverse(s.store) && s.procs[i].id == s.procs[j].id && s.procs[i].id in s.store.batches
            && KeyOf(s.store.batches[s.procs[i].id]) == UploadKey(env, s.procs[i].upload)
  {
    ReachKeepsInvariant(env, run);
    var s := Reach(env, run);
    assert ProcessOk(env, s, s.procs[i]) && ProcessOk(env, s, s.procs[j]);
  }

  // ---------------------------------------------------------------------------------------------
  // When an applied batch is final

  /** No call is about to save this batch with other contents than the stored ones. */
  ghost predicate Settled(s: System, id: string)
    requires id in s.store.batches
  {
    forall i :: 0 <= i < |s.procs| && s.procs[i].Stamping? && s.procs[i].batch.id == id ==>
      s.procs[i].batch == s.store.batches[id]
  }

  /** The system after some more steps. */
  function After(env: Env, s: System, rest: seq<Choice>): System {
    if rest == [] then s else Next(env, After(env, s, rest[..|rest| - 1]), rest[|rest| - 1])
  }

  lemma {:induction false} ReachContinues(env: Env, run: seq<Choice>, rest: seq<Choice>)
    ensures Reach(env, run + rest) == After(env, Reach(env, run), rest)
  {
    if rest == [] {
      assert run + rest == run;
    } else {
      assert (run + rest)[..|run + rest| - 1] == run + rest[..|rest| - 1];
      ReachContinues(env, run, rest[..|rest| - 1]);
    }
  }

  /** The batch is stored, applied, and no call can change it. */
  ghost predicate Final(s: System, id: string) {
    id in s.store.batches && s.store.batches[id].status == Applied && Settled(s, id)
  }

  lemma NextKeepsFinal(env: Env, s: System, c: Choice, id: string)
    requires Invariant(env, s) && Final(s, id)
    ensures Final(Next(env, s, c), id) && Next(env, s, c).store.batches[id] == s.store.batches[id]
  {
    match c
    case Spawn(_) =>
    case Advance(k, id', now) =>
      if k < |s.procs| {
        assert ProcessOk(env, s, s.procs[k]);
        PutKeepsSettled(env, s, k, id', now, id);
      }
  }

  lemma PutKeepsSettled(env: Env, s: System, k: nat, drawn: string, now: int, id: string)
    requires k < |s.procs| && Inverse(s.store) && ProcessOk(env, s, s.procs[k]) && Final(s, id)
    ensures var s' := Next(env, s, Advance(k, drawn, now)); Final(s', id) && s'.store.batches[id] == s.store.batches[id]
  {
    var s' := Next(env, s, Advance(k, drawn, now));
    assert id in s'.store.batches && s'.store.batches[id] == s.store.batches[id];
    assert s.procs[k].Loading? && s'.procs[k].Stamping? ==> s'.procs[k].batch.id != id;
  }

  lemma {:induction false} FinalStays(env: Env, s: System, rest: seq<Choice>, id: string)
    requires Invariant(env, s) && Final(s, id)
    ensures var s' := After(env, s, rest);
            Invariant(env, s') && Final(s', id) && s'.store.batches[id] == s.store.batches[id]
  {
    if rest != [] {
      FinalStays(env, s, rest[..|rest| - 1], id);
      NextKeepsInvariant(env, After(env, s, rest[..|rest| - 1]), rest[|rest| - 1]);
      NextKeepsFinal(env, After(env, s, rest[..|rest| - 1]), rest[|rest| - 1], id);
    }
  }

  /**
   Exactly when an applied batch is final. In every reachable state its metadata is the same after every
   continuation if and only if no mark that loaded it earlier is still about to save other metadata.
   */
  lemma AppliedIsFinalIff(env: Env, run: seq<Choice>, id: string)
    requires id in Reach(env, run).store.batches && Reach(env, run).store.batches[id].status == Applied
    ensures Settled(Reach(env, run), id) <==>
              forall rest :: var st := Reach(env, run + rest).store;
                             id in st.batches && st.batches[id] == Reach(env, run).store.batches[id]
  {
    var s := Reach(env, run);
    ReachKeepsInvariant(env, run);
    if Settled(s, id) {
      forall rest
        ensures var st := Reach(env, run + rest).store; id in st.batches && st.batches[id] == s.store.batches[id]
      {
        ReachContinues(env, run, rest);
        FinalStays(env, s, rest, id);
      }
    } else {
      var i :| 0 <= i < |s.procs| && s.procs[i].Stamping? && s.procs[i].batch.id == id
          && s.procs[i].batch != s.store.batches[id];
      var rest := [Advance(i, "", 0)];
      ReachContinues(env, run, rest);
      assert After(env, s, rest[..0]) == s;
      assert Reach(env, run + rest).store.batches[id] == s.procs[i].batch;
    }
  }

  /** One preview and two marks of its batch; both marks load it, then both save. */
  function Overwriting(u: Upload, id: string, first: Mark, second: Mark, t: int): seq<Choice> {
    [Spawn(Looking(u)), Advance(0, id, 0), Advance(0, "", 0),
     Spawn(Loading(first)), Spawn(Loading(second)), Advance(1, "", t), Advance(2, "", t),
     Advance(1, "", 0), Advance(2, "", 0)]
  }

  lemma ReachNext(env: Env, run: seq<Choice>, n: nat)
    requires n < |run|
    ensures Reach(env, run[..n + 1]) == Next(env, Reach(env, run[..n]), run[n])
  {
    assert run[..n + 1][..n] == run[..n];
  }

  /** After five steps: the previewed batch is stored, and both marks are about to load it. */
  lemma BothAboutToLoad(env: Env, u: Upload, id: string, first: Mark, second: Mark, t: int)
    requires u.userID != "" && u.data != "" && env.parse(u.data).Some?
    ensures var b := NewBatch(env, u, id, env.parse(u.data).value);
            Reach(env, Overwriting(u, id, first, second, t)[..5]) ==
            System(State(map[id := b], map[KeyOf(b) := id]), [Previewed(u, id), Loading(first), Loading(second)], {id})
  {
    var run := Overwriting(u, id, first, second, t);
    var b := NewBatch(env, u, id, env.parse(u.data).value);
    ReachNext(env, run, 0);
    assert Reach(env, run[..1]) == System(State(map[], map[]), [Looking(u)], {});
    ReachNext(env, run, 1);
    assert Reach(env, run[..2]) == System(State(map[], map[]), [Saving(u, b)], {id});
    ReachNext(env, run, 2);
    assert Reach(env, run[..3]) == System(State(map[id := b], map[KeyOf(b) := id]), [Previewed(u, id)], {id});
    ReachNext(env, run, 3);
    ReachNext(env, run, 4);
  }

  /** After seven steps both have loaded the batch. */
  lemma BothAboutToSave(env: Env, u: Upload, id: string, first: Mark, second: Mark, t: int)
    requires u.userID != "" && u.data != "" && env.parse(u.data).Some?
    requires WellFormed(first) && first.userID == u.userID && first.batchID == id
    requires WellFormed(second) && second.userID == u.userID && second.batchID == id
    ensures var b := NewBatch(env, u, id, env.parse(u.data).value);
            Reach(env, Overwriting(u, id, first, second, t)[..7]) ==
            System(State(map[id := b], map[KeyOf(b) := id]),
                   [Previewed(u, id), Stamping(Stamped(b, first, t)), Stamping(Stamped(b, second, t))], {id})
  {
    var run, b := Overwriting(u, id, first, second, t), NewBatch(env, u, id, env.parse(u.data).value);
    BothAboutToLoad(env, u, id, first, second, t);
    ReachNext(env, run, 5);
    assert Reach(env, run[..6]).procs == [Previewed(u, id), Stamping(Stamped(b, first, t)), Loading(second)];
    ReachNext(env, run, 6);
  }

  /**
   A run that overwrites: for every upload and any two valid marks of its batch, the schedule above applies
   the first mark and then replaces all of its metadata by the second one's.
   */
  lemma InterleavedMarksOverwrite(env: Env, u: Upload, id: string, first: Mark, second: Mark, t: int)
    requires u.userID != "" && u.data != "" && env.parse(u.data).Some?
    requires WellFormed(first) && first.userID == u.userID && first.batchID == id
    requires WellFormed(second) && second.userID == u.userID && second.batchID == id
    ensures var run, b := Overwriting(u, id, first, second, t), NewBatch(env, u, id, env.parse(u.data).value);
            && Reach(env, run[..8]).store.batches == map[id := Stamped(b, first, t)]
            && Reach(env, run).store.batches == map[id := Stamped(b, second, t)]
  {
    var run, b := Overwriting(u, id, first, second, t), NewBatch(env, u, id, env.parse(u.data).value);
    BothAboutToSave(env, u, id, first, second, t);
    ReachNext(env, run, 7);
    assert Reach(env, run[..8]).procs == [Previewed(u, id), Finished, Stamping(Stamped(b, second, t))];
    ReachNext(env, run, 8);
    assert run[..9] == run;
  }
}
