/**
 Applying an import: the route loads the batch, books its rows in the ledger and marks the batch
 applied. Nothing holds these steps together, so two applies of one batch can book it twice.

 Ids are taken as already trimmed. A replay returns the stored metadata; reading the entries back from
 the ledger is not modelled.
 */
module ImportApplies {
  import opened Wrappers
  import opened Text
  import opened LedgerStore
  import Batches = ImportBatches
  import References = ImportReferences
  import Categories
  import Rates

  datatype Request = Request(actor: string, bookID: string, batchID: string, sourceHash: string)

  datatype ApplyError =
    | Import(error: Batches.ImportError)
    | WrongSource
    | HashMismatch
    | RowErrors
    | OtherBook
    | Refused(ledgerError: LedgerError)

  /** What the route answers: the entries of this commit, or of the earlier one it replays. */
  datatype Reply = Reply(entryIDs: seq<string>, replayed: bool)

  /** The batch a request names, if it may be applied or replayed. */
  function Checked(st: Batches.State, q: Request): Result<Batches.Batch, ApplyError> {
    if q.actor == "" || q.batchID == "" then Err(Import(Batches.InvalidInput))
    else if q.batchID !in st.batches || st.batches[q.batchID].userID != q.actor then Err(Import(Batches.NotFound))
    else
      var batch := st.batches[q.batchID];
      if batch.source != Batches.WACAI then Err(WrongSource)
      else if Trim(q.sourceHash) == "" || Trim(q.sourceHash) != batch.sourceHash then Err(HashMismatch)
      else if Batches.HasRowErrors(batch) then Err(RowErrors)
      else Ok(batch)
  }

  /** How booking the rows ends: completely, or broken off by a row the ledger refuses. */
  datatype Outcome =
    | Completed(entryIDs: seq<string>, skippedRows: seq<(int, string)>)
    | BrokenOff(entryIDs: seq<string>)

  function MarkOf(q: Request, batch: Batches.Batch, o: Outcome): Batches.Mark
    requires o.Completed?
  {
    Batches.Mark(q.actor, batch.id, q.bookID, o.entryIDs, o.skippedRows)
  }

  /** Nothing is booked without a book, ids are well-formed and distinct, and a complete commit has some. */
  predicate Possible(q: Request, o: Outcome) {
    && (o.entryIDs != [] ==> q.bookID != "" && Batches.Normalized(o.entryIDs) == o.entryIDs)
    && (o.Completed? ==> o.entryIDs != [])
  }

  /** Entries that were booked from a batch at one go. */
  datatype Booking = Booking(batchID: string, entryIDs: seq<string>, complete: bool)

  /** What a commit leaves in the ledger. */
  function Logged(log: seq<Booking>, batchID: string, o: Outcome): seq<Booking> {
    if o.entryIDs == [] then log else log + [Booking(batchID, o.entryIDs, o.Completed?)]
  }

  /** The import store and the bookings after an apply that nothing interrupts. */
  function Applied(st: Batches.State, log: seq<Booking>, q: Request, o: Outcome, now: int)
    : (Batches.State, seq<Booking>)
  {
    var checked := Checked(st, q);
    if checked.Err? || checked.value.status.Applied? || !Possible(q, o) then (st, log)
    else
      var batch := checked.value;
      (if o.Completed? then Batches.Saved(st, Batches.Stamped(batch, MarkOf(q, batch, o), now)) else st,
       Logged(log, batch.id, o))
  }

  // ---------------------------------------------------------------------------------------------
  // The route

  /** A batch with row errors never gets as far as booking, so they are no reason here. */
  function ReasonText(reason: References.SkipReason): string {
    match reason
    case AccountNotMapped => "account is not mapped"
    case TypeNotSupported => "type is not supported"
    case DestinationNotMapped => "destination account is not mapped"
    case CategoryNotMapped => "category is not mapped"
    case RowErrors => ""
  }

  function EntryIDs(entries: seq<Entry>): (ids: seq<string>)
    ensures |ids| == |entries| && forall i :: 0 <= i < |ids| ==> ids[i] == entries[i].id
  {
    seq(|entries|, i requires 0 <= i < |entries| => entries[i].id)
  }

  function SkippedForService(rows: seq<(int, References.SkipReason)>): seq<(int, string)> {
    seq(|rows|, i requires 0 <= i < |rows| => (rows[i].0, ReasonText(rows[i].1)))
  }

  /** Ids without spaces around them that are all different are stored as they are. */
  lemma {:induction false} DistinctIdsAreNormalized(ids: seq<string>)
    requires forall i :: 0 <= i < |ids| ==> ids[i] != "" && Tight(ids[i])
    requires forall i, j :: 0 <= i < j < |ids| ==> ids[i] != ids[j]
    ensures Batches.Normalized(ids) == ids
  {
    if ids != [] {
      var init, last := ids[..|ids| - 1], ids[|ids| - 1];
      DistinctIdsAreNormalized(init);
      TightIsTrimmed(last);
      assert ids == init + [last];
    }
  }

  /**
   The ledger gains an entry for every mappable row, in row order, of the kind, amount, date and creator the
   row gives, and the book's sums grow by the rows' amounts.
   */
  ghost predicate Imports(before: seq<Entry>, after: seq<Entry>, q: Request, creators: map<int, string>,
                          rows: seq<Batches.Row>)
  {
    && before <= after && References.GrowBy(before, after, q.bookID, References.Picked(rows))
    && References.AllCredited(References.Picked(rows), creators, q.actor, after[|before|..])
    && exists held, tree :: References.AllBookedFrom(References.Picked(rows), held, tree, after[|before|..])
  }

  /** What the apply returns and what it leaves in the import store, by what it booked. */
  ghost predicate Answers(st: Batches.State, q: Request, r: Result<Reply, ApplyError>, booked: seq<string>) {
    var checked := Checked(st, q);
    match checked
    case Err(e) => r == Err(e) && booked == []
    case Ok(batch) =>
      if batch.status.Applied? then
        && booked == []
        && r == if batch.appliedBookID == q.bookID then Ok(Reply(batch.appliedEntryIDs, true)) else Err(OtherBook)
      else
        match r
        case Ok(reply) => reply == Reply(booked, false) && booked != [] && |booked| == References.Mappable(batch.rows)
        case Err(e) => e.Refused?
  }

  /** The ledger's categories are forests, and the lists are what the request's actor and book have stored. */
  ghost predicate Ready(store: MemoryStore, accounts: seq<Account>, categories: seq<Category>, q: Request)
    reads store
  {
    && Categories.Forested(store.categories)
    && References.AccountIds(accounts) && References.CategoryIds(categories)
    && References.LoadedAccounts(accounts, store.accounts, q.actor)
    && References.LoadedCategories(categories, store.categories, q.bookID)
  }

  /**
   The apply route. The ledger gains exactly the reported entries. The import store changes as by
   one uninterrupted apply, with the batch applied to exactly these entries if it succeeds.
   `accounts` and `categories` are the lists the commit starts from.
   */
  method Apply(imports: Batches.Service, store: MemoryStore, ids: References.IdSource, parse: Rates.Parser,
               creators: map<int, string>, accounts: seq<Account>, categories: seq<Category>, q: Request, now: int)
    returns (r: Result<Reply, ApplyError>, ghost outcome: Outcome)
    requires Batches.Inverse(imports.store.Contents())
    requires ids.Valid() && Ready(store, accounts, categories, q)
    modifies imports.store, store, ids
    ensures Batches.Inverse(imports.store.Contents())
    ensures old(store.entries) <= store.entries
    ensures outcome.entryIDs == EntryIDs(store.entries[|old(store.entries)|..]) && Possible(q, outcome)
    ensures imports.store.Contents() == Applied(old(imports.store.Contents()), [], q, outcome, now).0
    ensures Answers(old(imports.store.Contents()), q, r, outcome.entryIDs)
    ensures r.Ok? && !r.value.replayed ==>
              Imports(old(store.entries), store.entries, q, creators, old(imports.store.batches)[q.batchID].rows)
    ensures r.Ok? ==>
              && q.batchID in old(imports.store.batches) && q.batchID in imports.store.batches
              && imports.store.batches[q.batchID].status.Applied?
              && imports.store.batches[q.batchID].appliedBookID == q.bookID
              && imports.store.batches[q.batchID].appliedEntryIDs == r.value.entryIDs
  {
    outcome := BrokenOff([]);
    ghost var st := imports.store.Contents();
    if q.actor == "" || q.batchID == "" {
      return Err(Import(Batches.InvalidInput)), outcome;
    }
    var loaded := imports.store.Batch(q.actor, q.batchID);
    if loaded.Err? {
      return Err(Import(loaded.error)), outcome;
    }
    var batch := loaded.value;
    if batch.source != Batches.WACAI {
      return Err(WrongSource), outcome;
    }
    if Trim(q.sourceHash) == "" || Trim(q.sourceHash) != batch.sourceHash {
      return Err(HashMismatch), outcome;
    }
    if Batches.HasRowErrors(batch) {
      return Err(RowErrors), outcome;
    }
    if batch.status.Applied? {
      if batch.appliedBookID != q.bookID {
        return Err(OtherBook), outcome;
      }
      return Ok(Reply(batch.appliedEntryIDs, true)), outcome;
    }
    r, outcome := CommitAndMark(imports, store, ids, parse, creators, accounts, categories, q, batch, now);
  }

  /** The rest of the route for a batch that is still a preview. */
  method CommitAndMark(imports: Batches.Service, store: MemoryStore, ids: References.IdSource, parse: Rates.Parser,
                       creators: map<int, string>, accounts: seq<Account>, categories: seq<Category>, q: Request,
                       batch: Batches.Batch, now: int)
    returns (r: Result<Reply, ApplyError>, ghost outcome: Outcome)
    requires Batches.Inverse(imports.store.Contents())
    requires ids.Valid() && Ready(store, accounts, categories, q)
    requires Checked(imports.store.Contents(), q) == Ok(batch) && batch.status.Preview?
    modifies imports.store, store, ids
    ensures Batches.Inverse(imports.store.Contents())
    ensures old(store.entries) <= store.entries
    ensures outcome.entryIDs == EntryIDs(store.entries[|old(store.entries)|..])
    ensures Possible(q, outcome)
    ensures r.Err? ==> r.error.Refused? && outcome.BrokenOff? && imports.store.Contents() == old(imports.store.Contents())
    ensures r.Ok? ==> Imports(old(store.entries), store.entries, q, creators, batch.rows)
    ensures r.Ok? ==>
              && outcome.Completed?
              && imports.store.Contents() == Batches.Saved(old(imports.store.Contents()),
                                                           Batches.Stamped(batch, MarkOf(q, batch, outcome), now))
              && r.value == Reply(outcome.entryIDs, false) && |outcome.entryIDs| == References.Mappable(batch.rows)
  {
    var committed := Commit(store, ids, parse, creators, accounts, categories, q, batch.rows);
    ghost var booked := EntryIDs(store.entries[|old(store.entries)|..]);
    if committed.Err? {
      return Err(Refused(committed.error)), BrokenOff(booked);
    }
    var (entryIDs, skipped) := committed.value;
    outcome := Completed(entryIDs, skipped);
    MarkingSaves(imports.env, imports.store.Contents(), q, batch, outcome, now);
    var marked := imports.MarkApplied(Batches.Mark(q.actor, batch.id, q.bookID, entryIDs, skipped), now);
    return Ok(Reply(entryIDs, false)), outcome;
  }

  lemma MarkingSaves(env: Batches.Env, st: Batches.State, q: Request, batch: Batches.Batch, o: Outcome, now: int)
    requires Batches.Inverse(st) && Checked(st, q) == Ok(batch) && batch.status.Preview?
    requires o.Completed? && Possible(q, o)
    ensures var m := MarkOf(q, batch, o);
            && Batches.Atomic(env, st, Batches.DoMark(m, now)) == Batches.Saved(st, Batches.Stamped(batch, m, now))
            && Batches.Stamped(batch, m, now).appliedEntryIDs == o.entryIDs
  {}

  /** Books the rows. The ids of the new entries are stored as they are when the batch is marked. */
  method Commit(store: MemoryStore, ids: References.IdSource, parse: Rates.Parser, creators: map<int, string>,
                accounts: seq<Account>, categories: seq<Category>, q: Request, rows: seq<Batches.Row>)
    returns (r: Result<(seq<string>, seq<(int, string)>), LedgerError>)
    requires ids.Valid() && Ready(store, accounts, categories, q)
    modifies store, ids
    ensures old(store.entries) <= store.entries
    ensures var booked := EntryIDs(store.entries[|old(store.entries)|..]);
            && Batches.Normalized(booked) == booked && (booked != [] ==> q.actor != "" && q.bookID != "")
            && (r.Ok? ==> r.value.0 == booked && booked != [] && |booked| == References.Mappable(rows))
    ensures r.Ok? ==> Imports(old(store.entries), store.entries, q, creators, rows)
  {
    var response := References.CommitWacaiBatch(store, ids, parse, q.actor, q.bookID, creators, accounts, categories, rows);
    DistinctIdsAreNormalized(EntryIDs(store.entries[|old(store.entries)|..]));
    if response.Err? {
      return Err(response.error);
    }
    assert store.entries[|old(store.entries)|..] == response.value.entries;
    return Ok((EntryIDs(response.value.entries), SkippedForService(response.value.skipped)));
  }

  // ---------------------------------------------------------------------------------------------
  // Uninterrupted applies

  datatype Call =
    | Preview(upload: Batches.Upload, id: string)
    | Apply(request: Request, outcome: Outcome, now: int)

  function Do(env: Batches.Env, st: Batches.State, log: seq<Booking>, c: Call): (Batches.State, seq<Booking>) {
    match c
    case Preview(u, id) =>
      (if id in st.batches then st else Batches.Atomic(env, st, Batches.DoPreview(u, id)), log)
    case Apply(q, o, now) => Applied(st, log, q, o, now)
  }

  function Calls(env: Batches.Env, calls: seq<Call>): (Batches.State, seq<Booking>) {
    if calls == [] then (Batches.State(map[], map[]), [])
    else
      var (st, log) := Calls(env, calls[..|calls| - 1]);
      Do(env, st, log, calls[|calls| - 1])
  }

  /** How often entries were booked from the batch. */
  function Bookings(log: seq<Booking>, id: string): nat {
    if log == [] then 0
    else Bookings(log[..|log| - 1], id) + if log[|log| - 1].batchID == id then 1 else 0
  }

  /** How often a commit of the batch broke off after it had booked something. */
  function Breaks(log: seq<Booking>, id: string): nat {
    if log == [] then 0
    else Breaks(log[..|log| - 1], id) + if log[|log| - 1].batchID == id && !log[|log| - 1].complete then 1 else 0
  }

  ghost predicate IsApplied(st: Batches.State, id: string) {
    id in st.batches && st.batches[id].status.Applied?
  }

  ghost predicate Keyed(st: Batches.State) {
    forall id :: id in st.batches ==> st.batches[id].id == id
  }

  lemma LoggedCounts(log: seq<Booking>, batchID: string, o: Outcome, id: string)
    ensures var log' := Logged(log, batchID, o);
            && Bookings(log', id) == Bookings(log, id) + (if batchID == id && o.entryIDs != [] then 1 else 0)
            && Breaks(log', id) ==
                 Breaks(log, id) + if batchID == id && o.entryIDs != [] && o.BrokenOff? then 1 else 0
  {
    if o.entryIDs != [] {
      assert (log + [Booking(batchID, o.entryIDs, o.Completed?)])[..|log|] == log;
    }
  }

  lemma DoKeepsCount(env: Batches.Env, st: Batches.State, log: seq<Booking>, c: Call, id: string)
    requires Keyed(st) && Bookings(log, id) == Breaks(log, id) + if IsApplied(st, id) then 1 else 0
    ensures var (st', log') := Do(env, st, log, c);
            Keyed(st') && Bookings(log', id) == Breaks(log', id) + if IsApplied(st', id) then 1 else 0
  {
    if c.Apply? {
      AppliedKeepsCount(st, log, c.request, c.outcome, c.now, id);
    }
  }

  lemma AppliedKeepsCount(st: Batches.State, log: seq<Booking>, q: Request, o: Outcome, now: int, id: string)
    requires Keyed(st) && Bookings(log, id) == Breaks(log, id) + if IsApplied(st, id) then 1 else 0
    ensures var (st', log') := Applied(st, log, q, o, now);
            Keyed(st') && Bookings(log', id) == Breaks(log', id) + if IsApplied(st', id) then 1 else 0
  {
    if Checked(st, q).Ok? {
      LoggedCounts(log, Checked(st, q).value.id, o, id);
    }
  }

  /**
   When applies do not interleave, a batch is booked completely at most once, and it is exactly when it is
   applied: apart from commits that broke off, and left entries behind, nothing is booked twice.
   */
  lemma {:induction false} UninterruptedAppliesBookOnce(env: Batches.Env, calls: seq<Call>, id: string)
    ensures var (st, log) := Calls(env, calls);
            Keyed(st) && Bookings(log, id) == Breaks(log, id) + if IsApplied(st, id) then 1 else 0
  {
    if calls != [] {
      UninterruptedAppliesBookOnce(env, calls[..|calls| - 1], id);
      var (st, log) := Calls(env, calls[..|calls| - 1]);
      DoKeepsCount(env, st, log, calls[|calls| - 1], id);
    }
  }

  // ---------------------------------------------------------------------------------------------
  // Interleaved applies

  /** Where a running apply stands. */
  datatype Process =
    | Loading(request: Request)
    | Committing(request: Request, batch: Batches.Batch)   // the batch was a preview when it was loaded
    | Marking(mark: Batches.Mark)                          // before `MarkApplied` loads the batch again
    | Stamping(stamped: Batches.Batch)                     // before it saves it
    | Finished

  datatype System = System(store: Batches.State, procs: seq<Process>, log: seq<Booking>)

  datatype Choice =
    | Upload(upload: Batches.Upload, id: string)   // a preview that saves its batch
    | Spawn(request: Request)
    /** Process `k` takes its next step; the outcome is used by a commit, the clock by a mark. */
    | Advance(k: nat, outcome: Outcome, now: int)

  function Put(s: System, k: nat, p: Process): System
    requires k < |s.procs|
  {
    s.(procs := s.procs[k := p])
  }

  /** One step. A choice that is not possible changes nothing. */
  function Next(env: Batches.Env, s: System, c: Choice): System {
    match c
    case Upload(u, id) => s.(store := Do(env, s.store, s.log, Preview(u, id)).0)
    case Spawn(q) => s.(procs := s.procs + [Loading(q)])
    case Advance(k, o, now) => if k < |s.procs| then Advanced(s, k, o, now) else s
  }

  function Advanced(s: System, k: nat, o: Outcome, now: int): System
    requires k < |s.procs|
  {
    match s.procs[k]
    case Loading(q) =>
      var checked := Checked(s.store, q);
      if checked.Ok? && checked.value.status.Preview? then Put(s, k, Committing(q, checked.value))
      else Put(s, k, Finished)
    case Committing(q, batch) =>
      if !Possible(q, o) then s
      else Put(s, k, if o.Completed? then Marking(MarkOf(q, batch, o)) else Finished).(log := Logged(s.log, batch.id, o))
    case Marking(m) =>
      if Batches.Marks(s.store, m) then Put(s, k, Stamping(Batches.Stamped(s.store.batches[m.batchID], m, now)))
      else Put(s, k, Finished)
    case Stamping(b) => Put(s, k, Finished).(store := Batches.Saved(s.store, b))
    case Finished => s
  }

  /** The system after some steps. */
  function After(env: Batches.Env, s: System, run: seq<Choice>): System {
    if run == [] then s else Next(env, After(env, s, run[..|run| - 1]), run[|run| - 1])
  }

  function Reach(env: Batches.Env, run: seq<Choice>): System {
    After(env, System(Batches.State(map[], map[]), [], []), run)
  }

  lemma {:induction false} AfterContinues(env: Batches.Env, s: System, run: seq<Choice>, rest: seq<Choice>)
    ensures After(env, s, run + rest) == After(env, After(env, s, run), rest)
  {
    if rest == [] {
      assert run + rest == run;
    } else {
      assert (run + rest)[..|run + rest| - 1] == run + rest[..|rest| - 1];
      AfterContinues(env, s, run, rest[..|rest| - 1]);
    }
  }

  /** The four steps of one apply in a row are an uninterrupted apply. */
  lemma FourStepsAreApplied(env: Batches.Env, s: System, k: nat, o: Outcome, now: int)
    requires Keyed(s.store) && k < |s.procs| && s.procs[k].Loading?
    requires Possible(s.procs[k].request, o)
    ensures var step := Advance(k, o, now);
            var s' := Next(env, Next(env, Next(env, Next(env, s, step), step), step), step);
            (s'.store, s'.log) == Applied(s.store, s.log, s.procs[k].request, o, now)
  {}

  /** Every batch waiting to be saved is applied. */
  ghost predicate Invariant(s: System) {
    && Keyed(s.store)
    && forall i :: 0 <= i < |s.procs| ==>
         match s.procs[i]
         case Committing(_, batch) => batch.id in s.store.batches
         case Stamping(b) => b.status.Applied? && b.id in s.store.batches
         case _ => true
  }

  lemma AdvancedKeepsInvariant(s: System, k: nat, o: Outcome, now: int)
    requires Invariant(s) && k < |s.procs|
    ensures Invariant(Advanced(s, k, o, now))
    ensures s.store.batches.Keys <= Advanced(s, k, o, now).store.batches.Keys
  {}

  lemma NextKeepsInvariant(env: Batches.Env, s: System, c: Choice)
    requires Invariant(s)
    ensures Invariant(Next(env, s, c))
    ensures s.store.batches.Keys <= Next(env, s, c).store.batches.Keys
  {
    match c
    case Advance(k, o, now) => if k < |s.procs| { AdvancedKeepsInvariant(s, k, o, now); }
    case _ =>
  }

  lemma {:induction false} AfterKeepsInvariant(env: Batches.Env, s: System, run: seq<Choice>)
    requires Invariant(s)
    ensures Invariant(After(env, s, run)) && s.store.batches.Keys <= After(env, s, run).store.batches.Keys
  {
    if run != [] {
      AfterKeepsInvariant(env, s, run[..|run| - 1]);
      NextKeepsInvariant(env, After(env, s, run[..|run| - 1]), run[|run| - 1]);
    }
  }

  // ---------------------------------------------------------------------------------------------
  // How often a batch can still be booked

  /** Some request could load the batch for a commit. */
  predicate Applicable(b: Batches.Batch) {
    && b.status.Preview? && b.source == Batches.WACAI && !Batches.HasRowErrors(b)
    && b.id != "" && b.userID != "" && b.sourceHash != "" && Trim(b.sourceHash) == b.sourceHash
  }

  /** The apply has loaded the batch, to book it in some book, and not booked it yet. */
  predicate Commits(p: Process, id: string) { p.Committing? && p.batch.id == id && p.request.bookID != "" }

  /** How many such applies there are. */
  function Pending(procs: seq<Process>, id: string): nat {
    if procs == [] then 0
    else Pending(procs[..|procs| - 1], id) + if Commits(procs[|procs| - 1], id) then 1 else 0
  }

  lemma {:induction false} PutPending(procs: seq<Process>, k: nat, p: Process, id: string)
    requires k < |procs|
    ensures Pending(procs[k := p], id) ==
            Pending(procs, id) - (if Commits(procs[k], id) then 1 else 0) + if Commits(p, id) then 1 else 0
  {
    var n, procs' := |procs| - 1, procs[k := p];
    if k == n {
      assert procs'[..n] == procs[..n];
    } else {
      assert procs'[..n] == procs[..n][k := p];
      PutPending(procs[..n], k, p, id);
    }
  }

  /** Is the batch stored and beyond loading for a commit? */
  ghost predicate Closed(s: System, id: string) {
    id in s.store.batches && !Applicable(s.store.batches[id])
  }

  lemma CheckedIsApplicable(st: Batches.State, q: Request)
    requires Keyed(st) && Checked(st, q).Ok? && Checked(st, q).value.status.Preview?
    ensures Applicable(Checked(st, q).value) && Checked(st, q).value == st.batches[q.batchID]
  {
    TrimIsTight(q.sourceHash);
  }

  /** Once it is closed, a step only turns a pending commit into at most one booking. */
  lemma NextSpends(env: Batches.Env, s: System, c: Choice, id: string)
    requires Invariant(s) && Closed(s, id)
    ensures var s' := Next(env, s, c);
            && Closed(s', id)
            && Bookings(s'.log, id) + Pending(s'.procs, id) <= Bookings(s.log, id) + Pending(s.procs, id)
  {
    match c
    case Upload(_, _) =>
    case Spawn(q) => assert (s.procs + [Loading(q)])[..|s.procs|] == s.procs;
    case Advance(k, o, now) =>
      if k < |s.procs| {
        StaysClosed(s, k, o, now, id);
        AdvancedSpends(s, k, o, now, id);
      }
  }

  lemma StaysClosed(s: System, k: nat, o: Outcome, now: int, id: string)
    requires Invariant(s) && Closed(s, id) && k < |s.procs|
    ensures Closed(Advanced(s, k, o, now), id)
  {}

  lemma AdvancedSpends(s: System, k: nat, o: Outcome, now: int, id: string)
    requires Invariant(s) && Closed(s, id) && k < |s.procs|
    ensures var s' := Advanced(s, k, o, now);
            Bookings(s'.log, id) + Pending(s'.procs, id) <= Bookings(s.log, id) + Pending(s.procs, id)
  {
    match s.procs[k]
    case Loading(_) => LoadingSpends(s, k, o, now, id);
    case Committing(_, _) => CommittingSpends(s, k, o, now, id);
    case Marking(m) =>
      PutPending(s.procs, k, Finished, id);
      if Batches.Marks(s.store, m) {
        PutPending(s.procs, k, Stamping(Batches.Stamped(s.store.batches[m.batchID], m, now)), id);
      }
    case Stamping(_) => PutPending(s.procs, k, Finished, id);
    case Finished =>
  }

  /** A closed batch is not loaded for a commit. */
  lemma LoadingSpends(s: System, k: nat, o: Outcome, now: int, id: string)
    requires Invariant(s) && Closed(s, id) && k < |s.procs| && s.procs[k].Loading?
    ensures Advanced(s, k, o, now).log == s.log && Pending(Advanced(s, k, o, now).procs, id) == Pending(s.procs, id)
  {
    var q := s.procs[k].request;
    var checked := Checked(s.store, q);
    if checked.Ok? && checked.value.status.Preview? {
      CheckedIsApplicable(s.store, q);
      PutPending(s.procs, k, Committing(q, checked.value), id);
    } else {
      PutPending(s.procs, k, Finished, id);
    }
  }

  lemma CommittingSpends(s: System, k: nat, o: Outcome, now: int, id: string)
    requires k < |s.procs| && s.procs[k].Committing?
    ensures var s' := Advanced(s, k, o, now);
            Bookings(s'.log, id) + Pending(s'.procs, id) <= Bookings(s.log, id) + Pending(s.procs, id)
  {
    var q, batch := s.procs[k].request, s.procs[k].batch;
    LoggedCounts(s.log, batch.id, o, id);
    PutPending(s.procs, k, if o.Completed? then Marking(MarkOf(q, batch, o)) else Finished, id);
  }

  lemma {:induction false} AfterSpends(env: Batches.Env, s: System, rest: seq<Choice>, id: string)
    requires Invariant(s) && Closed(s, id)
    ensures var s' := After(env, s, rest);
            && Closed(s', id)
            && Bookings(s'.log, id) + Pending(s'.procs, id) <= Bookings(s.log, id) + Pending(s.procs, id)
  {
    if rest != [] {
      var init := rest[..|rest| - 1];
      AfterSpends(env, s, init, id);
      AfterKeepsInvariant(env, s, init);
      NextSpends(env, After(env, s, init), rest[|rest| - 1], id);
    }
  }

  /** The log only grows. */
  lemma {:induction false} BookingsStay(env: Batches.Env, s: System, rest: seq<Choice>, id: string)
    ensures Bookings(After(env, s, rest).log, id) >= Bookings(s.log, id)
  {
    if rest != [] {
      var before := After(env, s, rest[..|rest| - 1]);
      BookingsStay(env, s, rest[..|rest| - 1], id);
      match rest[|rest| - 1]
      case Advance(k, o, _) =>
        if k < |before.procs| && before.procs[k].Committing? {
          LoggedCounts(before.log, before.procs[k].batch.id, o, id);
        }
      case _ =>
    }
  }

  /** A commit that books one entry and breaks off. */
  const BREAK: Outcome := BrokenOff(["entry"])

  lemma BreakIsPossible(q: Request)
    requires q.bookID != ""
    ensures Possible(q, BREAK)
  {
    DistinctIdsAreNormalized(["entry"]);
  }

  /** Every one of the first `n` pending commits books an entry and breaks off. */
  function Drain(procs: seq<Process>, id: string, n: nat): seq<Choice>
    requires n <= |procs|
  {
    if n == 0 then []
    else Drain(procs, id, n - 1) + if Commits(procs[n - 1], id) then [Advance(n - 1, BREAK, 0)] else []
  }

  lemma BreakBooks(env: Batches.Env, s: System, run: seq<Choice>, k: nat, id: string)
    requires k < |After(env, s, run).procs| && Commits(After(env, s, run).procs[k], id)
    ensures var before, after := After(env, s, run), After(env, s, run + [Advance(k, BREAK, 0)]);
            after.procs == before.procs[k := Finished] && Bookings(after.log, id) == Bookings(before.log, id) + 1
  {
    var before := After(env, s, run);
    assert (run + [Advance(k, BREAK, 0)])[..|run|] == run;
    BreakIsPossible(before.procs[k].request);
    LoggedCounts(before.log, id, BREAK, id);
  }

  lemma {:induction false} DrainBooks(env: Batches.Env, s: System, id: string, n: nat)
    requires n <= |s.procs|
    ensures var s' := After(env, s, Drain(s.procs, id, n));
            && |s'.procs| == |s.procs| && (forall i :: n <= i < |s.procs| ==> s'.procs[i] == s.procs[i])
            && Bookings(s'.log, id) == Bookings(s.log, id) + Pending(s.procs[..n], id)
  {
    if n > 0 {
      var before := Drain(s.procs, id, n - 1);
      DrainBooks(env, s, id, n - 1);
      PendingNext(s.procs, n, id);
      if Commits(s.procs[n - 1], id) {
        BreakBooks(env, s, before, n - 1, id);
        assert Drain(s.procs, id, n) == before + [Advance(n - 1, BREAK, 0)];
      } else {
        assert Drain(s.procs, id, n) == before;
      }
    }
  }

  lemma PendingNext(procs: seq<Process>, n: nat, id: string)
    requires 0 < n <= |procs|
    ensures Pending(procs[..n], id) == Pending(procs[..n - 1], id) + if Commits(procs[n - 1], id) then 1 else 0
  {
    assert procs[..n][..n - 1] == procs[..n - 1];
  }

  /**
   How often a batch that can no longer be loaded for a commit, say an applied one, will still be booked:
   at most once for every apply that has loaded it and not booked it yet, and as often as that in some
   continuation. Each of these bookings comes on top of the earlier ones.
   */
  lemma ClosedBatchIsBookedAtMost(env: Batches.Env, run: seq<Choice>, id: string)
    requires Closed(Reach(env, run), id)
    ensures var s := Reach(env, run);
            && (forall rest :: Bookings(Reach(env, run + rest).log, id) <= Bookings(s.log, id) + Pending(s.procs, id))
            && exists rest :: Bookings(Reach(env, run + rest).log, id) == Bookings(s.log, id) + Pending(s.procs, id)
  {
    var start, s := System(Batches.State(map[], map[]), [], []), Reach(env, run);
    AfterKeepsInvariant(env, start, run);
    forall rest
      ensures Bookings(Reach(env, run + rest).log, id) <= Bookings(s.log, id) + Pending(s.procs, id)
    {
      AfterContinues(env, start, run, rest);
      AfterSpends(env, s, rest, id);
    }
    var rest := Drain(s.procs, id, |s.procs|);
    AfterContinues(env, start, run, rest);
    DrainBooks(env, s, id, |s.procs|);
    assert s.procs[..|s.procs|] == s.procs;
    assert Bookings(Reach(env, run + rest).log, id) == Bookings(s.log, id) + Pending(s.procs, id);
  }

  /** One request that loads the batch, and a commit that books an entry. */
  function LoadAndBook(s: System, b: Batches.Batch): seq<Choice> {
    [Spawn(Request(b.userID, "book", b.id, b.sourceHash)), Advance(|s.procs|, BREAK, 0)] + [Advance(|s.procs|, BREAK, 0)]
  }

  lemma ApplicableIsBooked(env: Batches.Env, s: System, id: string)
    requires Keyed(s.store) && id in s.store.batches && Applicable(s.store.batches[id])
    ensures Bookings(After(env, s, LoadAndBook(s, s.store.batches[id])).log, id) == Bookings(s.log, id) + 1
  {
    var b, n := s.store.batches[id], |s.procs|;
    var q := Request(b.userID, "book", b.id, b.sourceHash);
    var run := [Spawn(q), Advance(n, BREAK, 0)];
    assert run[..1] == [Spawn(q)] && [Spawn(q)][..0] == [];
    assert Checked(s.store, q) == Ok(b);
    assert After(env, s, run[..1]) == s.(procs := s.procs + [Loading(q)]);
    assert After(env, s, run) == s.(procs := (s.procs + [Loading(q)])[n := Committing(q, b)]);
    BreakBooks(env, s, run, n, id);
  }

  /**
   Exactly when a stored batch is booked no more: in every reachable state no continuation books it again
   if and only if it cannot be loaded for a commit and no apply has loaded it without having booked it.
   */
  lemma BookedNoMoreIff(env: Batches.Env, run: seq<Choice>, id: string)
    requires id in Reach(env, run).store.batches
    ensures var s := Reach(env, run);
            !Applicable(s.store.batches[id]) && Pending(s.procs, id) == 0 <==>
            forall rest :: Bookings(Reach(env, run + rest).log, id) == Bookings(s.log, id)
  {
    var start, s := System(Batches.State(map[], map[]), [], []), Reach(env, run);
    AfterKeepsInvariant(env, start, run);
    if Applicable(s.store.batches[id]) {
      var rest := LoadAndBook(s, s.store.batches[id]);
      AfterContinues(env, start, run, rest);
      ApplicableIsBooked(env, s, id);
      assert Bookings(Reach(env, run + rest).log, id) != Bookings(s.log, id);
    } else {
      ClosedBatchIsBookedAtMost(env, run, id);
      forall rest ensures Bookings(Reach(env, run + rest).log, id) >= Bookings(s.log, id) {
        AfterContinues(env, start, run, rest);
        BookingsStay(env, s, rest, id);
      }
    }
  }

  /** One preview and two applies of its batch, which both load it before either commits. */
  function BothLoad(u: Batches.Upload, id: string, q: Request, q': Request): seq<Choice> {
    [Upload(u, id), Spawn(q), Spawn(q')] + [Advance(0, BrokenOff([]), 0), Advance(1, BrokenOff([]), 0)]
  }

  /** The first commits and is marked; then the second commits and finds the batch applied. */
  function BothBook(o: Outcome, o': Outcome, now: int): seq<Choice> {
    [Advance(0, o, now), Advance(0, o, now), Advance(0, o, now)] + [Advance(1, o', now), Advance(1, o', now)]
  }

  lemma AfterSome(env: Batches.Env, s: System, a: Choice, b: Choice, c: Choice)
    ensures After(env, s, [a, b]) == Next(env, Next(env, s, a), b)
    ensures After(env, s, [a, b, c]) == Next(env, Next(env, Next(env, s, a), b), c)
  {
    assert [a][..0] == [] && After(env, s, [a]) == Next(env, s, a);
    assert [a, b][..1] == [a] && After(env, s, [a, b]) == Next(env, After(env, s, [a]), b);
    assert [a, b, c][..2] == [a, b];
  }

  /** The user uploads a file without row errors, and both requests are theirs and name the batch and its hash. */
  ghost predicate BothApply(env: Batches.Env, u: Batches.Upload, id: string, q: Request, q': Request) {
    && u.userID != "" && u.data != "" && id != "" && env.parse(u.data).Some?
    && !Batches.HasRowErrors(Batches.NewBatch(env, u, id, env.parse(u.data).value))
    && env.hash(u.data) != "" && Tight(env.hash(u.data))
    && q == Request(u.userID, q.bookID, id, env.hash(u.data)) && q' == Request(u.userID, q'.bookID, id, env.hash(u.data))
  }

  lemma BothSpawned(env: Batches.Env, u: Batches.Upload, id: string, q: Request, q': Request)
    requires BothApply(env, u, id, q, q')
    ensures var b := Batches.NewBatch(env, u, id, env.parse(u.data).value);
            Reach(env, [Upload(u, id), Spawn(q), Spawn(q')]) ==
            System(Batches.State(map[id := b], map[Batches.KeyOf(b) := id]), [Loading(q), Loading(q')], [])
  {
    AfterSome(env, System(Batches.State(map[], map[]), [], []), Upload(u, id), Spawn(q), Spawn(q'));
  }

  lemma BothLoaded(env: Batches.Env, u: Batches.Upload, id: string, q: Request, q': Request)
    requires BothApply(env, u, id, q, q')
    ensures var b := Batches.NewBatch(env, u, id, env.parse(u.data).value);
            var st := Batches.State(map[id := b], map[Batches.KeyOf(b) := id]);
            && Checked(st, q) == Ok(b)
            && Reach(env, BothLoad(u, id, q, q')) == System(st, [Committing(q, b), Committing(q', b)], [])
  {
    var b := Batches.NewBatch(env, u, id, env.parse(u.data).value);
    var st := Batches.State(map[id := b], map[Batches.KeyOf(b) := id]);
    var none := BrokenOff([]);
    TightIsTrimmed(env.hash(u.data));
    assert Checked(st, q) == Ok(b) && Checked(st, q') == Ok(b);
    BothSpawned(env, u, id, q, q');
    AfterContinues(env, System(Batches.State(map[], map[]), [], []), [Upload(u, id), Spawn(q), Spawn(q')],
                   [Advance(0, none, 0), Advance(1, none, 0)]);
    AfterSome(env, System(st, [Loading(q), Loading(q')], []), Advance(0, none, 0), Advance(1, none, 0), Spawn(q));
  }

  lemma FirstFinishes(env: Batches.Env, s: System, q: Request, q': Request, b: Batches.Batch, o: Outcome, now: int)
    requires s.procs == [Committing(q, b), Committing(q', b)] && Checked(s.store, q) == Ok(b) && Keyed(s.store)
    requires b.status.Preview? && Possible(q, o) && o.Completed?
    ensures var a := Advance(0, o, now);
            After(env, s, [a, a, a]) ==
            System(Batches.Saved(s.store, Batches.Stamped(b, MarkOf(q, b, o), now)), [Finished, Committing(q', b)],
                   s.log + [Booking(b.id, o.entryIDs, true)])
  {
    var a, m := Advance(0, o, now), MarkOf(q, b, o);
    AfterSome(env, s, a, a, a);
    assert Next(env, s, a).procs == [Marking(m), Committing(q', b)];
    assert Next(env, Next(env, s, a), a).procs == [Stamping(Batches.Stamped(b, m, now)), Committing(q', b)];
  }

  lemma SecondBooks(env: Batches.Env, s: System, q: Request, b: Batches.Batch, o: Outcome, now: int)
    requires s.procs == [Finished, Committing(q, b)] && IsApplied(s.store, b.id)
    requires Possible(q, o) && o.Completed?
    ensures var a := Advance(1, o, now);
            After(env, s, [a, a]) ==
            System(s.store, [Finished, Finished], s.log + [Booking(b.id, o.entryIDs, true)])
  {
    var a := Advance(1, o, now);
    AfterSome(env, s, a, a, a);
    assert Next(env, s, a).procs == [Finished, Marking(MarkOf(q, b, o))];
  }

  /**
   A run that books twice: for every upload without row errors and any two requests for its batch, whose
   commits complete, the schedule above books both, and the batch then names only the first one's entries.
   */
  lemma InterleavedAppliesBookTwice(env: Batches.Env, u: Batches.Upload, id: string, q: Request, q': Request,
                                    o: Outcome, o': Outcome, now: int)
    requires BothApply(env, u, id, q, q')
    requires Possible(q, o) && Possible(q', o') && o.Completed? && o'.Completed?
    ensures var b := Batches.NewBatch(env, u, id, env.parse(u.data).value);
            var s := Reach(env, BothLoad(u, id, q, q') + BothBook(o, o', now));
            && s.log == [Booking(id, o.entryIDs, true), Booking(id, o'.entryIDs, true)]
            && s.store.batches == map[id := Batches.Stamped(b, MarkOf(q, b, o), now)]
            && MarkOf(q, b, o).entryIDs == o.entryIDs
  {
    var b := Batches.NewBatch(env, u, id, env.parse(u.data).value);
    var s := Reach(env, BothLoad(u, id, q, q'));
    var first, second := Advance(0, o, now), Advance(1, o', now);
    BothLoaded(env, u, id, q, q');
    AfterContinues(env, System(Batches.State(map[], map[]), [], []), BothLoad(u, id, q, q'), BothBook(o, o', now));
    AfterContinues(env, s, [first, first, first], [second, second]);
    FirstFinishes(env, s, q, q', b, o, now);
    SecondBooks(env, After(env, s, [first, first, first]), q', b, o', now);
  }
}
