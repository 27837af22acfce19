/**
 * The checkpoint protocol together with the rows it is for: runs persist the rows
 * of the blocks they process, sometimes only some of them before they fail, and
 * what the checkpoint passes is in the tables.
 */
module IndexedChain {
  import opened Options
  import opened BlockRange
  import opened BlockWalk
  import opened NearBlock
  import RpcPool
  import opened CheckpointProtocol
  import opened TxRows

  /** The transactions of the block at each height. */
  type Chain = int -> seq<Item>

  /** A hash names one transaction in one block. */
  ghost predicate ConsistentChain(chain: Chain) {
    forall g, h, x, y :: x in chain(g) && y in chain(h) && x.tx.hash == y.tx.hash ==> x == y
  }

  /** The rows of a block, for the accounts and prices known when it is processed. */
  function BlockRowsOf(chain: Chain, ctx: Context, h: int): Rows {
    AfterTxs(ctx, NO_ROWS, chain(h))
  }

  /** The three inserts of a block run side by side; each may have happened or not. */
  function InsertSome(tables: Rows, rows: Rows, near: bool, signs: bool, users: bool): Rows {
    Rows(
      if near then Ignoring(tables.transactions, rows.transactions) else tables.transactions,
      if signs then Ignoring(tables.signEvents, rows.signEvents) else tables.signEvents,
      if users then Ignoring(tables.userTxs, rows.userTxs) else tables.userTxs)
  }

  /**
   * The protocol's state with the tables; the heights whose block was persisted, and
   * those that were processed because nobody has them; and the hashes that were
   * persisted as somebody's own transaction.
   */
  datatype Joint = Joint(state: State, tables: Rows, persisted: set<int>, absent: set<int>, users: set<string>)

  /** An event of the protocol, or some inserts of a block that a run is still processing. */
  datatype JointEvent =
    | Plain(event: CheckpointProtocol.Event, ctx: Context)
    | Inserts(id: nat, h: int, ctx: Context, near: bool, signs: bool, users: bool)

  predicate Settles(s: State, e: CheckpointProtocol.Event) {
    && e.Do? && e.move.Settle? && e.id in s.actors
    && s.actors[e.id].phase.Walking? && s.actors[e.id].role.Ingest?
  }

  /** What the settling height met. */
  function FetchOf(s: State, e: CheckpointProtocol.Event): HeightFetch
    requires Settles(s, e)
  {
    s.actors[e.id].role.world(s.actors[e.id].phase.walk.pass, e.move.h)
  }

  function UserHashes(chain: Chain, ctx: Context, h: int): set<string> {
    set x | x in chain(h) && UserRowOf(ctx, x).Some? :: x.tx.hash
  }

  /** The configured contracts never change. */
  function JointStep(chain: Chain, contracts: set<string>, j: Joint, e: JointEvent): Option<Joint> {
    match e
    case Inserts(id, h, ctx, near, signs, users) =>
      if ctx.contracts != contracts || id !in j.state.actors || !j.state.actors[id].phase.Walking? || h !in j.state.actors[id].phase.walk.pending
      then None
      else Some(j.(tables := InsertSome(j.tables, BlockRowsOf(chain, ctx, h), near, signs, users)))
    case Plain(event, ctx) =>
      match Step(j.state, event)
      case None => None
      case Some(s) =>
        if !Settles(j.state, event) then Some(j.(state := s))
        else
          var h := event.move.h;
          var fetch := FetchOf(j.state, event);
          if fetch.Persisted? then
            if ctx.contracts != contracts then None
            else Some(Joint(s, InsertSome(j.tables, BlockRowsOf(chain, ctx, h), true, true, true),
                            j.persisted + {h}, j.absent, j.users + UserHashes(chain, ctx, h)))
          else if NothingLeftToDo(fetch) then
            Some(j.(state := s, absent := j.absent + {h}))
          else Some(j.(state := s))
  }

  function JointExec(chain: Chain, contracts: set<string>, j: Joint, events: seq<JointEvent>): Option<Joint>
    decreases |events|
  {
    if events == [] then Some(j)
    else
      match JointStep(chain, contracts, j, events[0])
      case None => None
      case Some(j') => JointExec(chain, contracts, j', events[1..])
  }

  // ----- what the tables hold -------------------------------------------------

  ghost predicate NearOfChain(chain: Chain, ctx: Context, hash: string, row: NearRow) {
    exists h, x :: x in chain(h) && x.tx.hash == hash && NearRowOf(ctx, x) == Some(row)
  }

  ghost predicate SeedOfChain(chain: Chain, ctx: Context, key: string, s: Seed) {
    key == SeedKey(s.txHash, s.actionIndex) && exists h, x :: x in chain(h) && s in SeedsOf(ctx, x)
  }

  /** Every row and sign event in the tables is one of the chain's. */
  ghost predicate FromChain(chain: Chain, ctx: Context, t: Rows) {
    && (forall k :: k in t.transactions ==> NearOfChain(chain, ctx, k, t.transactions[k]))
    && (forall k :: k in t.signEvents ==> SeedOfChain(chain, ctx, k, t.signEvents[k]))
  }

  ghost predicate HasNearRow(ctx: Context, rows: map<string, NearRow>, x: Item) {
    NearRowOf(ctx, x).Some? ==> x.tx.hash in rows && rows[x.tx.hash] == NearRowOf(ctx, x).value
  }

  ghost predicate HasSignEvents(ctx: Context, events: map<string, Seed>, x: Item) {
    forall s :: s in SeedsOf(ctx, x) ==> HasSeed(events, s)
  }

  /** Every transaction at the height that calls a FastAuth contract has its row and its sign events. */
  ghost predicate HasRows(chain: Chain, ctx: Context, t: Rows, h: int) {
    forall x :: x in chain(h) ==> HasNearRow(ctx, t.transactions, x) && HasSignEvents(ctx, t.signEvents, x)
  }

  /** Accounts and prices do not matter to those rows. */
  lemma ContractsDecide(a: Context, b: Context, x: Item)
    requires a.contracts == b.contracts
    ensures NearRowOf(a, x) == NearRowOf(b, x) && SeedsOf(a, x) == SeedsOf(b, x)
  {
  }

  lemma BlockRowsAreExact(chain: Chain, ctx: Context, base: Context, h: int)
    requires ConsistentChain(chain) && ctx.contracts == base.contracts
    ensures var items, rows := ItemSet(chain(h)), BlockRowsOf(chain, ctx, h);
      && ExactTransactions(base, items, rows.transactions)
      && ExactSignEvents(base, items, rows.signEvents)
      && ExactUserTxs(ctx, items, rows.userTxs)
  {
    var items, rows := ItemSet(chain(h)), BlockRowsOf(chain, ctx, h);
    assert Consistent(items);
    RowsAreExact(ctx, chain(h));
    forall x ensures NearRowOf(ctx, x) == NearRowOf(base, x) && SeedsOf(ctx, x) == SeedsOf(base, x) { ContractsDecide(ctx, base, x); }
    hide NearRowOf, SeedsOf, SeedKey, AfterTxs, UserRowOf;
  }

  /** The rows of a block are of the chain, and its transactions have theirs. */
  lemma BlockRowsAreOfChain(chain: Chain, ctx: Context, base: Context, h: int)
    requires ConsistentChain(chain) && ctx.contracts == base.contracts
    ensures FromChain(chain, base, BlockRowsOf(chain, ctx, h)) && HasRows(chain, base, BlockRowsOf(chain, ctx, h), h)
  {
    BlockRowsAreExact(chain, ctx, base, h);
    hide BlockRowsOf, NearRowOf, SeedsOf, SeedKey, ConsistentChain, ExactUserTxs;
    var rows := BlockRowsOf(chain, ctx, h);
    forall x | x in chain(h) ensures HasNearRow(base, rows.transactions, x) && HasSignEvents(base, rows.signEvents, x) {
      assert x in ItemSet(chain(h));
    }
    forall k | k in rows.transactions ensures NearOfChain(chain, base, k, rows.transactions[k]) {
      var x :| x in ItemSet(chain(h)) && x.tx.hash == k && NearRowOf(base, x).Some?;
      assert x in chain(h);
    }
    forall k | k in rows.signEvents ensures SeedOfChain(chain, base, k, rows.signEvents[k]) {
      var x :| x in ItemSet(chain(h)) && rows.signEvents[k] in SeedsOf(base, x);
      assert x in chain(h);
    }
  }

  lemma InsertsStayFromChain(chain: Chain, ctx: Context, base: Context, t: Rows, h: int, near: bool, signs: bool, users: bool)
    requires ConsistentChain(chain) && ctx.contracts == base.contracts && FromChain(chain, base, t)
    ensures FromChain(chain, base, InsertSome(t, BlockRowsOf(chain, ctx, h), near, signs, users))
  {
    hide *;
    BlockRowsAreOfChain(chain, ctx, base, h);
    InsertsMerge(chain, base, t, BlockRowsOf(chain, ctx, h), near, signs, users);
  }

  lemma InsertsMerge(chain: Chain, base: Context, t: Rows, rows: Rows, near: bool, signs: bool, users: bool)
    requires FromChain(chain, base, t) && FromChain(chain, base, rows)
    ensures FromChain(chain, base, InsertSome(t, rows, near, signs, users))
  {
    hide NearOfChain, SeedOfChain, Ignoring;
    Merged(t.transactions, rows.transactions);
    Merged(t.signEvents, rows.signEvents);
    var t' := InsertSome(t, rows, near, signs, users);
    forall k | k in t'.transactions ensures NearOfChain(chain, base, k, t'.transactions[k]) { }
    forall k | k in t'.signEvents ensures SeedOfChain(chain, base, k, t'.signEvents[k]) { }
    hide InsertSome;
  }

  lemma Merged<V>(table: map<string, V>, rows: map<string, V>)
    ensures forall k :: k in Ignoring(table, rows) <==> k in table || k in rows
    ensures forall k :: k in Ignoring(table, rows) ==> Ignoring(table, rows)[k] == if k in table then table[k] else rows[k]
  {
  }

  lemma InsertsKeepRows(chain: Chain, base: Context, t: Rows, rows: Rows, near: bool, signs: bool, users: bool, g: int)
    requires HasRows(chain, base, t, g)
    ensures HasRows(chain, base, InsertSome(t, rows, near, signs, users), g)
  {
    hide NearRowOf, SeedsOf, SeedKey;
    var t' := InsertSome(t, rows, near, signs, users);
    forall x | x in chain(g) ensures HasNearRow(base, t'.transactions, x) && HasSignEvents(base, t'.signEvents, x) {
      assert HasNearRow(base, t.transactions, x) && HasSignEvents(base, t.signEvents, x);
    }
  }

  /** A block whose inserts all happened has its rows, also where some were there before. */
  lemma PersistedHasRows(chain: Chain, ctx: Context, base: Context, t: Rows, h: int)
    requires ConsistentChain(chain) && ctx.contracts == base.contracts && FromChain(chain, base, t)
    ensures HasRows(chain, base, InsertSome(t, BlockRowsOf(chain, ctx, h), true, true, true), h)
  {
    BlockRowsAreOfChain(chain, ctx, base, h);
    hide BlockRowsOf;
    var rows := BlockRowsOf(chain, ctx, h);
    forall x | x in chain(h)
      ensures HasNearRow(base, Ignoring(t.transactions, rows.transactions), x)
      ensures HasSignEvents(base, Ignoring(t.signEvents, rows.signEvents), x)
    {
      NearRowInserted(chain, base, t, rows, h, x);
      SignEventsInserted(chain, base, t, rows, h, x);
    }
    hide HasNearRow, HasSignEvents, FromChain, ConsistentChain;
  }

  lemma NearRowInserted(chain: Chain, base: Context, t: Rows, rows: Rows, h: int, x: Item)
    requires ConsistentChain(chain) && FromChain(chain, base, t) && x in chain(h) && HasNearRow(base, rows.transactions, x)
    ensures HasNearRow(base, Ignoring(t.transactions, rows.transactions), x)
  {
    hide NearRowOf, SeedOfChain;
    if NearRowOf(base, x).Some? && x.tx.hash in t.transactions {
      assert NearOfChain(chain, base, x.tx.hash, t.transactions[x.tx.hash]);
      var g, y :| y in chain(g) && y.tx.hash == x.tx.hash && NearRowOf(base, y) == Some(t.transactions[x.tx.hash]);
      assert x == y;
    }
  }

  lemma SignEventsInserted(chain: Chain, base: Context, t: Rows, rows: Rows, h: int, x: Item)
    requires ConsistentChain(chain) && FromChain(chain, base, t) && x in chain(h) && HasSignEvents(base, rows.signEvents, x)
    ensures HasSignEvents(base, Ignoring(t.signEvents, rows.signEvents), x)
  {
    hide SeedsOf, SeedKey, NearOfChain, SeedOfChain, ConsistentChain, FromChain;
    forall s | s in SeedsOf(base, x)
      ensures HasSeed(Ignoring(t.signEvents, rows.signEvents), s)
    {
      assert HasSeed(rows.signEvents, s);
      if SeedKey(s.txHash, s.actionIndex) in t.signEvents { OneSeedPerKey(chain, base, t, h, x, s); }
    }
  }

  /** A sign event that is there under the key of another is that other. */
  lemma OneSeedPerKey(chain: Chain, base: Context, t: Rows, h: int, x: Item, s: Seed)
    requires ConsistentChain(chain) && FromChain(chain, base, t) && x in chain(h) && s in SeedsOf(base, x)
    requires SeedKey(s.txHash, s.actionIndex) in t.signEvents
    ensures HasSeed(t.signEvents, s)
  {
    hide SeedsOf, SeedKey, NearRowOf;
    var k := SeedKey(s.txHash, s.actionIndex);
    var there := t.signEvents[k];
    assert SeedOfChain(chain, base, k, there);
    var g, y :| y in chain(g) && there in SeedsOf(base, y);
    SeedKeyInjective(s.txHash, s.actionIndex, there.txHash, there.actionIndex);
    SeedsBelong(base, x);
    SeedsBelong(base, y);
  }

  lemma UserRowsInserted(chain: Chain, ctx: Context, t: Rows, h: int)
    requires ConsistentChain(chain)
    ensures UserHashes(chain, ctx, h) <= InsertSome(t, BlockRowsOf(chain, ctx, h), true, true, true).userTxs.Keys
  {
    BlockRowsAreExact(chain, ctx, ctx, h);
    hide BlockRowsOf, UserRowOf;
    forall x | x in chain(h) && UserRowOf(ctx, x).Some?
      ensures x.tx.hash in BlockRowsOf(chain, ctx, h).userTxs
    {
      assert x in ItemSet(chain(h));
    }
  }

  /** What it means to have the rows of a height, field by field. */
  lemma HasRowsSays(chain: Chain, ctx: Context, t: Rows, h: int, x: Item, i: nat)
    requires HasRows(chain, ctx, t, h) && x in chain(h)
    requires x.tx.hash != "" && x.tx.receiver.Some? && x.tx.receiver.value != "" && x.tx.receiver.value in ctx.contracts
    ensures x.tx.hash in t.transactions &&
      var row := t.transactions[x.tx.hash];
      row.block == x.block && row.signer == x.tx.signer && x.tx.receiver == Some(row.receiver) && row.details == x.tx.details
    ensures var key := SeedKey(x.tx.hash, i);
      && x.tx.signer.Some? && x.tx.signer.value != "" && i < |x.tx.actions|
      && x.tx.actions[i].FunctionCall? && x.tx.actions[i].methodName == Some("sign")
      ==> key in t.signEvents && t.signEvents[key].actionIndex == i && IsSeed(x, t.signEvents[key])
  {
    hide SeedKey, IsSeed;
    assert HasNearRow(ctx, t.transactions, x) && HasSignEvents(ctx, t.signEvents, x);
    if SignsAnything(ctx, x.tx) {
      SeedsInOrder(x, |x.tx.actions|);
      hide SeedsUpTo;
      if i < |x.tx.actions| && IsSign(x.tx.actions[i]) {
        assert SeedAt(x, i) in SeedsOf(ctx, x);
        assert HasSeed(t.signEvents, SeedAt(x, i));
      }
    }
  }

  // ----- what is processed ----------------------------------------------------

  /** A height becomes processed exactly by settling with its block persisted or missing everywhere. */
  lemma ProcessedBySettling(s: State, e: CheckpointProtocol.Event)
    requires Step(s, e).Some?
    ensures var s' := Step(s, e).value;
      forall h :: h in s'.db.processed <==>
        h in s.db.processed || (Settles(s, e) && e.move.h == h && NothingLeftToDo(FetchOf(s, e)))
  {
    match e
    case Do(id, m) =>
      if id in s.actors && s.actors[id].process in s.processes {
        MoveProcesses(s.db, s.processes[s.actors[id].process], s.actors[id], m);
      }
      hide Act;
    case _ =>
  }

  lemma MoveProcesses(db: Db, p: Process, a: Actor, m: Move)
    requires Act(db, p, a, m).Some?
    ensures var x := Act(db, p, a, m).value;
      if m.Settle?
      then a.phase.Walking? && a.role.Ingest? &&
           x.db.processed == db.processed + (if NothingLeftToDo(a.role.world(a.phase.walk.pass, m.h)) then {m.h} else {})
      else x.db.processed == db.processed
  {
    hide Decided, Concluded, MoreRounds, ProcessHeight, Settled;
    if m.Settle? && a.phase.Walking? && a.role.Ingest? {
      CompletesExactly(a.role.world(a.phase.walk.pass, m.h));
    }
  }

  // ----- the invariant --------------------------------------------------------

  ghost predicate Accounted(chain: Chain, base: Context, before: set<int>, j: Joint) {
    && FromChain(chain, base, j.tables)
    && (forall h :: h in j.persisted ==> HasRows(chain, base, j.tables, h))
    && j.state.db.processed <= before + j.persisted + j.absent
    && j.users <= j.tables.userTxs.Keys
  }

  lemma StepKeepsAccounts(chain: Chain, base: Context, before: set<int>, j: Joint, e: JointEvent)
    requires ConsistentChain(chain) && Accounted(chain, base, before, j)
    requires JointStep(chain, base.contracts, j, e).Some?
    ensures Accounted(chain, base, before, JointStep(chain, base.contracts, j, e).value)
  {
    var j' := JointStep(chain, base.contracts, j, e).value;
    match e
    case Inserts(id, h, ctx, near, signs, users) =>
      InsertsKeepAccounts(chain, ctx, base, before, j, h, near, signs, users);
      hide HasRows, FromChain, BlockRowsOf, UserRowOf;
    case Plain(event, ctx) =>
      ProcessedBySettling(j.state, event);
      if Settles(j.state, event) && FetchOf(j.state, event).Persisted? {
        var h := event.move.h;
        PersistedKeepsAccounts(chain, ctx, base, before, j, h);
      }
      hide Step, HasRows, FromChain, BlockRowsOf, UserRowOf, InsertSome, UserHashes, ConsistentChain;
  }

  lemma PersistedKeepsAccounts(chain: Chain, ctx: Context, base: Context, before: set<int>, j: Joint, h: int)
    requires ConsistentChain(chain) && ctx.contracts == base.contracts && Accounted(chain, base, before, j)
    ensures var tables := InsertSome(j.tables, BlockRowsOf(chain, ctx, h), true, true, true);
      Accounted(chain, base, before, Joint(j.state, tables, j.persisted + {h}, j.absent, j.users + UserHashes(chain, ctx, h)))
  {
    InsertsKeepAccounts(chain, ctx, base, before, j, h, true, true, true);
    PersistedHasRows(chain, ctx, base, j.tables, h);
    UserRowsInserted(chain, ctx, j.tables, h);
    hide HasRows, FromChain, BlockRowsOf, UserHashes, ConsistentChain, InsertSome;
  }

  lemma InsertsKeepAccounts(chain: Chain, ctx: Context, base: Context, before: set<int>, j: Joint, h: int, near: bool, signs: bool, users: bool)
    requires ConsistentChain(chain) && ctx.contracts == base.contracts && Accounted(chain, base, before, j)
    ensures Accounted(chain, base, before, j.(tables := InsertSome(j.tables, BlockRowsOf(chain, ctx, h), near, signs, users)))
  {
    InsertsStayFromChain(chain, ctx, base, j.tables, h, near, signs, users);
    forall g | g in j.persisted
      ensures HasRows(chain, base, InsertSome(j.tables, BlockRowsOf(chain, ctx, h), near, signs, users), g)
    {
      InsertsKeepRows(chain, base, j.tables, BlockRowsOf(chain, ctx, h), near, signs, users, g);
    }
    hide HasRows, FromChain, BlockRowsOf, ConsistentChain;
  }

  /** The protocol goes on as if there were no tables. */
  lemma StepKeepsJointCoverage(chain: Chain, contracts: set<string>, o: Origin, j: Joint, e: JointEvent)
    requires o.floor >= BACKFILL_START && AllCovered(j.state, o) && JointStep(chain, contracts, j, e).Some?
    ensures AllCovered(JointStep(chain, contracts, j, e).value.state, o)
  {
    hide Step, AllCovered, InsertSome, BlockRowsOf, UserHashes;
    if e.Plain? { StepKeepsCoverage(j.state, o, e.event); }
  }

  lemma {:induction false} RunKeepsAccounts(chain: Chain, base: Context, before: set<int>, o: Origin, j: Joint, events: seq<JointEvent>)
    requires ConsistentChain(chain) && Accounted(chain, base, before, j)
    requires o.floor >= BACKFILL_START && AllCovered(j.state, o)
    requires JointExec(chain, base.contracts, j, events).Some?
    ensures var end := JointExec(chain, base.contracts, j, events).value;
      Accounted(chain, base, before, end) && AllCovered(end.state, o)
    decreases |events|
  {
    hide JointStep, Accounted, AllCovered, ConsistentChain;
    if events != [] {
      StepKeepsAccounts(chain, base, before, j, events[0]);
      StepKeepsJointCoverage(chain, base.contracts, o, j, events[0]);
      RunKeepsAccounts(chain, base, before, o, JointStep(chain, base.contracts, j, events[0]).value, events[1..]);
    }
  }

  /** A height of which nothing is lost: ledgered, missing everywhere, or with its rows in the tables. */
  ghost predicate Indexed(chain: Chain, base: Context, j: Joint, h: int) {
    || (exists r :: r in j.state.db.ledger && r.0 <= h <= r.1)
    || h in j.absent
    || HasRows(chain, base, j.tables, h)
  }

  /**
   * Up to the scanned checkpoint, after any interleaving of runs, crashes and partial
   * inserts, every height from the first start on was processed before, is ledgered,
   * was found missing everywhere, or has the row and the sign events of each of its
   * transactions in the tables; and no user row that was persisted is lost.
   */
  lemma EveryHeightIsIndexed(chain: Chain, base: Context, j: Joint, events: seq<JointEvent>, h: int)
    requires ConsistentChain(chain) && AtRest(j.state) && FromChain(chain, base, j.tables)
    requires j.persisted == {} && j.absent == {} && j.users == {}
    requires JointExec(chain, base.contracts, j, events).Some?
    ensures var end := JointExec(chain, base.contracts, j, events).value;
      && (end.state.db.scanned.Numeric? && OriginOf(j.state.db).floor <= h <= end.state.db.scanned.n ==>
            h in j.state.db.processed || Indexed(chain, base, end, h))
      && (h in end.persisted ==> HasRows(chain, base, end.tables, h))
      && end.users <= end.tables.userTxs.Keys
  {
    AtRestCovered(j.state);
    RunKeepsAccounts(chain, base, j.state.db.processed, OriginOf(j.state.db), j, events);
    hide JointExec, HasRows, FromChain, ConsistentChain, OriginOf, AtRest;
    var end := JointExec(chain, base.contracts, j, events).value;
    var o := OriginOf(j.state.db);
    if end.state.db.scanned.Numeric? && o.floor <= h <= end.state.db.scanned.n {
      CoveredIs(end.state, o, h);
    }
    hide AllCovered;
  }

  lemma CoveredIs(s: State, o: Origin, h: int)
    requires AllCovered(s, o) && s.db.scanned.Numeric? && o.floor <= h <= s.db.scanned.n
    ensures h in s.db.processed || exists r :: r in s.db.ledger && r.0 <= h <= r.1
  {
    assert Covered(s.db, h);
  }
}
