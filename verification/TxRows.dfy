/**
 * What is kept of each transaction: a row and sign events when it calls a FastAuth
 * contract, a user row when a FastAuth account is behind it. The rows of a chain
 * do not depend on the order in which its transactions and blocks are processed.
 */
module TxRows {
  import opened Options
  import DelegateFormat
  import SignPayload
  import Text

  datatype Action =
    | FunctionCall(methodName: Option<string>, payload: Option<seq<int>>)
    | OtherAction

  datatype Delegate = Delegate(innerSigner: Option<string>, innerReceiver: string, details: int)

  /** Account ids are trimmed and lower-cased; `details` is what is copied into a row unread. */
  datatype Tx = Tx(hash: string, receiver: Option<string>, signer: Option<string>, actions: seq<Action>, delegate: Option<Delegate>, details: int)

  datatype Item = Item(block: int, tx: Tx)

  /** The USD value of what is sent to a receiver. */
  type Pricing = (string, int) -> int

  datatype Context = Context(contracts: set<string>, accounts: set<string>, pricing: Pricing)

  datatype NearRow = NearRow(block: int, signer: Option<string>, receiver: string, details: int)

  datatype Seed = Seed(txHash: string, actionIndex: nat, block: int, relayer: string, contract: string, actionType: Option<string>)

  datatype UserRow = UserRow(block: int, signer: string, receiver: string, metaWrapped: bool, relayer: Option<string>, value: int, details: int)

  // ----- sign events ----------------------------------------------------------

  predicate IsSign(a: Action) { a.FunctionCall? && a.methodName == Some("sign") }

  predicate HasText(s: Option<string>) { s.Some? && s.value != "" }

  predicate ReceiverMatches(ctx: Context, tx: Tx) { tx.receiver.Some? && tx.receiver.value in ctx.contracts }

  predicate SignsAnything(ctx: Context, tx: Tx) {
    HasText(tx.receiver) && HasText(tx.signer) && tx.hash != "" && ReceiverMatches(ctx, tx)
  }

  function SeedAt(item: Item, i: nat): Seed
    requires i < |item.tx.actions| && IsSign(item.tx.actions[i]) && item.tx.receiver.Some? && item.tx.signer.Some?
  {
    Seed(item.tx.hash, i, item.block, item.tx.signer.value, item.tx.receiver.value, SignPayload.SignActionType(item.tx.actions[i].payload))
  }

  /** What a sign event says: its transaction, the call's place in it, who relayed it, which contract it called, what was signed. */
  ghost predicate IsSeed(item: Item, s: Seed) {
    && s.txHash == item.tx.hash && s.block == item.block
    && item.tx.signer == Some(s.relayer) && item.tx.receiver == Some(s.contract)
    && s.actionIndex < |item.tx.actions|
    && match item.tx.actions[s.actionIndex]
       case OtherAction => false
       case FunctionCall(methodName, payload) => methodName == Some("sign") && s.actionType == SignPayload.SignActionType(payload)
  }

  /** The sign events of the first `n` actions. */
  function SeedsUpTo(item: Item, n: nat): seq<Seed>
    requires n <= |item.tx.actions| && item.tx.receiver.Some? && item.tx.signer.Some?
  {
    if n == 0 then []
    else SeedsUpTo(item, n - 1) + (if IsSign(item.tx.actions[n - 1]) then [SeedAt(item, n - 1)] else [])
  }

  function SeedsOf(ctx: Context, item: Item): seq<Seed> {
    if SignsAnything(ctx, item.tx) then SeedsUpTo(item, |item.tx.actions|) else []
  }

  /** One sign event for each call of `sign`, in order, each under its own index. */
  lemma {:induction false} SeedsInOrder(item: Item, n: nat)
    requires n <= |item.tx.actions| && item.tx.receiver.Some? && item.tx.signer.Some?
    ensures var seeds := SeedsUpTo(item, n);
      && (forall j, k :: 0 <= j < k < |seeds| ==> seeds[j].actionIndex < seeds[k].actionIndex)
      && (forall s :: s in seeds <==> s.actionIndex < n && IsSign(item.tx.actions[s.actionIndex]) && s == SeedAt(item, s.actionIndex))
      && (forall s :: s in seeds ==> IsSeed(item, s))
  {
    if n > 0 {
      SeedsInOrder(item, n - 1);
      var seeds, before := SeedsUpTo(item, n), SeedsUpTo(item, n - 1);
      forall j | 0 <= j < |before| ensures before[j].actionIndex < n - 1 { assert before[j] in before; }
    }
  }

  /** The walk over the actions, with the keys it finds inline. */
  method DeriveFastAuthSignEvents(ctx: Context, item: Item) returns (seeds: seq<Seed>, inlineKeys: seq<string>)
    ensures seeds == SeedsOf(ctx, item)
    ensures forall k :: k in inlineKeys <==>
      SignsAnything(ctx, item.tx) && exists i :: 0 <= i < |item.tx.actions| && HasInlineKey(item.tx.actions[i], k)
  {
    hide SignPayload.SignActionType, SignPayload.SignDelegateKey, DelegateFormat.KeyText;
    seeds, inlineKeys := [], [];
    if !SignsAnything(ctx, item.tx) { return; }
    for i := 0 to |item.tx.actions|
      invariant seeds == SeedsUpTo(item, i)
      invariant forall k :: k in inlineKeys <==> exists j :: 0 <= j < i && HasInlineKey(item.tx.actions[j], k)
    {
      var action := item.tx.actions[i];
      if IsSign(action) {
        var key := SignPayload.DecodeSignDelegatePublicKey(action.payload);
        assert key == InlineKey(action);
        if key.Some? { inlineKeys := inlineKeys + [key.value]; }
        seeds := seeds + [SeedAt(item, i)];
      }
    }
  }

  predicate HasInlineKey(a: Action, k: string) { IsSign(a) && InlineKey(a) == Some(k) }

  function InlineKey(a: Action): Option<string>
    requires a.FunctionCall?
  {
    match SignPayload.SignDelegateKey(a.payload)
    case None => None
    case Some(k) => Some(DelegateFormat.KeyText(k))
  }

  function SeedKey(hash: string, index: nat): string { hash + ":" + Text.Decimal(index) }

  /** The string keys of two sign events are equal only for the same action of the same transaction, whatever the hashes. */
  lemma SeedKeyInjective(h1: string, i1: nat, h2: string, i2: nat)
    requires SeedKey(h1, i1) == SeedKey(h2, i2)
    ensures h1 == h2 && i1 == i2
  {
    Text.SplitAtLastColon(h1, Text.Decimal(i1), h2, Text.Decimal(i2));
    Text.DecimalInjective(i1, i2);
  }

  // ----- the rows of a transaction --------------------------------------------

  function NearRowOf(ctx: Context, item: Item): Option<NearRow> {
    if item.tx.hash != "" && HasText(item.tx.receiver) && ReceiverMatches(ctx, item.tx)
    then Some(NearRow(item.block, item.tx.signer, item.tx.receiver.value, item.tx.details))
    else None
  }

  /** A direct transaction of a FastAuth account. */
  predicate IsDirect(ctx: Context, tx: Tx) { HasText(tx.signer) && tx.signer.value in ctx.accounts }

  function UserRowOf(ctx: Context, item: Item): Option<UserRow> {
    var tx := item.tx;
    if tx.hash == "" || ReceiverMatches(ctx, tx) then None
    else if IsDirect(ctx, tx) then
      if HasText(tx.receiver)
      then Some(UserRow(item.block, tx.signer.value, tx.receiver.value, false, None, ctx.pricing(tx.receiver.value, tx.details), tx.details))
      else None
    else if tx.delegate.Some? && HasText(tx.delegate.value.innerSigner) && tx.delegate.value.innerSigner.value in ctx.accounts then
      var d := tx.delegate.value;
      Some(UserRow(item.block, d.innerSigner.value, d.innerReceiver, true, tx.signer, ctx.pricing(d.innerReceiver, d.details), d.details))
    else None
  }

  datatype Rows = Rows(transactions: map<string, NearRow>, signEvents: map<string, Seed>, userTxs: map<string, UserRow>)

  const NO_ROWS := Rows(map[], map[], map[])

  function WithSeeds(events: map<string, Seed>, seeds: seq<Seed>): map<string, Seed> {
    if seeds == [] then events
    else
      var s := seeds[|seeds| - 1];
      WithSeeds(events, seeds[..|seeds| - 1])[SeedKey(s.txHash, s.actionIndex) := s]
  }

  /** A meta-transaction does not replace a user row that is there. */
  function Keeps(rows: Rows, hash: string, row: UserRow): bool { row.metaWrapped && hash in rows.userTxs }

  function AfterTx(ctx: Context, rows: Rows, item: Item): Rows {
    var hash := item.tx.hash;
    var near, user := NearRowOf(ctx, item), UserRowOf(ctx, item);
    Rows(
      if near.Some? then rows.transactions[hash := near.value] else rows.transactions,
      if near.Some? then WithSeeds(rows.signEvents, SeedsOf(ctx, item)) else rows.signEvents,
      if user.Some? && !Keeps(rows, hash, user.value) then rows.userTxs[hash := user.value] else rows.userTxs)
  }

  function AfterTxs(ctx: Context, rows: Rows, items: seq<Item>): Rows
    decreases |items|
  {
    if items == [] then rows else AfterTx(ctx, AfterTxs(ctx, rows, items[..|items| - 1]), items[|items| - 1])
  }

  /** The rows of a block while it is classified, and the keys known so far. */
  class BlockRows {
    var transactions: map<string, NearRow>
    var signEvents: map<string, Seed>
    var userTxs: map<string, UserRow>
    var pubKeys: set<string>

    function Snapshot(): Rows
      reads this
    {
      Rows(transactions, signEvents, userTxs)
    }

    constructor (pubKeys: set<string>)
      ensures Snapshot() == NO_ROWS && this.pubKeys == pubKeys
    {
      transactions, signEvents, userTxs, this.pubKeys := map[], map[], map[], pubKeys;
    }

    /** The known keys only grow, and nothing else depends on them. */
    method ClassifyTransaction(ctx: Context, item: Item)
      modifies this
      ensures Snapshot() == AfterTx(ctx, old(Snapshot()), item)
      ensures old(pubKeys) <= pubKeys
    {
      var tx := item.tx;
      if tx.hash == "" { return; }
      if HasText(tx.receiver) && ReceiverMatches(ctx, tx) {
        var seeds, inlineKeys := DeriveFastAuthSignEvents(ctx, item);
        transactions := transactions[tx.hash := NearRow(item.block, tx.signer, tx.receiver.value, tx.details)];
        StoreSeeds(seeds);
        pubKeys := pubKeys + set k | k in inlineKeys;
      }
      if !ReceiverMatches(ctx, tx) {
        if IsDirect(ctx, tx) {
          if HasText(tx.receiver) {
            var value := ctx.pricing(tx.receiver.value, tx.details);
            userTxs := userTxs[tx.hash := UserRow(item.block, tx.signer.value, tx.receiver.value, false, None, value, tx.details)];
          }
        } else if tx.delegate.Some? && HasText(tx.delegate.value.innerSigner) && tx.delegate.value.innerSigner.value in ctx.accounts && tx.hash !in userTxs {
          var d := tx.delegate.value;
          var value := ctx.pricing(d.innerReceiver, d.details);
          userTxs := userTxs[tx.hash := UserRow(item.block, d.innerSigner.value, d.innerReceiver, true, tx.signer, value, d.details)];
        }
      }
    }

    method StoreSeeds(seeds: seq<Seed>)
      modifies this`signEvents
      ensures signEvents == WithSeeds(old(signEvents), seeds)
    {
      for n := 0 to |seeds|
        invariant signEvents == WithSeeds(old(signEvents), seeds[..n])
      {
        assert seeds[..n + 1][..n] == seeds[..n];
        signEvents := signEvents[SeedKey(seeds[n].txHash, seeds[n].actionIndex) := seeds[n]];
      }
      assert seeds[..|seeds|] == seeds;
    }

    method ClassifyBlock(ctx: Context, items: seq<Item>)
      modifies this
      ensures Snapshot() == AfterTxs(ctx, old(Snapshot()), items)
    {
      for n := 0 to |items|
        invariant Snapshot() == AfterTxs(ctx, old(Snapshot()), items[..n])
      {
        assert items[..n + 1][..n] == items[..n];
        ClassifyTransaction(ctx, items[n]);
      }
      assert items[..|items|] == items;
    }
  }

  // ----- what the rows are, whatever the order --------------------------------

  /** A hash names one transaction in one block. */
  ghost predicate Consistent(items: set<Item>) {
    forall x, y :: x in items && y in items && x.tx.hash == y.tx.hash ==> x == y
  }

  ghost predicate ExactTransactions(ctx: Context, items: set<Item>, rows: map<string, NearRow>) {
    && (forall x :: x in items && NearRowOf(ctx, x).Some? ==> x.tx.hash in rows && rows[x.tx.hash] == NearRowOf(ctx, x).value)
    && (forall h :: h in rows ==> exists x :: x in items && x.tx.hash == h && NearRowOf(ctx, x).Some?)
  }

  ghost predicate ExactUserTxs(ctx: Context, items: set<Item>, rows: map<string, UserRow>) {
    && (forall x :: x in items && UserRowOf(ctx, x).Some? ==> x.tx.hash in rows && rows[x.tx.hash] == UserRowOf(ctx, x).value)
    && (forall h :: h in rows ==> exists x :: x in items && x.tx.hash == h && UserRowOf(ctx, x).Some?)
  }

  /** Every sign event is there under its key, and nothing else. */
  ghost predicate ExactSignEvents(ctx: Context, items: set<Item>, events: map<string, Seed>) {
    && (forall x, s :: x in items && s in SeedsOf(ctx, x) ==> HasSeed(events, s))
    && (forall k :: k in events ==> exists x :: x in items && events[k] in SeedsOf(ctx, x) && HasSeed(events, events[k]) && k == SeedKey(events[k].txHash, events[k].actionIndex))
  }

  predicate HasSeed(events: map<string, Seed>, s: Seed) {
    SeedKey(s.txHash, s.actionIndex) in events && events[SeedKey(s.txHash, s.actionIndex)] == s
  }

  ghost predicate Exact(ctx: Context, items: set<Item>, rows: Rows) {
    && ExactTransactions(ctx, items, rows.transactions)
    && ExactUserTxs(ctx, items, rows.userTxs)
    && ExactSignEvents(ctx, items, rows.signEvents)
  }

  lemma SeedsBelong(ctx: Context, item: Item)
    ensures forall s :: s in SeedsOf(ctx, item) ==> s.txHash == item.tx.hash && s.actionIndex < |item.tx.actions|
    ensures forall s, t :: s in SeedsOf(ctx, item) && t in SeedsOf(ctx, item) && s.actionIndex == t.actionIndex ==> s == t
    ensures SeedsOf(ctx, item) != [] ==> NearRowOf(ctx, item).Some?
  {
    if SignsAnything(ctx, item.tx) { SeedsInOrder(item, |item.tx.actions|); }
  }

  lemma {:induction false} StoredSeeds(events: map<string, Seed>, seeds: seq<Seed>)
    requires forall s, t :: s in seeds && t in seeds && s.txHash == t.txHash && s.actionIndex == t.actionIndex ==> s == t
    ensures forall s :: s in seeds ==> HasSeed(WithSeeds(events, seeds), s)
    ensures forall k :: k in WithSeeds(events, seeds) ==>
      (k in events && WithSeeds(events, seeds)[k] == events[k]) ||
      (WithSeeds(events, seeds)[k] in seeds && k == SeedKey(WithSeeds(events, seeds)[k].txHash, WithSeeds(events, seeds)[k].actionIndex))
    ensures forall k :: k in events ==> k in WithSeeds(events, seeds)
    decreases |seeds|
  {
    hide SeedKey;
    if seeds != [] {
      var n := |seeds| - 1;
      var last := seeds[n];
      assert seeds == seeds[..n] + [last];
      StoredSeeds(events, seeds[..n]);
      forall s | s in seeds
        ensures HasSeed(WithSeeds(events, seeds), s)
      {
        if SeedKey(s.txHash, s.actionIndex) == SeedKey(last.txHash, last.actionIndex) {
          SeedKeyInjective(s.txHash, s.actionIndex, last.txHash, last.actionIndex);
        }
      }
    }
  }

  lemma TransactionsStayExact(ctx: Context, items: set<Item>, rows: Rows, x: Item)
    requires ExactTransactions(ctx, items, rows.transactions) && Consistent(items + {x})
    ensures ExactTransactions(ctx, items + {x}, AfterTx(ctx, rows, x).transactions)
  {
    hide NearRowOf, UserRowOf, WithSeeds, SeedsOf;
    assert x in items + {x};
    forall h | h in AfterTx(ctx, rows, x).transactions
      ensures exists y :: y in items + {x} && y.tx.hash == h && NearRowOf(ctx, y).Some?
    {
      if !(h == x.tx.hash && NearRowOf(ctx, x).Some?) {
        var y :| y in items && y.tx.hash == h && NearRowOf(ctx, y).Some?;
        assert y in items + {x};
      }
    }
  }

  lemma UserTxsStayExact(ctx: Context, items: set<Item>, rows: Rows, x: Item)
    requires ExactUserTxs(ctx, items, rows.userTxs) && Consistent(items + {x})
    ensures ExactUserTxs(ctx, items + {x}, AfterTx(ctx, rows, x).userTxs)
  {
    hide NearRowOf, UserRowOf, WithSeeds, SeedsOf;
    assert x in items + {x};
    if x.tx.hash in rows.userTxs {
      var y :| y in items && y.tx.hash == x.tx.hash && UserRowOf(ctx, y).Some?;
      assert y in items + {x} && y == x;
    }
    forall h | h in AfterTx(ctx, rows, x).userTxs
      ensures exists y :: y in items + {x} && y.tx.hash == h && UserRowOf(ctx, y).Some?
    {
      if !(h == x.tx.hash && UserRowOf(ctx, x).Some?) {
        var y :| y in items && y.tx.hash == h && UserRowOf(ctx, y).Some?;
        assert y in items + {x};
      }
    }
  }

  lemma SignEventsStayExact(ctx: Context, items: set<Item>, rows: Rows, x: Item)
    requires ExactSignEvents(ctx, items, rows.signEvents) && Consistent(items + {x})
    ensures ExactSignEvents(ctx, items + {x}, AfterTx(ctx, rows, x).signEvents)
  {
    var before, after := rows.signEvents, AfterTx(ctx, rows, x).signEvents;
    SeedsBelong(ctx, x);
    StoredSeeds(before, SeedsOf(ctx, x));
    hide NearRowOf, UserRowOf, WithSeeds, SeedsOf, SeedKey, AfterTx;
    assert after == WithSeeds(before, SeedsOf(ctx, x)) by { SeedsAreStored(ctx, rows, x); }
    forall y, s | y in items + {x} && s in SeedsOf(ctx, y)
      ensures HasSeed(after, s)
    {
      if y != x { OlderSeedStays(ctx, items, rows, x, y, s); }
    }
    forall k | k in after
      ensures exists y :: y in items + {x} && after[k] in SeedsOf(ctx, y) && HasSeed(after, after[k]) && k == SeedKey(after[k].txHash, after[k].actionIndex)
    {
      if after[k] in SeedsOf(ctx, x) && k == SeedKey(after[k].txHash, after[k].actionIndex) {
        assert x in items + {x};
      } else {
        var y :| y in items && before[k] in SeedsOf(ctx, y) && k == SeedKey(before[k].txHash, before[k].actionIndex);
        assert y in items + {x};
      }
    }
  }

  lemma SeedsAreStored(ctx: Context, rows: Rows, x: Item)
    ensures AfterTx(ctx, rows, x).signEvents == WithSeeds(rows.signEvents, SeedsOf(ctx, x))
  {
    SeedsBelong(ctx, x);
  }

  lemma OlderSeedStays(ctx: Context, items: set<Item>, rows: Rows, x: Item, y: Item, s: Seed)
    requires ExactSignEvents(ctx, items, rows.signEvents) && Consistent(items + {x})
    requires y in items && y != x && s in SeedsOf(ctx, y)
    ensures HasSeed(WithSeeds(rows.signEvents, SeedsOf(ctx, x)), s)
  {
    SeedsBelong(ctx, x);
    SeedsBelong(ctx, y);
    StoredSeeds(rows.signEvents, SeedsOf(ctx, x));
    hide WithSeeds, SeedsOf, SeedKey;
    assert y in items + {x} && x in items + {x};
    var k := SeedKey(s.txHash, s.actionIndex);
    assert HasSeed(rows.signEvents, s);
    var found := WithSeeds(rows.signEvents, SeedsOf(ctx, x))[k];
    if found != s {
      SeedKeyInjective(s.txHash, s.actionIndex, found.txHash, found.actionIndex);
    }
  }

  function ItemSet(items: seq<Item>): set<Item> { set x | x in items }

  /** The rows of a list of transactions say of each what it calls for, and nothing more. */
  lemma {:induction false} RowsAreExact(ctx: Context, items: seq<Item>)
    requires Consistent(ItemSet(items))
    ensures Exact(ctx, ItemSet(items), AfterTxs(ctx, NO_ROWS, items))
    decreases |items|
  {
    hide ExactTransactions, ExactUserTxs, ExactSignEvents, AfterTx;
    if items == [] {
      NothingIsExact(ctx);
      assert ItemSet(items) == {};
    } else {
      var n := |items| - 1;
      var front, x := items[..n], items[n];
      assert items == front + [x];
      assert ItemSet(items) == ItemSet(front) + {x};
      RowsAreExact(ctx, front);
      var rows := AfterTxs(ctx, NO_ROWS, front);
      TransactionsStayExact(ctx, ItemSet(front), rows, x);
      UserTxsStayExact(ctx, ItemSet(front), rows, x);
      SignEventsStayExact(ctx, ItemSet(front), rows, x);
    }
  }

  lemma NothingIsExact(ctx: Context)
    ensures Exact(ctx, {}, NO_ROWS)
  {
  }

  // ----- what each transaction leaves, field by field -------------------------

  /** A transaction has a row exactly when it calls a configured contract, and this row. */
  lemma NearRowsSay(ctx: Context, items: seq<Item>, x: Item)
    requires Consistent(ItemSet(items)) && x in items
    ensures var rows := AfterTxs(ctx, NO_ROWS, items).transactions;
      var tx := x.tx;
      && (tx.hash in rows <==> tx.hash != "" && tx.receiver.Some? && tx.receiver.value != "" && tx.receiver.value in ctx.contracts)
      && (tx.hash in rows ==>
            var row := rows[tx.hash];
            row.block == x.block && row.signer == tx.signer && tx.receiver == Some(row.receiver) && row.details == tx.details)
  {
    RowsAreExact(ctx, items);
    hide AfterTxs, AfterTx;
    assert x in ItemSet(items);
  }

  /**
   * A user row is that of the signer, if the signer has a FastAuth account, and else that
   * of the sender of a delegate action, if that has one; calls of the contracts have none.
   */
  lemma UserRowsSay(ctx: Context, items: seq<Item>, x: Item)
    requires Consistent(ItemSet(items)) && x in items
    ensures var rows := AfterTxs(ctx, NO_ROWS, items).userTxs;
      var tx := x.tx;
      var ofContract := tx.receiver.Some? && tx.receiver.value in ctx.contracts;
      var direct := tx.signer.Some? && tx.signer.value != "" && tx.signer.value in ctx.accounts;
      if tx.hash == "" || ofContract then tx.hash !in rows
      else if direct then
        && (tx.hash in rows <==> tx.receiver.Some? && tx.receiver.value != "")
        && (tx.hash in rows ==>
              var row := rows[tx.hash];
              && row.block == x.block && row.details == tx.details && !row.metaWrapped && row.relayer == None
              && tx.signer == Some(row.signer) && tx.receiver == Some(row.receiver)
              && row.value == ctx.pricing(row.receiver, tx.details))
      else
        && (tx.hash in rows <==>
              && tx.delegate.Some? && tx.delegate.value.innerSigner.Some?
              && tx.delegate.value.innerSigner.value != "" && tx.delegate.value.innerSigner.value in ctx.accounts)
        && (tx.hash in rows ==>
              var row, d := rows[tx.hash], tx.delegate.value;
              && row.block == x.block && row.details == d.details && row.metaWrapped && row.relayer == tx.signer
              && d.innerSigner == Some(row.signer) && row.receiver == d.innerReceiver
              && row.value == ctx.pricing(d.innerReceiver, d.details))
  {
    RowsAreExact(ctx, items);
    hide AfterTxs, AfterTx, ExactSignEvents, ExactTransactions;
    assert x in ItemSet(items);
  }

  /** An action has a sign event exactly when it calls `sign` in a relayed call of a contract, and this one. */
  lemma SignEventsSay(ctx: Context, items: seq<Item>, x: Item, i: nat)
    requires Consistent(ItemSet(items)) && x in items
    ensures var events := AfterTxs(ctx, NO_ROWS, items).signEvents;
      var tx, key := x.tx, SeedKey(x.tx.hash, i);
      && (key in events <==>
            && tx.hash != "" && tx.receiver.Some? && tx.receiver.value != "" && tx.receiver.value in ctx.contracts
            && tx.signer.Some? && tx.signer.value != ""
            && i < |tx.actions| && tx.actions[i].FunctionCall? && tx.actions[i].methodName == Some("sign"))
      && (key in events ==> events[key].actionIndex == i && IsSeed(x, events[key]))
  {
    RowsAreExact(ctx, items);
    hide AfterTxs, AfterTx, SeedKey, ExactTransactions, ExactUserTxs, IsSeed;
    assert x in ItemSet(items);
    var events, key := AfterTxs(ctx, NO_ROWS, items).signEvents, SeedKey(x.tx.hash, i);
    if SignsAnything(ctx, x.tx) { SeedsInOrder(x, |x.tx.actions|); }
    hide SeedsUpTo;
    if SignsAnything(ctx, x.tx) && i < |x.tx.actions| && IsSign(x.tx.actions[i]) {
      assert SeedAt(x, i) in SeedsOf(ctx, x);
      assert HasSeed(events, SeedAt(x, i));
    }
    if key in events {
      var s := events[key];
      var y :| y in ItemSet(items) && s in SeedsOf(ctx, y) && key == SeedKey(s.txHash, s.actionIndex);
      SeedKeyInjective(s.txHash, s.actionIndex, x.tx.hash, i);
      SeedsBelong(ctx, y);
      assert y == x;
    }
  }

  /** Where the payload is an encoded delegate action, what was signed is the name of its first action. */
  lemma SignedActionType(x: Item, s: Seed, d: DelegateFormat.DelegateAction, rest: DelegateFormat.Bytes)
    ensures IsSeed(x, s) && DelegateFormat.Fits(d)
      && x.tx.actions[s.actionIndex].payload == Some(DelegateFormat.EncodeMessage(d) + rest)
      ==> s.actionType == Some(if d.actions == [] then "Empty" else DelegateFormat.ActionName(d.actions[0]))
  {
    hide DelegateFormat.EncodeMessage, SignPayload.SignActionType, DelegateFormat.Fits;
    if !DelegateFormat.Fits(d) { return; }
    SignPayload.TaggedActionType(d, rest, DelegateFormat.EncodeMessage(d) + rest);
  }

  /** The transactions decide the rows. */
  lemma ExactDecides(ctx: Context, items: set<Item>, a: Rows, b: Rows)
    requires Exact(ctx, items, a) && Exact(ctx, items, b) && Consistent(items)
    ensures a == b
  {
    hide NearRowOf, UserRowOf, SeedsOf, SeedKey;
    assert a.transactions == b.transactions;
    assert a.userTxs == b.userTxs;
    SameSignEvents(ctx, items, a.signEvents, b.signEvents);
    SameSignEvents(ctx, items, b.signEvents, a.signEvents);
    assert a.signEvents == b.signEvents;
  }

  lemma SameSignEvents(ctx: Context, items: set<Item>, a: map<string, Seed>, b: map<string, Seed>)
    requires ExactSignEvents(ctx, items, a) && ExactSignEvents(ctx, items, b)
    ensures forall k :: k in a ==> k in b && b[k] == a[k]
  {
    hide SeedsOf, SeedKey;
    forall k | k in a ensures k in b && b[k] == a[k] {
      var x :| x in items && a[k] in SeedsOf(ctx, x) && k == SeedKey(a[k].txHash, a[k].actionIndex);
      assert HasSeed(b, a[k]);
    }
  }

  /** Two orders of the same transactions give the same rows. */
  lemma OrderDoesNotMatter(ctx: Context, items: seq<Item>, others: seq<Item>)
    requires Consistent(ItemSet(items)) && ItemSet(items) == ItemSet(others)
    ensures AfterTxs(ctx, NO_ROWS, items) == AfterTxs(ctx, NO_ROWS, others)
  {
    hide Exact, AfterTxs;
    RowsAreExact(ctx, items);
    RowsAreExact(ctx, others);
    ExactDecides(ctx, ItemSet(items), AfterTxs(ctx, NO_ROWS, items), AfterTxs(ctx, NO_ROWS, others));
  }

  /** No hash has both kinds of rows. */
  lemma KindsAreDisjoint(ctx: Context, items: seq<Item>)
    requires Consistent(ItemSet(items))
    ensures AfterTxs(ctx, NO_ROWS, items).transactions.Keys !! AfterTxs(ctx, NO_ROWS, items).userTxs.Keys
  {
    RowsAreExact(ctx, items);
    var rows := AfterTxs(ctx, NO_ROWS, items);
    hide AfterTxs, AfterTx, ExactSignEvents;
    forall h | h in rows.transactions ensures h !in rows.userTxs {
      var x :| x in ItemSet(items) && x.tx.hash == h && NearRowOf(ctx, x).Some?;
      assert UserRowOf(ctx, x).None?;
      assert forall y :: y in ItemSet(items) && y.tx.hash == h ==> y == x;
    }
  }

  // ----- block by block into the tables ---------------------------------------

  function Ignoring<V>(table: map<string, V>, rows: map<string, V>): map<string, V> {
    rows + table
  }

  /** Rows are inserted unless their key is taken. */
  function InsertOrIgnore(db: Rows, rows: Rows): Rows {
    Rows(Ignoring(db.transactions, rows.transactions), Ignoring(db.signEvents, rows.signEvents), Ignoring(db.userTxs, rows.userTxs))
  }

  /** The tables after the blocks of a chain have been persisted one after another. */
  function AfterBlocks(ctx: Context, blocks: seq<seq<Item>>): Rows
    decreases |blocks|
  {
    if blocks == [] then NO_ROWS
    else InsertOrIgnore(AfterBlocks(ctx, blocks[..|blocks| - 1]), AfterTxs(ctx, NO_ROWS, blocks[|blocks| - 1]))
  }

  function AllItems(blocks: seq<seq<Item>>): set<Item>
    decreases |blocks|
  {
    if blocks == [] then {} else AllItems(blocks[..|blocks| - 1]) + ItemSet(blocks[|blocks| - 1])
  }

  lemma InsertStaysExact(ctx: Context, a: set<Item>, b: set<Item>, db: Rows, rows: Rows)
    requires Exact(ctx, a, db) && Exact(ctx, b, rows) && Consistent(a + b)
    ensures Exact(ctx, a + b, InsertOrIgnore(db, rows))
  {
    hide NearRowOf, UserRowOf, SeedsOf, SeedKey;
    InsertTransactions(ctx, a, b, db.transactions, rows.transactions);
    InsertUserTxs(ctx, a, b, db.userTxs, rows.userTxs);
    InsertSignEvents(ctx, a, b, db.signEvents, rows.signEvents);
    hide ExactTransactions, ExactUserTxs, ExactSignEvents, Consistent;
  }

  lemma InsertTransactions(ctx: Context, a: set<Item>, b: set<Item>, db: map<string, NearRow>, rows: map<string, NearRow>)
    requires ExactTransactions(ctx, a, db) && ExactTransactions(ctx, b, rows) && Consistent(a + b)
    ensures ExactTransactions(ctx, a + b, Ignoring(db, rows))
  {
    hide NearRowOf;
    forall x | x in a + b && NearRowOf(ctx, x).Some?
      ensures x.tx.hash in Ignoring(db, rows) && Ignoring(db, rows)[x.tx.hash] == NearRowOf(ctx, x).value
    {
      if x.tx.hash in db {
        var y :| y in a && y.tx.hash == x.tx.hash && NearRowOf(ctx, y).Some?;
        assert y in a + b;
      }
    }
    forall h | h in Ignoring(db, rows) ensures exists x :: x in a + b && x.tx.hash == h && NearRowOf(ctx, x).Some? {
      if h in db {
        var y :| y in a && y.tx.hash == h && NearRowOf(ctx, y).Some?;
        assert y in a + b;
      } else {
        var y :| y in b && y.tx.hash == h && NearRowOf(ctx, y).Some?;
        assert y in a + b;
      }
    }
  }

  lemma InsertUserTxs(ctx: Context, a: set<Item>, b: set<Item>, db: map<string, UserRow>, rows: map<string, UserRow>)
    requires ExactUserTxs(ctx, a, db) && ExactUserTxs(ctx, b, rows) && Consistent(a + b)
    ensures ExactUserTxs(ctx, a + b, Ignoring(db, rows))
  {
    hide UserRowOf;
    forall x | x in a + b && UserRowOf(ctx, x).Some?
      ensures x.tx.hash in Ignoring(db, rows) && Ignoring(db, rows)[x.tx.hash] == UserRowOf(ctx, x).value
    {
      if x.tx.hash in db {
        var y :| y in a && y.tx.hash == x.tx.hash && UserRowOf(ctx, y).Some?;
        assert y in a + b;
      }
    }
    forall h | h in Ignoring(db, rows) ensures exists x :: x in a + b && x.tx.hash == h && UserRowOf(ctx, x).Some? {
      if h in db {
        var y :| y in a && y.tx.hash == h && UserRowOf(ctx, y).Some?;
        assert y in a + b;
      } else {
        var y :| y in b && y.tx.hash == h && UserRowOf(ctx, y).Some?;
        assert y in a + b;
      }
    }
  }

  lemma InsertSignEvents(ctx: Context, a: set<Item>, b: set<Item>, db: map<string, Seed>, rows: map<string, Seed>)
    requires ExactSignEvents(ctx, a, db) && ExactSignEvents(ctx, b, rows) && Consistent(a + b)
    ensures ExactSignEvents(ctx, a + b, Ignoring(db, rows))
  {
    var all := Ignoring(db, rows);
    hide SeedsOf, SeedKey;
    forall x, s | x in a + b && s in SeedsOf(ctx, x)
      ensures HasSeed(all, s)
    {
      var k := SeedKey(s.txHash, s.actionIndex);
      if k in db {
        var y :| y in a && db[k] in SeedsOf(ctx, y) && k == SeedKey(db[k].txHash, db[k].actionIndex);
        SeedKeyInjective(s.txHash, s.actionIndex, db[k].txHash, db[k].actionIndex);
        SeedsBelong(ctx, x);
        SeedsBelong(ctx, y);
        assert y in a + b;
      } else {
        assert x in a ==> HasSeed(db, s);
        assert HasSeed(rows, s);
      }
    }
    forall k | k in all
      ensures exists x :: x in a + b && all[k] in SeedsOf(ctx, x) && HasSeed(all, all[k]) && k == SeedKey(all[k].txHash, all[k].actionIndex)
    {
      if k in db {
        var y :| y in a && db[k] in SeedsOf(ctx, y) && k == SeedKey(db[k].txHash, db[k].actionIndex);
        assert y in a + b;
      } else {
        var y :| y in b && rows[k] in SeedsOf(ctx, y) && k == SeedKey(rows[k].txHash, rows[k].actionIndex);
        assert y in a + b;
      }
    }
  }

  lemma {:induction false} TablesAreExact(ctx: Context, blocks: seq<seq<Item>>)
    requires Consistent(AllItems(blocks))
    ensures Exact(ctx, AllItems(blocks), AfterBlocks(ctx, blocks))
    decreases |blocks|
  {
    hide Exact, AfterTxs, InsertOrIgnore, ItemSet;
    if blocks == [] {
      NothingIsExact(ctx);
    } else {
      var n := |blocks| - 1;
      TablesAreExact(ctx, blocks[..n]);
      RowsAreExact(ctx, blocks[n]);
      InsertStaysExact(ctx, AllItems(blocks[..n]), ItemSet(blocks[n]), AfterBlocks(ctx, blocks[..n]), AfterTxs(ctx, NO_ROWS, blocks[n]));
    }
  }

  /**
   * The tables depend on the transactions only: neither on the order of the blocks,
   * nor on the order within them, nor on blocks being processed more than once.
   */
  lemma TablesAreDecided(ctx: Context, blocks: seq<seq<Item>>, others: seq<seq<Item>>)
    requires Consistent(AllItems(blocks)) && AllItems(blocks) == AllItems(others)
    ensures AfterBlocks(ctx, blocks) == AfterBlocks(ctx, others)
  {
    hide Exact, AfterBlocks;
    TablesAreExact(ctx, blocks);
    TablesAreExact(ctx, others);
    ExactDecides(ctx, AllItems(blocks), AfterBlocks(ctx, blocks), AfterBlocks(ctx, others));
  }
}
