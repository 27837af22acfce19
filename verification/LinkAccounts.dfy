/**
 * The public-key resolver: which event speaks for a key, how a batch of looked-up
 * (key, account) pairs changes the link and account tables, and who owns a key.
 */
module LinkAccounts {
  import opened Options
  import Text

  datatype EventRow = EventRow(id: nat, derivedKey: Option<string>, keyPath: Option<string>, domain: Option<int>, contract: string, time: int)

  datatype Meta = Meta(eventId: nat, time: int, keyPath: Option<string>, predecessor: string, domain: Option<int>)

  function MetaOf(e: EventRow): Meta { Meta(e.id, e.time, e.keyPath, e.contract, e.domain) }

  /** An event's key: the stored one, trimmed, or the one just derived for it; an empty string is none. */
  function KeyOf(e: EventRow, derived: map<nat, string>): Option<string> {
    var stored := if e.derivedKey.Some? then Text.Trim(e.derivedKey.value) else "";
    if stored != "" then Some(stored)
    else if e.id in derived && derived[e.id] != "" then Some(derived[e.id])
    else None
  }

  /** The key an event has: what is stored, but for blanks around it; with nothing stored, what was derived. */
  lemma KeyOfExactly(e: EventRow, derived: map<nat, string>, k: string)
    ensures KeyOf(e, derived) == Some(k) <==>
      k != "" &&
      if e.derivedKey.Some? && !Text.AllBlank(e.derivedKey.value)
      then Text.IsTrimmed(e.derivedKey.value, k)
      else e.id in derived && derived[e.id] == k
  {
    if e.derivedKey.Some? {
      var s := e.derivedKey.value;
      Text.TrimExactly(s, k);
      Text.TrimExactly(s, Text.Trim(s));
      hide Text.Trim, Text.IsTrimmed;
    }
  }

  /** Event `i` is the last with key `k`. */
  ghost predicate SpeaksFor(events: seq<EventRow>, derived: map<nat, string>, k: string, i: int) {
    && 0 <= i < |events| && KeyOf(events[i], derived) == Some(k)
    && forall j :: i < j < |events| ==> KeyOf(events[j], derived) != Some(k)
  }

  /** Each key gets the last of its events, and every key an event has is there. */
  method BuildLatestEventByKey(events: seq<EventRow>, derived: map<nat, string>) returns (latest: map<string, Meta>)
    ensures forall k, i :: SpeaksFor(events, derived, k, i) ==> k in latest && latest[k] == MetaOf(events[i])
    ensures forall k :: k in latest ==> exists i :: SpeaksFor(events, derived, k, i)
    ensures forall k, i :: SpeaksFor(events, derived, k, i) ==>
      latest[k] == Meta(events[i].id, events[i].time, events[i].keyPath, events[i].contract, events[i].domain)
  {
    latest := map[];
    for n := 0 to |events|
      invariant forall k, i :: SpeaksFor(events[..n], derived, k, i) ==> k in latest && latest[k] == MetaOf(events[i])
      invariant forall k :: k in latest ==> exists i :: SpeaksFor(events[..n], derived, k, i)
    {
      var key := KeyOf(events[n], derived);
      ghost var before, was := events[..n], latest;
      ghost var after := events[..n + 1];
      assert after == before + [events[n]];
      if key.Some? {
        latest := latest[key.value := MetaOf(events[n])];
      }
      forall k | k in latest
        ensures exists i :: SpeaksFor(after, derived, k, i)
      {
        if key == Some(k) {
          assert SpeaksFor(after, derived, k, n);
        } else {
          var i :| SpeaksFor(before, derived, k, i);
          assert SpeaksFor(after, derived, k, i);
        }
      }
      forall k, i | SpeaksFor(after, derived, k, i)
        ensures k in latest && latest[k] == MetaOf(events[i])
      {
        if i < n {
          assert after[n] == events[n];
          assert forall j :: 0 <= j < n ==> before[j] == after[j];
          assert SpeaksFor(before, derived, k, i);
        }
      }
    }
    assert events[..|events|] == events;
  }

  // ----- the pairs of a batch -------------------------------------------------

  datatype LookupRow = LookupRow(key: string, meta: Meta, accounts: seq<string>)

  datatype Pair = Pair(key: string, account: string, meta: Meta)

  type Link = (string, string)

  function LinkOf(p: Pair): Link { (p.key, p.account) }

  function PairsOfRow(row: LookupRow): (ps: seq<Pair>)
    ensures |ps| == |row.accounts| && forall i :: 0 <= i < |ps| ==> ps[i] == Pair(row.key, row.accounts[i], row.meta)
  {
    seq(|row.accounts|, i requires 0 <= i < |row.accounts| => Pair(row.key, row.accounts[i], row.meta))
  }

  function PairsOf(rows: seq<LookupRow>): seq<Pair> {
    if rows == [] then [] else PairsOf(rows[..|rows| - 1]) + PairsOfRow(rows[|rows| - 1])
  }

  /** What the lookup guarantees: keys and a row's accounts do not repeat, and account ids have no colon. */
  ghost predicate GoodRows(rows: seq<LookupRow>) {
    && (forall i, j :: 0 <= i < j < |rows| ==> rows[i].key != rows[j].key)
    && (forall i :: 0 <= i < |rows| ==> GoodAccounts(rows[i].accounts))
  }

  ghost predicate GoodAccounts(accounts: seq<string>) {
    && (forall i, j :: 0 <= i < j < |accounts| ==> accounts[i] != accounts[j])
    && (forall i :: 0 <= i < |accounts| ==> ':' !in accounts[i])
  }

  ghost predicate GoodPairs(pairs: seq<Pair>) {
    && (forall i, j :: 0 <= i < j < |pairs| ==> LinkOf(pairs[i]) != LinkOf(pairs[j]))
    && (forall i, j :: 0 <= i < |pairs| && 0 <= j < |pairs| && pairs[i].key == pairs[j].key ==> pairs[i].meta == pairs[j].meta)
    && (forall i :: 0 <= i < |pairs| ==> ':' !in pairs[i].account)
  }

  /** No pair of a batch repeats, and the pairs of a key share its event. */
  lemma {:induction false} RowsGivePairs(rows: seq<LookupRow>)
    requires GoodRows(rows)
    ensures GoodPairs(PairsOf(rows))
    ensures forall p :: p in PairsOf(rows) ==> exists i :: 0 <= i < |rows| && p.key == rows[i].key
  {
    if rows != [] {
      var n := |rows| - 1;
      RowsGivePairs(rows[..n]);
      assert GoodAccounts(rows[n].accounts);
      var front, back := PairsOf(rows[..n]), PairsOfRow(rows[n]);
      forall p | p in front
        ensures p.key != rows[n].key && exists i :: 0 <= i < |rows| && p.key == rows[i].key
      {
        var i :| 0 <= i < n && p.key == rows[..n][i].key;
        assert rows[i].key == p.key;
      }
      forall i | 0 <= i < |front| ensures front[i].key != rows[n].key { assert front[i] in front; }
      forall p | p in back ensures p.key == rows[n].key { }
    }
  }

  /** The pairs of a batch are all the accounts of all its rows, with the row's key and event. */
  lemma {:induction false} PairsExactly(rows: seq<LookupRow>, p: Pair)
    ensures p in PairsOf(rows) <==>
            exists i :: 0 <= i < |rows| && p.key == rows[i].key && p.meta == rows[i].meta && p.account in rows[i].accounts
  {
    if rows != [] {
      var n := |rows| - 1;
      PairsExactly(rows[..n], p);
      assert p in PairsOfRow(rows[n]) <==> p.key == rows[n].key && p.meta == rows[n].meta && p.account in rows[n].accounts by {
        if p.key == rows[n].key && p.meta == rows[n].meta && p.account in rows[n].accounts {
          var j :| 0 <= j < |rows[n].accounts| && rows[n].accounts[j] == p.account;
          assert PairsOfRow(rows[n])[j] == p;
        }
      }
      assert forall i :: 0 <= i < n ==> rows[..n][i] == rows[i];
    }
  }

  /** The string that stands for a pair in the set of known links. */
  function LinkKey(key: string, account: string): string { key + "::" + account }

  /** Since accounts have no colon, different pairs have different strings, whatever the keys. */
  lemma LinkKeyInjective(k1: string, a1: string, k2: string, a2: string)
    requires ':' !in a1 && ':' !in a2 && LinkKey(k1, a1) == LinkKey(k2, a2)
    ensures k1 == k2 && a1 == a2
  {
    assert LinkKey(k1, a1) == (k1 + ":") + ":" + a1 && LinkKey(k2, a2) == (k2 + ":") + ":" + a2;
    Text.SplitAtLastColon(k1 + ":", a1, k2 + ":", a2);
    assert (k1 + ":")[..|k1|] == k1 && (k2 + ":")[..|k2|] == k2;
  }

  // ----- what a batch says about each account ---------------------------------

  datatype Aggregate = Aggregate(firstSeen: int, lastSeen: int, lastEvent: nat, newLinks: nat)

  function Join(sofar: Option<Aggregate>, m: Meta, isNew: bool): Aggregate {
    var one: nat := if isNew then 1 else 0;
    match sofar
    case None => Aggregate(m.time, m.time, m.eventId, one)
    case Some(a) => Aggregate(
      if m.time < a.firstSeen then m.time else a.firstSeen,
      if m.time > a.lastSeen then m.time else a.lastSeen,
      if m.eventId > a.lastEvent then m.eventId else a.lastEvent,
      a.newLinks + one)
  }

  function Lookup<V>(m: map<string, V>, k: string): Option<V> { if k in m then Some(m[k]) else None }

  function Aggregates(pairs: seq<Pair>, links: set<Link>): map<string, Aggregate>
    decreases |pairs|
  {
    if pairs == [] then map[]
    else
      var before := Aggregates(pairs[..|pairs| - 1], links);
      var p := pairs[|pairs| - 1];
      before[p.account := Join(Lookup(before, p.account), p.meta, LinkOf(p) !in links)]
  }

  /** The links of a batch that the table does not have, all or those of an account. */
  function NewLinks(pairs: seq<Pair>, links: set<Link>): set<Link> {
    set p | p in pairs && LinkOf(p) !in links :: LinkOf(p)
  }

  function Of(links: set<Link>, account: string): (s: set<Link>)
    ensures s <= links
  {
    set l | l in links && l.1 == account
  }

  /** `a` sums up the pairs of `account`: the extremes of their events, and how many are new. */
  ghost predicate SumsUp(pairs: seq<Pair>, links: set<Link>, account: string, a: Aggregate) {
    && (forall p :: p in pairs && p.account == account ==>
          a.firstSeen <= p.meta.time <= a.lastSeen && p.meta.eventId <= a.lastEvent)
    && (exists p :: p in pairs && p.account == account && p.meta.time == a.firstSeen)
    && (exists p :: p in pairs && p.account == account && p.meta.time == a.lastSeen)
    && (exists p :: p in pairs && p.account == account && p.meta.eventId == a.lastEvent)
    && a.newLinks == |Of(NewLinks(pairs, links), account)|
  }

  lemma {:induction false} AggregatesAreRight(pairs: seq<Pair>, links: set<Link>, account: string)
    requires GoodPairs(pairs)
    ensures account in Aggregates(pairs, links) <==> exists p :: p in pairs && p.account == account
    ensures account in Aggregates(pairs, links) ==> SumsUp(pairs, links, account, Aggregates(pairs, links)[account])
    decreases |pairs|
  {
    if pairs != [] {
      var n := |pairs| - 1;
      var front, last := pairs[..n], pairs[n];
      assert pairs == front + [last];
      AggregatesAreRight(front, links, account);
      if last.account == account {
        TouchedIsRight(front, last, links, account);
      } else {
        UntouchedIsRight(front, last, links, account);
      }
    }
  }

  /** What is right of an account after the pairs `pairs`. */
  ghost predicate RightFor(pairs: seq<Pair>, links: set<Link>, account: string) {
    && (account in Aggregates(pairs, links) <==> exists p :: p in pairs && p.account == account)
    && (account in Aggregates(pairs, links) ==> SumsUp(pairs, links, account, Aggregates(pairs, links)[account]))
  }

  lemma AggregatesOneMore(front: seq<Pair>, last: Pair, links: set<Link>)
    ensures Aggregates(front + [last], links) ==
            Aggregates(front, links)[last.account := Join(Lookup(Aggregates(front, links), last.account), last.meta, LinkOf(last) !in links)]
  {
    assert (front + [last])[..|front|] == front;
  }

  lemma TouchedIsRight(front: seq<Pair>, last: Pair, links: set<Link>, account: string)
    requires GoodPairs(front + [last]) && RightFor(front, links, account) && last.account == account
    ensures RightFor(front + [last], links, account)
  {
    AggregatesOneMore(front, last, links);
    NewLinksOneMore(front, last, links, account);
    if account !in Aggregates(front, links) { assert Of(NewLinks(front, links), account) == {}; }
    hide Aggregates, GoodPairs, NewLinks, Of;
    assert (front + [last])[|front|] == last;
    if account !in Aggregates(front, links) { NothingTouched(front, links, account); }
    ExtremesOneMore(front, last, links, account);
    hide SumsUp, Join;
  }

  lemma NothingTouched(front: seq<Pair>, links: set<Link>, account: string)
    requires RightFor(front, links, account) && account !in Aggregates(front, links)
    ensures forall p :: p in front ==> p.account != account
  {
  }

  lemma UntouchedIsRight(front: seq<Pair>, last: Pair, links: set<Link>, account: string)
    requires RightFor(front, links, account) && last.account != account
    ensures RightFor(front + [last], links, account)
  {
    AggregatesOneMore(front, last, links);
    SumsUpUnchanged(front, last, links, account);
    hide Aggregates, SumsUp;
    forall p | p in front ensures p in front + [last] { }
  }

  lemma ExtremesOneMore(front: seq<Pair>, last: Pair, links: set<Link>, account: string)
    requires last.account == account
    requires account in Aggregates(front, links) ==> SumsUp(front, links, account, Aggregates(front, links)[account])
    requires account !in Aggregates(front, links) ==> forall p :: p in front ==> p.account != account
    requires |Of(NewLinks(front + [last], links), account)| ==
      (if account in Aggregates(front, links) then Aggregates(front, links)[account].newLinks else 0) + (if LinkOf(last) !in links then 1 else 0)
    ensures SumsUp(front + [last], links, account, Join(Lookup(Aggregates(front, links), account), last.meta, LinkOf(last) !in links))
  {
    hide Aggregates, NewLinks, Of;
    var pairs := front + [last];
    var a := Join(Lookup(Aggregates(front, links), account), last.meta, LinkOf(last) !in links);
    assert last in pairs;
    if account in Aggregates(front, links) {
      var was := Aggregates(front, links)[account];
      var p :| p in front && p.account == account && p.meta.time == was.firstSeen;
      var q :| q in front && q.account == account && q.meta.time == was.lastSeen;
      var r :| r in front && r.account == account && r.meta.eventId == was.lastEvent;
      assert p in pairs && q in pairs && r in pairs;
    }
  }

  lemma SumsUpUnchanged(front: seq<Pair>, last: Pair, links: set<Link>, account: string)
    requires last.account != account
    ensures forall a :: SumsUp(front, links, account, a) ==> SumsUp(front + [last], links, account, a)
  {
    var pairs := front + [last];
    assert Of(NewLinks(pairs, links), account) == Of(NewLinks(front, links), account);
    assert forall p :: p in front ==> p in pairs;
    assert forall p :: p in pairs && p.account == account ==> p in front;
  }

  lemma NewLinksOneMore(front: seq<Pair>, last: Pair, links: set<Link>, account: string)
    requires GoodPairs(front + [last])
    ensures |Of(NewLinks(front + [last], links), account)| ==
            |Of(NewLinks(front, links), account)| + (if last.account == account && LinkOf(last) !in links then 1 else 0)
    ensures |NewLinks(front + [last], links)| == |NewLinks(front, links)| + (if LinkOf(last) !in links then 1 else 0)
  {
    var pairs := front + [last];
    var l := LinkOf(last);
    assert l !in NewLinks(front, links) by {
      forall p | p in front ensures LinkOf(p) != l {
        var i :| 0 <= i < |front| && front[i] == p;
        assert pairs[i] == p && pairs[|front|] == last;
      }
    }
    assert last in pairs && forall p :: p in pairs <==> p in front || p == last;
    if l in links {
      assert NewLinks(pairs, links) == NewLinks(front, links);
    } else {
      assert NewLinks(pairs, links) == NewLinks(front, links) + {l};
      hide NewLinks;
      OfOneMore(NewLinks(front, links), l, account);
    }
  }

  lemma OfOneMore(links: set<Link>, l: Link, account: string)
    requires l !in links
    ensures |Of(links + {l}, account)| == |Of(links, account)| + (if l.1 == account then 1 else 0)
  {
    if l.1 == account {
      assert Of(links + {l}, account) == Of(links, account) + {l};
    } else {
      assert Of(links + {l}, account) == Of(links, account);
    }
  }

  ghost function TotalNew(aggregates: map<string, Aggregate>, accounts: set<string>): nat
    requires accounts <= aggregates.Keys
  {
    if accounts == {} then 0
    else
      var a :| a in accounts;
      aggregates[a].newLinks + TotalNew(aggregates, accounts - {a})
  }

  /** The new links of the accounts together are the new links of the batch. */
  lemma NewLinksAddUp(pairs: seq<Pair>, links: set<Link>)
    requires GoodPairs(pairs)
    ensures TotalNew(Aggregates(pairs, links), Aggregates(pairs, links).Keys) == |NewLinks(pairs, links)|
  {
    var aggregates, fresh' := Aggregates(pairs, links), NewLinks(pairs, links);
    forall l | l in fresh'
      ensures l.1 in aggregates
    {
      AggregatesAreRight(pairs, links, l.1);
    }
    forall a | a in aggregates ensures aggregates[a].newLinks == |Of(fresh', a)| { AggregatesAreRight(pairs, links, a); }
    hide Aggregates, NewLinks;
    SumOverAccounts(aggregates, fresh', aggregates.Keys);
  }

  lemma {:induction false} SumOverAccounts(aggregates: map<string, Aggregate>, links: set<Link>, accounts: set<string>)
    requires accounts <= aggregates.Keys
    requires forall l :: l in links ==> l.1 in accounts
    requires forall a :: a in accounts ==> aggregates[a].newLinks == |Of(links, a)|
    ensures TotalNew(aggregates, accounts) == |links|
    decreases accounts
  {
    if accounts == {} {
      assert links == {};
    } else {
      var a :| a in accounts && TotalNew(aggregates, accounts) == aggregates[a].newLinks + TotalNew(aggregates, accounts - {a});
      var rest := links - Of(links, a);
      forall b | b in accounts - {a} ensures Of(rest, b) == Of(links, b) { }
      SumOverAccounts(aggregates, rest, accounts - {a});
    }
  }

  // ----- the tables -----------------------------------------------------------

  datatype LinkRow = LinkRow(keyPath: Option<string>, predecessor: string, domain: Option<int>, firstSeen: int, lastSeen: int, lastEvent: nat)

  datatype AccountRow = AccountRow(firstSeen: int, lastSeen: int, keyCount: int, firstEvent: nat, lastEvent: nat)

  function NewLinkRow(m: Meta): LinkRow { LinkRow(m.keyPath, m.predecessor, m.domain, m.time, m.time, m.eventId) }

  /** The last event of the batch is recorded as the account's first. */
  function NewAccountRow(a: Aggregate): AccountRow { AccountRow(a.firstSeen, a.lastSeen, a.newLinks, a.lastEvent, a.lastEvent) }

  function UpdatedLink(before: map<Link, LinkRow>, p: Pair): LinkRow {
    if LinkOf(p) in before then before[LinkOf(p)].(lastSeen := p.meta.time, lastEvent := p.meta.eventId)
    else NewLinkRow(p.meta)
  }

  function UpdatedAccount(before: map<string, AccountRow>, account: string, a: Aggregate): AccountRow {
    if account in before
    then before[account].(lastSeen := a.lastSeen, lastEvent := a.lastEvent, keyCount := before[account].keyCount + a.newLinks)
    else NewAccountRow(a)
  }

  ghost predicate LinksUpdated(before: map<Link, LinkRow>, after: map<Link, LinkRow>, pairs: seq<Pair>) {
    && (forall p :: p in pairs ==> LinkOf(p) in after && after[LinkOf(p)] == UpdatedLink(before, p))
    && (forall l :: l in before ==> l in after && (after[l] == before[l] || exists p :: p in pairs && LinkOf(p) == l))
    && (forall l :: l in after ==> l in before || exists p :: p in pairs && LinkOf(p) == l)
  }

  predicate AccountsUpdated(before: map<string, AccountRow>, after: map<string, AccountRow>, aggregates: map<string, Aggregate>) {
    && after.Keys == before.Keys + aggregates.Keys
    && (forall a :: a in before && a !in aggregates ==> after[a] == before[a])
    && (forall a :: a in aggregates ==> after[a] == UpdatedAccount(before, a, aggregates[a]))
  }

  /** Every linked account exists and its key count is its number of links. */
  predicate KeyCounts(links: set<Link>, accounts: map<string, AccountRow>) {
    && (forall l :: l in links ==> l.1 in accounts)
    && (forall a :: a in accounts ==> accounts[a].keyCount == |Of(links, a)|)
  }

  lemma UpdatedKeys(before: map<Link, LinkRow>, after: map<Link, LinkRow>, pairs: seq<Pair>)
    requires LinksUpdated(before, after, pairs)
    ensures after.Keys == before.Keys + NewLinks(pairs, before.Keys)
  {
  }

  lemma OfUnion(links: set<Link>, more: set<Link>, account: string)
    requires links !! more
    ensures |Of(links + more, account)| == |Of(links, account)| + |Of(more, account)|
  {
    assert Of(links + more, account) == Of(links, account) + Of(more, account);
  }

  lemma AggregateCounts(pairs: seq<Pair>, links: set<Link>, account: string)
    requires GoodPairs(pairs)
    ensures |Of(NewLinks(pairs, links), account)| ==
            (if account in Aggregates(pairs, links) then Aggregates(pairs, links)[account].newLinks else 0)
  {
    AggregatesAreRight(pairs, links, account);
    if account !in Aggregates(pairs, links) {
      assert Of(NewLinks(pairs, links), account) == {};
    }
  }

  lemma AggregatedAccounts(pairs: seq<Pair>, links: set<Link>)
    requires GoodPairs(pairs)
    ensures forall l :: l in NewLinks(pairs, links) ==> l.1 in Aggregates(pairs, links)
    ensures NewLinks(pairs, links) !! links
  {
    forall l | l in NewLinks(pairs, links) ensures l.1 in Aggregates(pairs, links) {
      AggregatesAreRight(pairs, links, l.1);
    }
  }

  // ----- the two writes of the accounts ---------------------------------------

  /** First the rows of new accounts are inserted, */
  predicate AccountsInserted(before: map<string, AccountRow>, after: map<string, AccountRow>, aggregates: map<string, Aggregate>) {
    && after.Keys == before.Keys + aggregates.Keys
    && (forall a :: a in before ==> after[a] == before[a])
    && (forall a :: a in aggregates && a !in before ==> after[a] == NewAccountRow(aggregates[a]))
  }

  /** and, after the events have been stamped, those that were there are raised. */
  predicate AccountsRaised(before: map<string, AccountRow>, after: map<string, AccountRow>, aggregates: map<string, Aggregate>, existing: set<string>) {
    && after.Keys == before.Keys
    && (forall a :: a in after && a in aggregates && a in existing ==> after[a] == UpdatedAccount(before, a, aggregates[a]))
    && (forall a :: a in after && !(a in aggregates && a in existing) ==> after[a] == before[a])
  }

  lemma InsertThenRaise(before: map<string, AccountRow>, mid: map<string, AccountRow>, after: map<string, AccountRow>, aggregates: map<string, Aggregate>)
    requires AccountsInserted(before, mid, aggregates) && AccountsRaised(mid, after, aggregates, before.Keys)
    ensures AccountsUpdated(before, after, aggregates)
  {
  }

  // ----- what a batch leaves, field by field ----------------------------------

  /** A pair's link was last seen at its event; a new one was first seen then too, an old one keeps what it had. */
  lemma LinkRowsSay(pairs: seq<Pair>, links: map<Link, LinkRow>, links': map<Link, LinkRow>, p: Pair)
    requires LinksUpdated(links, links', pairs) && p in pairs
    ensures LinkOf(p) in links'
    ensures var row, m := links'[LinkOf(p)], p.meta;
      && row.lastSeen == m.time && row.lastEvent == m.eventId
      && if LinkOf(p) in links then
           var was := links[LinkOf(p)];
           row.firstSeen == was.firstSeen && row.keyPath == was.keyPath && row.predecessor == was.predecessor && row.domain == was.domain
         else
           row.firstSeen == m.time && row.keyPath == m.keyPath && row.predecessor == m.predecessor && row.domain == m.domain
  {
  }

  /** The latest time and event among the pairs of an account. */
  ghost predicate LatestOf(pairs: seq<Pair>, account: string, time: int, event: nat) {
    && (forall p :: p in pairs && p.account == account ==> p.meta.time <= time && p.meta.eventId <= event)
    && (exists p :: p in pairs && p.account == account && p.meta.time == time)
    && (exists p :: p in pairs && p.account == account && p.meta.eventId == event)
  }

  ghost predicate EarliestOf(pairs: seq<Pair>, account: string, time: int) {
    && (forall p :: p in pairs && p.account == account ==> time <= p.meta.time)
    && (exists p :: p in pairs && p.account == account && p.meta.time == time)
  }

  /**
   * A batch's account was last seen at the latest of its pairs. A new one was first
   * seen at the earliest, its first event is recorded as the latest, and it has the
   * keys of its new links; an old one keeps its first, and gets as many keys more.
   */
  lemma AccountRowsSay(pairs: seq<Pair>, links: set<Link>, accounts: map<string, AccountRow>, accounts': map<string, AccountRow>, p: Pair)
    requires GoodPairs(pairs) && p in pairs && AccountsUpdated(accounts, accounts', Aggregates(pairs, links))
    ensures p.account in accounts'
    ensures var row := accounts'[p.account];
      var more := |Of(NewLinks(pairs, links), p.account)|;
      && LatestOf(pairs, p.account, row.lastSeen, row.lastEvent)
      && if p.account in accounts then
           var was := accounts[p.account];
           row.firstSeen == was.firstSeen && row.firstEvent == was.firstEvent && row.keyCount == was.keyCount + more
         else
           EarliestOf(pairs, p.account, row.firstSeen) && row.firstEvent == row.lastEvent && row.keyCount == more
  {
    AggregatesAreRight(pairs, links, p.account);
    hide Aggregates, NewLinks, Of, GoodPairs;
  }

  // ----- counts that are short ------------------------------------------------

  /** The counts are right but for the `missing` links, which no account counts. */
  ghost predicate Short(links: set<Link>, accounts: map<string, AccountRow>, missing: set<Link>) {
    && missing <= links
    && (forall l :: l in links && l.1 !in accounts ==> l in missing)
    && (forall a :: a in accounts ==> accounts[a].keyCount + |Of(missing, a)| == |Of(links, a)|)
  }

  /** Counts that are short by nothing are right, and no others. */
  lemma RightExactly(links: set<Link>, accounts: map<string, AccountRow>, missing: set<Link>)
    requires Short(links, accounts, missing)
    ensures KeyCounts(links, accounts) <==> missing == {}
  {
    if l :| l in missing {
      assert l in Of(missing, l.1);
      assert l.1 in accounts ==> accounts[l.1].keyCount != |Of(links, l.1)|;
    }
  }

  lemma RightIsShortByNothing(links: set<Link>, accounts: map<string, AccountRow>)
    requires KeyCounts(links, accounts)
    ensures Short(links, accounts, {})
  {
    forall a | a in accounts ensures |Of({}, a)| == 0 { assert Of({}, a) == {}; }
  }

  /** A batch cut short after its links were written leaves the counts short by its new links. */
  lemma ShortAfterLinks(pairs: seq<Pair>, links: map<Link, LinkRow>, links': map<Link, LinkRow>, accounts: map<string, AccountRow>, missing: set<Link>)
    requires GoodPairs(pairs) && Short(links.Keys, accounts, missing) && LinksUpdated(links, links', pairs)
    ensures Short(links'.Keys, accounts, missing + NewLinks(pairs, links.Keys))
  {
    UpdatedKeys(links, links', pairs);
    var more := NewLinks(pairs, links.Keys);
    AggregatedAccounts(pairs, links.Keys);
    hide LinksUpdated, NewLinks, GoodPairs, Aggregates;
    forall a | a in accounts
      ensures accounts[a].keyCount + |Of(missing + more, a)| == |Of(links'.Keys, a)|
    {
      OfUnion(missing, more, a);
      OfUnion(links.Keys, more, a);
    }
    hide Of;
  }

  /** The new links of accounts that were there before. */
  function OfOldAccounts(links: set<Link>, accounts: map<string, AccountRow>): (old': set<Link>)
    ensures old' <= links
  {
    set l | l in links && l.1 in accounts
  }

  /** Cut short after the insert of new accounts, it leaves them short by the new links of the others. */
  lemma ShortAfterInsert(pairs: seq<Pair>, links: map<Link, LinkRow>, links': map<Link, LinkRow>,
                         accounts: map<string, AccountRow>, accounts': map<string, AccountRow>, missing: set<Link>)
    requires GoodPairs(pairs) && Short(links.Keys, accounts, missing) && LinksUpdated(links, links', pairs)
    requires AccountsInserted(accounts, accounts', Aggregates(pairs, links.Keys))
    ensures Short(links'.Keys, accounts', missing + OfOldAccounts(NewLinks(pairs, links.Keys), accounts))
  {
    UpdatedKeys(links, links', pairs);
    var more := NewLinks(pairs, links.Keys);
    AggregatedAccounts(pairs, links.Keys);
    var left := missing + OfOldAccounts(more, accounts);
    hide LinksUpdated, NewLinks, Aggregates, GoodPairs;
    forall a | a in accounts'
      ensures accounts'[a].keyCount + |Of(left, a)| == |Of(links'.Keys, a)|
    {
      AccountAfterInsert(pairs, links.Keys, accounts, accounts', missing, a);
    }
    hide Of;
  }

  lemma AccountAfterInsert(pairs: seq<Pair>, links: set<Link>, accounts: map<string, AccountRow>, accounts': map<string, AccountRow>, missing: set<Link>, a: string)
    requires GoodPairs(pairs) && Short(links, accounts, missing)
    requires AccountsInserted(accounts, accounts', Aggregates(pairs, links)) && a in accounts'
    ensures accounts'[a].keyCount + |Of(missing + OfOldAccounts(NewLinks(pairs, links), accounts), a)| == |Of(links + NewLinks(pairs, links), a)|
  {
    var more := NewLinks(pairs, links);
    var olds := OfOldAccounts(more, accounts);
    AggregatedAccounts(pairs, links);
    hide NewLinks, Aggregates, GoodPairs;
    AggregateCounts(pairs, links, a);
    OfUnion(links, more, a);
    OfUnion(missing, olds, a);
    assert Of(olds, a) == if a in accounts then Of(more, a) else {};
    if a !in accounts { AbsentAccount(links, accounts, missing, a); }
    hide Of, OfOldAccounts;
  }

  /** A batch that completes leaves the counts exactly as short as it found them. */
  lemma BatchKeepsShort(pairs: seq<Pair>, links: map<Link, LinkRow>, links': map<Link, LinkRow>,
                        accounts: map<string, AccountRow>, accounts': map<string, AccountRow>, missing: set<Link>)
    requires GoodPairs(pairs) && Short(links.Keys, accounts, missing) && LinksUpdated(links, links', pairs)
    requires AccountsUpdated(accounts, accounts', Aggregates(pairs, links.Keys))
    ensures Short(links'.Keys, accounts', missing)
  {
    UpdatedKeys(links, links', pairs);
    var more := NewLinks(pairs, links.Keys);
    AggregatedAccounts(pairs, links.Keys);
    hide LinksUpdated, NewLinks, Aggregates, GoodPairs;
    forall a | a in accounts'
      ensures accounts'[a].keyCount + |Of(missing, a)| == |Of(links'.Keys, a)|
    {
      AccountKeepsShort(pairs, links.Keys, accounts, accounts', missing, a);
    }
    hide Of, UpdatedAccount;
  }

  lemma AccountKeepsShort(pairs: seq<Pair>, links: set<Link>, accounts: map<string, AccountRow>, accounts': map<string, AccountRow>, missing: set<Link>, a: string)
    requires GoodPairs(pairs) && Short(links, accounts, missing)
    requires AccountsUpdated(accounts, accounts', Aggregates(pairs, links)) && a in accounts'
    ensures accounts'[a].keyCount + |Of(missing, a)| == |Of(links + NewLinks(pairs, links), a)|
  {
    var more := NewLinks(pairs, links);
    AggregatedAccounts(pairs, links);
    hide NewLinks, Aggregates, GoodPairs;
    AggregateCounts(pairs, links, a);
    OfUnion(links, more, a);
    if a !in accounts { AbsentAccount(links, accounts, missing, a); }
    hide Of;
  }

  /** The links of an account that is not there are all missing. */
  lemma AbsentAccount(links: set<Link>, accounts: map<string, AccountRow>, missing: set<Link>, a: string)
    requires Short(links, accounts, missing) && a !in accounts
    ensures Of(links, a) == Of(missing, a)
  {
  }

  /** A batch keeps the key counts right. */
  lemma BatchKeepsKeyCounts(pairs: seq<Pair>, links: map<Link, LinkRow>, links': map<Link, LinkRow>,
                            accounts: map<string, AccountRow>, accounts': map<string, AccountRow>)
    requires GoodPairs(pairs) && KeyCounts(links.Keys, accounts)
    requires LinksUpdated(links, links', pairs)
    requires AccountsUpdated(accounts, accounts', Aggregates(pairs, links.Keys))
    ensures KeyCounts(links'.Keys, accounts')
  {
    hide LinksUpdated, AccountsUpdated, Aggregates, KeyCounts, GoodPairs, Short;
    RightIsShortByNothing(links.Keys, accounts);
    BatchKeepsShort(pairs, links, links', accounts, accounts', {});
    RightExactly(links'.Keys, accounts', {});
  }

  /** A batch cut short after its links were written leaves the counts right exactly when it had no new link. */
  lemma CutAfterLinks(pairs: seq<Pair>, links: map<Link, LinkRow>, links': map<Link, LinkRow>, accounts: map<string, AccountRow>)
    requires GoodPairs(pairs) && KeyCounts(links.Keys, accounts) && LinksUpdated(links, links', pairs)
    ensures KeyCounts(links'.Keys, accounts) <==> NewLinks(pairs, links.Keys) == {}
  {
    hide LinksUpdated, KeyCounts, GoodPairs, Short, NewLinks;
    RightIsShortByNothing(links.Keys, accounts);
    ShortAfterLinks(pairs, links, links', accounts, {});
    RightExactly(links'.Keys, accounts, {} + NewLinks(pairs, links.Keys));
  }

  /** Cut short after the insert of new accounts, it leaves them right exactly when no account that was there has a new link. */
  lemma CutAfterInsert(pairs: seq<Pair>, links: map<Link, LinkRow>, links': map<Link, LinkRow>,
                       accounts: map<string, AccountRow>, accounts': map<string, AccountRow>)
    requires GoodPairs(pairs) && KeyCounts(links.Keys, accounts) && LinksUpdated(links, links', pairs)
    requires AccountsInserted(accounts, accounts', Aggregates(pairs, links.Keys))
    ensures KeyCounts(links'.Keys, accounts') <==> forall l :: l in NewLinks(pairs, links.Keys) ==> l.1 !in accounts
  {
    hide LinksUpdated, AccountsInserted, Aggregates, KeyCounts, GoodPairs, Short, NewLinks;
    RightIsShortByNothing(links.Keys, accounts);
    ShortAfterInsert(pairs, links, links', accounts, accounts', {});
    var left := OfOldAccounts(NewLinks(pairs, links.Keys), accounts);
    RightExactly(links'.Keys, accounts', {} + left);
    assert {} + left == left;
    assert forall l :: l in NewLinks(pairs, links.Keys) && l.1 in accounts ==> l in left;
  }

  /** One new link of an account that was there: wrong at both cuts. */
  lemma UncountedLink(meta: Meta) returns (pairs: seq<Pair>, links': map<Link, LinkRow>, accounts: map<string, AccountRow>)
    ensures GoodPairs(pairs) && KeyCounts({}, accounts) && LinksUpdated(map[], links', pairs)
    ensures AccountsInserted(accounts, accounts, Aggregates(pairs, {}))
    ensures !KeyCounts(links'.Keys, accounts)
  {
    var p := Pair("ed25519:k", "a.near", meta);
    pairs := [p];
    links' := map[LinkOf(p) := NewLinkRow(meta)];
    accounts := map["a.near" := AccountRow(0, 0, 0, 0, 0)];
    assert pairs[0] == p && p in pairs;
    assert Of({}, "a.near") == {};
    assert LinkOf(p) in Of(links'.Keys, "a.near");
    assert Aggregates(pairs, {}).Keys == {"a.near"} by {
      assert pairs[..0] == [];
      assert Aggregates(pairs, {}) == map[]["a.near" := Join(None, meta, true)];
    }
  }

  /** The tables before and after each batch. */
  datatype TableState = TableState(links: map<Link, LinkRow>, accounts: map<string, AccountRow>)

  ghost predicate Completes(s: TableState, s': TableState, pairs: seq<Pair>) {
    && GoodPairs(pairs) && LinksUpdated(s.links, s'.links, pairs)
    && AccountsUpdated(s.accounts, s'.accounts, Aggregates(pairs, s.links.Keys))
  }

  ghost predicate AreBatches(states: seq<TableState>, batches: seq<seq<Pair>>) {
    |states| == |batches| + 1 && forall k :: 0 <= k < |batches| ==> Completes(states[k], states[k + 1], batches[k])
  }

  /**
   * Links that a cut left uncounted stay so through any batches after it, the same
   * batch run again included: the counts are never right again.
   */
  lemma {:induction false} NeverRepaired(states: seq<TableState>, batches: seq<seq<Pair>>, missing: set<Link>)
    requires AreBatches(states, batches) && Short(states[0].links.Keys, states[0].accounts, missing)
    ensures var end := states[|batches|];
      && Short(end.links.Keys, end.accounts, missing)
      && (KeyCounts(end.links.Keys, end.accounts) <==> missing == {})
    decreases |batches|
  {
    hide Short, KeyCounts, LinksUpdated, AccountsUpdated, GoodPairs, Aggregates;
    var n := |batches|;
    if n > 0 {
      NeverRepaired(states[..n], batches[..n - 1], missing);
      assert Completes(states[n - 1], states[n], batches[n - 1]);
      BatchKeepsShort(batches[n - 1], states[n - 1].links, states[n].links, states[n - 1].accounts, states[n].accounts, missing);
    }
    RightExactly(states[n].links.Keys, states[n].accounts, missing);
  }

  // ----- the owner of a key ---------------------------------------------------

  /** Pair `i` is the first of the latest pairs of key `k`. */
  ghost predicate Owns(pairs: seq<Pair>, k: string, i: int) {
    && 0 <= i < |pairs| && pairs[i].key == k
    && (forall j :: 0 <= j < |pairs| && pairs[j].key == k ==> pairs[j].meta.time <= pairs[i].meta.time)
    && (forall j :: 0 <= j < i && pairs[j].key == k ==> pairs[j].meta.time < pairs[i].meta.time)
  }

  datatype Owner = Owner(account: string, lastSeen: int)

  lemma StillOwns(before: seq<Pair>, p: Pair, k: string, i: int)
    requires Owns(before, k, i)
    ensures Owns(before + [p], k, if p.key == k && p.meta.time > before[i].meta.time then |before| else i)
  {
  }

  lemma NewOwner(before: seq<Pair>, p: Pair, k: string)
    requires p.key == k && forall q :: q in before ==> q.key != k
    ensures Owns(before + [p], k, |before|)
  {
  }

  method FindOwners(pairs: seq<Pair>) returns (owners: map<string, Owner>)
    ensures forall k :: k in owners ==> exists i :: Owns(pairs, k, i) && owners[k] == Owner(pairs[i].account, pairs[i].meta.time)
    ensures forall p :: p in pairs ==> p.key in owners
  {
    owners := map[];
    for n := 0 to |pairs|
      invariant forall k :: k in owners ==> exists i :: Owns(pairs[..n], k, i) && owners[k] == Owner(pairs[i].account, pairs[i].meta.time)
      invariant forall p :: p in pairs[..n] ==> p.key in owners
    {
      ghost var before, was, after := pairs[..n], owners, pairs[..n + 1];
      var p := pairs[n];
      assert after == before + [p];
      if p.key !in owners || p.meta.time > owners[p.key].lastSeen {
        owners := owners[p.key := Owner(p.account, p.meta.time)];
      }
      forall k | k in owners
        ensures exists i :: Owns(after, k, i) && owners[k] == Owner(pairs[i].account, pairs[i].meta.time)
      {
        if k in was {
          var i :| Owns(before, k, i) && was[k] == Owner(pairs[i].account, pairs[i].meta.time);
          StillOwns(before, p, k, i);
          assert Owns(after, k, if owners[k] == was[k] then i else n);
        } else {
          NewOwner(before, p, k);
        }
      }
    }
    assert pairs[..|pairs|] == pairs;
  }

  /** Since the pairs of a key share its event, its owner is the first account that was listed for it. */
  lemma OwnerIsFirstListed(pairs: seq<Pair>, k: string, i: int)
    requires GoodPairs(pairs)
    ensures Owns(pairs, k, i) <==> 0 <= i < |pairs| && pairs[i].key == k && forall j :: 0 <= j < i ==> pairs[j].key != k
  {
  }

  // ----- a batch --------------------------------------------------------------

  datatype Report = Report(linkedRows: nat, newLinks: nat, accountsCreated: nat, touchedAccounts: nat)

  class Tables {
    var links: map<Link, LinkRow>
    var accounts: map<string, AccountRow>
    var ownerOfEvent: map<nat, string>

    constructor ()
      ensures links == map[] && accounts == map[] && ownerOfEvent == map[]
    {
      links, accounts, ownerOfEvent := map[], map[], map[];
    }

    /** The strings of the links that are already there, among those that matter. */
    method KnownLinks(pairs: seq<Pair>) returns (known: set<string>)
      requires GoodPairs(pairs)
      ensures forall p :: p in pairs ==> (LinkKey(p.key, p.account) in known <==> LinkOf(p) in links)
    {
      var keys := set p | p in pairs :: p.key;
      var ids := set p | p in pairs :: p.account;
      known := set l | l in links.Keys && l.0 in keys && l.1 in ids :: LinkKey(l.0, l.1);
      forall p | p in pairs
        ensures LinkKey(p.key, p.account) in known <==> LinkOf(p) in links
      {
        assert ':' !in p.account;
        if LinkKey(p.key, p.account) in known {
          var l :| l in links.Keys && l.0 in keys && l.1 in ids && LinkKey(l.0, l.1) == LinkKey(p.key, p.account);
          LinkKeyInjective(l.0, l.1, p.key, p.account);
          assert LinkOf(p) == l;
        }
      }
    }

    /** The loop over the pairs: what it adds up for each account, and in all. */
    method SumUp(pairs: seq<Pair>, known: set<string>) returns (aggregates: map<string, Aggregate>, newLinks: nat)
      requires GoodPairs(pairs)
      requires forall p :: p in pairs ==> (LinkKey(p.key, p.account) in known <==> LinkOf(p) in links)
      ensures aggregates == Aggregates(pairs, links.Keys) && newLinks == |NewLinks(pairs, links.Keys)|
    {
      hide NewLinks, LinkKey, GoodPairs, LinkOf;
      aggregates, newLinks := map[], 0;
      assert |NewLinks([], links.Keys)| == 0 by { NoNewLinks(links.Keys); }
      for n := 0 to |pairs|
        invariant aggregates == Aggregates(pairs[..n], links.Keys)
        invariant newLinks == |NewLinks(pairs[..n], links.Keys)|
      {
        var p := pairs[n];
        var isNew := LinkKey(p.key, p.account) !in known;
        if isNew { newLinks := newLinks + 1; }
        assert pairs[n] in pairs;
        NewLinksPrefix(pairs, n, links.Keys);
        assert pairs[..n + 1][..n] == pairs[..n];
        if p.account !in aggregates {
          aggregates := aggregates[p.account := Aggregate(p.meta.time, p.meta.time, p.meta.eventId, if isNew then 1 else 0)];
        } else {
          var a := aggregates[p.account];
          if p.meta.time > a.lastSeen { a := a.(lastSeen := p.meta.time); }
          if p.meta.time < a.firstSeen { a := a.(firstSeen := p.meta.time); }
          if p.meta.eventId > a.lastEvent { a := a.(lastEvent := p.meta.eventId); }
          if isNew { a := a.(newLinks := a.newLinks + 1); }
          aggregates := aggregates[p.account := a];
        }
      }
      assert pairs[..|pairs|] == pairs;
    }

    /** Inserts the rows that are not there. */
    method InsertLinks(pairs: seq<Pair>, known: set<string>)
      requires GoodPairs(pairs)
      requires forall p :: p in pairs ==> (LinkKey(p.key, p.account) in known <==> LinkOf(p) in links)
      modifies this`links
      ensures forall l :: l in old(links) ==> l in links && links[l] == old(links)[l]
      ensures forall l :: l in links ==> l in old(links) || exists k :: 0 <= k < |pairs| && LinkOf(pairs[k]) == l
      ensures forall k :: 0 <= k < |pairs| ==>
        LinkOf(pairs[k]) in links && (LinkOf(pairs[k]) !in old(links) ==> links[LinkOf(pairs[k])] == NewLinkRow(pairs[k].meta))
    {
      hide LinkKey;
      for n := 0 to |pairs|
        invariant forall l :: l in old(links) ==> l in links && links[l] == old(links)[l]
        invariant forall l :: l in links ==> l in old(links) || exists k :: 0 <= k < n && LinkOf(pairs[k]) == l
        invariant forall k :: 0 <= k < n ==>
          LinkOf(pairs[k]) in links && (LinkOf(pairs[k]) !in old(links) ==> links[LinkOf(pairs[k])] == NewLinkRow(pairs[k].meta))
      {
        var p := pairs[n];
        if LinkKey(p.key, p.account) !in known && LinkOf(p) !in links {
          links := links[LinkOf(p) := NewLinkRow(p.meta)];
        }
      }
    }

    /** Refreshes the rows of every pair. */
    method RefreshLinks(pairs: seq<Pair>)
      requires GoodPairs(pairs)
      requires forall k :: 0 <= k < |pairs| ==> LinkOf(pairs[k]) in links
      modifies this`links
      ensures links.Keys == old(links).Keys
      ensures forall k :: 0 <= k < |pairs| ==>
        links[LinkOf(pairs[k])] == old(links)[LinkOf(pairs[k])].(lastSeen := pairs[k].meta.time, lastEvent := pairs[k].meta.eventId)
      ensures forall l :: l in links ==> links[l] == old(links)[l] || exists k :: 0 <= k < |pairs| && LinkOf(pairs[k]) == l
    {
      for n := 0 to |pairs|
        invariant links.Keys == old(links).Keys
        invariant forall k :: n <= k < |pairs| ==> links[LinkOf(pairs[k])] == old(links)[LinkOf(pairs[k])]
        invariant forall k :: 0 <= k < n ==>
          links[LinkOf(pairs[k])] == old(links)[LinkOf(pairs[k])].(lastSeen := pairs[k].meta.time, lastEvent := pairs[k].meta.eventId)
        invariant forall l :: l in links ==> links[l] == old(links)[l] || exists k :: 0 <= k < n && LinkOf(pairs[k]) == l
      {
        var p := pairs[n];
        links := links[LinkOf(p) := links[LinkOf(p)].(lastSeen := p.meta.time, lastEvent := p.meta.eventId)];
      }
    }

    method WriteLinks(pairs: seq<Pair>, known: set<string>)
      requires GoodPairs(pairs)
      requires forall p :: p in pairs ==> (LinkKey(p.key, p.account) in known <==> LinkOf(p) in links)
      modifies this`links
      ensures LinksUpdated(old(links), links, pairs)
    {
      hide GoodPairs, LinkKey, LinkOf;
      InsertLinks(pairs, known);
      RefreshLinks(pairs);
    }

    /** One insert for the new accounts, before the events are stamped. */
    method InsertAccounts(aggregates: map<string, Aggregate>) returns (created: nat)
      modifies this`accounts
      ensures AccountsInserted(old(accounts), accounts, aggregates)
      ensures created == |aggregates.Keys - old(accounts).Keys|
    {
      created := |aggregates.Keys - accounts.Keys|;
      accounts := map a | a in accounts.Keys + aggregates.Keys ::
        if a in accounts then accounts[a] else NewAccountRow(aggregates[a]);
    }

    /** One update for the accounts that were there before the batch, after it. */
    method RaiseAccounts(aggregates: map<string, Aggregate>, existing: set<string>)
      modifies this`accounts
      ensures AccountsRaised(old(accounts), accounts, aggregates, existing)
    {
      accounts := map a | a in accounts ::
        if a in aggregates && a in existing then UpdatedAccount(accounts, a, aggregates[a]) else accounts[a];
    }

    method StampEvents(events: seq<EventRow>, owners: map<string, Owner>)
      requires forall i, j :: 0 <= i < j < |events| ==> events[i].id != events[j].id
      modifies this`ownerOfEvent
      ensures forall e :: e in events && Stamps(e, owners) ==>
        e.id in ownerOfEvent && ownerOfEvent[e.id] == owners[e.derivedKey.value].account
      ensures forall id :: (forall e :: e in events && Stamps(e, owners) ==> e.id != id) ==>
        (id in ownerOfEvent <==> id in old(ownerOfEvent)) && (id in ownerOfEvent ==> ownerOfEvent[id] == old(ownerOfEvent)[id])
    {
      for n := 0 to |events|
        invariant forall k :: 0 <= k < n && Stamps(events[k], owners) ==>
          events[k].id in ownerOfEvent && ownerOfEvent[events[k].id] == owners[events[k].derivedKey.value].account
        invariant forall id :: (forall e :: e in events && Stamps(e, owners) ==> e.id != id) ==>
          (id in ownerOfEvent <==> id in old(ownerOfEvent)) && (id in ownerOfEvent ==> ownerOfEvent[id] == old(ownerOfEvent)[id])
      {
        if Stamps(events[n], owners) {
          ownerOfEvent := ownerOfEvent[events[n].id := owners[events[n].derivedKey.value].account];
        }
      }
    }

    /** A batch keeps every count of keys right, and reports what it did. */
    method PersistLinksAndAccounts(events: seq<EventRow>, rows: seq<LookupRow>) returns (r: Report)
      requires GoodRows(rows)
      requires forall i, j :: 0 <= i < j < |events| ==> events[i].id != events[j].id
      modifies this
      ensures LinksUpdated(old(links), links, PairsOf(rows))
      ensures AccountsUpdated(old(accounts), accounts, Aggregates(PairsOf(rows), old(links.Keys)))
      ensures KeyCounts(old(links.Keys), old(accounts)) ==> KeyCounts(links.Keys, accounts)
      ensures var aggregates := Aggregates(PairsOf(rows), old(links.Keys));
        r == Report(|PairsOf(rows)|, |NewLinks(PairsOf(rows), old(links.Keys))|, |aggregates.Keys - old(accounts.Keys)|, |aggregates.Keys|)
      ensures forall e, i :: e in events && e.derivedKey.Some? && e.derivedKey.value != "" && Owns(PairsOf(rows), e.derivedKey.value, i) ==>
        e.id in ownerOfEvent && ownerOfEvent[e.id] == PairsOf(rows)[i].account
    {
      hide Aggregates, NewLinks, LinksUpdated, AccountsUpdated, AccountsInserted, AccountsRaised, KeyCounts, LinkKey, GoodRows, Owns;
      var pairs := PairsOf(rows);
      RowsGivePairs(rows);
      hide PairsOf;
      ghost var links0, accounts0 := links, accounts;
      var existing := accounts.Keys;
      var known := KnownLinks(pairs);
      var aggregates, newLinks := SumUp(pairs, known);
      WriteLinks(pairs, known);
      var created := InsertAccounts(aggregates);
      ghost var accounts1 := accounts;
      var owners := FindOwners(pairs);
      StampEvents(events, owners);
      RaiseAccounts(aggregates, existing);
      InsertThenRaise(accounts0, accounts1, accounts, aggregates);
      if KeyCounts(links0.Keys, accounts0) { BatchKeepsKeyCounts(pairs, links0, links, accounts0, accounts); }
      OwnersAreRight(pairs, owners);
      r := Report(|pairs|, newLinks, created, |aggregates|);
    }
  }

  lemma NewLinksPrefix(pairs: seq<Pair>, n: nat, links: set<Link>)
    requires GoodPairs(pairs) && n < |pairs|
    ensures |NewLinks(pairs[..n + 1], links)| == |NewLinks(pairs[..n], links)| + (if LinkOf(pairs[n]) !in links then 1 else 0)
  {
    hide NewLinks, LinkOf;
    assert pairs[..n + 1] == pairs[..n] + [pairs[n]];
    NewLinksOneMore(pairs[..n], pairs[n], links, pairs[n].account);
  }

  /** An event is stamped with the owner of its stored key; a key that was only just derived does not count. */
  predicate Stamps(e: EventRow, owners: map<string, Owner>) {
    e.derivedKey.Some? && e.derivedKey.value != "" && e.derivedKey.value in owners
  }

  lemma NoNewLinks(links: set<Link>)
    ensures NewLinks([], links) == {}
  {
  }

  lemma OwnersAreRight(pairs: seq<Pair>, owners: map<string, Owner>)
    requires forall k :: k in owners ==> exists i :: Owns(pairs, k, i) && owners[k] == Owner(pairs[i].account, pairs[i].meta.time)
    requires forall p :: p in pairs ==> p.key in owners
    ensures forall k, i :: Owns(pairs, k, i) ==> k in owners && owners[k].account == pairs[i].account
  {
    forall k, i | Owns(pairs, k, i)
      ensures k in owners && owners[k].account == pairs[i].account
    {
      assert pairs[i] in pairs;
      var j :| Owns(pairs, k, j) && owners[k] == Owner(pairs[j].account, pairs[j].meta.time);
    }
  }
}
