/**
 * The membership probes of an ingest run: a cache in front of a query that may
 * fail, and whose failure is remembered as absence. Probes of different blocks
 * overlap: one looks up what is unknown, waits for its query, and then writes
 * every answer, also those that another probe has written meanwhile.
 */
module MembershipProbe {
  import opened Options

  /** A query that settles: the names asked for, and the table it saw, or None if it failed. */
  datatype Settlement = Settlement(names: set<string>, table: Option<set<string>>)

  /** Whether a name was found, for every name asked for so far. */
  type Cache = map<string, bool>

  predicate Finds(s: Settlement, name: string) { s.table.Some? && name in s.table.value }

  function AfterSettlement(cache: Cache, s: Settlement): Cache {
    cache + map c | c in s.names :: Finds(s, c)
  }

  function AfterSettlements(cache: Cache, log: seq<Settlement>): Cache
    decreases |log|
  {
    if log == [] then cache
    else AfterSettlement(AfterSettlements(cache, log[..|log| - 1]), log[|log| - 1])
  }

  /** Settlement `k` is the last that mentions the name. */
  ghost predicate LastMention(log: seq<Settlement>, name: string, k: int) {
    && 0 <= k < |log| && name in log[k].names
    && forall i :: k < i < |log| ==> name !in log[i].names
  }

  /** The cache knows exactly the names that were asked for, each by the last query that settled. */
  lemma {:induction false} LastMentionTells(log: seq<Settlement>, name: string)
    ensures name in AfterSettlements(map[], log) <==> exists k :: LastMention(log, name, k)
    ensures forall k :: LastMention(log, name, k) ==> AfterSettlements(map[], log)[name] == Finds(log[k], name)
    decreases |log|
  {
    if log != [] {
      var n := |log| - 1;
      var front := log[..n];
      LastMentionTells(front, name);
      if name in log[n].names {
        assert LastMention(log, name, n);
      } else {
        forall k ensures LastMention(front, name, k) <==> LastMention(log, name, k) { }
      }
    }
  }

  /** What a probe answers from the cache. */
  function Answer(cache: Cache, candidates: seq<string>): (found: set<string>) {
    set c | c in candidates && c in cache && cache[c]
  }

  ghost predicate LastFound(log: seq<Settlement>, name: string) {
    exists k :: LastMention(log, name, k) && Finds(log[k], name)
  }

  /**
   * However queries overlap, on a table that has only grown a probe answers no name
   * that is not there; and it answers all of its candidates that are there if and
   * only if the last settled query about each of them found it.
   */
  lemma AnswersExactly(log: seq<Settlement>, candidates: seq<string>, table: set<string>)
    requires forall k :: 0 <= k < |log| && log[k].table.Some? ==> log[k].table.value <= table
    ensures var found := Answer(AfterSettlements(map[], log), candidates);
      && found <= table
      && ((forall c :: c in candidates && c in table ==> c in found) <==>
          forall c :: c in candidates && c in table ==> LastFound(log, c))
  {
    forall c | c in candidates
      ensures c in Answer(AfterSettlements(map[], log), candidates) <==> LastFound(log, c)
      ensures LastFound(log, c) ==> c in table
    {
      LastMentionTells(log, c);
    }
  }

  function Names(candidates: seq<string>): set<string> { set c | c in candidates }

  lemma SettlesNothing(cache: Cache, table: Option<set<string>>)
    ensures AfterSettlement(cache, Settlement({}, table)) == cache
  {
  }

  lemma SettlesOneMore(cache: Cache, names: set<string>, table: Option<set<string>>, name: string)
    ensures AfterSettlement(cache, Settlement(names + {name}, table))
         == AfterSettlement(cache, Settlement(names, table))[name := table.Some? && name in table.value]
  {
  }

  class ProbeCache {
    var checked: Cache

    constructor ()
      ensures checked == map[]
    {
      checked := map[];
    }

    /** Before the query: what was never answered so far. */
    method Unknown(candidates: seq<string>) returns (unknown: seq<string>)
      ensures Names(unknown) == Names(candidates) - checked.Keys
    {
      unknown := [];
      for n := 0 to |candidates|
        invariant Names(unknown) == Names(candidates[..n]) - checked.Keys
      {
        assert Names(candidates[..n + 1]) == Names(candidates[..n]) + {candidates[n]};
        if candidates[n] !in checked {
          assert Names(unknown + [candidates[n]]) == Names(unknown) + {candidates[n]};
          unknown := unknown + [candidates[n]];
        }
      }
      assert candidates[..|candidates|] == candidates;
    }

    /** After the query: every answer is written, and the candidates are looked up. */
    method Settle(unknown: seq<string>, table: Option<set<string>>, candidates: seq<string>) returns (found: set<string>)
      modifies this
      ensures checked == AfterSettlement(old(checked), Settlement(Names(unknown), table))
      ensures found == Answer(checked, candidates)
    {
      hide AfterSettlement;
      assert checked == AfterSettlement(checked, Settlement({}, table)) by { SettlesNothing(checked, table); }
      assert Names(unknown[..0]) == {};
      ghost var before := checked;
      for n := 0 to |unknown|
        invariant checked == AfterSettlement(before, Settlement(Names(unknown[..n]), table))
      {
        SettlesOneMore(before, Names(unknown[..n]), table, unknown[n]);
        assert Names(unknown[..n + 1]) == Names(unknown[..n]) + {unknown[n]};
        checked := checked[unknown[n] := table.Some? && unknown[n] in table.value];
      }
      assert unknown[..|unknown|] == unknown;
      found := set c | c in candidates && c in checked && checked[c];
    }
  }
}
