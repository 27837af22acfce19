/**
 * Which chunks of a block are worth fetching: those that were produced at its
 * height and have transactions. Along a chain every such chunk is fetched once.
 */
module ChunkSelection {
  import opened Options
  import Base58
  import Numerals

  /** A chunk header; a field the payload lacks is None. */
  datatype Chunk = Chunk(hash: Option<string>, txRoot: Option<string>, included: Option<int>)

  datatype Block = Block(height: Option<int>, chunks: seq<Chunk>)

  const EMPTY_TX_ROOT := "11111111" + "11111111" + "11111111" + "11111111"

  /** The constant is the text of a root of 32 zero bytes. */
  lemma EmptyRootIsZero()
    ensures Base58.Encoding(seq(32, _ => 0)) == EMPTY_TX_ROOT
  {
    var zeros: seq<Base58.Byte> := seq(32, _ => 0);
    assert zeros == Numerals.Zeros(32) + [];
    Base58.EncodingOfPadded(32, []);
    assert Base58.Ones(32) == EMPTY_TX_ROOT;
    assert Base58.Letters(Numerals.Digits(Numerals.Value([], 256), 58)) == "";
  }

  predicate Wanted(c: Chunk, height: Option<int>) {
    && c.hash.Some? && c.hash.value != ""
    && c.txRoot != Some(EMPTY_TX_ROOT)
    && (height.Some? && c.included.Some? ==> c.included == height)
  }

  function Selected(chunks: seq<Chunk>, height: Option<int>): seq<string> {
    if chunks == [] then []
    else
      var n := |chunks| - 1;
      Selected(chunks[..n], height) + (if Wanted(chunks[n], height) then [chunks[n].hash.value] else [])
  }

  /** In the order of the block; a chunk is left out only on positive evidence. */
  method ChunkHashesWithTransactions(block: Block) returns (hashes: seq<string>)
    ensures hashes == Selected(block.chunks, block.height)
    ensures forall h :: h in hashes <==> exists k :: 0 <= k < |block.chunks| && Wanted(block.chunks[k], block.height) && block.chunks[k].hash == Some(h)
  {
    hashes := [];
    for n := 0 to |block.chunks|
      invariant hashes == Selected(block.chunks[..n], block.height)
      invariant forall h :: h in hashes <==> exists k :: 0 <= k < n && Wanted(block.chunks[k], block.height) && block.chunks[k].hash == Some(h)
    {
      var c := block.chunks[n];
      assert block.chunks[..n + 1][..n] == block.chunks[..n];
      if c.hash.None? || c.hash.value == "" { continue; }
      if c.txRoot == Some(EMPTY_TX_ROOT) { continue; }
      if block.height.Some? && c.included.Some? && c.included != block.height { continue; }
      hashes := hashes + [c.hash.value];
    }
    assert block.chunks[..|block.chunks|] == block.chunks;
  }

  /**
   * A chunk is left out only on evidence: it has no hash, its root is that of no
   * transactions, or it is known to be of another height than the block.
   */
  lemma LeftOutOnEvidence(c: Chunk, height: Option<int>)
    ensures !Wanted(c, height) <==>
      || c.hash.None? || c.hash.value == ""
      || c.txRoot == Some(Base58.Encoding(seq(32, _ => 0)))
      || (height.Some? && c.included.Some? && c.included.value != height.value)
  {
    EmptyRootIsZero();
  }

  // ----- along a chain --------------------------------------------------------

  /** The blocks from height `start` on, with complete headers; `shards` columns. */
  datatype Chain = Chain(start: int, shards: nat, rows: seq<seq<Chunk>>)

  predicate Complete(c: Chunk) {
    c.hash.Some? && c.hash.value != "" && c.txRoot.Some? && c.included.Some?
  }

  /** A shard either produces a chunk at this height or repeats the header of its last one. */
  ghost predicate IsChain(c: Chain) {
    && (forall k :: 0 <= k < |c.rows| ==> |c.rows[k]| == c.shards)
    && (forall k, j :: 0 <= k < |c.rows| && 0 <= j < c.shards ==>
          Complete(c.rows[k][j]) && c.rows[k][j].included.value <= c.start + k)
    && (forall k, j :: 0 < k < |c.rows| && 0 <= j < c.shards ==>
          c.rows[k][j].included.value == c.start + k || c.rows[k][j] == c.rows[k - 1][j])
  }

  predicate Fetched(c: Chain, k: nat, j: nat)
    requires k < |c.rows| && j < |c.rows[k]|
  {
    Wanted(c.rows[k][j], Some(c.start + k))
  }

  /** A header that is repeated goes back to the block that produced its chunk. */
  lemma {:induction false} ProducedAt(c: Chain, k: nat, j: nat)
    requires IsChain(c) && k < |c.rows| && j < c.shards && c.rows[k][j].included.value >= c.start
    ensures var m := c.rows[k][j].included.value - c.start;
      m <= k && c.rows[m][j] == c.rows[k][j]
    decreases k
  {
    if c.rows[k][j].included.value != c.start + k {
      ProducedAt(c, k - 1, j);
    }
  }

  /**
   * Every chunk with transactions that the chain shows and that was produced in it
   * is fetched with exactly one of its blocks, the one that produced it.
   */
  lemma FetchedOnce(c: Chain, k: nat, j: nat)
    requires IsChain(c) && k < |c.rows| && j < c.shards
    requires c.rows[k][j].included.value >= c.start && c.rows[k][j].txRoot != Some(EMPTY_TX_ROOT)
    ensures var m := c.rows[k][j].included.value - c.start;
      && 0 <= m <= k && c.rows[m][j] == c.rows[k][j] && Fetched(c, m, j)
      && forall i: nat :: i < |c.rows| && i != m && c.rows[i][j] == c.rows[k][j] ==> !Fetched(c, i, j)
  {
    ProducedAt(c, k, j);
  }
}
