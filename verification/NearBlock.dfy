/** What became of fetching a block and its chunks, and how the failures are judged. */
module NearBlock {
  import opened Options
  import opened RpcPool

  datatype Verb = BlockByHeight | ChunkByHash

  datatype FetchError =
    | RpcExhausted(verb: Verb, reply: Reply)
    | OtherError

  predicate IsUnfetchableEverywhere(e: FetchError) {
    e.RpcExhausted? && IsReportedMissingEverywhere(e.reply)
  }

  predicate IsSkippableMissingHeight(e: FetchError) {
    e.RpcExhausted? && e.verb == BlockByHeight && IsReportedMissingEverywhere(e.reply)
  }

  /** The world's answers while one height is processed. */
  datatype HeightFetch =
    | BlockFailed(reply: Reply)
    | BlockThrew
    | NoHeader
    | ChunkFailed(chunkReply: Reply)
    | ChunkThrew
    | PersistFailed
    | Persisted

  datatype Outcome = Completed | HeightFailed(error: FetchError)

  /** A height nobody has is done; any other failure defers the height. */
  function ProcessHeight(f: HeightFetch): Outcome {
    match f
    case BlockFailed(reply) =>
      var error := RpcExhausted(BlockByHeight, reply);
      if IsSkippableMissingHeight(error) then Completed else HeightFailed(error)
    case BlockThrew => HeightFailed(OtherError)
    case NoHeader => HeightFailed(OtherError)
    case ChunkFailed(reply) => HeightFailed(RpcExhausted(ChunkByHash, reply))
    case ChunkThrew => HeightFailed(OtherError)
    case PersistFailed => HeightFailed(OtherError)
    case Persisted => Completed
  }

  /** A height that fails as unfetchable everywhere lost a chunk, never its block. */
  lemma UnfetchableIsAChunk(f: HeightFetch)
    ensures ProcessHeight(f).HeightFailed? && IsUnfetchableEverywhere(ProcessHeight(f).error) <==>
            f.ChunkFailed? && IsReportedMissingEverywhere(f.chunkReply)
  {
  }

  /** The world's answers that leave nothing to do: the block was persisted, or nobody has it. */
  predicate NothingLeftToDo(f: HeightFetch) {
    f.Persisted? || (f.BlockFailed? && IsReportedMissingEverywhere(f.reply))
  }

  /** Those complete a height, and no others do. */
  lemma CompletesExactly(f: HeightFetch)
    ensures ProcessHeight(f).Completed? <==> NothingLeftToDo(f)
  {
  }
}
