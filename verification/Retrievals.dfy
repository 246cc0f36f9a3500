/** The retrieval result that the memory pipeline passes from stage to stage. */
module Retrievals {
  import opened Sequences

  datatype Retrieval = Retrieval(
    id: Option<string>,
    chunkId: Option<string>,
    content: Option<string>,
    score: Option<real>,
    trust: Option<real>,
    similarity: Option<real>,
    provider: Option<string>,
    sourcePath: Option<string>,
    createdAt: Option<string>,
    updatedAt: Option<string>,
    meta: map<string, string>)

  /** `r.get("chunk_id") or r.get("id")`: an empty chunk id gives way to the id, whatever that is. */
  function ChunkKey(r: Retrieval): Option<string>
  {
    if r.chunkId != None && r.chunkId.value != "" then r.chunkId else r.id
  }

  function TextOr(o: Option<string>, default: string): string
  {
    if o == None then default else o.value
  }

  function RealOr(o: Option<real>, default: real): real
  {
    if o == None then default else o.value
  }
}
