/** The chunk shape every extractor returns: `{"content": ..., "metadata": {...}}`. */
module Chunks {
  import opened Common
  import opened Text

  /** A metadata value: the extractors store strings and integers. */
  datatype Value = Str(s: string) | Int(i: int)

  type Metadata = map<string, Value>

  /** One extracted piece of a document with its provenance. */
  datatype Chunk = Chunk(content: string, metadata: Metadata)

  /** `metadata.get(key)`. */
  function Get(m: Metadata, key: string): (r: Option<Value>)
    ensures r.Some? <==> key in m
    ensures r.Some? ==> r.value == m[key]
  {
    if key in m then Some(m[key]) else None
  }

  /** `metadata.get(key, default)`. */
  function GetOr(m: Metadata, key: string, default: Value): (r: Value)
    ensures key in m ==> r == m[key]
    ensures key !in m ==> r == default
  {
    if key in m then m[key] else default
  }

  /** The chunk's metadata maps `key` to `v`. */
  predicate Tagged(c: Chunk, key: string, v: Value) {
    key in c.metadata && c.metadata[key] == v
  }

  /** How an f-string renders a metadata lookup (a missing key prints `None`). */
  function Show(v: Option<Value>): string {
    match v
    case None => "None"
    case Some(Str(s)) => s
    case Some(Int(i)) => IntToString(i)
  }
}
