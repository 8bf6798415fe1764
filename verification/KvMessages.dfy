/**
 The protocol messages of the KV service's `Tx` stream: the client sends `Cursor` messages and the
 server answers with `Pair` messages.
 */
module KvMessages {
  import opened Base

  datatype Op =
    | FIRST | FIRST_DUP | SEEK | SEEK_BOTH | CURRENT | LAST | LAST_DUP | NEXT | NEXT_DUP | NEXT_NO_DUP
    | PREV | PREV_DUP | PREV_NO_DUP | SEEK_EXACT | SEEK_BOTH_EXACT | OPEN | CLOSE | OPEN_DUP_SORT

  datatype Cursor = Cursor(op: Op, bucketName: string, cursor: uint32, k: Bytes, v: Bytes)

  datatype Pair = Pair(k: Bytes, v: Bytes, cursorId: uint32, txId: uint64)

  /** A default-constructed `remote::Cursor{}`: the zero value of the enumeration is FIRST. */
  const DEFAULT_CURSOR := Cursor(FIRST, "", 0, [], [])

  /** A default-constructed `remote::Pair{}`; a failed read leaves it as it is. */
  const DEFAULT_PAIR := Pair([], [], 0, 0)
}
