/** The conditional write of one row, and what a load reports of it. */
module Rows {
  import opened Types

  datatype Written = Written(row: Option<Row>, ok: bool)

  /** The conditional write of one row: create only when absent, otherwise only at the expected version. */
  function Cas(row: Option<Row>, scope: string, prev: int, next: Edge): Written {
    if prev == 0 then
      if row.None? then Written(Some(Row(scope, next, 1)), true) else Written(row, false)
    else if row.Some? && row.value.version == prev then
      Written(Some(Row(row.value.scopeKey, next, prev + 1)), true)
    else
      Written(row, false)
  }

  /** What becomes of a write's request and answer on the network. */
  datatype Io = Clean | RequestLost | ReplyLost

  /** The version a load reports; 0 stands for an absent row. */
  function Version(row: Option<Row>): int {
    if row.Some? then row.value.version else 0
  }

  function EdgeOf(row: Option<Row>): Option<Edge> {
    if row.Some? then Some(row.value.edge) else None
  }
}
