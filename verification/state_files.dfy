/**
 * The files both inactivity filters keep: the active file with its two-column header, and
 * the one-id-per-row files (blacklist.csv, recently_checked.csv) that are rewritten whole.
 */
module StateFiles {
  import opened Csv
  import opened Seqs

  const UserIdColumn: string := "User ID"
  const TimestampColumn: string := "Last Action Timestamp"

  /** The header row of active_users_filtered.csv. */
  const ActiveHeader: Row := [Text(UserIdColumn), Text(TimestampColumn)]

  /** A data row of the active file, as `writer.writerow([user_id, last_action_timestamp])` writes it. */
  function ActiveRow(id: int, ts: int): Row {
    [Num(id), Num(ts)]
  }

  /**
   * Opening the active file in append mode: the header is written exactly when the file is
   * empty, so the file never stays empty and a non-empty file is left as it is.
   */
  function WithHeader(rows: seq<Row>): (r: seq<Row>)
    ensures r != []
    ensures rows != [] ==> r == rows
    ensures rows == [] ==> r == [ActiveHeader]
  {
    if rows == [] then [ActiveHeader] else rows
  }

  /** One `[user_id]` row per id, in the given order. */
  function IdRows(order: seq<int>): seq<Row> {
    seq(|order|, i requires 0 <= i < |order| => IdRow(order[i]))
  }

  /** `rows` is what saving the set `s` writes: each id once, in some iteration order, no header. */
  ghost predicate IsSavedSet(rows: seq<Row>, s: set<int>) {
    exists order :: IsEnumeration(order, s) && rows == IdRows(order)
  }

  /**
   * `save_blacklist` / `save_recently_checked` of the rerun script and `save_set_to_csv` of
   * the second filter: the file is truncated and gets one row per id of the set, in the set's
   * iteration order.
   */
  method SaveIdFile(s: set<int>) returns (rows: seq<Row>)
    ensures IsSavedSet(rows, s)
    ensures |rows| == |s|
  {
    var order := Enumerate(s);
    rows := [];
    var i := 0;
    while i < |order|
      invariant 0 <= i <= |order|
      invariant rows == IdRows(order[..i])
    {
      rows := rows + [IdRow(order[i])];
      i := i + 1;
    }
    assert order[..i] == order;
  }
}
