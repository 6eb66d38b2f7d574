/**
 * The resumable inactivity filter (inactivityfilterrerun.py).
 *
 * Every id of the work list ends in one of three durable places: the blacklist (no usable
 * timestamp), a row of the active file (seen within 40 days) or the recently-checked set
 * (seen longer ago). Ids already in one of them, or in the active file loaded at start, are
 * skipped without a request. The shards run one after the other over one shared store.
 */
module InactivityRerun {
  import opened Wrappers
  import opened Csv
  import opened Seqs
  import opened Torn
  import opened StateFiles
  import Sharding
  import Keys

  // ---------------------------------------------------------------------------------------
  // load_processed_users: csv.DictReader over the active file
  // ---------------------------------------------------------------------------------------

  /** The position of the last `c` in `header`: a DictReader row keeps the last duplicate column. */
  function LastIndexOf(header: Row, c: Cell): (j: nat)
    requires c in header
    ensures j < |header| && header[j] == c
    ensures forall i :: j < i < |header| ==> header[i] != c
  {
    if header[|header| - 1] == c then |header| - 1 else LastIndexOf(header[..|header| - 1], c)
  }

  /**
   * `row[name]` of a DictReader row: KeyError when the header has no such column, None
   * (DictReader's fill value) when the row is shorter than the header.
   */
  function Field(header: Row, row: Row, name: string): Result<Option<Cell>, Error> {
    if Text(name) !in header then Failure(KeyError)
    else
      var j := LastIndexOf(header, Text(name));
      Success(if j < |row| then Some(row[j]) else None)
  }

  /**
   * One data row read as `(int(row['User ID']), int(ts) if ts else None)`.
   * `int(None)` is a TypeError, `int` of a non-number a ValueError.
   */
  function ProcessedEntry(header: Row, row: Row): Result<(int, Option<int>), Error> {
    match Field(header, row, UserIdColumn)
    case Failure(e) => Failure(e)
    case Success(idCell) =>
      if idCell.None? then Failure(TypeError)
      else
        match ParseInt(idCell.value)
        case Failure(e) => Failure(e)
        case Success(id) =>
          match Field(header, row, TimestampColumn)
          case Failure(e) => Failure(e)
          case Success(tsCell) =>
            if tsCell.None? || !IsTruthy(tsCell.value) then Success((id, None))
            else
              match ParseInt(tsCell.value)
              case Failure(e) => Failure(e)
              case Success(ts) => Success((id, Some(ts)))
  }

  /** The map built from the data rows in order; blank rows are skipped; the first error stops the load. */
  function ProcessedFrom(header: Row, rows: seq<Row>): Result<map<int, Option<int>>, Error> {
    if rows == [] then Success(map[])
    else
      match ProcessedFrom(header, rows[..|rows| - 1])
      case Failure(e) => Failure(e)
      case Success(m) =>
        var row := rows[|rows| - 1];
        if row == [] then Success(m)
        else
          match ProcessedEntry(header, row)
          case Failure(e) => Failure(e)
          case Success(entry) => Success(m[entry.0 := entry.1])
  }

  /** What `load_processed_users` returns for a file; a missing file (None) reads as empty. */
  function ProcessedUsersOf(file: Option<seq<Row>>): Result<map<int, Option<int>>, Error> {
    match file
    case None => Success(map[])
    case Some(rows) => if rows == [] then Success(map[]) else ProcessedFrom(rows[0], rows[1..])
  }

  /** `load_processed_users`: the first row names the columns, every later row is one entry. */
  method LoadProcessedUsers(file: Option<seq<Row>>) returns (r: Result<map<int, Option<int>>, Error>)
    ensures r == ProcessedUsersOf(file)
  {
    if file.None? || file.value == [] {
      return Success(map[]);
    }
    var header := file.value[0];
    var rows := file.value[1..];
    var processed: map<int, Option<int>> := map[];
    var i := 0;
    while i < |rows|
      invariant 0 <= i <= |rows|
      invariant ProcessedFrom(header, rows[..i]) == Success(processed)
    {
      assert rows[..i + 1][..i] == rows[..i];
      var row := rows[i];
      if row != [] {
        var entry := ProcessedEntry(header, row);
        if entry.Failure? {
          ProcessedFailureSticks(header, rows, i + 1);
          return Failure(entry.error);
        }
        processed := processed[entry.value.0 := entry.value.1];
      }
      i := i + 1;
    }
    assert rows[..i] == rows;
    return Success(processed);
  }

  /** Once a prefix fails to load, the whole file fails with the same error. */
  lemma {:induction false} ProcessedFailureSticks(header: Row, rows: seq<Row>, n: nat)
    requires n <= |rows| && ProcessedFrom(header, rows[..n]).Failure?
    ensures ProcessedFrom(header, rows) == ProcessedFrom(header, rows[..n])
    decreases |rows| - n
  {
    if n < |rows| {
      assert rows[..n + 1][..n] == rows[..n];
      ProcessedFailureSticks(header, rows, n + 1);
    } else {
      assert rows[..n] == rows;
    }
  }

  /** An empty timestamp cell, or a row too short to have one, loads as None. */
  lemma EmptyTimestampIsNone(id: int)
    ensures ProcessedEntry(ActiveHeader, [Num(id), Text("")]) == Success((id, None))
    ensures ProcessedEntry(ActiveHeader, [Num(id)]) == Success((id, None))
    ensures ProcessedEntry(ActiveHeader, ActiveRow(id, 0)) == Success((id, Some(0)))
  {
    assert LastIndexOf(ActiveHeader, Text(UserIdColumn)) == 0;
    assert LastIndexOf(ActiveHeader, Text(TimestampColumn)) == 1;
  }

  /**
   * Later rows override earlier ones: the value kept for an id is the one from its last
   * non-blank row.
   */
  lemma {:induction false} LastRowWins(header: Row, rows: seq<Row>, i: nat, id: int, ts: Option<int>)
    requires ProcessedFrom(header, rows).Success?
    requires i < |rows| && rows[i] != [] && ProcessedEntry(header, rows[i]) == Success((id, ts))
    requires forall j :: i < j < |rows| && rows[j] != [] && ProcessedEntry(header, rows[j]).Success? ==>
               ProcessedEntry(header, rows[j]).value.0 != id
    ensures id in ProcessedFrom(header, rows).value
    ensures ProcessedFrom(header, rows).value[id] == ts
  {
    var prefix := rows[..|rows| - 1];
    if i < |rows| - 1 {
      assert ProcessedFrom(header, prefix).Success?;
      LastRowWins(header, prefix, i, id, ts);
    }
  }

  /** Appending `[user_id, ts]` rows under the program's own header adds exactly those ids. */
  lemma {:induction false} AppendActiveRow(rows: seq<Row>, id: int, ts: int)
    requires ProcessedFrom(ActiveHeader, rows).Success?
    ensures ProcessedFrom(ActiveHeader, rows + [ActiveRow(id, ts)])
         == Success(ProcessedFrom(ActiveHeader, rows).value[id := Some(ts)])
  {
    assert (rows + [ActiveRow(id, ts)])[..|rows|] == rows;
    assert LastIndexOf(ActiveHeader, Text(UserIdColumn)) == 0;
    assert LastIndexOf(ActiveHeader, Text(TimestampColumn)) == 1;
  }

  // ---------------------------------------------------------------------------------------
  // load_blacklist / load_recently_checked / save_blacklist / save_recently_checked
  // ---------------------------------------------------------------------------------------

  /** The ids of an id file: `int(row[0])` of every non-blank row, no header. */
  function IdSetFrom(rows: seq<Row>): Result<set<int>, Error> {
    if rows == [] then Success({})
    else
      match IdSetFrom(rows[..|rows| - 1])
      case Failure(e) => Failure(e)
      case Success(s) =>
        var row := rows[|rows| - 1];
        if row == [] then Success(s)
        else
          match ParseInt(row[0])
          case Failure(e) => Failure(e)
          case Success(id) => Success(s + {id})
  }

  /** What `load_blacklist` (and the identical `load_recently_checked`) returns; a missing file is empty. */
  function IdSetOf(file: Option<seq<Row>>): Result<set<int>, Error> {
    match file
    case None => Success({})
    case Some(rows) => IdSetFrom(rows)
  }

  lemma {:induction false} IdSetFailureSticks(rows: seq<Row>, n: nat)
    requires n <= |rows| && IdSetFrom(rows[..n]).Failure?
    ensures IdSetFrom(rows) == IdSetFrom(rows[..n])
    decreases |rows| - n
  {
    if n < |rows| {
      assert rows[..n + 1][..n] == rows[..n];
      IdSetFailureSticks(rows, n + 1);
    } else {
      assert rows[..n] == rows;
    }
  }

  /** `load_blacklist` and `load_recently_checked`: one loop, a set of ids out. */
  method LoadIdFile(file: Option<seq<Row>>) returns (r: Result<set<int>, Error>)
    ensures r == IdSetOf(file)
  {
    if file.None? {
      return Success({});
    }
    var rows := file.value;
    var ids: set<int> := {};
    var i := 0;
    while i < |rows|
      invariant 0 <= i <= |rows|
      invariant IdSetFrom(rows[..i]) == Success(ids)
    {
      assert rows[..i + 1][..i] == rows[..i];
      if rows[i] != [] {
        var id := ParseInt(rows[i][0]);
        if id.Failure? {
          IdSetFailureSticks(rows, i + 1);
          return Failure(id.error);
        }
        ids := ids + {id.value};
      }
      i := i + 1;
    }
    assert rows[..i] == rows;
    return Success(ids);
  }

  /** The rows of the set of ids read in order: exactly the ids listed. */
  lemma {:induction false} IdRowsLoad(order: seq<int>)
    ensures IdSetFrom(IdRows(order)) == Success(set x | x in order)
  {
    if order != [] {
      var init := order[..|order| - 1];
      IdRowsLoad(init);
      var rows := IdRows(order);
      assert rows[..|rows| - 1] == IdRows(init);
      assert rows[|rows| - 1] == [Num(order[|order| - 1])];
      assert ParseInt(Num(order[|order| - 1])) == Success(order[|order| - 1]);
      assert (set x | x in order) == (set x | x in init) + {order[|order| - 1]} by {
        assert order == init + [order[|order| - 1]];
      }
    } else {
      assert IdRows(order) == [];
      assert (set x | x in order) == {};
    }
  }

  /** Saving a set and loading the file back gives the same set: neither side has a header. */
  lemma SavedSetLoadsBack(rows: seq<Row>, s: set<int>)
    requires IsSavedSet(rows, s)
    ensures IdSetOf(Some(rows)) == Success(s)
  {
    var order :| IsEnumeration(order, s) && rows == IdRows(order);
    IdRowsLoad(order);
    assert (set x | x in order) == s;
  }

  // ---------------------------------------------------------------------------------------
  // check_public_statuses: the per-id step, as a function of the state it reads and writes
  // ---------------------------------------------------------------------------------------

  /** The run counters shown by the progress window. */
  datatype Tally = Tally(totalProcessed: nat, blacklisted: nat, inactive: nat)

  /**
   * What a run reads and writes: the two id sets, the rows of the active file, the counters,
   * and the ids requested from the API so far (the network trace).
   */
  datatype Snapshot = Snapshot(
    blacklist: set<int>,
    recentlyChecked: set<int>,
    activeRows: seq<Row>,
    tally: Tally,
    requests: seq<int>)

  /** True when the step for `id` is skipped without a request. */
  predicate Known(processed: map<int, Option<int>>, s: Snapshot, id: int) {
    id in processed || id in s.blacklist || id in s.recentlyChecked
  }

  /** One iteration of the loop of `check_public_statuses` for `id`, the API answering `resp`. */
  function Visit(processed: map<int, Option<int>>, s: Snapshot, id: int, resp: ProfileResponse, now: int): Snapshot {
    if id in processed then s
    else if id in s.blacklist then s.(tally := s.tally.(blacklisted := s.tally.blacklisted + 1))
    else if id in s.recentlyChecked then s
    else
      var fetched := s.(requests := s.requests + [id]);
      var ts := LastActionTimestamp(resp);
      if ts.None? then
        fetched.(blacklist := s.blacklist + {id}, tally := s.tally.(blacklisted := s.tally.blacklisted + 1))
      else if IsActive(ts, now) then
        fetched.(activeRows := s.activeRows + [ActiveRow(id, ts.value)],
                 tally := s.tally.(totalProcessed := s.tally.totalProcessed + 1))
      else
        fetched.(recentlyChecked := s.recentlyChecked + {id},
                 tally := s.tally.(totalProcessed := s.tally.totalProcessed + 1, inactive := s.tally.inactive + 1))
  }

  /** A whole shard (or several shards one after the other), id by id. */
  function Run(processed: map<int, Option<int>>, s: Snapshot, ids: seq<int>, net: int -> ProfileResponse, now: int): Snapshot {
    if ids == [] then s
    else Visit(processed, Run(processed, s, ids[..|ids| - 1], net, now), ids[|ids| - 1], net(ids[|ids| - 1]), now)
  }

  /**
   * A known id is skipped without a request; the checks run in the order processed,
   * blacklist, recently checked, and only the blacklist skip counts (as blacklisted).
   */
  lemma VisitSkipsKnown(processed: map<int, Option<int>>, s: Snapshot, id: int, resp: ProfileResponse, now: int)
    requires Known(processed, s, id)
    ensures var r := Visit(processed, s, id, resp, now);
      && r.requests == s.requests
      && r.blacklist == s.blacklist && r.recentlyChecked == s.recentlyChecked && r.activeRows == s.activeRows
      && r.tally.totalProcessed == s.tally.totalProcessed && r.tally.inactive == s.tally.inactive
      && r.tally.blacklisted == s.tally.blacklisted + (if id !in processed && id in s.blacklist then 1 else 0)
  {
  }

  /**
   * An unknown id is requested once and lands in exactly one place, the other two left
   * unchanged: the blacklist when there is no timestamp, one `[id, ts]` row when active,
   * the recently-checked set otherwise. The counters follow the same three cases.
   */
  lemma VisitRoutesUnknown(processed: map<int, Option<int>>, s: Snapshot, id: int, resp: ProfileResponse, now: int)
    requires !Known(processed, s, id)
    ensures var r := Visit(processed, s, id, resp, now);
      var ts := LastActionTimestamp(resp);
      && r.requests == s.requests + [id]
      && (ts.None? ==>
            && r.blacklist == s.blacklist + {id} && r.recentlyChecked == s.recentlyChecked
            && r.activeRows == s.activeRows
            && r.tally == s.tally.(blacklisted := s.tally.blacklisted + 1))
      && (ts.Some? && IsActive(ts, now) ==>
            && r.blacklist == s.blacklist && r.recentlyChecked == s.recentlyChecked
            && r.activeRows == s.activeRows + [ActiveRow(id, ts.value)]
            && r.tally == s.tally.(totalProcessed := s.tally.totalProcessed + 1))
      && (ts.Some? && !IsActive(ts, now) ==>
            && r.blacklist == s.blacklist && r.recentlyChecked == s.recentlyChecked + {id}
            && r.activeRows == s.activeRows
            && r.tally == s.tally.(totalProcessed := s.tally.totalProcessed + 1, inactive := s.tally.inactive + 1))
  {
  }

  /** Running two lists one after the other is running their concatenation. */
  lemma {:induction false} RunAppend(processed: map<int, Option<int>>, s: Snapshot, a: seq<int>, b: seq<int>, net: int -> ProfileResponse, now: int)
    ensures Run(processed, s, a + b, net, now) == Run(processed, Run(processed, s, a, net, now), b, net, now)
  {
    if b != [] {
      assert (a + b)[..|a + b| - 1] == a + b[..|b| - 1];
      RunAppend(processed, s, a, b[..|b| - 1], net, now);
    } else {
      assert a + b == a;
    }
  }

  /** Where the API's answer sends an id that is requested. */
  datatype Destination = ToBlacklist | ToActive(ts: int) | ToRecentlyChecked

  function DestinationOf(resp: ProfileResponse, now: int): Destination {
    var ts := LastActionTimestamp(resp);
    if ts.None? then ToBlacklist
    else if IsActive(ts, now) then ToActive(ts.value)
    else ToRecentlyChecked
  }

  /** The active rows a list of fresh ids produces, in list order. */
  function ActiveRowsOf(net: int -> ProfileResponse, now: int): int -> seq<Row> {
    id => match DestinationOf(net(id), now)
          case ToActive(ts) => [ActiveRow(id, ts)]
          case _ => []
  }

  /**
   * A run over distinct ids that are all unknown requests each id once, in order, and
   * sends each to exactly the destination its answer selects: the blacklist, one active row,
   * or the recently-checked set.
   */
  lemma {:induction false} RunRoutesFreshIds(processed: map<int, Option<int>>, s: Snapshot, ids: seq<int>, net: int -> ProfileResponse, now: int)
    requires forall i, j :: 0 <= i < j < |ids| ==> ids[i] != ids[j]
    requires forall i :: 0 <= i < |ids| ==> !Known(processed, s, ids[i])
    ensures var r := Run(processed, s, ids, net, now);
      && r.requests == s.requests + ids
      && r.activeRows == s.activeRows + FlatMap(ids, ActiveRowsOf(net, now))
      && (forall id :: id in r.blacklist <==> id in s.blacklist || (id in ids && DestinationOf(net(id), now) == ToBlacklist))
      && (forall id :: id in r.recentlyChecked <==> id in s.recentlyChecked || (id in ids && DestinationOf(net(id), now) == ToRecentlyChecked))
  {
    if ids != [] {
      var prefix := ids[..|ids| - 1];
      var last := ids[|ids| - 1];
      RunRoutesFreshIds(processed, s, prefix, net, now);
      var mid := Run(processed, s, prefix, net, now);
      assert last !in prefix;
      assert !Known(processed, mid, last);
      VisitRoutesUnknown(processed, mid, last, net(last), now);
      var r := Run(processed, s, ids, net, now);
      var added := ActiveRowsOf(net, now)(last);
      assert r.activeRows == mid.activeRows + added;
      assert FlatMap(ids, ActiveRowsOf(net, now)) == FlatMap(prefix, ActiveRowsOf(net, now)) + added;
      AppendAssoc(s.activeRows, FlatMap(prefix, ActiveRowsOf(net, now)), added);
      AppendAssoc(s.requests, prefix, [last]);
      assert ids == prefix + [last];
    }
  }

  /** Nothing but skips: a run over known ids changes no set, no row and makes no request. */
  lemma {:induction false} RunOverKnownIds(processed: map<int, Option<int>>, s: Snapshot, ids: seq<int>, net: int -> ProfileResponse, now: int)
    requires forall i :: 0 <= i < |ids| ==> Known(processed, s, ids[i])
    ensures var r := Run(processed, s, ids, net, now);
      r.requests == s.requests && r.blacklist == s.blacklist
      && r.recentlyChecked == s.recentlyChecked && r.activeRows == s.activeRows
  {
    if ids != [] {
      RunOverKnownIds(processed, s, ids[..|ids| - 1], net, now);
      VisitSkipsKnown(processed, Run(processed, s, ids[..|ids| - 1], net, now), ids[|ids| - 1], net(ids[|ids| - 1]), now);
    }
  }

  /** Rows of the form `[user_id, ts]`, as this program appends them. */
  ghost predicate AllActiveRows(rows: seq<Row>) {
    forall i :: 0 <= i < |rows| ==> exists id, ts :: rows[i] == ActiveRow(id, ts)
  }

  /**
   * A run only adds: the sets grow, rows are appended in `[id, ts]` form, and afterwards
   * every id of the list is known, either to the sets or through an appended row.
   */
  lemma {:induction false} RunLeavesIdsKnown(processed: map<int, Option<int>>, s: Snapshot, ids: seq<int>, net: int -> ProfileResponse, now: int)
    ensures var r := Run(processed, s, ids, net, now);
      && s.blacklist <= r.blacklist && s.recentlyChecked <= r.recentlyChecked
      && |s.activeRows| <= |r.activeRows| && r.activeRows[..|s.activeRows|] == s.activeRows
      && AllActiveRows(r.activeRows[|s.activeRows|..])
      && forall i :: 0 <= i < |ids| ==>
           Known(processed, r, ids[i]) || exists ts :: ActiveRow(ids[i], ts) in r.activeRows[|s.activeRows|..]
  {
    var r := Run(processed, s, ids, net, now);
    if ids == [] {
      assert r.activeRows[|s.activeRows|..] == [];
    } else {
      var prefix := ids[..|ids| - 1];
      var last := ids[|ids| - 1];
      RunLeavesIdsKnown(processed, s, prefix, net, now);
      var mid := Run(processed, s, prefix, net, now);
      assert r == Visit(processed, mid, last, net(last), now);
      VisitLeavesIdKnown(processed, mid, last, net(last), now, |s.activeRows|);
      var added := r.activeRows[|s.activeRows|..];
      var before := mid.activeRows[|s.activeRows|..];
      assert before <= added;
      forall i | 0 <= i < |ids| - 1
        ensures Known(processed, r, ids[i]) || exists ts :: ActiveRow(ids[i], ts) in added
      {
        assert ids[i] == prefix[i];
        if !Known(processed, mid, ids[i]) {
          var ts :| ActiveRow(ids[i], ts) in before;
          assert ActiveRow(ids[i], ts) in added;
        }
      }
    }
  }

  /**
   * One visit only adds, in the program's row form, and leaves its id known: skipped as
   * known, put in a set, or given a row among those appended after position `n`.
   */
  lemma VisitLeavesIdKnown(processed: map<int, Option<int>>, s: Snapshot, id: int, resp: ProfileResponse, now: int, n: nat)
    requires n <= |s.activeRows| && AllActiveRows(s.activeRows[n..])
    ensures var r := Visit(processed, s, id, resp, now);
      && s.blacklist <= r.blacklist && s.recentlyChecked <= r.recentlyChecked
      && |s.activeRows| <= |r.activeRows| && r.activeRows[..|s.activeRows|] == s.activeRows
      && AllActiveRows(r.activeRows[n..])
      && (Known(processed, r, id) || exists ts :: ActiveRow(id, ts) in r.activeRows[n..])
  {
    var r := Visit(processed, s, id, resp, now);
    if Known(processed, s, id) {
      VisitSkipsKnown(processed, s, id, resp, now);
    } else {
      VisitRoutesUnknown(processed, s, id, resp, now);
      var ts := LastActionTimestamp(resp);
      if ts.Some? && IsActive(ts, now) {
        assert r.activeRows[n..] == s.activeRows[n..] + [ActiveRow(id, ts.value)];
        assert ActiveRow(id, ts.value) in r.activeRows[n..];
      }
    }
  }

  /** The processed map after appending rows of the program's form still loads and keeps every old key. */
  lemma {:induction false} AppendActiveRows(rows: seq<Row>, more: seq<Row>)
    requires ProcessedFrom(ActiveHeader, rows).Success?
    requires AllActiveRows(more)
    ensures ProcessedFrom(ActiveHeader, rows + more).Success?
    ensures ProcessedFrom(ActiveHeader, rows).value.Keys <= ProcessedFrom(ActiveHeader, rows + more).value.Keys
    ensures forall id, ts :: ActiveRow(id, ts) in more ==> id in ProcessedFrom(ActiveHeader, rows + more).value
  {
    if more == [] {
      assert rows + more == rows;
    } else {
      var init := more[..|more| - 1];
      var last := more[|more| - 1];
      assert more == init + [last];
      AppendActiveRows(rows, init);
      var id, ts :| last == ActiveRow(id, ts);
      AppendActiveRow(rows + init, id, ts);
      assert rows + more == (rows + init) + [ActiveRow(id, ts)];
      forall i, t | ActiveRow(i, t) in more
        ensures i in ProcessedFrom(ActiveHeader, rows + more).value
      {
        if ActiveRow(i, t) != last {
          assert ActiveRow(i, t) in init;
        }
      }
    }
  }

  /** The active file as the store holds it: header first when the program wrote it. */
  ghost predicate ActiveFileLoads(processed: map<int, Option<int>>, file: seq<Row>) {
    && file != [] && file[0] == ActiveHeader
    && ProcessedFrom(ActiveHeader, file[1..]) == Success(processed)
  }

  /** Reloading an active file after appending rows of the program's form keeps and adds ids. */
  lemma ReloadAfterAppend(processed: map<int, Option<int>>, file: seq<Row>, added: seq<Row>)
    requires ActiveFileLoads(processed, file)
    requires AllActiveRows(added)
    ensures ProcessedUsersOf(Some(file + added)).Success?
    ensures processed.Keys <= ProcessedUsersOf(Some(file + added)).value.Keys
    ensures forall id, ts :: ActiveRow(id, ts) in added ==> id in ProcessedUsersOf(Some(file + added)).value
  {
    assert (file + added)[0] == ActiveHeader;
    assert (file + added)[1..] == file[1..] + added;
    AppendActiveRows(file[1..], added);
  }

  /** After a run, every id of its list is known to the reloaded active file or the sets. */
  lemma RunThenReloadKnowsAll(processed: map<int, Option<int>>, s: Snapshot, ids: seq<int>, net: int -> ProfileResponse, now: int)
    requires ActiveFileLoads(processed, s.activeRows)
    ensures var r := Run(processed, s, ids, net, now);
      && ProcessedUsersOf(Some(r.activeRows)).Success?
      && forall i :: 0 <= i < |ids| ==> Known(ProcessedUsersOf(Some(r.activeRows)).value, r, ids[i])
  {
    var r := Run(processed, s, ids, net, now);
    RunLeavesIdsKnown(processed, s, ids, net, now);
    var added := r.activeRows[|s.activeRows|..];
    assert r.activeRows == s.activeRows + added;
    ReloadAfterAppend(processed, s.activeRows, added);
    var reloaded := ProcessedUsersOf(Some(r.activeRows)).value;
    forall i | 0 <= i < |ids|
      ensures Known(reloaded, r, ids[i])
    {
      if !Known(processed, r, ids[i]) {
        var ts :| ActiveRow(ids[i], ts) in added;
      }
    }
  }

  /**
   * Resumability: after a run whose active file starts with the program's header, reloading
   * the active file gives a map that still loads, and a second run over the same ids with the
   * reloaded map and the sets the first run left behind makes no request at all.
   */
  lemma RerunRequestsNothing(processed: map<int, Option<int>>, s: Snapshot, ids: seq<int>, net: int -> ProfileResponse, now: int)
    requires ActiveFileLoads(processed, s.activeRows)
    ensures var r := Run(processed, s, ids, net, now);
      && ProcessedUsersOf(Some(r.activeRows)).Success?
      && var reloaded := ProcessedUsersOf(Some(r.activeRows)).value;
      && Run(reloaded, r, ids, net, now).requests == r.requests
  {
    var r := Run(processed, s, ids, net, now);
    RunThenReloadKnowsAll(processed, s, ids, net, now);
    RunOverKnownIds(ProcessedUsersOf(Some(r.activeRows)).value, r, ids, net, now);
  }

  /**
   * The run's maps for the scenario below: id 1 active now, id 2 without a timestamp,
   * id 3 seen 50 days ago, id 4 answered with status 500.
   */
  function ScenarioNet(now: int): int -> ProfileResponse {
    id =>
      if id == 1 then ProfileResponse(200, Stamped(Some(now)))
      else if id == 2 then ProfileResponse(200, NoLastAction)
      else if id == 3 then ProfileResponse(200, Stamped(Some(now - 50 * SecondsPerDay)))
      else ProfileResponse(500, NoLastAction)
  }

  /**
   * Ids 1 to 4 in one run of a key's shard: the sets end as blacklist {2, 4} and recently checked {3}, one
   * active row for id 1, and the counters read processed 2, blacklisted 2, inactive 1
   * (only fetched active or inactive ids count as processed).
   */
  lemma FourIdScenario(now: int)
    requires now != 0
    ensures var s0 := Snapshot({}, {}, [ActiveHeader], Tally(0, 0, 0), []);
      var r := Run(map[], s0, [1, 2, 3, 4], ScenarioNet(now), now);
      && r.blacklist == {2, 4} && r.recentlyChecked == {3}
      && r.activeRows == [ActiveHeader, ActiveRow(1, now)]
      && r.tally == Tally(2, 2, 1)
      && r.requests == [1, 2, 3, 4]
  {
    var net := ScenarioNet(now);
    var s0 := Snapshot({}, {}, [ActiveHeader], Tally(0, 0, 0), []);
    assert [1, 2, 3, 4][..3] == [1, 2, 3];
    assert [1, 2, 3][..2] == [1, 2];
    assert [1, 2][..1] == [1];
    assert [1][..0] == [];
    assert net(1) == ProfileResponse(200, Stamped(Some(now)));
    assert net(2) == ProfileResponse(200, NoLastAction);
    assert net(3) == ProfileResponse(200, Stamped(Some(now - 50 * SecondsPerDay)));
    assert net(4) == ProfileResponse(500, NoLastAction);
    assert Run(map[], s0, [], net, now) == s0;
    var s1 := Run(map[], s0, [1], net, now);
    assert s1 == Snapshot({}, {}, [ActiveHeader, ActiveRow(1, now)], Tally(1, 0, 0), [1]);
    var s2 := Run(map[], s0, [1, 2], net, now);
    assert s2 == Snapshot({2}, {}, [ActiveHeader, ActiveRow(1, now)], Tally(1, 1, 0), [1, 2]);
    var s3 := Run(map[], s0, [1, 2, 3], net, now);
    assert s3 == Snapshot({2}, {3}, [ActiveHeader, ActiveRow(1, now)], Tally(2, 1, 1), [1, 2, 3]);
  }

  /**
   * The processed map is not updated during a run, so an active id listed twice is requested
   * twice and gets two rows.
   */
  lemma DuplicateActiveIdIsFetchedTwice(now: int)
    requires now != 0
    ensures var s0 := Snapshot({}, {}, [ActiveHeader], Tally(0, 0, 0), []);
      var r := Run(map[], s0, [1, 1], ScenarioNet(now), now);
      r.requests == [1, 1] && r.activeRows == [ActiveHeader, ActiveRow(1, now), ActiveRow(1, now)]
  {
    var net := ScenarioNet(now);
    var s0 := Snapshot({}, {}, [ActiveHeader], Tally(0, 0, 0), []);
    assert net(1) == ProfileResponse(200, Stamped(Some(now)));
    assert [1, 1][..1] == [1];
    assert [1][..0] == [];
    assert Run(map[], s0, [], net, now) == s0;
    var s1 := Run(map[], s0, [1], net, now);
    assert s1 == Snapshot({}, {}, [ActiveHeader, ActiveRow(1, now)], Tally(1, 0, 0), [1]);
  }

  // ---------------------------------------------------------------------------------------
  // The shared store and the imperative loops
  // ---------------------------------------------------------------------------------------

  /**
   * The state the workers share: the maps and sets loaded at start, the three files, the
   * counters behind the progress window, and (for the proofs) the ids requested so far.
   */
  class Store {
    const processed: map<int, Option<int>>
    var blacklist: set<int>
    var recentlyChecked: set<int>
    var activeFile: seq<Row>
    var blacklistFile: Option<seq<Row>>
    var recentlyCheckedFile: Option<seq<Row>>
    var totalProcessed: nat
    var blacklistedCount: nat
    var inactiveCount: nat
    ghost var requests: seq<int>

    /** The two id files always load back as the two sets in memory. */
    ghost predicate Valid()
      reads this
    {
      IdSetOf(blacklistFile) == Success(blacklist) && IdSetOf(recentlyCheckedFile) == Success(recentlyChecked)
    }

    ghost function Snap(): Snapshot
      reads this
    {
      Snapshot(blacklist, recentlyChecked, activeFile, Tally(totalProcessed, blacklistedCount, inactiveCount), requests)
    }

    /** The state after the three loads of the main block; a missing active file is an empty one. */
    constructor (processed: map<int, Option<int>>, activeFile: Option<seq<Row>>,
                 blacklistFile: Option<seq<Row>>, recentlyCheckedFile: Option<seq<Row>>)
      requires IdSetOf(blacklistFile).Success? && IdSetOf(recentlyCheckedFile).Success?
      ensures Valid()
      ensures this.processed == processed && this.activeFile == activeFile.GetOr([])
      ensures blacklist == IdSetOf(blacklistFile).value && recentlyChecked == IdSetOf(recentlyCheckedFile).value
      ensures this.blacklistFile == blacklistFile && this.recentlyCheckedFile == recentlyCheckedFile
      ensures Snap().tally == Tally(0, 0, 0) && requests == []
    {
      this.processed := processed;
      this.activeFile := activeFile.GetOr([]);
      this.blacklistFile := blacklistFile;
      this.recentlyCheckedFile := recentlyCheckedFile;
      blacklist := IdSetOf(blacklistFile).value;
      recentlyChecked := IdSetOf(recentlyCheckedFile).value;
      totalProcessed, blacklistedCount, inactiveCount := 0, 0, 0;
      requests := [];
    }

    /** `blacklist.add(user_id)` followed by `save_blacklist`: only the blacklist and its file change. */
    method AddToBlacklist(id: int)
      requires Valid()
      modifies this
      ensures Valid()
      ensures Snap() == old(Snap()).(blacklist := old(blacklist) + {id})
      ensures recentlyCheckedFile == old(recentlyCheckedFile)
    {
      blacklist := blacklist + {id};
      var rows := SaveIdFile(blacklist);
      SavedSetLoadsBack(rows, blacklist);
      blacklistFile := Some(rows);
    }

    /** `recently_checked.add(user_id)` followed by `save_recently_checked`. */
    method AddToRecentlyChecked(id: int)
      requires Valid()
      modifies this
      ensures Valid()
      ensures Snap() == old(Snap()).(recentlyChecked := old(recentlyChecked) + {id})
      ensures blacklistFile == old(blacklistFile)
    {
      recentlyChecked := recentlyChecked + {id};
      var rows := SaveIdFile(recentlyChecked);
      SavedSetLoadsBack(rows, recentlyChecked);
      recentlyCheckedFile := Some(rows);
    }

    /**
     * One pass of the loop body of `check_public_statuses`: the store moves as `Visit` says,
     * a saved file is rewritten from the whole set, and the key is used only for a request.
     */
    method CheckOne(id: int, key: Keys.ApiKey, now: int, net: int -> ProfileResponse)
      requires Valid()
      modifies this, key
      ensures Valid()
      ensures Snap() == Visit(processed, old(Snap()), id, net(id), now)
      ensures key.callNumber == old(key.callNumber) + (|requests| - |old(requests)|)
    {
      ghost var s := Snap();
      if id in processed {
      } else if id in blacklist {
        blacklistedCount := blacklistedCount + 1;
      } else if id in recentlyChecked {
      } else {
        var ts := FetchLastAction(id, key, net);
        requests := requests + [id];
        if ts.None? {
          AddToBlacklist(id);
          blacklistedCount := blacklistedCount + 1;
          assert Snap() == s.(requests := s.requests + [id], blacklist := s.blacklist + {id},
                              tally := s.tally.(blacklisted := s.tally.blacklisted + 1));
        } else if IsActive(ts, now) {
          activeFile := activeFile + [ActiveRow(id, ts.value)];
          totalProcessed := totalProcessed + 1;
          assert Snap() == s.(requests := s.requests + [id], activeRows := s.activeRows + [ActiveRow(id, ts.value)],
                              tally := s.tally.(totalProcessed := s.tally.totalProcessed + 1));
        } else {
          inactiveCount := inactiveCount + 1;
          AddToRecentlyChecked(id);
          totalProcessed := totalProcessed + 1;
          assert Snap() == s.(requests := s.requests + [id], recentlyChecked := s.recentlyChecked + {id},
                              tally := s.tally.(totalProcessed := s.tally.totalProcessed + 1, inactive := s.tally.inactive + 1));
        }
      }
    }

    /**
     * `check_public_statuses` for one shard and one key: the store ends as `Run` says, the
     * files still load back as the sets, and the key made one call per request.
     */
    method CheckPublicStatuses(ids: seq<int>, key: Keys.ApiKey, now: int, net: int -> ProfileResponse)
      requires Valid()
      modifies this, key
      ensures Valid()
      ensures Snap() == Run(processed, old(Snap()), ids, net, now)
      ensures key.callNumber == old(key.callNumber) + (|requests| - |old(requests)|)
    {
      var i := 0;
      while i < |ids|
        invariant 0 <= i <= |ids|
        invariant Valid()
        invariant Snap() == Run(processed, old(Snap()), ids[..i], net, now)
        invariant key.callNumber == old(key.callNumber) + (|requests| - |old(requests)|)
      {
        assert ids[..i + 1][..i] == ids[..i];
        CheckOne(ids[i], key, now, net);
        i := i + 1;
      }
      assert ids[..i] == ids;
    }

    /**
     * `process_with_multiple_keys`: an empty key list fails on the division before the active
     * file is opened; otherwise the header goes in when the file is empty, and the shards of
     * the slice partition run one after the other, which is a run over the whole list.
     */
    method ProcessWithMultipleKeys(ids: seq<int>, keys: seq<Keys.ApiKey>, now: int, net: int -> ProfileResponse)
      returns (err: Option<Error>)
      requires Valid()
      modifies this, keys
      ensures Valid()
      ensures |keys| == 0 ==> err == Some(ZeroDivisionError) && Snap() == old(Snap())
      ensures |keys| > 0 ==> err == None
      ensures |keys| > 0 ==> Snap() == Run(processed, old(Snap()).(activeRows := WithHeader(old(Snap()).activeRows)), ids, net, now)
    {
      var shards := Sharding.SliceShards(ids, |keys|);
      if shards.Failure? {
        return Some(shards.error);
      }
      if activeFile == [] {
        activeFile := [ActiveHeader];
      }
      ghost var start := Snap();
      assert start == old(Snap()).(activeRows := WithHeader(old(Snap()).activeRows));
      var i := 0;
      while i < |keys|
        invariant 0 <= i <= |keys|
        invariant Valid()
        invariant Snap() == Run(processed, start, Concat(shards.value[..i]), net, now)
      {
        RunShard(shards.value, i, keys[i], now, net, start);
        i := i + 1;
      }
      assert shards.value[..i] == shards.value;
      return None;
    }

    /** Worker `i`: the run goes on from where the workers before it left the store. */
    method RunShard(shards: seq<seq<int>>, i: nat, key: Keys.ApiKey, now: int, net: int -> ProfileResponse,
                    ghost start: Snapshot)
      requires i < |shards|
      requires Valid()
      requires Snap() == Run(processed, start, Concat(shards[..i]), net, now)
      modifies this, key
      ensures Valid()
      ensures Snap() == Run(processed, start, Concat(shards[..i + 1]), net, now)
    {
      ConcatStep(shards, i);
      RunAppend(processed, start, Concat(shards[..i]), shards[i], net, now);
      CheckPublicStatuses(shards[i], key, now, net);
    }
  }

  /**
   * The loads of the main block: the active file, the blacklist and the recently-checked
   * file, in that order; an uncaught error in any of them ends the program.
   */
  method Startup(activeFile: Option<seq<Row>>, blacklistFile: Option<seq<Row>>, recentlyCheckedFile: Option<seq<Row>>)
    returns (r: Result<Store, Error>)
    ensures r.Failure? <==>
      ProcessedUsersOf(activeFile).Failure? || IdSetOf(blacklistFile).Failure? || IdSetOf(recentlyCheckedFile).Failure?
    ensures r.Success? ==>
      && fresh(r.value) && r.value.Valid()
      && r.value.processed == ProcessedUsersOf(activeFile).value
      && r.value.activeFile == activeFile.GetOr([])
      && r.value.blacklist == IdSetOf(blacklistFile).value
      && r.value.recentlyChecked == IdSetOf(recentlyCheckedFile).value
      && r.value.blacklistFile == blacklistFile && r.value.recentlyCheckedFile == recentlyCheckedFile
      && r.value.Snap().tally == Tally(0, 0, 0) && r.value.requests == []
  {
    var processed := LoadProcessedUsers(activeFile);
    if processed.Failure? {
      return Failure(processed.error);
    }
    var blacklist := LoadIdFile(blacklistFile);
    if blacklist.Failure? {
      return Failure(blacklist.error);
    }
    var recentlyChecked := LoadIdFile(recentlyCheckedFile);
    if recentlyChecked.Failure? {
      return Failure(recentlyChecked.error);
    }
    var store := new Store(processed.value, activeFile, blacklistFile, recentlyCheckedFile);
    return Success(store);
  }
}
