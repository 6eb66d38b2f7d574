/**
 * The second inactivity filter (2inactivityfilter.py): every state file is read with one
 * loader that skips a header row, the id files are written without one, the activity
 * window is counted in whole days, and the work list is cut into `k` equal shards that
 * leave the remainder out.
 */
module InactivityFilter2 {
  import opened Wrappers
  import opened Csv
  import opened Seqs
  import opened Torn
  import opened StateFiles
  import Sharding

  // ---------------------------------------------------------------------------------------
  // load_csv_to_set and save_set_to_csv
  // ---------------------------------------------------------------------------------------

  /** The ids of the rows whose first cell is all digits; other and blank rows are skipped. */
  function DigitIds(rows: seq<Row>): (r: set<int>)
    ensures forall x :: x in r <==>
      exists i :: 0 <= i < |rows| && rows[i] != [] && IsDigits(rows[i][0]) && rows[i][0].n == x
  {
    if rows == [] then {}
    else
      var row := rows[|rows| - 1];
      var before := DigitIds(rows[..|rows| - 1]);
      assert forall i :: 0 <= i < |rows| - 1 ==> rows[..|rows| - 1][i] == rows[i];
      before + (if row != [] && IsDigits(row[0]) then {row[0].n} else {})
  }

  /**
   * What `load_csv_to_set` returns: a missing file is an empty set; the first row is always
   * skipped, so a file with no row at all ends in the uncaught `StopIteration` of `next`.
   */
  function CsvSetOf(file: Option<seq<Row>>): Result<set<int>, Error> {
    match file
    case None => Success({})
    case Some(rows) => if rows == [] then Failure(StopIteration) else Success(DigitIds(rows[1..]))
  }

  /** One more row read: its id joins the set when its first cell is all digits. */
  lemma DigitIdsStep(rows: seq<Row>, i: nat)
    requires 1 <= i < |rows|
    ensures DigitIds(rows[1..i + 1]) == DigitIds(rows[1..i]) + (if rows[i] != [] && IsDigits(rows[i][0]) then {rows[i][0].n} else {})
  {
    assert rows[1..i + 1][..i - 1] == rows[1..i];
    assert rows[1..i + 1][i - 1] == rows[i];
  }

  /** `load_csv_to_set`: one loop over the rows after the header. */
  method LoadCsvToSet(file: Option<seq<Row>>) returns (r: Result<set<int>, Error>)
    ensures r == CsvSetOf(file)
    ensures r.Success? ==> forall x :: x in r.value ==> x >= 0
  {
    if file.None? {
      return Success({});
    }
    var rows := file.value;
    if rows == [] {
      return Failure(StopIteration);
    }
    var ids := {};
    var i := 1;
    while i < |rows|
      invariant 1 <= i <= |rows|
      invariant ids == DigitIds(rows[1..i])
    {
      DigitIdsStep(rows, i);
      if rows[i] != [] && IsDigits(rows[i][0]) {
        ids := ids + {rows[i][0].n};
      }
      i := i + 1;
    }
    assert rows[1..i] == rows[1..];
    return Success(ids);
  }

  /** Rows of `[id]` read back: every id that isdigit() accepts, which excludes negative ones. */
  lemma IdRowsDigitIds(order: seq<int>)
    ensures DigitIds(IdRows(order)) == set x | x in order && x >= 0
  {
    var rows := IdRows(order);
    forall x | x in order && x >= 0
      ensures x in DigitIds(rows)
    {
      var i :| 0 <= i < |order| && order[i] == x;
      assert rows[i] == [Num(x)];
    }
  }

  /**
   * `save_set_to_csv` writes no header and `load_csv_to_set` always skips one: reloading a
   * saved set gives it back without the id that happened to be written first (and without
   * negative ids); an empty set is saved as an empty file, which fails to load.
   */
  lemma SavedSetReloadsWithoutFirstId(rows: seq<Row>, s: set<int>)
    requires IsSavedSet(rows, s)
    ensures s == {} ==> CsvSetOf(Some(rows)) == Failure(StopIteration)
    ensures s != {} ==>
      && rows[0] != [] && rows[0][0].Num? && rows[0][0].n in s
      && CsvSetOf(Some(rows)) == Success(set x | x in s && x != rows[0][0].n && x >= 0)
  {
    var order :| IsEnumeration(order, s) && rows == IdRows(order);
    EnumerationOfEmpty(order, s);
    if s != {} {
      EnumerationTail(order, s);
      assert rows[1..] == IdRows(order[1..]);
      IdRowsDigitIds(order[1..]);
      assert rows[0] == [Num(order[0])];
      assert (set y | y in order[1..] && y >= 0) == (set y | y in s && y != order[0] && y >= 0);
    }
  }

  /** A concrete case: a blacklist holding one id is forgotten entirely by the next start. */
  lemma SingletonSetIsForgotten()
    ensures IsSavedSet(IdRows([7]), {7})
    ensures CsvSetOf(Some(IdRows([7]))) == Success({})
  {
    assert IsEnumeration([7], {7});
    assert IdRows([7])[1..] == [];
  }

  // ---------------------------------------------------------------------------------------
  // process_users: the per-id step, as a function of the state it reads and writes
  // ---------------------------------------------------------------------------------------

  /** The part of the shared state `process_users` changes, and the ids requested so far. */
  datatype Snapshot = Snapshot(
    blacklist: set<int>,
    recentlyChecked: set<int>,
    activeRows: seq<Row>,
    requests: seq<int>)

  predicate Known(processed: set<int>, s: Snapshot, id: int) {
    id in processed || id in s.blacklist || id in s.recentlyChecked
  }

  datatype Destination = ToBlacklist | ToActive(ts: int) | ToRecentlyChecked

  /** Where a fetched id goes: None to the blacklist, active (whole days) to a row, else recently checked. */
  function DestinationOf(resp: ProfileResponse, now: int): (d: Destination)
    ensures d == ToBlacklist <==> LastActionTimestamp(resp).None?
    ensures d.ToActive? <==> IsActiveByDays(LastActionTimestamp(resp), now)
    ensures d.ToActive? ==> d.ts == LastActionTimestamp(resp).value
  {
    var ts := LastActionTimestamp(resp);
    if ts.None? then ToBlacklist
    else if IsActiveByDays(ts, now) then ToActive(ts.value)
    else ToRecentlyChecked
  }

  /** One pass of the loop body of `process_users`. */
  function Visit(processed: set<int>, s: Snapshot, id: int, resp: ProfileResponse, now: int): Snapshot {
    if Known(processed, s, id) then s
    else
      var fetched := s.(requests := s.requests + [id]);
      match DestinationOf(resp, now)
      case ToBlacklist => fetched.(blacklist := s.blacklist + {id})
      case ToActive(ts) => fetched.(activeRows := s.activeRows + [ActiveRow(id, ts)])
      case ToRecentlyChecked => fetched.(recentlyChecked := s.recentlyChecked + {id})
  }

  /** `process_users` over a list of ids, against a fixed network and clock. */
  function Run(processed: set<int>, s: Snapshot, ids: seq<int>, net: int -> ProfileResponse, now: int): (r: Snapshot)
    ensures |s.requests| <= |r.requests| && r.requests[..|s.requests|] == s.requests
  {
    if ids == [] then s
    else Visit(processed, Run(processed, s, ids[..|ids| - 1], net, now), ids[|ids| - 1], net(ids[|ids| - 1]), now)
  }

  lemma {:induction false} RunAppend(processed: set<int>, s: Snapshot, a: seq<int>, b: seq<int>, net: int -> ProfileResponse, now: int)
    ensures Run(processed, s, a + b, net, now) == Run(processed, Run(processed, s, a, net, now), b, net, now)
    decreases |b|
  {
    if b == [] {
      assert a + b == a;
    } else {
      assert (a + b)[..|a + b| - 1] == a + b[..|b| - 1];
      RunAppend(processed, s, a, b[..|b| - 1], net, now);
    }
  }

  /** The ids of a list that are unknown before the run starts, in list order. */
  function FreshIds(processed: set<int>, s: Snapshot, ids: seq<int>): (r: seq<int>)
    ensures forall x :: x in r <==> x in ids && !Known(processed, s, x)
  {
    if ids == [] then []
    else
      var last := ids[|ids| - 1];
      assert forall x :: x in ids <==> x in ids[..|ids| - 1] || x == last by {
        assert ids == ids[..|ids| - 1] + [last];
      }
      FreshIds(processed, s, ids[..|ids| - 1]) + (if Known(processed, s, last) then [] else [last])
  }

  /** The active rows a list of fresh ids produces, in list order. */
  function ActiveRowsOf(net: int -> ProfileResponse, now: int): int -> seq<Row> {
    id => ActiveRowOf(net(id), id, now)
  }

  /** The row a fetched id adds to the active file: one row when it is active, none otherwise. */
  function ActiveRowOf(resp: ProfileResponse, id: int, now: int): seq<Row> {
    match DestinationOf(resp, now)
    case ToActive(ts) => [ActiveRow(id, ts)]
    case _ => []
  }

  /**
   * Over distinct ids (the work list comes from a set), an id ends in the blacklist or the
   * recently-checked set exactly when it was there before, or was unknown at the start and
   * its answer selects that destination.
   */
  lemma {:induction false} RunSets(processed: set<int>, s: Snapshot, ids: seq<int>, net: int -> ProfileResponse, now: int)
    requires forall i, j :: 0 <= i < j < |ids| ==> ids[i] != ids[j]
    ensures var r := Run(processed, s, ids, net, now);
      && (forall id :: id in r.blacklist <==>
            id in s.blacklist || (id in ids && !Known(processed, s, id) && DestinationOf(net(id), now) == ToBlacklist))
      && (forall id :: id in r.recentlyChecked <==>
            id in s.recentlyChecked || (id in ids && !Known(processed, s, id) && DestinationOf(net(id), now) == ToRecentlyChecked))
  {
    if ids != [] {
      var prefix := ids[..|ids| - 1];
      var last := ids[|ids| - 1];
      assert ids == prefix + [last];
      RunSets(processed, s, prefix, net, now);
      assert last !in prefix;
    }
  }

  /** Over distinct ids, a visit to the next id sees it as known exactly when the run's start did. */
  lemma KnownAtVisit(processed: set<int>, s: Snapshot, ids: seq<int>, net: int -> ProfileResponse, now: int)
    requires forall i, j :: 0 <= i < j < |ids| ==> ids[i] != ids[j]
    requires ids != []
    ensures Known(processed, Run(processed, s, ids[..|ids| - 1], net, now), ids[|ids| - 1]) <==> Known(processed, s, ids[|ids| - 1])
  {
    RunSets(processed, s, ids[..|ids| - 1], net, now);
    assert ids[|ids| - 1] !in ids[..|ids| - 1];
  }

  /** Over distinct ids, a run requests exactly the ids that were unknown when it started, once each and in order. */
  lemma {:induction false} RunRequestsFreshIds(processed: set<int>, s: Snapshot, ids: seq<int>, net: int -> ProfileResponse, now: int)
    requires forall i, j :: 0 <= i < j < |ids| ==> ids[i] != ids[j]
    ensures Run(processed, s, ids, net, now).requests == s.requests + FreshIds(processed, s, ids)
  {
    if ids != [] {
      var prefix := ids[..|ids| - 1];
      var last := ids[|ids| - 1];
      RunRequestsFreshIds(processed, s, prefix, net, now);
      KnownAtVisit(processed, s, ids, net, now);
      var unknown := FreshIds(processed, s, prefix);
      if !Known(processed, s, last) {
        assert FreshIds(processed, s, ids) == unknown + [last];
      } else {
        assert FreshIds(processed, s, ids) == unknown;
      }
    }
  }

  /** Over distinct ids, a run appends one active row for each id unknown at its start whose answer is active, in order. */
  lemma {:induction false} RunActiveRows(processed: set<int>, s: Snapshot, ids: seq<int>, net: int -> ProfileResponse, now: int)
    requires forall i, j :: 0 <= i < j < |ids| ==> ids[i] != ids[j]
    ensures Run(processed, s, ids, net, now).activeRows == s.activeRows + FlatMap(FreshIds(processed, s, ids), ActiveRowsOf(net, now))
  {
    if ids != [] {
      var prefix := ids[..|ids| - 1];
      var last := ids[|ids| - 1];
      RunActiveRows(processed, s, prefix, net, now);
      KnownAtVisit(processed, s, ids, net, now);
      var unknown := FreshIds(processed, s, prefix);
      var mid := Run(processed, s, prefix, net, now);
      assert Run(processed, s, ids, net, now) == Visit(processed, mid, last, net(last), now);
      if !Known(processed, s, last) {
        var added := ActiveRowOf(net(last), last, now);
        assert FreshIds(processed, s, ids) == unknown + [last];
        FlatMapAppend(unknown, [last], ActiveRowsOf(net, now));
        assert FlatMap([last], ActiveRowsOf(net, now)) == added;
        assert Visit(processed, mid, last, net(last), now).activeRows == mid.activeRows + added;
        AppendAssoc(s.activeRows, FlatMap(unknown, ActiveRowsOf(net, now)), added);
      } else {
        assert FreshIds(processed, s, ids) == unknown;
      }
    }
  }

  /** Over distinct ids, a run over a prefix of the list requests none of the ids after it. */
  lemma PrefixRunSkipsRest(processed: set<int>, s: Snapshot, ids: seq<int>, c: nat, net: int -> ProfileResponse, now: int)
    requires c <= |ids|
    requires forall i, j :: 0 <= i < j < |ids| ==> ids[i] != ids[j]
    ensures var r := Run(processed, s, ids[..c], net, now);
      forall i :: c <= i < |ids| ==> ids[i] !in r.requests[|s.requests|..]
  {
    var covered := ids[..c];
    assert forall i, j :: 0 <= i < j < |covered| ==> covered[i] != covered[j];
    RunRequestsFreshIds(processed, s, covered, net, now);
    var r := Run(processed, s, covered, net, now);
    assert r.requests[|s.requests|..] == FreshIds(processed, s, covered);
    forall i | c <= i < |ids|
      ensures ids[i] !in covered
    {
      forall j | 0 <= j < |covered|
        ensures covered[j] != ids[i]
      {
        assert covered[j] == ids[j];
      }
    }
  }

  /**
   * The remainder-dropping partition: a run over the ids the shards cover requests none of
   * the last `len % k` ids of the list.
   */
  lemma DroppedIdsNeverFetched(processed: set<int>, s: Snapshot, ids: seq<int>, k: nat, net: int -> ProfileResponse, now: int)
    requires k > 0
    requires forall i, j :: 0 <= i < j < |ids| ==> ids[i] != ids[j]
    ensures var r := Run(processed, s, Concat(Sharding.DroppingShards(ids, k).value), net, now);
      forall i :: 0 <= i < |ids| && i >= |ids| - |ids| % k ==> ids[i] !in r.requests[|s.requests|..]
  {
    Sharding.DroppingShardsCoverage(ids, k);
    PrefixRunSkipsRest(processed, s, ids, |ids| - |ids| % k, net, now);
  }

  /** A concrete case: three ids and two keys; the shards are `[1]` and `[2]`, and id 3 is never fetched. */
  lemma ThreeIdsTwoKeys()
    ensures Sharding.DroppingShards([1, 2, 3], 2) == Success([[1], [2]])
    ensures Concat(Sharding.DroppingShards([1, 2, 3], 2).value) == [1, 2]
  {
    assert Sharding.Chunk([1, 2, 3], 2, 0) == [1];
    assert Sharding.Chunk([1, 2, 3], 2, 1) == [2];
    assert Sharding.DroppingShards([1, 2, 3], 2).value == [[1], [2]];
    assert Concat([[1]]) == [1];
    assert Concat([[1], [2]]) == Concat([[1]]) + [2];
  }

  // ---------------------------------------------------------------------------------------
  // The shared store and the imperative loops
  // ---------------------------------------------------------------------------------------

  /**
   * The state the workers share: the four sets loaded at start (`processed_users` never
   * grows), the three files, and (for the proofs) the ids requested so far.
   */
  class Store {
    const processed: set<int>
    var blacklist: set<int>
    var recentlyChecked: set<int>
    var activeFile: seq<Row>
    var blacklistFile: Option<seq<Row>>
    var recentlyCheckedFile: Option<seq<Row>>
    ghost var requests: seq<int>
    ghost const loadedBlacklist: set<int>
    ghost const loadedRecentlyChecked: set<int>
    ghost const loadedBlacklistFile: Option<seq<Row>>
    ghost const loadedRecentlyCheckedFile: Option<seq<Row>>

    /**
     * Each id file is either still the file the set was loaded from, or holds what saving
     * the current set writes.
     */
    ghost predicate Valid()
      reads this
    {
      && ((blacklistFile == loadedBlacklistFile && blacklist == loadedBlacklist)
          || (blacklistFile.Some? && IsSavedSet(blacklistFile.value, blacklist)))
      && ((recentlyCheckedFile == loadedRecentlyCheckedFile && recentlyChecked == loadedRecentlyChecked)
          || (recentlyCheckedFile.Some? && IsSavedSet(recentlyCheckedFile.value, recentlyChecked)))
    }

    ghost function Snap(): Snapshot
      reads this
    {
      Snapshot(blacklist, recentlyChecked, activeFile, requests)
    }

    /** The state after the loads of the main block; a missing active file is an empty one. */
    constructor (processed: set<int>, activeFile: Option<seq<Row>>,
                 blacklistFile: Option<seq<Row>>, recentlyCheckedFile: Option<seq<Row>>)
      requires CsvSetOf(blacklistFile).Success? && CsvSetOf(recentlyCheckedFile).Success?
      ensures Valid()
      ensures this.processed == processed && this.activeFile == activeFile.GetOr([])
      ensures blacklist == CsvSetOf(blacklistFile).value && recentlyChecked == CsvSetOf(recentlyCheckedFile).value
      ensures this.blacklistFile == blacklistFile && this.recentlyCheckedFile == recentlyCheckedFile
      ensures requests == []
    {
      this.processed := processed;
      this.activeFile := activeFile.GetOr([]);
      this.blacklistFile := blacklistFile;
      this.recentlyCheckedFile := recentlyCheckedFile;
      blacklist := CsvSetOf(blacklistFile).value;
      recentlyChecked := CsvSetOf(recentlyCheckedFile).value;
      loadedBlacklist := CsvSetOf(blacklistFile).value;
      loadedRecentlyChecked := CsvSetOf(recentlyCheckedFile).value;
      loadedBlacklistFile := blacklistFile;
      loadedRecentlyCheckedFile := recentlyCheckedFile;
      requests := [];
    }

    /** One pass of the loop body of `process_users`; a changed set is saved whole. */
    method ProcessOne(id: int, now: int, net: int -> ProfileResponse)
      requires Valid()
      modifies this
      ensures Valid()
      ensures Snap() == Visit(processed, old(Snap()), id, net(id), now)
      ensures old(blacklist) <= blacklist && old(recentlyChecked) <= recentlyChecked
      ensures blacklist == old(blacklist) ==> blacklistFile == old(blacklistFile)
      ensures recentlyChecked == old(recentlyChecked) ==> recentlyCheckedFile == old(recentlyCheckedFile)
    {
      ghost var s := Snap();
      if id in processed || id in blacklist || id in recentlyChecked {
        return;
      }
      var lastAction := LastActionTimestamp(net(id));
      requests := requests + [id];
      if lastAction.None? {
        blacklist := blacklist + {id};
        var rows := SaveIdFile(blacklist);
        blacklistFile := Some(rows);
        assert Snap() == s.(requests := s.requests + [id], blacklist := s.blacklist + {id});
      } else if IsActiveByDays(lastAction, now) {
        activeFile := activeFile + [ActiveRow(id, lastAction.value)];
        assert Snap() == s.(requests := s.requests + [id], activeRows := s.activeRows + [ActiveRow(id, lastAction.value)]);
      } else {
        recentlyChecked := recentlyChecked + {id};
        var rows := SaveIdFile(recentlyChecked);
        recentlyCheckedFile := Some(rows);
        assert Snap() == s.(requests := s.requests + [id], recentlyChecked := s.recentlyChecked + {id});
      }
    }

    /** `process_users` for one shard. */
    method ProcessUsers(ids: seq<int>, now: int, net: int -> ProfileResponse)
      requires Valid()
      modifies this
      ensures Valid()
      ensures Snap() == Run(processed, old(Snap()), ids, net, now)
      ensures old(blacklist) <= blacklist && old(recentlyChecked) <= recentlyChecked
      ensures blacklist == old(blacklist) ==> blacklistFile == old(blacklistFile)
      ensures recentlyChecked == old(recentlyChecked) ==> recentlyCheckedFile == old(recentlyCheckedFile)
    {
      var i := 0;
      while i < |ids|
        invariant 0 <= i <= |ids|
        invariant Valid()
        invariant Snap() == Run(processed, old(Snap()), ids[..i], net, now)
        invariant old(blacklist) <= blacklist && old(recentlyChecked) <= recentlyChecked
        invariant blacklist == old(blacklist) ==> blacklistFile == old(blacklistFile)
        invariant recentlyChecked == old(recentlyChecked) ==> recentlyCheckedFile == old(recentlyCheckedFile)
      {
        assert ids[..i + 1][..i] == ids[..i];
        ProcessOne(ids[i], now, net);
        i := i + 1;
      }
      assert ids[..i] == ids;
    }

    /**
     * `process_with_multiple_keys`: the set becomes a list in its iteration order, an empty
     * key list fails on the division before the active file is opened, the header goes in
     * when that file is empty, and the `k` equal shards run one after the other, which is a
     * run over the list without its last `len % k` ids.
     */
    method ProcessWithMultipleKeys(userIds: set<int>, keyCount: nat, now: int, net: int -> ProfileResponse)
      returns (err: Option<Error>, order: seq<int>)
      requires Valid()
      modifies this
      ensures Valid()
      ensures IsEnumeration(order, userIds)
      ensures keyCount == 0 ==> err == Some(ZeroDivisionError) && Snap() == old(Snap())
      ensures keyCount > 0 ==> err == None
      ensures old(blacklist) <= blacklist && old(recentlyChecked) <= recentlyChecked
      ensures blacklist == old(blacklist) ==> blacklistFile == old(blacklistFile)
      ensures recentlyChecked == old(recentlyChecked) ==> recentlyCheckedFile == old(recentlyCheckedFile)
      ensures keyCount > 0 ==>
        Snap() == Run(processed, old(Snap()).(activeRows := WithHeader(old(Snap()).activeRows)), order[..|order| - |order| % keyCount], net, now)
    {
      order := Enumerate(userIds);
      var shards := Sharding.DroppingShards(order, keyCount);
      if shards.Failure? {
        return Some(shards.error), order;
      }
      if activeFile == [] {
        activeFile := [ActiveHeader];
      }
      assert Snap() == old(Snap()).(activeRows := WithHeader(old(Snap()).activeRows));
      RunShards(shards.value, now, net);
      Sharding.DroppingShardsCoverage(order, keyCount);
      return None, order;
    }

    /** The key workers, one after the other: a run over the concatenated shards. */
    method RunShards(shards: seq<seq<int>>, now: int, net: int -> ProfileResponse)
      requires Valid()
      modifies this
      ensures Valid()
      ensures Snap() == Run(processed, old(Snap()), Concat(shards), net, now)
      ensures old(blacklist) <= blacklist && old(recentlyChecked) <= recentlyChecked
      ensures blacklist == old(blacklist) ==> blacklistFile == old(blacklistFile)
      ensures recentlyChecked == old(recentlyChecked) ==> recentlyCheckedFile == old(recentlyCheckedFile)
    {
      ghost var start := Snap();
      var i := 0;
      while i < |shards|
        invariant 0 <= i <= |shards|
        invariant Valid()
        invariant Snap() == Run(processed, start, Concat(shards[..i]), net, now)
        invariant old(blacklist) <= blacklist && old(recentlyChecked) <= recentlyChecked
        invariant blacklist == old(blacklist) ==> blacklistFile == old(blacklistFile)
        invariant recentlyChecked == old(recentlyChecked) ==> recentlyCheckedFile == old(recentlyCheckedFile)
      {
        RunShard(shards, i, now, net, start);
        i := i + 1;
      }
      assert shards[..i] == shards;
    }

    /** Worker `i`: the run goes on from where the workers before it left the store. */
    method RunShard(shards: seq<seq<int>>, i: nat, now: int, net: int -> ProfileResponse, ghost start: Snapshot)
      requires i < |shards|
      requires Valid()
      requires Snap() == Run(processed, start, Concat(shards[..i]), net, now)
      modifies this
      ensures Valid()
      ensures Snap() == Run(processed, start, Concat(shards[..i + 1]), net, now)
      ensures old(blacklist) <= blacklist && old(recentlyChecked) <= recentlyChecked
      ensures blacklist == old(blacklist) ==> blacklistFile == old(blacklistFile)
      ensures recentlyChecked == old(recentlyChecked) ==> recentlyCheckedFile == old(recentlyCheckedFile)
    {
      assert shards[..i + 1] == shards[..i] + [shards[i]];
      ConcatAppend(shards[..i], [shards[i]]);
      ConcatOne(shards[i]);
      RunAppend(processed, start, Concat(shards[..i]), shards[i], net, now);
      ProcessUsers(shards[i], now, net);
    }
  }

  /**
   * The loads of the main block, in order: the active file (as `processed_users`), the
   * blacklist, the recently-checked file, and the work list; an empty file among them ends
   * the program with `StopIteration`.
   */
  method Startup(activeFile: Option<seq<Row>>, blacklistFile: Option<seq<Row>>,
                 recentlyCheckedFile: Option<seq<Row>>, usersFile: Option<seq<Row>>)
    returns (r: Result<(Store, set<int>), Error>)
    ensures r.Failure? <==>
      || CsvSetOf(activeFile).Failure? || CsvSetOf(blacklistFile).Failure?
      || CsvSetOf(recentlyCheckedFile).Failure? || CsvSetOf(usersFile).Failure?
    ensures r.Success? ==>
      && fresh(r.value.0) && r.value.0.Valid()
      && r.value.0.processed == CsvSetOf(activeFile).value
      && r.value.0.blacklist == CsvSetOf(blacklistFile).value
      && r.value.0.recentlyChecked == CsvSetOf(recentlyCheckedFile).value
      && r.value.0.activeFile == activeFile.GetOr([])
      && r.value.0.blacklistFile == blacklistFile && r.value.0.recentlyCheckedFile == recentlyCheckedFile
      && r.value.0.requests == []
      && r.value.1 == CsvSetOf(usersFile).value
  {
    var processed := LoadCsvToSet(activeFile);
    if processed.Failure? {
      return Failure(processed.error);
    }
    var blacklist := LoadCsvToSet(blacklistFile);
    if blacklist.Failure? {
      return Failure(blacklist.error);
    }
    var recentlyChecked := LoadCsvToSet(recentlyCheckedFile);
    if recentlyChecked.Failure? {
      return Failure(recentlyChecked.error);
    }
    var userIds := LoadCsvToSet(usersFile);
    if userIds.Failure? {
      return Failure(userIds.error);
    }
    var store := new Store(processed.value, activeFile, blacklistFile, recentlyCheckedFile);
    return Success((store, userIds.value));
  }
}
