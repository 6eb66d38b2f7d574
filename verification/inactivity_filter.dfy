/**
 * The first inactivity filter (inactivityfilter.py): it keeps no state between runs. Each
 * id of the work list is fetched once, and `[user_id]` is written to a freshly truncated
 * output file exactly when the user acted within the last 40 days (the seconds-exact
 * window).
 */
module InactivityFilter {
  import opened Wrappers
  import opened Csv
  import opened Seqs
  import opened Torn
  import Keys
  import Sharding

  /** The only header row of the output file. */
  const OutputHeader: Row := [Text("User ID")]

  /** What one answer contributes to the output: `[user_id]` when the user is active, nothing otherwise. */
  function OutputRowOf(resp: ProfileResponse, id: int, now: int): seq<Row> {
    var ts := LastActionTimestamp(resp);
    if Truthy(ts) && IsActive(ts, now) then [IdRow(id)] else []
  }

  function OutputRowsOf(net: int -> ProfileResponse, now: int): int -> seq<Row> {
    id => OutputRowOf(net(id), id, now)
  }

  /**
   * The output of a list of ids holds one row `[id]` for exactly those ids whose answer
   * carries an active timestamp, and never more rows than ids.
   */
  lemma {:induction false} OutputRowsExactlyActive(ids: seq<int>, net: int -> ProfileResponse, now: int)
    ensures |FlatMap(ids, OutputRowsOf(net, now))| <= |ids|
    ensures forall row :: row in FlatMap(ids, OutputRowsOf(net, now)) <==>
      exists id :: id in ids && IsActive(LastActionTimestamp(net(id)), now) && row == IdRow(id)
  {
    if ids != [] {
      var init := ids[..|ids| - 1];
      var last := ids[|ids| - 1];
      OutputRowsExactlyActive(init, net, now);
      assert ids == init + [last];
      assert FlatMap(ids, OutputRowsOf(net, now)) == FlatMap(init, OutputRowsOf(net, now)) + OutputRowOf(net(last), last, now);
    }
  }

  /**
   * `check_public_statuses` for one shard: each id is fetched once with the shard's key,
   * in order, and its row (if any) is appended to the output.
   */
  method CheckPublicStatuses(ids: seq<int>, key: Keys.ApiKey, writer: CsvWriter<Row>, now: int, net: int -> ProfileResponse)
    modifies key, writer
    ensures writer.rows == old(writer.rows) + FlatMap(ids, OutputRowsOf(net, now))
    ensures key.callNumber == old(key.callNumber) + |ids|
  {
    var i := 0;
    while i < |ids|
      invariant 0 <= i <= |ids|
      invariant writer.rows == old(writer.rows) + FlatMap(ids[..i], OutputRowsOf(net, now))
      invariant key.callNumber == old(key.callNumber) + i
    {
      FlatMapStep(ids, i, OutputRowsOf(net, now));
      var lastActionTimestamp := FetchLastAction(ids[i], key, net);
      if Truthy(lastActionTimestamp) && IsActive(lastActionTimestamp, now) {
        writer.WriteRow(IdRow(ids[i]));
      }
      AppendAssoc(old(writer.rows), FlatMap(ids[..i], OutputRowsOf(net, now)), OutputRowOf(net(ids[i]), ids[i], now));
      i := i + 1;
    }
    assert ids[..i] == ids;
  }

  /**
   * `process_with_multiple_keys`: an empty key list fails on the division before the output
   * file is opened; otherwise the file is truncated, gets its header, and the shards of the
   * slice partition run one after the other, which writes the rows of the whole list in
   * list order.
   */
  method ProcessWithMultipleKeys(ids: seq<int>, keys: seq<Keys.ApiKey>, writer: CsvWriter<Row>, now: int, net: int -> ProfileResponse)
    returns (err: Option<Error>)
    modifies writer, keys
    ensures |keys| == 0 ==> err == Some(ZeroDivisionError) && writer.rows == old(writer.rows)
    ensures |keys| > 0 ==> err == None && writer.rows == [OutputHeader] + FlatMap(ids, OutputRowsOf(net, now))
  {
    var shards := Sharding.SliceShards(ids, |keys|);
    if shards.Failure? {
      return Some(shards.error);
    }
    writer.Truncate();
    writer.WriteRow(OutputHeader);
    RunShards(shards.value, keys, writer, now, net);
    return None;
  }

  /** The workers of `process_with_multiple_keys`, one after the other: key `i` checks shard `i`. */
  method RunShards(shards: seq<seq<int>>, keys: seq<Keys.ApiKey>, writer: CsvWriter<Row>, now: int, net: int -> ProfileResponse)
    requires |shards| == |keys|
    modifies writer, keys
    ensures writer.rows == old(writer.rows) + FlatMap(Concat(shards), OutputRowsOf(net, now))
  {
    var i := 0;
    while i < |keys|
      invariant 0 <= i <= |keys|
      invariant writer.rows == old(writer.rows) + FlatMap(Concat(shards[..i]), OutputRowsOf(net, now))
    {
      FlatMapConcatStep(shards, i, OutputRowsOf(net, now));
      CheckPublicStatuses(shards[i], keys[i], writer, now, net);
      AppendAssoc(old(writer.rows), FlatMap(Concat(shards[..i]), OutputRowsOf(net, now)), FlatMap(shards[i], OutputRowsOf(net, now)));
      i := i + 1;
    }
    assert shards[..i] == shards;
  }
}
