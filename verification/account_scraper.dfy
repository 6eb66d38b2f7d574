/**
 * The account scraper (1_bazaar_account_scraper.py): it walks an inclusive range of user
 * ids, cut into one contiguous sub-range per key, and writes `[user_id]` for every id whose
 * public status answer is truthy and not banned.
 */
module AccountScraper {
  import opened Wrappers
  import opened Csv
  import opened Seqs
  import Keys
  import Sharding

  /**
   * The decoded body of a `publicStatus` answer: a falsy JSON value (an empty object,
   * `null`, ...) or an object whose `banned` member, when present, is read for its truth.
   */
  datatype StatusBody = Falsy | StatusObject(banned: Option<bool>)

  datatype StatusResponse = StatusResponse(status: int, body: StatusBody)

  /** The only header row of active_users.csv. */
  const OutputHeader: Row := [Text("User ID")]

  /** `fetch_public_status`: one request with the key; the body on status 200, else None. */
  method FetchPublicStatus(id: int, key: Keys.ApiKey, net: int -> StatusResponse) returns (data: Option<StatusBody>)
    modifies key
    ensures data.Some? <==> net(id).status == 200
    ensures data.Some? ==> data.value == net(id).body
    ensures key.callNumber == old(key.callNumber) + 1
  {
    var response := key.MakeRequest(net(id));
    if response.status == 200 {
      data := Some(response.body);
    } else {
      data := None;
    }
  }

  /** `if data:` then `if not data.get('banned', False):` — a missing member counts as not banned. */
  predicate Listed(data: Option<StatusBody>) {
    data.Some? && data.value.StatusObject? && !data.value.banned.GetOr(false)
  }

  function StatusOf(resp: StatusResponse): Option<StatusBody> {
    if resp.status == 200 then Some(resp.body) else None
  }

  /** What one answer contributes to the output: `[user_id]` when the user is listed, nothing otherwise. */
  function ListedRows(resp: StatusResponse, id: int): seq<Row> {
    if Listed(StatusOf(resp)) then [IdRow(id)] else []
  }

  function ListedRowsOf(net: int -> StatusResponse): int -> seq<Row> {
    id => ListedRows(net(id), id)
  }

  /**
   * The rows of a list of ids are exactly `[id]` for the ids answered with status 200 and
   * a truthy, not-banned body; never more rows than ids.
   */
  lemma {:induction false} ListedRowsExactly(ids: seq<int>, net: int -> StatusResponse)
    ensures |FlatMap(ids, ListedRowsOf(net))| <= |ids|
    ensures forall row :: row in FlatMap(ids, ListedRowsOf(net)) <==>
      exists id :: id in ids && row == IdRow(id)
        && net(id).status == 200 && net(id).body.StatusObject? && !net(id).body.banned.GetOr(false)
  {
    if ids != [] {
      var init := ids[..|ids| - 1];
      var last := ids[|ids| - 1];
      ListedRowsExactly(init, net);
      assert ids == init + [last];
      assert FlatMap(ids, ListedRowsOf(net)) == FlatMap(init, ListedRowsOf(net)) + ListedRows(net(last), last);
    }
  }

  /**
   * `check_public_statuses` for one key: the ids `startId..endId` inclusive, in increasing
   * order, one request each, and `[user_id]` for every listed one.
   */
  method CheckPublicStatuses(startId: int, endId: int, key: Keys.ApiKey, writer: CsvWriter<Row>, net: int -> StatusResponse)
    modifies key, writer
    ensures writer.rows == old(writer.rows) + FlatMap(Sharding.RangeIds(startId, endId), ListedRowsOf(net))
    ensures key.callNumber == old(key.callNumber) + |Sharding.RangeIds(startId, endId)|
  {
    var userId := startId;
    while userId <= endId
      invariant startId <= userId && (userId <= endId + 1 || userId == startId)
      invariant writer.rows == old(writer.rows) + FlatMap(Sharding.RangeIds(startId, userId - 1), ListedRowsOf(net))
      invariant key.callNumber == old(key.callNumber) + (userId - startId)
      decreases endId - userId
    {
      CheckOne(userId, key, writer, net);
      RangeRowsStep(startId, userId, net);
      AppendAssoc(old(writer.rows), FlatMap(Sharding.RangeIds(startId, userId - 1), ListedRowsOf(net)), ListedRows(net(userId), userId));
      userId := userId + 1;
    }
    Sharding.RangeIdsElements(startId, endId);
  }

  /** Walking one id further appends that id's rows. */
  lemma RangeRowsStep(startId: int, userId: int, net: int -> StatusResponse)
    requires startId <= userId
    ensures FlatMap(Sharding.RangeIds(startId, userId), ListedRowsOf(net))
         == FlatMap(Sharding.RangeIds(startId, userId - 1), ListedRowsOf(net)) + ListedRows(net(userId), userId)
  {
    FlatMapAppend(Sharding.RangeIds(startId, userId - 1), [userId], ListedRowsOf(net));
    assert FlatMap([userId], ListedRowsOf(net)) == ListedRows(net(userId), userId);
  }

  /** One iteration: one request, and `[user_id]` appended when the user is listed. */
  method CheckOne(userId: int, key: Keys.ApiKey, writer: CsvWriter<Row>, net: int -> StatusResponse)
    modifies key, writer
    ensures writer.rows == old(writer.rows) + ListedRows(net(userId), userId)
    ensures key.callNumber == old(key.callNumber) + 1
  {
    var data := FetchPublicStatus(userId, key, net);
    if Listed(data) {
      writer.WriteRow(IdRow(userId));
    }
  }

  /**
   * `process_with_multiple_keys`: an empty key list (the shipped configuration) fails on
   * the division before the output file is opened; otherwise the file is truncated, gets
   * its header, and key `i` walks its sub-range. When the range is not inverted the
   * sub-ranges cover it exactly once, so the rows are those of the whole range in order.
   */
  method ProcessWithMultipleKeys(startId: int, endId: int, keys: seq<Keys.ApiKey>, writer: CsvWriter<Row>,
                                 net: int -> StatusResponse)
    returns (err: Option<Error>)
    modifies writer, keys
    ensures |keys| == 0 ==> err == Some(ZeroDivisionError) && writer.rows == old(writer.rows)
    ensures |keys| > 0 ==> err == None
    ensures |keys| > 0 ==> writer.rows == [OutputHeader] + FlatMap(Sharding.CoveredIds(startId, endId, |keys|), ListedRowsOf(net))
    ensures |keys| > 0 && startId <= endId + 1 ==>
      writer.rows == [OutputHeader] + FlatMap(Sharding.RangeIds(startId, endId), ListedRowsOf(net))
  {
    var bounds := Sharding.RangeShards(startId, endId, |keys|);
    if bounds.Failure? {
      return Some(bounds.error);
    }
    writer.Truncate();
    writer.WriteRow(OutputHeader);
    assert writer.rows == [OutputHeader];
    RunRanges(bounds.value, keys, writer, net);
    RangesOfBounds(bounds.value, startId, endId, |keys|);
    if startId <= endId + 1 {
      Sharding.RangeShardsCover(startId, endId, |keys|);
    }
    return None;
  }

  /** The ids of each sub-range, in key order. */
  function RangesOf(bounds: seq<(int, int)>): seq<seq<int>> {
    seq(|bounds|, i requires 0 <= i < |bounds| => Sharding.RangeIds(bounds[i].0, bounds[i].1))
  }

  /** The sub-ranges of the partition's bounds, walked in key order, are the ids it covers. */
  lemma RangesOfBounds(bounds: seq<(int, int)>, startId: int, endId: int, k: nat)
    requires |bounds| == k
    requires forall i :: 0 <= i < k ==> bounds[i] == Sharding.RangeBound(startId, endId, k, i)
    ensures Concat(RangesOf(bounds)) == Sharding.CoveredIds(startId, endId, k)
  {
    assert RangesOf(bounds) == seq(k, i requires 0 <= i < k =>
      Sharding.RangeIds(Sharding.RangeBound(startId, endId, k, i).0, Sharding.RangeBound(startId, endId, k, i).1));
  }

  /** The workers, one after the other: key `i` walks `bounds[i]`. */
  method RunRanges(bounds: seq<(int, int)>, keys: seq<Keys.ApiKey>, writer: CsvWriter<Row>, net: int -> StatusResponse)
    requires |bounds| == |keys|
    modifies writer, keys
    ensures writer.rows == old(writer.rows) + FlatMap(Concat(RangesOf(bounds)), ListedRowsOf(net))
  {
    var i := 0;
    while i < |keys|
      invariant 0 <= i <= |keys|
      invariant writer.rows == old(writer.rows) + FlatMap(Concat(RangesOf(bounds)[..i]), ListedRowsOf(net))
    {
      RunRange(bounds, i, keys[i], writer, net);
      AppendAssoc(old(writer.rows), FlatMap(Concat(RangesOf(bounds)[..i]), ListedRowsOf(net)), FlatMap(RangesOf(bounds)[i], ListedRowsOf(net)));
      i := i + 1;
    }
    assert RangesOf(bounds)[..i] == RangesOf(bounds);
  }

  /** Worker `i`: its rows follow those of the workers before it. */
  method RunRange(bounds: seq<(int, int)>, i: nat, key: Keys.ApiKey, writer: CsvWriter<Row>, net: int -> StatusResponse)
    requires i < |bounds|
    modifies key, writer
    ensures writer.rows == old(writer.rows) + FlatMap(RangesOf(bounds)[i], ListedRowsOf(net))
    ensures FlatMap(Concat(RangesOf(bounds)[..i + 1]), ListedRowsOf(net))
         == FlatMap(Concat(RangesOf(bounds)[..i]), ListedRowsOf(net)) + FlatMap(RangesOf(bounds)[i], ListedRowsOf(net))
  {
    FlatMapConcatStep(RangesOf(bounds), i, ListedRowsOf(net));
    CheckPublicStatuses(bounds[i].0, bounds[i].1, key, writer, net);
  }
}
