/**
 * The bazaar scraper (bazaarcalltake5.py): for each user of its shard a worker fetches the
 * user's bazaar with its key, flattens the listing into `(player_id, item_name, price,
 * quantity)` rows of the output file, and moves the shared progress counter by one.
 */
module BazaarTake5 {
  import opened Wrappers
  import opened Csv
  import opened Seqs
  import Keys
  import Sharding

  /**
   * One entry of a bazaar listing. A field is `None` when its key is absent; an entry that
   * is not a JSON object (so that indexing it raises) is `NotAnObject`.
   */
  datatype BazaarEntry =
    | Item(name: Option<string>, price: Option<int>, quantity: Option<int>)
    | NotAnObject

  /**
   * The `bazaar` field of a parsed answer: a list of entries, an object keyed by item id
   * (its values in the object's iteration order), or anything else, absence included.
   */
  datatype Bazaar =
    | ListShaped(items: seq<BazaarEntry>)
    | DictShaped(entries: seq<(string, BazaarEntry)>)
    | OtherShape

  /** A body whose decoding or `data.get` raises is `Unparseable`; the handler catches both. */
  datatype BazaarBody = Parsed(bazaar: Bazaar) | Unparseable

  datatype BazaarResponse = BazaarResponse(status: int, body: BazaarBody)

  /** A row of sorted_bazaars.csv, in the column order of its header. */
  datatype BazaarRow = BazaarRow(playerId: int, itemName: string, price: int, quantity: int)

  /** Reading `name`, `price` and `quantity` of the entry succeeds. */
  predicate Complete(e: BazaarEntry) {
    e.Item? && e.name.Some? && e.price.Some? && e.quantity.Some?
  }

  function RowOf(userId: int, e: BazaarEntry): BazaarRow
    requires Complete(e)
  {
    BazaarRow(userId, e.name.value, e.price.value, e.quantity.value)
  }

  /** How many entries are read before the first one that raises. */
  function CompletePrefix(items: seq<BazaarEntry>): (n: nat)
    ensures n <= |items|
    ensures forall j :: 0 <= j < n ==> Complete(items[j])
    ensures n < |items| ==> !Complete(items[n])
  {
    if items == [] || !Complete(items[0]) then 0
    else 1 + CompletePrefix(items[1..])
  }

  /** The rows written for one listing. */
  function ItemRows(userId: int, items: seq<BazaarEntry>): seq<BazaarRow> {
    seq(CompletePrefix(items), j requires 0 <= j < CompletePrefix(items) => RowOf(userId, items[j]))
  }

  /**
   * A listing is written one row per entry, in order, each row carrying the user's id and
   * the entry's fields, until the first entry that raises; the exception ends the listing
   * but the rows already written stay.
   */
  lemma ItemRowsStopAtFirstFailure(userId: int, items: seq<BazaarEntry>)
    ensures var rows := ItemRows(userId, items);
      && |rows| <= |items|
      && (forall j :: 0 <= j < |rows| ==> Complete(items[j]) && rows[j] == RowOf(userId, items[j]))
      && (|rows| < |items| ==> !Complete(items[|rows|]))
      && (|rows| == |items| <==> forall j :: 0 <= j < |items| ==> Complete(items[j]))
  {
  }

  /** The values of an object, in its iteration order. */
  function Values(entries: seq<(string, BazaarEntry)>): seq<BazaarEntry> {
    seq(|entries|, i requires 0 <= i < |entries| => entries[i].1)
  }

  /** What `fetch_and_write_bazaar_data` writes for one user, given the answer to its request. */
  function UserRows(userId: int, resp: BazaarResponse): seq<BazaarRow> {
    if resp.status != 200 then []
    else
      match resp.body
      case Unparseable => []
      case Parsed(ListShaped(items)) => if |items| > 0 then ItemRows(userId, items) else []
      case Parsed(DictShaped(entries)) => ItemRows(userId, Values(entries))
      case Parsed(OtherShape) => []
  }

  function UserRowsOf(net: int -> BazaarResponse): int -> seq<BazaarRow> {
    id => UserRows(id, net(id))
  }

  /**
   * The shapes of an answer: a non-200 status, an unreadable body and an unexpected
   * `bazaar` value write nothing; a list or an object whose entries are all complete
   * writes one row per entry, in order, each carrying the user's id.
   */
  lemma UserRowsByShape(userId: int, resp: BazaarResponse)
    ensures resp.status != 200 || resp.body.Unparseable? || resp.body.bazaar.OtherShape? ==> UserRows(userId, resp) == []
    ensures resp.status == 200 && resp.body == Parsed(ListShaped([])) ==> UserRows(userId, resp) == []
    ensures resp.status == 200 && resp.body.Parsed? && resp.body.bazaar.ListShaped?
            && (forall j :: 0 <= j < |resp.body.bazaar.items| ==> Complete(resp.body.bazaar.items[j])) ==>
              UserRows(userId, resp) == seq(|resp.body.bazaar.items|, j requires 0 <= j < |resp.body.bazaar.items| =>
                                             RowOf(userId, resp.body.bazaar.items[j]))
    ensures resp.status == 200 && resp.body.Parsed? && resp.body.bazaar.DictShaped?
            && (forall j :: 0 <= j < |resp.body.bazaar.entries| ==> Complete(resp.body.bazaar.entries[j].1)) ==>
              UserRows(userId, resp) == seq(|resp.body.bazaar.entries|, j requires 0 <= j < |resp.body.bazaar.entries| =>
                                             RowOf(userId, resp.body.bazaar.entries[j].1))
  {
    if resp.status == 200 && resp.body.Parsed? && resp.body.bazaar.ListShaped? {
      var items := resp.body.bazaar.items;
      ItemRowsStopAtFirstFailure(userId, items);
    }
    if resp.status == 200 && resp.body.Parsed? && resp.body.bazaar.DictShaped? {
      var items := Values(resp.body.bazaar.entries);
      ItemRowsStopAtFirstFailure(userId, items);
    }
  }

  /**
   * An entry that raises keeps the rows of the entries before it, and no later entry of
   * that listing is written.
   */
  lemma FailingEntryKeepsEarlierRows(userId: int, items: seq<BazaarEntry>, m: nat)
    requires m < |items| && !Complete(items[m])
    requires forall j :: 0 <= j < m ==> Complete(items[j])
    ensures ItemRows(userId, items) == seq(m, j requires 0 <= j < m => RowOf(userId, items[j]))
  {
    assert CompletePrefix(items) == m;
  }

  /** `tk.IntVar` holding the number of users handled so far. */
  class Progress {
    var value: int

    constructor ()
      ensures value == 0
    {
      value := 0;
    }

    /** `progress_var.set(progress_var.get() + 1)`. */
    method Tick()
      modifies this
      ensures value == old(value) + 1
    {
      value := value + 1;
    }
  }

  /** The inner loop over one listing: rows are written until an entry raises. */
  method WriteItems(userId: int, items: seq<BazaarEntry>, writer: CsvWriter<BazaarRow>)
    modifies writer
    ensures writer.rows == old(writer.rows) + ItemRows(userId, items)
  {
    var i := 0;
    while i < |items| && Complete(items[i])
      invariant 0 <= i <= CompletePrefix(items)
      invariant writer.rows == old(writer.rows) + seq(i, j requires 0 <= j < i => RowOf(userId, items[j]))
    {
      writer.WriteRow(RowOf(userId, items[i]));
      i := i + 1;
    }
    assert i == CompletePrefix(items);
  }

  /** The body of the loop of `fetch_and_write_bazaar_data` for one user. */
  method FetchAndWriteOne(userId: int, key: Keys.ApiKey, writer: CsvWriter<BazaarRow>, progress: Progress,
                          net: int -> BazaarResponse)
    modifies key, writer, progress
    ensures writer.rows == old(writer.rows) + UserRows(userId, net(userId))
    ensures progress.value == old(progress.value) + 1
    ensures key.callNumber == old(key.callNumber) + 1
  {
    var response := key.MakeRequest(net(userId));
    if response.status == 200 {
      match response.body
      case Unparseable =>
      case Parsed(ListShaped(items)) =>
        if |items| > 0 {
          WriteItems(userId, items, writer);
        }
      case Parsed(DictShaped(entries)) =>
        WriteItems(userId, Values(entries), writer);
      case Parsed(OtherShape) =>
    }
    progress.Tick();
  }

  /**
   * `fetch_and_write_bazaar_data` for one shard: the rows of every user in shard order,
   * one request per user with the shard's key, and one progress tick per user.
   */
  method FetchAndWriteBazaarData(ids: seq<int>, key: Keys.ApiKey, writer: CsvWriter<BazaarRow>, progress: Progress,
                                 net: int -> BazaarResponse)
    modifies key, writer, progress
    ensures writer.rows == old(writer.rows) + FlatMap(ids, UserRowsOf(net))
    ensures progress.value == old(progress.value) + |ids|
    ensures key.callNumber == old(key.callNumber) + |ids|
  {
    var i := 0;
    while i < |ids|
      invariant 0 <= i <= |ids|
      invariant writer.rows == old(writer.rows) + FlatMap(ids[..i], UserRowsOf(net))
      invariant progress.value == old(progress.value) + i
      invariant key.callNumber == old(key.callNumber) + i
    {
      FlatMapStep(ids, i, UserRowsOf(net));
      FetchAndWriteOne(ids[i], key, writer, progress, net);
      AppendAssoc(old(writer.rows), FlatMap(ids[..i], UserRowsOf(net)), UserRows(ids[i], net(ids[i])));
      i := i + 1;
    }
    assert ids[..i] == ids;
  }

  /**
   * `process_with_multiple_keys`: an empty key list fails on the division before any
   * request; otherwise the shards of the slice partition run one after the other, which
   * writes the rows of every user in list order and moves the progress by the list length.
   */
  method ProcessWithMultipleKeys(ids: seq<int>, keys: seq<Keys.ApiKey>, writer: CsvWriter<BazaarRow>, progress: Progress,
                                 net: int -> BazaarResponse)
    returns (err: Option<Error>)
    modifies writer, progress, keys
    ensures |keys| == 0 ==> err == Some(ZeroDivisionError) && writer.rows == old(writer.rows) && progress.value == old(progress.value)
    ensures |keys| > 0 ==> err == None
    ensures |keys| > 0 ==> writer.rows == old(writer.rows) + FlatMap(ids, UserRowsOf(net))
    ensures |keys| > 0 ==> progress.value == old(progress.value) + |ids|
  {
    var shards := Sharding.SliceShards(ids, |keys|);
    if shards.Failure? {
      return Some(shards.error);
    }
    RunShards(shards.value, keys, writer, progress, net);
    return None;
  }

  /** The workers, one after the other: key `i` handles shard `i`. */
  method RunShards(shards: seq<seq<int>>, keys: seq<Keys.ApiKey>, writer: CsvWriter<BazaarRow>, progress: Progress,
                   net: int -> BazaarResponse)
    requires |shards| == |keys|
    modifies writer, progress, keys
    ensures writer.rows == old(writer.rows) + FlatMap(Concat(shards), UserRowsOf(net))
    ensures progress.value == old(progress.value) + |Concat(shards)|
  {
    ghost var rows0, value0 := writer.rows, progress.value;
    var i := 0;
    while i < |keys|
      invariant 0 <= i <= |keys|
      invariant writer.rows == rows0 + FlatMap(Concat(shards[..i]), UserRowsOf(net))
      invariant progress.value == value0 + |Concat(shards[..i])|
    {
      RunShard(shards, i, keys[i], writer, progress, net, rows0, value0);
      i := i + 1;
    }
    assert shards[..i] == shards;
  }

  /** Worker `i`: its shard's rows and ticks follow those of the workers before it. */
  method RunShard(shards: seq<seq<int>>, i: nat, key: Keys.ApiKey, writer: CsvWriter<BazaarRow>, progress: Progress,
                  net: int -> BazaarResponse, ghost rows0: seq<BazaarRow>, ghost value0: int)
    requires i < |shards|
    requires writer.rows == rows0 + FlatMap(Concat(shards[..i]), UserRowsOf(net))
    requires progress.value == value0 + |Concat(shards[..i])|
    modifies key, writer, progress
    ensures writer.rows == rows0 + FlatMap(Concat(shards[..i + 1]), UserRowsOf(net))
    ensures progress.value == value0 + |Concat(shards[..i + 1])|
  {
    FlatMapConcatStep(shards, i, UserRowsOf(net));
    ConcatStep(shards, i);
    FetchAndWriteBazaarData(shards[i], key, writer, progress, net);
    AppendAssoc(rows0, FlatMap(Concat(shards[..i]), UserRowsOf(net)), FlatMap(shards[i], UserRowsOf(net)));
  }
}
