/**
 * The parts of a Torn API profile response that the inactivity filters read, and the
 * activity window they apply to it.
 */
module Torn {
  import opened Wrappers
  import Keys

  /**
   * The `last_action` object of a profile: it has a `timestamp` key (whose JSON value may be
   * null), or only a human-readable `relative` key, or neither (which includes a response
   * with no `last_action` at all, read as `{}`).
   */
  datatype LastAction = Stamped(timestamp: Option<int>) | RelativeOnly | NoLastAction

  /** The HTTP status and the parsed body of one profile request. */
  datatype ProfileResponse = ProfileResponse(status: int, lastAction: LastAction)

  const SecondsPerDay: int := 86400
  const ActivityDays: int := 40
  /** The 40-day activity window, in seconds. */
  const ActivityWindow: int := ActivityDays * SecondsPerDay

  /**
   * `fetch_last_action` without the request: the timestamp of a 200 response whose
   * `last_action` has a non-null `timestamp`; None for a relative-only or missing value and
   * for any other status.
   */
  function LastActionTimestamp(resp: ProfileResponse): (r: Option<int>)
    ensures resp.status != 200 ==> r == None
    ensures resp.lastAction.RelativeOnly? || resp.lastAction.NoLastAction? ==> r == None
    ensures resp.status == 200 && resp.lastAction.Stamped? ==> r == resp.lastAction.timestamp
  {
    if resp.status == 200 then
      match resp.lastAction
      case Stamped(ts) => ts
      case RelativeOnly => None
      case NoLastAction => None
    else
      None
  }

  /** Python's truth value of a timestamp: None and 0 are falsy. */
  predicate Truthy(ts: Option<int>) {
    ts.Some? && ts.value != 0
  }

  /**
   * `is_active` of the rerun script and of the first filter: false for a falsy timestamp,
   * otherwise `now - ts <= timedelta(days=40)`.
   */
  predicate IsActive(ts: Option<int>, now: int) {
    Truthy(ts) && now - ts.value <= ActivityWindow
  }

  /**
   * `is_active` of the second filter: `(now - ts).days <= 40`, where `timedelta.days`
   * is the whole number of days rounded down.
   */
  predicate IsActiveByDays(ts: Option<int>, now: int) {
    Truthy(ts) && (now - ts.value) / SecondsPerDay <= ActivityDays
  }

  /** The window is inclusive: exactly 40 days ago is active, one second more is not. */
  lemma ActivityBoundary(now: int)
    requires now != ActivityWindow && now != ActivityWindow + 1
    ensures IsActive(Some(now - ActivityWindow), now)
    ensures !IsActive(Some(now - ActivityWindow - 1), now)
    ensures now != 0 ==> IsActive(Some(now), now)
    ensures !IsActive(None, now) && !IsActive(Some(0), now)
  {
  }

  /** Rounding the gap down to whole days makes the second filter's window 41 days, exclusive. */
  lemma {:induction false} ActiveByDaysIsFortyOneDays(ts: int, now: int)
    ensures IsActiveByDays(Some(ts), now) <==> ts != 0 && now - ts < (ActivityDays + 1) * SecondsPerDay
  {
    var gap := now - ts;
    if gap / SecondsPerDay <= ActivityDays {
      assert gap == SecondsPerDay * (gap / SecondsPerDay) + gap % SecondsPerDay;
    } else {
      assert gap == SecondsPerDay * (gap / SecondsPerDay) + gap % SecondsPerDay;
      assert gap / SecondsPerDay >= ActivityDays + 1;
    }
  }

  /**
   * `fetch_last_action`: one request with the key, reduced to "timestamp or None".
   * The network's answer for each id is the parameter `net`.
   */
  method FetchLastAction(id: int, key: Keys.ApiKey, net: int -> ProfileResponse) returns (ts: Option<int>)
    modifies key
    ensures ts == LastActionTimestamp(net(id))
    ensures key.callNumber == old(key.callNumber) + 1
  {
    var response := key.MakeRequest(net(id));
    ts := LastActionTimestamp(response);
  }
}
