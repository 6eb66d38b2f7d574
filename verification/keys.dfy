/**
 * One API key. The sleep that spaces its calls is wall-clock behaviour and is not modelled;
 * what remains is the per-key diagnostic call counter.
 */
module Keys {

  class ApiKey {
    const key: string
    const holderName: string
    var callNumber: int

    /**
     * A key starts its counter at `callNumber`: the optional `call_number` argument, 0 by
     * default (the key of `bazaarcalltake5.py` has no such argument and always starts at 0).
     */
    constructor (key: string, holderName: string, callNumber: int)
      ensures this.key == key && this.holderName == holderName
      ensures this.callNumber == callNumber
    {
      this.key := key;
      this.holderName := holderName;
      this.callNumber := callNumber;
    }

    /**
     * `make_request`: one network call with this key. The response is whatever the
     * network answers, so it is passed in; the call counter rises by exactly one.
     */
    method MakeRequest<R>(response: R) returns (r: R)
      modifies this
      ensures r == response
      ensures callNumber == old(callNumber) + 1
    {
      r := response;
      callNumber := callNumber + 1;
    }
  }
}
