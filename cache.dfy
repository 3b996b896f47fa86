/**
 * The deception cache: the `fake_responses` table, keyed by a UNIQUE
 * signature, read by `get_cached_response` and written by
 * `store_fake_response` with INSERT OR IGNORE, so the first record stored
 * under a signature is the one that stays.
 */
module DeceptionCache {
  import opened Wrappers

  /** The columns of a row besides its signature (the id and creation time are not modelled). */
  datatype DeceptionRecord = DeceptionRecord(attackType: string, fakeResponse: string)

  /** One call of `store_fake_response`. */
  datatype StoreCall = StoreCall(signature: string, attackType: string, response: string)

  function RecordOf(call: StoreCall): DeceptionRecord {
    DeceptionRecord(call.attackType, call.response)
  }

  /** INSERT OR IGNORE into a table whose signature column is UNIQUE. */
  function InsertOrIgnore(table: map<string, DeceptionRecord>, signature: string, rec: DeceptionRecord)
    : (t: map<string, DeceptionRecord>)
    ensures t.Keys == table.Keys + {signature}
    ensures forall s :: s in table ==> t[s] == table[s]
    ensures signature !in table ==> t[signature] == rec
  {
    if signature in table then table else table[signature := rec]
  }

  /** The table after a sequence of store calls on an empty table. */
  function Replay(calls: seq<StoreCall>): map<string, DeceptionRecord>
    decreases |calls|
  {
    if |calls| == 0 then map[]
    else
      var last := calls[|calls| - 1];
      InsertOrIgnore(Replay(calls[..|calls| - 1]), last.signature, RecordOf(last))
  }

  /** The earliest store call made for a signature, if any. */
  function FirstStore(calls: seq<StoreCall>, signature: string): Option<StoreCall>
    decreases |calls|
  {
    if |calls| == 0 then None
    else if calls[0].signature == signature then Some(calls[0])
    else FirstStore(calls[1..], signature)
  }

  /** The response text of a signature's earliest store call, if any. */
  function FirstResponse(calls: seq<StoreCall>, signature: string): Option<string> {
    match FirstStore(calls, signature)
    case None => None
    case Some(call) => Some(call.response)
  }

  class ResponseCache {
    /** The `fake_responses` table. */
    var table: map<string, DeceptionRecord>
    /** Every store call made so far, in order. */
    ghost var stores: seq<StoreCall>

    ghost predicate Valid()
      reads this
    {
      table == Replay(stores)
    }

    /** A freshly initialised, empty table. */
    constructor ()
      ensures Valid()
      ensures table == map[] && stores == []
    {
      table := map[];
      stores := [];
    }

    /**
     * `get_cached_response(signature)`: the stored text for a present
     * signature, `None` for an absent one; that is the text of the first
     * store ever made for the signature.
     */
    method GetCachedResponse(signature: string) returns (response: Option<string>)
      requires Valid()
      ensures signature in table ==> response == Some(table[signature].fakeResponse)
      ensures signature !in table ==> response == None
      ensures response == FirstResponse(stores, signature)
    {
      ReplayIsFirstWriter(stores, signature);
      if signature in table {
        response := Some(table[signature].fakeResponse);
      } else {
        response := None;
      }
    }

    /** `store_fake_response(signature, attack_type, response)`: insert unless the signature is present. */
    method StoreFakeResponse(signature: string, attackType: string, response: string)
      requires Valid()
      modifies this
      ensures Valid()
      ensures stores == old(stores) + [StoreCall(signature, attackType, response)]
      ensures table == InsertOrIgnore(old(table), signature, DeceptionRecord(attackType, response))
    {
      table := InsertOrIgnore(table, signature, DeceptionRecord(attackType, response));
      stores := stores + [StoreCall(signature, attackType, response)];
      assert stores[..|stores| - 1] == old(stores);
    }
  }

  /** A present signature keeps its record: the later writer is ignored. */
  lemma InsertKeepsExisting(table: map<string, DeceptionRecord>, signature: string, rec: DeceptionRecord)
    requires signature in table
    ensures InsertOrIgnore(table, signature, rec) == table
  {
  }

  /** An absent signature gets the given record, and only that key is added. */
  lemma InsertCreatesRecord(table: map<string, DeceptionRecord>, signature: string, rec: DeceptionRecord)
    requires signature !in table
    ensures signature in InsertOrIgnore(table, signature, rec)
    ensures InsertOrIgnore(table, signature, rec)[signature] == rec
    ensures InsertOrIgnore(table, signature, rec).Keys == table.Keys + {signature}
  {
  }

  /** A store leaves every other signature's entry as it was. */
  lemma InsertLeavesOthers(table: map<string, DeceptionRecord>, signature: string, rec: DeceptionRecord, other: string)
    requires other != signature
    ensures other in InsertOrIgnore(table, signature, rec) <==> other in table
    ensures other in table ==> InsertOrIgnore(table, signature, rec)[other] == table[other]
  {
  }

  /** Storing under a signature a second time, with any record, changes nothing. */
  lemma InsertIdempotent(table: map<string, DeceptionRecord>, signature: string, rec: DeceptionRecord, again: DeceptionRecord)
    ensures InsertOrIgnore(InsertOrIgnore(table, signature, rec), signature, again)
         == InsertOrIgnore(table, signature, rec)
  {
  }

  lemma {:induction false} FirstStoreAppend(calls: seq<StoreCall>, call: StoreCall, signature: string)
    ensures FirstStore(calls + [call], signature)
         == if FirstStore(calls, signature).Some? then FirstStore(calls, signature)
            else if call.signature == signature then Some(call)
            else None
    decreases |calls|
  {
    if |calls| == 0 {
      assert calls + [call] == [call];
    } else {
      assert (calls + [call])[0] == calls[0];
      assert (calls + [call])[1..] == calls[1..] + [call];
      FirstStoreAppend(calls[1..], call, signature);
    }
  }

  /**
   * First writer wins: after any sequence of stores, a signature is present
   * iff it was ever stored, and then holds the record of its first store.
   */
  lemma {:induction false} ReplayIsFirstWriter(calls: seq<StoreCall>, signature: string)
    ensures signature in Replay(calls) <==> FirstStore(calls, signature).Some?
    ensures signature in Replay(calls) ==> Replay(calls)[signature] == RecordOf(FirstStore(calls, signature).value)
    decreases |calls|
  {
    if |calls| > 0 {
      var init := calls[..|calls| - 1];
      var last := calls[|calls| - 1];
      ReplayIsFirstWriter(init, signature);
      FirstStoreAppend(init, last, signature);
      assert init + [last] == calls;
    }
  }

  /** Storing the same call twice in a row gives the same table as storing it once. */
  lemma StoreTwiceIsStoreOnce(calls: seq<StoreCall>, call: StoreCall)
    ensures Replay(calls + [call, call]) == Replay(calls + [call])
  {
    assert (calls + [call, call])[..|calls| + 1] == calls + [call];
  }
}
