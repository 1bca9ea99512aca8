/** The store the upload service consults and writes: accounts, the readings
    already saved, and the readings added since the last save. */
module Ledger {
  import opened Wrappers
  import opened Digits
  import opened Dates

  /** An account with its two identifiers: the internal key that readings
      refer to, and the external account number that uploads carry. */
  datatype Account = Account(id: int, externalId: int)

  /** A saved or pending reading; accountRef holds the owning account's
      internal key. */
  datatype Reading = Reading(accountRef: int, timestamp: DateTime, value: int)

  /** The first account whose external number is externalId. */
  function FindAccount(accounts: seq<Account>, externalId: int): (r: Option<Account>)
    ensures r.None? <==> forall i :: 0 <= i < |accounts| ==> accounts[i].externalId != externalId
    ensures r.Some? ==>
      exists i :: 0 <= i < |accounts| && accounts[i] == r.value && r.value.externalId == externalId
        && forall j :: 0 <= j < i ==> accounts[j].externalId != externalId
  {
    if accounts == [] then None
    else if accounts[0].externalId == externalId then Some(accounts[0])
    else
      var r := FindAccount(accounts[1..], externalId);
      assert r.Some? ==> (exists i :: 0 < i < |accounts| && accounts[i] == r.value && r.value.externalId == externalId
                            && forall j :: 0 <= j < i ==> accounts[j].externalId != externalId)
      by {
        if r.Some? {
          var i :| 0 <= i < |accounts| - 1 && accounts[1..][i] == r.value && r.value.externalId == externalId
                   && forall j :: 0 <= j < i ==> accounts[1..][j].externalId != externalId;
          forall j | 0 <= j < i + 1 ensures accounts[j].externalId != externalId {
            if j > 0 { assert accounts[j] == accounts[1..][j - 1]; }
          }
        }
      }
      assert r.None? ==> forall i :: 0 <= i < |accounts| ==> accounts[i].externalId != externalId by {
        if r.None? {
          forall i | 0 < i < |accounts| ensures accounts[i].externalId != externalId {
            assert accounts[i] == accounts[1..][i - 1];
          }
        }
      }
      r
  }

  /** Some reading filed under key has the timestamp at. */
  predicate HasReadingAt(readings: seq<Reading>, key: int, at: DateTime) {
    exists i :: 0 <= i < |readings| && readings[i].accountRef == key && readings[i].timestamp == at
  }

  /** The latest timestamp among the readings filed under key. */
  function LatestTimestamp(readings: seq<Reading>, key: int): (r: Option<DateTime>)
    ensures r.None? <==> forall i :: 0 <= i < |readings| ==> readings[i].accountRef != key
    ensures r.Some? ==> exists i :: 0 <= i < |readings| && readings[i].accountRef == key && readings[i].timestamp == r.value
    ensures r.Some? ==> forall i :: 0 <= i < |readings| && readings[i].accountRef == key ==> !Before(r.value, readings[i].timestamp)
  {
    if readings == [] then None
    else
      var init := readings[..|readings| - 1];
      var last := readings[|readings| - 1];
      var rest := LatestTimestamp(init, key);
      assert forall i :: 0 <= i < |init| ==> readings[i] == init[i];
      if last.accountRef != key then rest
      else
        match rest
        case None => Some(last.timestamp)
        case Some(t) =>
          if Before(t, last.timestamp) then
            assert forall i :: 0 <= i < |init| && init[i].accountRef == key ==> !Before(last.timestamp, init[i].timestamp) by {
              forall i | 0 <= i < |init| && init[i].accountRef == key
                ensures !Before(last.timestamp, init[i].timestamp)
              {
                BeforeIsStrictTotalOrder(t, last.timestamp, init[i].timestamp);
                BeforeIsStrictTotalOrder(last.timestamp, init[i].timestamp, t);
              }
            }
            Some(last.timestamp)
          else Some(t)
  }

  /** The unique index on (account, timestamp): no two readings share both. */
  predicate UniqueIndex(readings: seq<Reading>) {
    forall i, j :: 0 <= i < j < |readings| ==>
      !(readings[i].accountRef == readings[j].accountRef && readings[i].timestamp == readings[j].timestamp)
  }

  /** The ordering check against the latest reading is the same as asking
      whether any reading filed under key is strictly later than at. */
  lemma OlderThanLatestIffOlderThanSome(readings: seq<Reading>, key: int, at: DateTime)
    ensures (LatestTimestamp(readings, key).Some? && Before(at, LatestTimestamp(readings, key).value))
        <==> exists i :: 0 <= i < |readings| && readings[i].accountRef == key && Before(at, readings[i].timestamp)
  {
    var l := LatestTimestamp(readings, key);
    if exists i :: 0 <= i < |readings| && readings[i].accountRef == key && Before(at, readings[i].timestamp) {
      var i :| 0 <= i < |readings| && readings[i].accountRef == key && Before(at, readings[i].timestamp);
      BeforeIsStrictTotalOrder(at, readings[i].timestamp, l.value);
      BeforeIsStrictTotalOrder(readings[i].timestamp, l.value, readings[i].timestamp);
    }
  }

  /** The store's state as a value. */
  datatype DbState = DbState(accounts: seq<Account>, stored: seq<Reading>, pending: seq<Reading>)

  /** The database context: accounts, saved readings, and readings added but
      not yet saved. */
  class ApplicationDbContext {
    var accounts: seq<Account>
    var stored: seq<Reading>
    var pending: seq<Reading>

    /** Saved readings always satisfy the unique index. */
    ghost predicate Valid()
      reads this
    {
      UniqueIndex(stored)
    }

    function State(): DbState
      reads this
    {
      DbState(accounts, stored, pending)
    }

    constructor (accounts: seq<Account>, stored: seq<Reading>)
      requires UniqueIndex(stored)
      ensures Valid()
      ensures State() == DbState(accounts, stored, [])
    {
      this.accounts := accounts;
      this.stored := stored;
      this.pending := [];
    }

    /** Marks a reading for insertion at the next save. */
    method Add(r: Reading)
      modifies this
      ensures State() == old(State()).(pending := old(pending) + [r])
    {
      pending := pending + [r];
    }

    /** Writes every pending reading in one step, or none of them when the
        unique index would be violated. */
    method SaveChanges() returns (ok: bool)
      requires Valid()
      modifies this
      ensures Valid()
      ensures ok <==> UniqueIndex(old(stored) + old(pending))
      ensures ok ==> State() == DbState(old(accounts), old(stored) + old(pending), [])
      ensures !ok ==> State() == old(State())
    {
      ok := UniqueIndex(stored + pending);
      if ok {
        stored := stored + pending;
        pending := [];
      }
    }
  }
}
