/**
 * The revocation ledger of backend/src/models/invalidToken.model.ts: the
 * InvalidToken collection, one record per spent refresh token, keyed by the
 * token itself (the unique `refreshToken` index) and holding the token's
 * expiry in milliseconds, derived by the pre-save hook.
 */
module InvalidTokens {
  import opened Wrappers
  import opened Errors
  import opened Tokens

  /** The error the pre-save hook passes to `next` when the token has no usable `exp`. */
  function HookError(): Error { Foreign("Error", Some("Invalid token"), None, None) }

  /** What the MongoDB driver throws when the unique index on `refreshToken` is violated. */
  function DuplicateKeyError(): Error
  {
    Foreign("MongoServerError", Some("E11000 duplicate key error"), None, Some(11000))
  }

  /**
   * The pre-save hook: `jwt.decode` reads the claims without checking the
   * signature; a token with a truthy `exp` (present and non-zero) gets
   * `exp * 1000`, any other token is refused.
   */
  function HookExpMs(t: Token): (r: Result<int, Error>)
    ensures r.Success? <==> t.Signed? && t.claims.exp.Some? && t.claims.exp.value != 0
    ensures r.Success? ==> r.value == t.claims.exp.value * 1000
    ensures r.Failure? ==> r.error == HookError()
  {
    if t.Signed? && t.claims.exp.Some? && t.claims.exp.value != 0 then Success(t.claims.exp.value * 1000)
    else Failure(HookError())
  }

  /** `new InvalidToken({ refreshToken }).save()` on the collection `records`: the hook runs first, then the insert. */
  function Insert(records: map<Token, int>, t: Token): (r: Result<map<Token, int>, Error>)
    ensures HookExpMs(t).Failure? ==> r == Failure(HookError())
    ensures HookExpMs(t).Success? && t in records ==> r == Failure(DuplicateKeyError())
    ensures r.Success? <==> HookExpMs(t).Success? && t !in records
    ensures r.Success? ==> r.value.Keys == records.Keys + {t} && r.value[t] == HookExpMs(t).value
    ensures r.Success? ==> forall k :: k in records ==> k in r.value && r.value[k] == records[k]
  {
    match HookExpMs(t)
    case Failure(e) => Failure(e)
    case Success(ms) => if t in records then Failure(DuplicateKeyError()) else Success(records[t := ms])
  }

  /** `deleteMany({ exp: { $lt: nowMs } })`: drop exactly the records that expired strictly before nowMs. */
  function Prune(records: map<Token, int>, nowMs: int): (r: map<Token, int>)
    ensures forall k :: k in r <==> k in records && records[k] >= nowMs
    ensures forall k :: k in r ==> r[k] == records[k]
  {
    map k | k in records && records[k] >= nowMs :: records[k]
  }

  /**
   * The record derived for a token that jsonwebtoken accepts at nowMs is
   * not yet expired in milliseconds, so the prune that follows the insert
   * (strict `$lt`) never removes it.
   */
  lemma FreshRecordSurvivesPrune(records: map<Token, int>, t: Token, nowMs: nat, laterMs: nat)
    requires Verifies(t, laterMs) && nowMs <= laterMs
    requires Insert(records, t).Success?
    ensures t in Prune(Insert(records, t).value, nowMs)
  {
    DivBound(laterMs, t.claims.exp.value);
  }

  /** The ledger collection. */
  class Ledger {
    var records: map<Token, int>

    constructor ()
      ensures records == map[]
    {
      records := map[];
    }

    /** `InvalidToken.findOne({ refreshToken })` is truthy. */
    function FindOne(t: Token): (found: bool)
      reads this
      ensures found <==> t in records
    {
      t in records
    }

    /** Save one record: the hook derives `exp`, the unique index refuses a second record for the same token. */
    method Save(t: Token) returns (r: Result<(), Error>)
      modifies this
      ensures Insert(old(records), t).Success? ==> r == Success(()) && records == Insert(old(records), t).value
      ensures Insert(old(records), t).Failure? ==> r == Failure(Insert(old(records), t).error) && records == old(records)
    {
      var exp := HookExpMs(t);
      if exp.Failure? {
        return Failure(exp.error);
      }
      if t in records {
        return Failure(DuplicateKeyError());
      }
      records := records[t := exp.value];
      r := Success(());
    }

    /** Delete the records whose `exp` is strictly below nowMs. */
    method DeleteExpired(nowMs: int)
      modifies this
      ensures records == Prune(old(records), nowMs)
    {
      records := map k | k in records && records[k] >= nowMs :: records[k];
    }
  }
}
