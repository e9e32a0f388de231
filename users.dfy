/**
 * The user service of backend/src/services/users.service.ts: signup
 * (`create`), signin (`authenticate`), the profile lookup (`get`), and the
 * one-time rotation of refresh tokens (`refreshTokens`) over the ledger.
 */
module Users {
  import opened Wrappers
  import opened Errors
  import opened Tokens
  import opened InvalidTokens

  // ---------------------------------------------------------------------------
  // Rotation of refresh tokens
  // ---------------------------------------------------------------------------

  /** The outcome of one `refreshTokens` call: its result and the ledger afterwards. */
  datatype Rotation = Rotation(result: Result<TokenPair, Error>, ledger: map<Token, int>)

  /**
   * `refreshTokens(token)`: verify; refuse a token already in the ledger;
   * record it as spent; prune expired records (only when that unawaited
   * query runs, `pruneRuns`); mint a new pair for the recovered subject.
   */
  function Rotate(ledger: map<Token, int>, presented: Option<Token>, nowMs: nat, pruneRuns: bool): (r: Rotation)
    // an unverifiable token fails before the ledger is read or written
    ensures GetUser(presented, nowMs).Failure? ==> r == Rotation(Failure(GetUser(presented, nowMs).error), ledger)
    // a spent token is refused with "Invalid token" and nothing is minted
    ensures GetUser(presented, nowMs).Success? && presented.value in ledger ==> r == Rotation(Failure(InvalidTokenError()), ledger)
    ensures r.result.Success? <==>
      GetUser(presented, nowMs).Success? && presented.value !in ledger && HookExpMs(presented.value).Success?
    // on success the presented token is recorded and the pair is for its subject
    ensures r.result.Success? ==> presented.Some? && presented.value in r.ledger && r.ledger[presented.value] == HookExpMs(presented.value).value
    ensures r.result.Success? ==> r.result.value == Generate(presented.value.claims.id, nowMs)
    ensures r.result.Failure? ==> r.ledger == ledger
    // a rotation never adds a record for any other token, nor changes a record it keeps
    ensures forall k :: k in r.ledger ==> (k in ledger && r.ledger[k] == ledger[k]) || (presented == Some(k) && r.result.Success?)
  {
    match GetUser(presented, nowMs)
    case Failure(e) => Rotation(Failure(e), ledger)
    case Success(claims) =>
      var t := presented.value;
      if t in ledger then Rotation(Failure(InvalidTokenError()), ledger)
      else
        match Insert(ledger, t)
        case Failure(e) => Rotation(Failure(e), ledger)
        case Success(spent) =>
          FreshRecordSurvivesPrune(ledger, t, nowMs, nowMs);
          Rotation(Success(Generate(claims.id, nowMs)), if pruneRuns then Prune(spent, nowMs) else spent)
  }

  /** The imperative service call over the ledger collection. */
  method RefreshTokens(ledger: Ledger, presented: Option<Token>, nowMs: nat, pruneRuns: bool)
    returns (r: Result<TokenPair, Error>)
    modifies ledger
    ensures Rotation(r, ledger.records) == Rotate(old(ledger.records), presented, nowMs, pruneRuns)
  {
    var user := GetUser(presented, nowMs);
    if user.Failure? {
      return Failure(user.error);
    }
    var found := ledger.FindOne(presented.value);
    if found {
      return Failure(InvalidTokenError());
    }
    var saved := ledger.Save(presented.value);
    if saved.Failure? {
      return Failure(saved.error);
    }
    if pruneRuns {
      ledger.DeleteExpired(nowMs);
    }
    r := Success(Generate(user.value.id, nowMs));
  }

  /** Every refusal of the rotation protocol proper (other than the hook's) is an UnauthorizedError. */
  lemma RotationRefusalsUnauthorized(ledger: map<Token, int>, presented: Option<Token>, nowMs: nat, pruneRuns: bool)
    requires Rotate(ledger, presented, nowMs, pruneRuns).result.Failure?
    requires presented.Some? ==> HookExpMs(presented.value).Success?
    ensures Rotate(ledger, presented, nowMs, pruneRuns).result.error.Http?
    ensures Rotate(ledger, presented, nowMs, pruneRuns).result.error.cls == UnauthorizedError
  {
  }

  /** A later rotation, as replayed by `Replay`. */
  datatype Call = Call(presented: Option<Token>, nowMs: nat, pruneRuns: bool)

  /** The ledger after a sequence of rotations, one after the other. */
  function Replay(ledger: map<Token, int>, calls: seq<Call>): map<Token, int>
    decreases |calls|
  {
    if calls == [] then ledger
    else Replay(Rotate(ledger, calls[0].presented, calls[0].nowMs, calls[0].pruneRuns).ledger, calls[1..])
  }

  /** The clock never runs backwards over the calls, starting from `fromMs`. */
  ghost predicate ClockFrom(calls: seq<Call>, fromMs: nat)
  {
    && (|calls| > 0 ==> fromMs <= calls[0].nowMs)
    && forall i :: 0 < i < |calls| ==> calls[i - 1].nowMs <= calls[i].nowMs
  }

  /** R cannot be rotated at time t: its record is still in the ledger, or it no longer verifies. */
  ghost predicate Spent(ledger: map<Token, int>, r: Token, t: nat)
  {
    (r in ledger && HookExpMs(r).Success? && ledger[r] == HookExpMs(r).value) || !Verifies(r, t)
  }

  /** One rotation, of any token, at a clock reading no earlier than t keeps R spent. */
  lemma SpentStep(ledger: map<Token, int>, r: Token, t: nat, c: Call)
    requires Spent(ledger, r, t) && t <= c.nowMs
    ensures Spent(Rotate(ledger, c.presented, c.nowMs, c.pruneRuns).ledger, r, c.nowMs)
  {
    var after := Rotate(ledger, c.presented, c.nowMs, c.pruneRuns).ledger;
    if !Verifies(r, t) {
      if r.Signed? && r.sigOk {
        ExpiryIsFinal(r, t, c.nowMs);
      }
    } else if r !in after {
      // the only way R leaves the ledger is a prune at c.nowMs, which means it had expired
      assert r in ledger && ledger[r] == r.claims.exp.value * 1000;
      assert ledger[r] < c.nowMs;
      DivBound(c.nowMs, r.claims.exp.value);
    }
  }

  /** Spent survives any sequence of later rotations with a non-decreasing clock. */
  lemma {:induction false} SpentPersists(ledger: map<Token, int>, r: Token, t: nat, calls: seq<Call>, laterMs: nat)
    requires Spent(ledger, r, t)
    requires ClockFrom(calls, t)
    requires (if calls == [] then t else calls[|calls| - 1].nowMs) <= laterMs
    ensures Spent(Replay(ledger, calls), r, laterMs)
    decreases |calls|
  {
    if calls == [] {
      if !Verifies(r, t) && r.Signed? && r.sigOk {
        ExpiryIsFinal(r, t, laterMs);
      }
    } else {
      SpentStep(ledger, r, t, calls[0]);
      var next := Rotate(ledger, calls[0].presented, calls[0].nowMs, calls[0].pruneRuns).ledger;
      assert ClockFrom(calls[1..], calls[0].nowMs) by {
        forall i | 0 < i < |calls[1..]|
          ensures calls[1..][i - 1].nowMs <= calls[1..][i].nowMs
        {
          assert calls[1..][i] == calls[i + 1] && calls[1..][i - 1] == calls[i];
        }
        if |calls| > 1 {
          assert calls[1..][0] == calls[1];
        }
      }
      SpentPersists(next, r, calls[0].nowMs, calls[1..], laterMs);
    }
  }

  /**
   * Single use: once `refreshTokens(R)` has succeeded, every later
   * `refreshTokens(R)` fails with an UnauthorizedError, whatever other
   * rotations ran in between, as long as the clock does not run backwards.
   */
  lemma SingleUse(ledger: map<Token, int>, r: Token, nowMs: nat, pruneRuns: bool,
                  calls: seq<Call>, laterMs: nat, laterPrune: bool)
    requires Rotate(ledger, Some(r), nowMs, pruneRuns).result.Success?
    requires ClockFrom(calls, nowMs)
    requires (if calls == [] then nowMs else calls[|calls| - 1].nowMs) <= laterMs
    ensures var again := Rotate(Replay(Rotate(ledger, Some(r), nowMs, pruneRuns).ledger, calls), Some(r), laterMs, laterPrune);
      again.result.Failure? && again.result.error.Http? && again.result.error.cls == UnauthorizedError
  {
    var after := Rotate(ledger, Some(r), nowMs, pruneRuns).ledger;
    assert Spent(after, r, nowMs);
    SpentPersists(after, r, nowMs, calls, laterMs);
  }

  /**
   * Rotating a refresh token within the same second in which it was minted
   * hands back that very token (same subject, same claims, same secret), and
   * it is already spent: the next refresh with it fails.
   */
  lemma SameSecondRotationReturnsSpentToken(ledger: map<Token, int>, id: Id, mintMs: nat, nowMs: nat, pruneRuns: bool)
    requires mintMs <= nowMs && NumericDate(mintMs) == NumericDate(nowMs)
    requires Generate(id, mintMs).refreshToken !in ledger
    ensures var first := Rotate(ledger, Some(Generate(id, mintMs).refreshToken), nowMs, pruneRuns);
      && first.result.Success?
      && first.result.value.refreshToken == Generate(id, mintMs).refreshToken
      && Rotate(first.ledger, Some(first.result.value.refreshToken), nowMs, pruneRuns).result == Failure(InvalidTokenError())
  {
    RoundTrip(id, mintMs, nowMs, REFRESH_LIFETIME);
  }

  /** Access tokens carry no kind tag, so an unspent and unexpired access token is accepted for rotation. */
  lemma AccessTokenRotates(ledger: map<Token, int>, id: Id, mintMs: nat, nowMs: nat, pruneRuns: bool)
    requires mintMs <= nowMs < mintMs + 3599001
    requires Generate(id, mintMs).accessToken !in ledger
    ensures Rotate(ledger, Some(Generate(id, mintMs).accessToken), nowMs, pruneRuns).result == Success(Generate(id, nowMs))
  {
    RoundTrip(id, mintMs, nowMs, ACCESS_LIFETIME);
  }

  // ---------------------------------------------------------------------------
  // Users
  // ---------------------------------------------------------------------------

  /** A stored user; `password` is the stored credential that `comparePassword` checks against. */
  datatype User = User(id: Id, name: string, email: string, password: string)

  /** What `select("-_id -__v -password")` leaves of a user. */
  datatype Profile = Profile(name: string, email: string)

  datatype SignupData = SignupData(name: string, email: string, password: string)

  /** The two queries the service makes: `findOne({ email })` and `findById(id)`. */
  datatype Query = ByEmail(email: string) | ById(id: Id)

  predicate Matches(u: User, q: Query)
  {
    match q
    case ByEmail(email) => u.email == email
    case ById(id) => u.id == id
  }

  /** The first user the query matches, if any. */
  function FindOne(users: seq<User>, q: Query): (r: Option<User>)
    ensures r.Some? ==> r.value in users && Matches(r.value, q)
    ensures r.None? <==> forall u :: u in users ==> !Matches(u, q)
  {
    if users == [] then None
    else if Matches(users[0], q) then Some(users[0])
    else FindOne(users[1..], q)
  }

  /** The catch block of `create`: a duplicate-key failure becomes a ConflictError, anything else is rethrown. */
  function SignupFailure(e: Error): (r: Error)
    ensures Code(e) == Some(11000) ==> r == Http(ConflictError, "Email is already in use")
    ensures Code(e) != Some(11000) ==> r == e
  {
    if Code(e) == Some(11000) then Http(ConflictError, "Email is already in use") else e
  }

  /**
   * `authenticate({ email, password })`: NotFound for an unknown email,
   * Unauthorized for a wrong password, otherwise a new pair for the user.
   * `matches(password, stored)` is bcrypt's comparison, left abstract.
   */
  function Authenticate(users: seq<User>, email: string, password: string,
                        matches: (string, string) -> bool, nowMs: nat): (r: Result<TokenPair, Error>)
    ensures (forall u :: u in users ==> u.email != email) ==> r == Failure(Http(NotFoundError, "User not found"))
    ensures r.Success? ==> exists u :: u in users && u.email == email && matches(password, u.password) && r.value == Generate(u.id, nowMs)
    ensures r.Failure? && (exists u :: u in users && u.email == email) ==> r == Failure(Http(UnauthorizedError, "Invalid email or password"))
  {
    match FindOne(users, ByEmail(email))
    case None => Failure(Http(NotFoundError, "User not found"))
    case Some(u) =>
      if !matches(password, u.password) then Failure(Http(UnauthorizedError, "Invalid email or password"))
      else Success(Generate(u.id, nowMs))
  }

  /** With unique emails, the user found is the one user with that email. */
  lemma AuthenticateUnique(users: seq<User>, i: nat, password: string, matches: (string, string) -> bool, nowMs: nat)
    requires UniqueEmails(users) && i < |users|
    ensures matches(password, users[i].password) ==> Authenticate(users, users[i].email, password, matches, nowMs) == Success(Generate(users[i].id, nowMs))
    ensures !matches(password, users[i].password) ==> Authenticate(users, users[i].email, password, matches, nowMs) == Failure(Http(UnauthorizedError, "Invalid email or password"))
  {
    var found := FindOne(users, ByEmail(users[i].email));
    assert Matches(users[i], ByEmail(users[i].email)) && users[i] in users;
    assert found.Some?;
    var j :| 0 <= j < |users| && users[j] == found.value;
  }

  /** `get(userId)`: the profile, exactly name and email, of the user with that id. */
  function Get(users: seq<User>, userId: Id): (r: Option<Profile>)
    ensures r.Some? <==> exists u :: u in users && u.id == userId
    ensures r.Some? ==> exists u :: u in users && u.id == userId && r.value == Profile(u.name, u.email)
  {
    match FindOne(users, ById(userId))
    case None => None
    case Some(u) => Some(Profile(u.name, u.email))
  }

  ghost predicate UniqueEmails(users: seq<User>)
  {
    forall i, j :: 0 <= i < j < |users| ==> users[i].email != users[j].email
  }

  ghost predicate UniqueIds(users: seq<User>)
  {
    forall i, j :: 0 <= i < j < |users| ==> users[i].id != users[j].id
  }

  /** The users collection, with its unique `email` index. */
  class UserStore {
    var users: seq<User>

    ghost predicate Valid()
      reads this
    {
      UniqueEmails(users) && UniqueIds(users)
    }

    constructor ()
      ensures Valid() && users == []
    {
      users := [];
    }

    /**
     * `create(userData)`: save a new user under the freshly generated id
     * `newId` and return a pair for it. `invalid` is the verdict of the
     * schema's own validators (required fields and the email and password
     * patterns), which run before the insert; the unique index refuses a
     * taken email with the driver's duplicate-key error.
     */
    method Create(data: SignupData, newId: Id, invalid: Option<Error>, nowMs: nat)
      returns (r: Result<TokenPair, Error>)
      requires Valid()
      requires forall u :: u in users ==> u.id != newId
      modifies this
      ensures Valid()
      ensures invalid.Some? ==> r == Failure(SignupFailure(invalid.value)) && users == old(users)
      ensures invalid.None? && FindOne(old(users), ByEmail(data.email)).Some? ==>
        r == Failure(Http(ConflictError, "Email is already in use")) && users == old(users)
      ensures invalid.None? && FindOne(old(users), ByEmail(data.email)).None? ==>
        r == Success(Generate(newId, nowMs)) && users == old(users) + [User(newId, data.name, data.email, data.password)]
    {
      var saved: Result<(), Error>;
      if invalid.Some? {
        saved := Failure(invalid.value);
      } else if FindOne(users, ByEmail(data.email)).Some? {
        saved := Failure(DuplicateKeyError());
      } else {
        assert forall u :: u in users ==> u.email != data.email by {
          forall u | u in users
            ensures u.email != data.email
          {
            assert !Matches(u, ByEmail(data.email));
          }
        }
        users := users + [User(newId, data.name, data.email, data.password)];
        saved := Success(());
      }
      if saved.Failure? {
        return Failure(SignupFailure(saved.error));
      }
      r := Success(Generate(newId, nowMs));
    }
  }
}
