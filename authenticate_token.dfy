/**
 * The bearer middleware of backend/src/middlewares/authenticateToken.middleware.ts:
 * take the second space-separated word of the `Authorization` header (the
 * scheme word is never checked), resolve it with getUser, store the claims
 * in `req.user` and call `next` exactly once.
 */
module AuthenticateToken {
  import opened Wrappers
  import opened Errors
  import opened Tokens

  /** JavaScript's `s.split(" ")`: the maximal runs between single spaces, empty ones included. */
  function Split(s: string): (parts: seq<string>)
    ensures |parts| >= 1
    ensures forall i :: 0 <= i < |parts| ==> ' ' !in parts[i]
    decreases |s|
  {
    if s == [] then [""]
    else if s[0] == ' ' then [""] + Split(s[1..])
    else
      var rest := Split(s[1..]);
      [[s[0]] + rest[0]] + rest[1..]
  }

  /** The parts joined back with single spaces. */
  function Join(parts: seq<string>): string
    requires |parts| >= 1
  {
    if |parts| == 1 then parts[0] else parts[0] + " " + Join(parts[1..])
  }

  /** Splitting loses nothing: joining the parts with single spaces gives the string back. */
  lemma {:induction false} SplitJoin(s: string)
    ensures Join(Split(s)) == s
    decreases |s|
  {
    if s != [] {
      SplitJoin(s[1..]);
      var rest := Split(s[1..]);
      if s[0] == ' ' {
        assert Split(s) == [""] + rest;
        assert (([""] + rest)[1..]) == rest;
        assert Join(Split(s)) == "" + " " + Join(rest);
      } else {
        var parts := Split(s);
        assert parts == [[s[0]] + rest[0]] + rest[1..];
        if |rest| == 1 {
          assert Join(parts) == [s[0]] + rest[0];
        } else {
          assert parts[1..] == rest[1..];
          assert Join(parts) == ([s[0]] + rest[0]) + " " + Join(rest[1..]);
          assert Join(rest) == rest[0] + " " + Join(rest[1..]);
        }
      }
    }
  }

  /** A string without a space does not split. */
  lemma {:induction false} SplitNoSpace(s: string)
    requires ' ' !in s
    ensures Split(s) == [s]
    decreases |s|
  {
    if s != [] {
      SplitNoSpace(s[1..]);
      assert [s[0]] + s[1..] == s;
    }
  }

  /** Splitting at the first space: the first word, then the split of the rest. */
  lemma {:induction false} SplitFirstSpace(a: string, b: string)
    requires ' ' !in a
    ensures Split(a + " " + b) == [a] + Split(b)
    decreases |a|
  {
    if a == [] {
      assert a + " " + b == [' '] + b;
      assert (a + " " + b)[1..] == b;
    } else {
      var s := a + " " + b;
      assert s[0] == a[0] && s[1..] == a[1..] + " " + b;
      SplitFirstSpace(a[1..], b);
      assert [a[0]] + a[1..] == a;
    }
  }

  /** `authHeader && authHeader.split(" ")[1]`: undefined, the empty header itself, or the second word. */
  function ExtractToken(header: Option<string>): (r: Option<string>)
    ensures header.None? ==> r.None?
    ensures header.Some? && header.value != "" ==>
      (r.Some? <==> |Split(header.value)| >= 2) && (r.Some? ==> r.value == Split(header.value)[1])
  {
    match header
    case None => None
    case Some(h) =>
      if h == "" then Some("")
      else
        var parts := Split(h);
        if |parts| >= 2 then Some(parts[1]) else None
  }

  /**
   * The value handed to getUser. The `!token` test is on the string: the
   * empty word stays the empty token, and any other word is jsonwebtoken's
   * reading of it by `parse`, a word that does not decode keeping its own text.
   */
  function Presented(word: Option<string>, parse: string -> Token): (r: Option<Token>)
    ensures Absent(r) <==> word.None? || word.value == ""
    ensures word.Some? && word.value != "" ==>
      r == Some(if parse(word.value).Signed? then parse(word.value) else Malformed(word.value))
  {
    match word
    case None => None
    case Some(w) =>
      if w == "" then Some(Malformed(""))
      else if parse(w).Signed? then Some(parse(w))
      else Some(Malformed(w))
  }

  /** What the middleware resolves a header to. */
  function Authenticate(header: Option<string>, parse: string -> Token, nowMs: nat): (r: Result<Claims, Error>)
    ensures header.None? ==> r == Failure(NoTokenError())
    ensures r.Failure? ==> r.error == NoTokenError() || r.error == InvalidTokenError()
    ensures r.Success? ==> header.Some? && ' ' in header.value
  {
    if header.Some? && header.value != "" && ' ' !in header.value then
      SplitNoSpace(header.value);
      GetUser(Presented(ExtractToken(header), parse), nowMs)
    else
      GetUser(Presented(ExtractToken(header), parse), nowMs)
  }

  /** A header with no space, such as "invalid", fails exactly like a missing header. */
  lemma HeaderWithoutSpace(h: string, parse: string -> Token, nowMs: nat)
    requires ' ' !in h
    ensures Authenticate(Some(h), parse, nowMs) == Authenticate(None, parse, nowMs) == Failure(NoTokenError())
  {
    if h != "" {
      SplitNoSpace(h);
    }
  }

  /** Any first word, "Bearer" or not, is accepted as the scheme: the token is the second word. */
  lemma SchemeNotChecked(scheme: string, word: string, parse: string -> Token, nowMs: nat)
    requires ' ' !in scheme && ' ' !in word
    ensures ExtractToken(Some(scheme + " " + word)) == Some(word)
    ensures Authenticate(Some(scheme + " " + word), parse, nowMs) == Authenticate(Some("Bearer " + word), parse, nowMs)
  {
    SplitFirstSpace(scheme, word);
    SplitNoSpace(word);
    SplitFirstSpace("Bearer", word);
    assert "Bearer " + word == "Bearer" + " " + word;
  }

  /** A header with a non-empty second word always reaches verification: it is never reported as missing. */
  lemma WordReachesVerification(scheme: string, word: string, parse: string -> Token, nowMs: nat)
    requires ' ' !in scheme && ' ' !in word && word != ""
    ensures Authenticate(Some(scheme + " " + word), parse, nowMs) != Failure(NoTokenError())
  {
    SplitFirstSpace(scheme, word);
    SplitNoSpace(word);
  }

  /** The Express request: its `Authorization` header and the `user` the middleware sets. */
  class Request {
    const authorization: Option<string>
    var user: Option<Claims>

    constructor (authorization: Option<string>)
      ensures this.authorization == authorization && user.None?
    {
      this.authorization := authorization;
      user := None;
    }
  }

  /**
   * `authenticateToken(req, res, next)`; `calls` are the calls made to
   * `next`, in order: exactly one, with no argument after `req.user` is set,
   * or with the error and `req.user` untouched.
   */
  method AuthenticateTokenMiddleware(req: Request, parse: string -> Token, nowMs: nat) returns (calls: seq<NextCall>)
    modifies req`user
    ensures |calls| == 1
    ensures Authenticate(req.authorization, parse, nowMs).Success? ==>
      req.user == Some(Authenticate(req.authorization, parse, nowMs).value) && calls == [Next]
    ensures Authenticate(req.authorization, parse, nowMs).Failure? ==>
      req.user == old(req.user) && calls == [NextWith(Authenticate(req.authorization, parse, nowMs).error)]
  {
    var token := ExtractToken(req.authorization);
    var user := GetUser(Presented(token, parse), nowMs);
    if user.Failure? {
      calls := [NextWith(user.error)];
      return;
    }
    req.user := Some(user.value);
    calls := [Next];
  }
}
