/**
 * The `verifyToken` middleware: the token is the second space-separated
 * field of the Authorization header, whatever the first one says; a missing
 * or empty token is refused with 401, a token `jwt.verify` rejects with 403,
 * and otherwise the decoded payload becomes `req.user` and `next()` runs.
 */
module VerifyToken {
  import opened Wrappers
  import opened JsValues
  import opened Http
  import opened Crypto

  // ---------------------------------------------------------------------------
  // String.prototype.split(' ')
  // ---------------------------------------------------------------------------

  /** `s` holds no space. */
  predicate SpaceFree(s: string) {
    forall k :: 0 <= k < |s| ==> s[k] != ' '
  }

  /** `s.split(' ')`: the pieces between single spaces; `""` splits into `[""]`. */
  function SplitOnSpace(s: string): (parts: seq<string>)
    ensures |parts| >= 1
    decreases |s|
  {
    var i := FirstIndexOf(s, ' ');
    if i == |s| then [s] else [s[..i]] + SplitOnSpace(s[i + 1..])
  }

  /** `parts.join(' ')`. */
  function JoinWithSpace(parts: seq<string>): string
    requires |parts| >= 1
  {
    if |parts| == 1 then parts[0] else parts[0] + " " + JoinWithSpace(parts[1..])
  }

  /** No piece holds a space. */
  lemma {:induction false} PiecesSpaceFree(s: string)
    ensures forall i :: 0 <= i < |SplitOnSpace(s)| ==> SpaceFree(SplitOnSpace(s)[i])
    decreases |s|
  {
    var i := FirstIndexOf(s, ' ');
    if i < |s| {
      PiecesSpaceFree(s[i + 1..]);
      assert SpaceFree(s[..i]);
    } else {
      assert SpaceFree(s);
    }
  }

  /** Splitting loses nothing: joining the pieces gives the header back. */
  lemma {:induction false} JoinSplit(s: string)
    ensures JoinWithSpace(SplitOnSpace(s)) == s
    decreases |s|
  {
    var i := FirstIndexOf(s, ' ');
    if i < |s| {
      JoinSplit(s[i + 1..]);
      assert s == s[..i] + " " + s[i + 1..];
    }
  }

  /** A space-free word before a space: the first piece is that word. */
  lemma SplitAfterWord(a: string, b: string)
    requires SpaceFree(a)
    ensures SplitOnSpace(a + " " + b) == [a] + SplitOnSpace(b)
  {
    var s := a + " " + b;
    assert s[|a|] == ' ';
    assert forall k :: 0 <= k < |a| ==> s[k] == a[k];
    assert FirstIndexOf(s, ' ') == |a|;
    assert s[..|a|] == a && s[|a| + 1..] == b;
  }

  /** A space-free string is one piece. */
  lemma SplitOfWord(a: string)
    requires SpaceFree(a)
    ensures SplitOnSpace(a) == [a]
  {
  }

  /** Joining space-free pieces and splitting again gives the pieces back. */
  lemma {:induction false} SplitJoin(parts: seq<string>)
    requires |parts| >= 1 && forall i :: 0 <= i < |parts| ==> SpaceFree(parts[i])
    ensures SplitOnSpace(JoinWithSpace(parts)) == parts
  {
    if |parts| == 1 {
      SplitOfWord(parts[0]);
    } else {
      assert forall i :: 0 <= i < |parts| - 1 ==> parts[1..][i] == parts[i + 1];
      SplitJoin(parts[1..]);
      SplitAfterWord(parts[0], JoinWithSpace(parts[1..]));
      assert [parts[0]] + parts[1..] == parts;
    }
  }

  // ---------------------------------------------------------------------------
  // The token in the header
  // ---------------------------------------------------------------------------

  /**
   * `authHeader && authHeader.split(' ')[1]`, kept only when truthy: an
   * absent or empty header, a header without a space and an empty second
   * field all give no token.
   */
  function BearerToken(authorization: Option<string>): (token: Option<string>)
    ensures token.Some? ==> token.value != [] && SpaceFree(token.value)
  {
    match authorization
    case None => None
    case Some(h) =>
      PiecesSpaceFree(h);
      var parts := SplitOnSpace(h);
      if |parts| >= 2 && parts[1] != [] then Some(parts[1]) else None
  }

  /** `rest` ends the second field: nothing follows, or a space does. */
  predicate EndsField(rest: string) {
    rest == [] || rest[0] == ' '
  }

  /** What follows the second piece in the joined string. */
  function AfterSecond(parts: seq<string>): string
    requires |parts| >= 2
  {
    if |parts| == 2 then "" else " " + JoinWithSpace(parts[2..])
  }

  lemma JoinOfTwo(parts: seq<string>)
    requires |parts| == 2
    ensures JoinWithSpace(parts) == parts[0] + " " + parts[1] + AfterSecond(parts)
  {
    assert parts[1..][0] == parts[1];
    assert JoinWithSpace(parts[1..]) == parts[1];
    var x := parts[0] + " " + parts[1];
    assert x + "" == x;
  }

  lemma AppendAssoc(x: string, y: string, z: string)
    ensures x + (y + z) == (x + y) + z
  {
  }

  lemma JoinOfMore(parts: seq<string>)
    requires |parts| > 2
    ensures JoinWithSpace(parts) == parts[0] + " " + parts[1] + AfterSecond(parts)
  {
    var tail := parts[1..];
    assert tail[0] == parts[1];
    assert tail[1..] == parts[2..];
    var a, b, c := parts[0], parts[1], JoinWithSpace(parts[2..]);
    assert JoinWithSpace(tail) == b + " " + c;
    AppendAssoc(a + " ", b + " ", c);
    AppendAssoc(a + " ", b, " ");
    AppendAssoc(a + " " + b, " ", c);
  }

  /** Joining two or more pieces: the first, a space, the second, then the rest. */
  lemma JoinFirstTwo(parts: seq<string>)
    requires |parts| >= 2
    ensures JoinWithSpace(parts) == parts[0] + " " + parts[1] + AfterSecond(parts)
  {
    if |parts| == 2 {
      JoinOfTwo(parts);
    } else {
      JoinOfMore(parts);
    }
  }

  /** A token comes with the scheme word before it and the rest of the header after it. */
  lemma FieldsAroundToken(h: string) returns (scheme: string, rest: string)
    requires BearerToken(Some(h)).Some?
    ensures SpaceFree(scheme) && EndsField(rest) && h == scheme + " " + BearerToken(Some(h)).value + rest
  {
    var parts := SplitOnSpace(h);
    PiecesSpaceFree(h);
    JoinSplit(h);
    JoinFirstTwo(parts);
    scheme, rest := parts[0], AfterSecond(parts);
  }

  /** The first piece of a space-free word followed by nothing or a space is that word. */
  lemma FirstPiece(tok: string, rest: string)
    requires SpaceFree(tok) && EndsField(rest)
    ensures SplitOnSpace(tok + rest)[0] == tok
  {
    if rest == [] {
      assert tok + rest == tok;
      SplitOfWord(tok);
    } else {
      assert tok + rest == tok + " " + rest[1..];
      SplitAfterWord(tok, rest[1..]);
    }
  }

  /** The second field of a header shaped `scheme tok…` is `tok`. */
  lemma TokenBetweenFields(scheme: string, tok: string, rest: string)
    requires SpaceFree(scheme) && tok != [] && SpaceFree(tok) && EndsField(rest)
    ensures BearerToken(Some(scheme + " " + tok + rest)) == Some(tok)
  {
    var h := scheme + " " + tok + rest;
    assert h == scheme + " " + (tok + rest);
    SplitAfterWord(scheme, tok + rest);
    FirstPiece(tok, rest);
    var parts := SplitOnSpace(h);
    assert parts[1] == tok;
  }

  /**
   * A header yields `tok` exactly when it is some space-free first word (the
   * scheme, never checked), one space, then `tok`, then nothing or a space.
   */
  lemma BearerTokenShape(h: string, tok: string)
    ensures BearerToken(Some(h)) == Some(tok) <==>
      (tok != [] && SpaceFree(tok) &&
       exists scheme: string, rest: string ::
         SpaceFree(scheme) && EndsField(rest) && h == scheme + " " + tok + rest)
  {
    if BearerToken(Some(h)) == Some(tok) {
      var scheme, rest := FieldsAroundToken(h);
    }
    if tok != [] && SpaceFree(tok) &&
       exists scheme: string, rest: string :: SpaceFree(scheme) && EndsField(rest) && h == scheme + " " + tok + rest
    {
      var scheme: string, rest: string :| SpaceFree(scheme) && EndsField(rest) && h == scheme + " " + tok + rest;
      TokenBetweenFields(scheme, tok, rest);
    }
  }

  /** The scheme word is not looked at. */
  lemma AnySchemeIsAccepted()
    ensures BearerToken(Some("Basic abc")) == Some("abc")
    ensures BearerToken(Some("Bearer abc")) == Some("abc")
  {
    TokenBetweenFields("Basic", "abc", "");
    assert "Basic" + " " + "abc" + "" == "Basic abc";
    TokenBetweenFields("Bearer", "abc", "");
    assert "Bearer" + " " + "abc" + "" == "Bearer abc";
  }

  /** A header without a space, the empty one included, has no token: `"Bearer"`, `""`. */
  lemma NoSpaceNoToken(h: string)
    requires SpaceFree(h)
    ensures BearerToken(Some(h)) == None
  {
    SplitOfWord(h);
  }

  /** An empty second field gives no token: `"Bearer "`, `"Bearer  abc"`. */
  lemma EmptySecondFieldNoToken(scheme: string, rest: string)
    requires SpaceFree(scheme) && EndsField(rest)
    ensures BearerToken(Some(scheme + " " + rest)) == None
  {
    SplitAfterWord(scheme, rest);
    FirstPiece([], rest);
    assert [] + rest == rest;
  }

  // ---------------------------------------------------------------------------
  // verifyToken(req, res, next)
  // ---------------------------------------------------------------------------

  /** The parts of the request the middleware reads and writes. */
  datatype Request = Request(authorization: Option<string>, user: Option<Claims>)

  /** What a call does: answer with a failure (next is not called), or call `next` with the request. */
  datatype Outcome = Refused(failure: Failure) | Next(req: Request)

  /** Exactly one of 401, 403 or `next()`; only the last one sets `req.user`, to the payload. */
  function VerifyTokenOf(req: Request, o: Oracles): (r: Outcome)
    ensures r == Refused(TokenMissing) <==> BearerToken(req.authorization).None?
    ensures r == Refused(TokenInvalid) <==>
              BearerToken(req.authorization).Some? && o.verify(BearerToken(req.authorization).value).None?
    ensures r.Next? <==>
              BearerToken(req.authorization).Some? && o.verify(BearerToken(req.authorization).value).Some?
    ensures r.Refused? ==> r.failure.Status() in {401, 403}
    ensures r.Next? ==>
              r.req == req.(user := o.verify(BearerToken(req.authorization).value)) && r.req.user.Some?
  {
    match BearerToken(req.authorization)
    case None => Refused(TokenMissing)
    case Some(token) =>
      match o.verify(token)
      case None => Refused(TokenInvalid)
      case Some(payload) => Next(req.(user := Some(payload)))
  }

  /**
   * A token the signer issued, sent as `Bearer <token>`, lets the request
   * through with its claims, provided the verifier accepts what the signer
   * produces and the token is a single non-empty field.
   */
  lemma IssuedTokenPasses(o: Oracles, c: Claims, e: Expiry, req: Request)
    requires o.verify(o.sign(c, e)) == Some(c)
    requires o.sign(c, e) != [] && SpaceFree(o.sign(c, e))
    requires req.authorization == Some("Bearer " + o.sign(c, e))
    ensures VerifyTokenOf(req, o) == Next(req.(user := Some(c)))
  {
    var tok := o.sign(c, e);
    TokenBetweenFields("Bearer", tok, "");
    assert "Bearer" + " " + tok + "" == "Bearer " + tok;
  }
}
