/**
 * `authMiddleware`: the bearer token is the second field of the
 * `Authorization` header split on single spaces; a missing or empty token is
 * refused with 401 "No token provided", a token the verifier rejects with
 * 401 "Invalid token", and a verified token sets `req.userId` and calls
 * `next` once. Token verification (signature, expiry) is the parameter
 * `verify`, which yields the payload's `id` or fails.
 */
module AuthMiddleware {
  import opened Common

  const NO_TOKEN: string := "No token provided"
  const INVALID_TOKEN: string := "Invalid token"

  /** `s.split(sep)` for a one-character separator: the maximal runs between separators, empty ones included. */
  function Split(s: string, sep: char): (parts: seq<string>)
    ensures |parts| >= 1
    ensures forall i :: 0 <= i < |parts| ==> sep !in parts[i]
    ensures |parts| == 1 ==> parts[0] == s
    decreases |s|
  {
    if s == [] then [[]]
    else
      var rest := Split(s[1..], sep);
      if s[0] == sep then [[]] + rest
      else [[s[0]] + rest[0]] + rest[1..]
  }

  /** `parts.join(sep)`: the partner of `Split`. */
  function Join(parts: seq<string>, sep: char): (s: string)
    ensures |parts| == 1 ==> s == parts[0]
  {
    if |parts| == 0 then []
    else if |parts| == 1 then parts[0]
    else parts[0] + [sep] + Join(parts[1..], sep)
  }

  /** Joining the fields back with the separator gives the original header. */
  lemma {:induction false} JoinSplit(s: string, sep: char)
    ensures Join(Split(s, sep), sep) == s
    decreases |s|
  {
    if s != [] {
      JoinSplit(s[1..], sep);
      var rest := Split(s[1..], sep);
      if s[0] == sep {
        assert Split(s, sep) == [[]] + rest;
        assert ([[]] + rest)[1..] == rest;
      } else {
        var parts := Split(s, sep);
        assert parts == [[s[0]] + rest[0]] + rest[1..];
        if |rest| == 1 {
          assert parts == [[s[0]] + rest[0]];
        } else {
          assert parts[1..] == rest[1..];
          assert Join(rest, sep) == rest[0] + [sep] + Join(rest[1..], sep);
        }
      }
    }
  }

  /** A text without the separator, followed by more text, splits with that text glued to the first field. */
  lemma {:induction false} SplitPrefix(w: string, x: string, sep: char)
    requires sep !in w
    ensures Split(w + x, sep) == [w + Split(x, sep)[0]] + Split(x, sep)[1..]
    decreases |w|
  {
    if w != [] {
      SplitPrefix(w[1..], x, sep);
      assert (w + x)[1..] == w[1..] + x;
      assert (w + x)[0] == w[0];
      assert [w[0]] + (w[1..] + Split(x, sep)[0]) == w + Split(x, sep)[0];
    } else {
      var parts := Split(x, sep);
      assert w + x == x;
      assert parts == [parts[0]] + parts[1..];
      assert w + parts[0] == parts[0];
    }
  }

  /** Splitting the join of separator-free fields gives those fields back. */
  lemma {:induction false} SplitJoin(parts: seq<string>, sep: char)
    requires |parts| >= 1
    requires forall i :: 0 <= i < |parts| ==> sep !in parts[i]
    ensures Split(Join(parts, sep), sep) == parts
  {
    if |parts| == 1 {
      SplitPrefix(parts[0], [], sep);
      assert parts[0] + [] == parts[0];
    } else {
      var tail := Join(parts[1..], sep);
      SplitJoin(parts[1..], sep);
      assert Join(parts, sep) == parts[0] + ([sep] + tail);
      SplitPrefix(parts[0], [sep] + tail, sep);
      assert ([sep] + tail)[1..] == tail;
      assert Split([sep] + tail, sep) == [[]] + parts[1..];
      assert parts[0] + [] == parts[0];
    }
  }

  /** `authorization?.split(' ')[1]`, kept only when it is truthy (non-empty). */
  function TokenOf(authorization: Option<string>): (token: Option<string>)
    ensures token.Some? ==> token.value != [] && ' ' !in token.value
    ensures authorization.None? ==> token.None?
  {
    match authorization
    case None => None
    case Some(h) =>
      var fields := Split(h, ' ');
      if |fields| >= 2 && fields[1] != [] then Some(fields[1]) else None
  }

  /**
   * Where `token` sits in header `h`: after a first word with no space and
   * one space, and followed by the end of the header or by a space.
   */
  ghost predicate TokenAt(h: string, word: string, token: string, rest: string) {
    h == word + " " + token + rest && ' ' !in word && ' ' !in token && (rest == [] || rest[0] == ' ')
  }

  /** A token is extracted exactly when the header has that layout with a non-empty token; the first word is never checked. */
  lemma TokenOfExactly(h: string, token: string)
    ensures TokenOf(Some(h)) == Some(token) <==>
            token != [] && exists word, rest :: TokenAt(h, word, token, rest)
  {
    var fields := Split(h, ' ');
    if TokenOf(Some(h)) == Some(token) {
      JoinSplit(h, ' ');
      var rest := if |fields| == 2 then [] else [' '] + Join(fields[2..], ' ');
      assert fields[1..][1..] == fields[2..];
      assert h == fields[0] + " " + token + rest;
      assert TokenAt(h, fields[0], token, rest);
    }
    if token != [] && exists word, rest :: TokenAt(h, word, token, rest) {
      var word, rest :| TokenAt(h, word, token, rest);
      TokenAfterWord(h, word, token, rest);
    }
  }

  /** Any header with that layout and a non-empty token yields exactly that token. */
  lemma TokenAfterWord(h: string, word: string, token: string, rest: string)
    requires token != [] && TokenAt(h, word, token, rest)
    ensures TokenOf(Some(h)) == Some(token)
  {
    if rest == [] {
      TokenAtEnd(h, word, token);
    } else {
      TokenBeforeMore(h, word, token, rest);
    }
  }

  lemma TokenAtEnd(h: string, word: string, token: string)
    requires ' ' !in word && ' ' !in token && h == word + " " + token
    ensures Split(h, ' ') == [word, token]
  {
    var parts := [word, token];
    assert parts[1..] == [token];
    assert h == Join(parts, ' ');
    SplitJoin(parts, ' ');
  }

  lemma TokenBeforeMore(h: string, word: string, token: string, rest: string)
    requires ' ' !in word && ' ' !in token && h == word + " " + token + rest && rest != [] && rest[0] == ' '
    ensures |Split(h, ' ')| >= 2 && Split(h, ' ')[1] == token
  {
    var more := Split(rest[1..], ' ');
    var parts := [word, token] + more;
    JoinSplit(rest[1..], ' ');
    assert parts[1..] == [token] + more;
    assert forall i :: 0 <= i < |parts| ==> ' ' !in parts[i];
    assert Join([token] + more, ' ') == token + [' '] + Join(more, ' ');
    assert rest == [' '] + rest[1..];
    assert h == Join(parts, ' ');
    SplitJoin(parts, ' ');
  }

  /** The first word is not checked: any word works, and the token stops at the next space. */
  lemma TokenExamplesFound()
    ensures TokenOf(Some("Bearer abc")) == Some("abc")
    ensures TokenOf(Some("Token abc")) == Some("abc")
    ensures TokenOf(Some("Bearer abc def")) == Some("abc")
  {
    BearerExample();
    OtherSchemeExample();
    TrailingFieldExample();
  }

  lemma BearerExample()
    ensures TokenOf(Some("Bearer abc")) == Some("abc")
  {
    assert TokenAt("Bearer abc", "Bearer", "abc", "");
    TokenAfterWord("Bearer abc", "Bearer", "abc", "");
  }

  lemma OtherSchemeExample()
    ensures TokenOf(Some("Token abc")) == Some("abc")
  {
    assert TokenAt("Token abc", "Token", "abc", "");
    TokenAfterWord("Token abc", "Token", "abc", "");
  }

  lemma TrailingFieldExample()
    ensures TokenOf(Some("Bearer abc def")) == Some("abc")
  {
    assert TokenAt("Bearer abc def", "Bearer", "abc", " def");
    TokenAfterWord("Bearer abc def", "Bearer", "abc", " def");
  }

  /** No space, a trailing space, or two spaces in a row: no token. */
  lemma TokenExamplesRefused()
    ensures TokenOf(Some("Bearer")) == None
    ensures TokenOf(Some("Bearer ")) == None
    ensures TokenOf(Some("Bearer  abc")) == None
  {
    NoSpaceExample();
    TrailingSpaceExample();
    DoubleSpaceExample();
  }

  lemma NoSpaceExample()
    ensures TokenOf(Some("Bearer")) == None
  {
    assert Split("Bearer", ' ') == ["Bearer"] by {
      SplitPrefix("Bearer", [], ' ');
      assert "Bearer" + [] == "Bearer";
    }
  }

  lemma TrailingSpaceExample()
    ensures TokenOf(Some("Bearer ")) == None
  {
    assert Split("Bearer ", ' ')[1] == "" by {
      SplitPrefix("Bearer", " ", ' ');
      assert "Bearer " == "Bearer" + " ";
      assert Split(" ", ' ') == [[]] + Split([], ' ');
    }
  }

  lemma DoubleSpaceExample()
    ensures TokenOf(Some("Bearer  abc")) == None
  {
    assert Split("Bearer  abc", ' ')[1] == "" by {
      SplitPrefix("Bearer", "  abc", ' ');
      assert "Bearer  abc" == "Bearer" + "  abc";
    }
  }

  /** What the middleware decides: continue with a principal, or answer 401 with an error. */
  datatype Verdict = Pass(userId: UserId) | Deny(error: string)

  function Authenticate(authorization: Option<string>, verify: string -> Option<UserId>): (v: Verdict)
    ensures v == Deny(NO_TOKEN) <==> TokenOf(authorization).None?
    ensures v == Deny(INVALID_TOKEN) <==> TokenOf(authorization).Some? && verify(TokenOf(authorization).value).None?
    ensures v.Pass? ==> TokenOf(authorization).Some? && verify(TokenOf(authorization).value) == Some(v.userId)
    ensures TokenOf(authorization).Some? && verify(TokenOf(authorization).value).Some? ==>
              v == Pass(verify(TokenOf(authorization).value).value)
  {
    match TokenOf(authorization)
    case None => Deny(NO_TOKEN)
    case Some(token) =>
      match verify(token)
      case None => Deny(INVALID_TOKEN)
      case Some(id) => Pass(id)
  }

  /** Every token the verifier rejects, whatever the reason, gets the one same answer. */
  lemma RejectionsAreIndistinguishable(h1: string, h2: string, verify: string -> Option<UserId>)
    requires TokenOf(Some(h1)).Some? && verify(TokenOf(Some(h1)).value).None?
    requires TokenOf(Some(h2)).Some? && verify(TokenOf(Some(h2)).value).None?
    ensures Authenticate(Some(h1), verify) == Authenticate(Some(h2), verify) == Deny(INVALID_TOKEN)
  {
  }

  /** The request/response pair as the middleware sees it. */
  class Exchange {
    const authorization: Option<string>
    var userId: Option<UserId>   // req.userId
    var nextCalls: nat           // how many times `next` was called
    var sent: Option<Reply<()>>  // the response, once one is sent

    constructor (authorization: Option<string>)
      ensures this.authorization == authorization
      ensures userId == None && nextCalls == 0 && sent == None
    {
      this.authorization := authorization;
      userId, nextCalls, sent := None, 0, None;
    }
  }

  /** Runs the middleware on one exchange. */
  method Guard(ex: Exchange, verify: string -> Option<UserId>)
    modifies ex
    ensures Authenticate(ex.authorization, verify).Pass? ==>
              ex.userId == Some(Authenticate(ex.authorization, verify).userId) &&
              ex.nextCalls == old(ex.nextCalls) + 1 && ex.sent == old(ex.sent)
    ensures Authenticate(ex.authorization, verify).Deny? ==>
              ex.sent == Some(Failed(UNAUTHORIZED, Authenticate(ex.authorization, verify).error)) &&
              ex.nextCalls == old(ex.nextCalls) && ex.userId == old(ex.userId)
  {
    var token := TokenOf(ex.authorization);
    if token.None? {
      ex.sent := Some(Failed(UNAUTHORIZED, NO_TOKEN));
      return;
    }
    var payload := verify(token.value);
    if payload.None? {
      ex.sent := Some(Failed(UNAUTHORIZED, INVALID_TOKEN));
    } else {
      ex.userId := payload;
      ex.nextCalls := ex.nextCalls + 1;
    }
  }

  /** Any scheme word is accepted: "Token abc" passes with the id the verifier gives "abc", and `next` runs once. */
  method GuardIgnoresScheme() returns (ex: Exchange)
    ensures ex.userId == Some(1) && ex.nextCalls == 1 && ex.sent == None
  {
    ex := new Exchange(Some("Token abc"));
    TokenExamplesFound();
    Guard(ex, (t: string) => if t == "abc" then Some(1) else None);
  }
}
