/**
 * The bearer-token guard in front of the task routes
 * (Backend/src/middleware/authMiddleware.ts): the decision over the
 * Authorization header. Token verification and the user lookup are passed
 * in as functions, each of which either returns or throws.
 */
module AuthMiddleware {
  import opened Wrappers
  import opened TaskModel

  /** A user as the lookup returns it, without its password hash. */
  datatype User = User(id: UserId, name: string, email: string)

  /** The outcome of a call that may throw. */
  datatype Attempt<T> = Returned(value: T) | Threw

  /** A 401 with its message, or `next()` with whatever the lookup put in `req.user`. */
  datatype Outcome = Reject(code: nat, message: string) | Next(user: Option<User>)

  const NoToken: string := "Not authorized, no token"
  const NoTokenFound: string := "Not authorized, no token found"
  const TokenFailed: string := "Not authorized, token failed"

  predicate StartsWith(s: string, prefix: string) {
    |prefix| <= |s| && s[..|prefix|] == prefix
  }

  /** `s.split(sep)`: the pieces between separators, empty ones included. */
  function Split(s: string, sep: char): (parts: seq<string>)
    ensures |parts| >= 1
  {
    if s == [] then [[]]
    else
      var rest := Split(s[1..], sep);
      if s[0] == sep then [[]] + rest else [[s[0]] + rest[0]] + rest[1..]
  }

  /** The pieces put back together with the separator between them. */
  function Join(parts: seq<string>, sep: char): string
    requires |parts| >= 1
  {
    if |parts| == 1 then parts[0] else parts[0] + [sep] + Join(parts[1..], sep)
  }

  /** Splitting loses nothing: joining the pieces gives the string back. */
  lemma {:induction false} SplitJoin(s: string, sep: char)
    ensures Join(Split(s, sep), sep) == s
  {
    if s != [] {
      SplitJoin(s[1..], sep);
      var rest := Split(s[1..], sep);
      if s[0] == sep {
        assert ([[]] + rest)[1..] == rest;
      } else {
        var parts := [[s[0]] + rest[0]] + rest[1..];
        if |rest| > 1 {
          assert parts[1..] == rest[1..];
          assert Join(rest, sep) == rest[0] + [sep] + Join(rest[1..], sep);
        }
        assert s == [s[0]] + s[1..];
      }
    }
  }

  /** No piece contains the separator. */
  lemma {:induction false} SplitPiecesHaveNoSeparator(s: string, sep: char)
    ensures forall p :: p in Split(s, sep) ==> sep !in p
  {
    if s != [] {
      SplitPiecesHaveNoSeparator(s[1..], sep);
      var rest := Split(s[1..], sep);
      assert rest[0] in rest;
      assert forall p :: p in rest[1..] ==> p in rest;
    }
  }

  /** Before the first separator, the first piece is the whole prefix and the rest splits on. */
  lemma {:induction false} SplitAtFirstSeparator(s: string, sep: char, i: nat)
    requires i < |s| && s[i] == sep && sep !in s[..i]
    ensures Split(s, sep) == [s[..i]] + Split(s[i + 1..], sep)
  {
    if i > 0 {
      assert s[1..][..i - 1] == s[1..i];
      assert s[1..][i - 1] == sep;
      SplitAtFirstSeparator(s[1..], sep, i - 1);
      assert s[1..][i..] == s[i + 1..];
      assert s[..i] == [s[0]] + s[1..i];
    }
  }

  /** A string without the separator is one piece. */
  lemma {:induction false} SplitWithoutSeparator(s: string, sep: char)
    requires sep !in s
    ensures Split(s, sep) == [s]
  {
    if s != [] {
      SplitWithoutSeparator(s[1..], sep);
      assert s == [s[0]] + s[1..];
    }
  }

  /** `authorization.split(' ')[1]`: the second piece, if there is one. */
  function SecondField(header: string): Option<string> {
    var parts := Split(header, ' ');
    if |parts| > 1 then Some(parts[1]) else None
  }

  /**
   * The second field is the text after the first space up to the next space
   * or the end of the header; a header without a space has none.
   */
  lemma SecondFieldIsBetweenSpaces(header: string)
    ensures (' ' !in header) <==> SecondField(header).None?
    ensures SecondField(header).Some? ==>
      var t := SecondField(header).value;
      exists i :: 0 <= i < |header| && header[i] == ' ' && ' ' !in header[..i]
        && i + 1 + |t| <= |header| && t == header[i + 1..i + 1 + |t|] && ' ' !in t
        && (i + 1 + |t| == |header| || header[i + 1 + |t|] == ' ')
  {
    if ' ' !in header {
      SplitWithoutSeparator(header, ' ');
    } else {
      var i := FirstSpace(header);
      SplitAtFirstSeparator(header, ' ', i);
      var tail := header[i + 1..];
      var t := Split(tail, ' ')[0];
      assert SecondField(header) == Some(t);
      FirstPiece(tail, ' ');
      assert header[i + 1..i + 1 + |t|] == tail[..|t|];
      assert i + 1 + |t| < |header| ==> header[i + 1 + |t|] == tail[|t|];
    }
  }

  /** The index of the first space of a header that has one. */
  function FirstSpace(s: string): (i: nat)
    requires ' ' in s
    ensures i < |s| && s[i] == ' ' && ' ' !in s[..i]
  {
    if s[0] == ' ' then 0
    else
      var j := FirstSpace(s[1..]);
      assert s[..j + 1] == [s[0]] + s[1..][..j];
      j + 1
  }

  /** The first piece is the prefix up to the first separator or the end. */
  lemma {:induction false} FirstPiece(s: string, sep: char)
    ensures var t := Split(s, sep)[0];
      |t| <= |s| && t == s[..|t|] && sep !in t && (|t| == |s| || s[|t|] == sep)
  {
    if s != [] {
      FirstPiece(s[1..], sep);
      var rest := Split(s[1..], sep);
      if s[0] == sep {
        assert Split(s, sep)[0] == [];
      } else {
        var t := [s[0]] + rest[0];
        assert Split(s, sep)[0] == t;
        assert s == [s[0]] + s[1..];
        assert t == s[..|t|];
      }
    }
  }

  /**
   * `protect`: a header that is absent or does not start with "Bearer" is a
   * 401 "no token"; one without a non-empty second field is a 401 "no token
   * found"; a verification or lookup that throws is a 401 "token failed";
   * otherwise `next()` runs with the looked-up user, found or not.
   */
  function Protect(
    header: Option<string>,
    verify: string -> Attempt<UserId>,
    findUser: UserId -> Attempt<Option<User>>): (o: Outcome)
    ensures o.Reject? ==> o.code == 401
    ensures o == Reject(401, NoToken) <==> header.None? || !StartsWith(header.value, "Bearer")
    ensures o == Reject(401, NoTokenFound) <==>
      header.Some? && StartsWith(header.value, "Bearer")
      && (SecondField(header.value).None? || SecondField(header.value).value == "")
    ensures o.Next? <==>
      header.Some? && StartsWith(header.value, "Bearer")
      && SecondField(header.value).Some? && SecondField(header.value).value != ""
      && verify(SecondField(header.value).value).Returned?
      && findUser(verify(SecondField(header.value).value).value).Returned?
    ensures o == Reject(401, TokenFailed) <==>
      header.Some? && StartsWith(header.value, "Bearer")
      && SecondField(header.value).Some? && SecondField(header.value).value != ""
      && (verify(SecondField(header.value).value).Threw?
          || findUser(verify(SecondField(header.value).value).value).Threw?)
    ensures o.Next? ==>
      o.user == findUser(verify(SecondField(header.value).value).value).value
  {
    if header.Some? && header.value != "" && StartsWith(header.value, "Bearer") then
      var token := SecondField(header.value);
      if token.None? || token.value == "" then Reject(401, NoTokenFound)
      else
        match verify(token.value)
        case Threw => Reject(401, TokenFailed)
        case Returned(id) =>
          match findUser(id)
          case Threw => Reject(401, TokenFailed)
          case Returned(user) => Next(user)
    else Reject(401, NoToken)
  }

  /** The text after the first space, up to the next space or the end, is the second field. */
  lemma SecondFieldOf(p: string, t: string, rest: string)
    requires ' ' !in p && ' ' !in t
    requires rest == [] || rest[0] == ' '
    ensures SecondField(p + [' '] + t + rest) == Some(t)
  {
    var h := p + [' '] + t + rest;
    assert h[..|p|] == p && h[|p|] == ' ';
    SplitAtFirstSeparator(h, ' ', |p|);
    var tail := h[|p| + 1..];
    assert tail == t + rest;
    if rest == [] {
      assert tail == t;
      SplitWithoutSeparator(t, ' ');
    } else {
      assert tail[..|t|] == t && tail[|t|] == ' ';
      SplitAtFirstSeparator(tail, ' ', |t|);
    }
  }

  /**
   * A header that starts with "Bearer" but has no space, such as "Bearer"
   * itself or "Bearerxyz", carries no token.
   */
  lemma BearerWithoutSpaceHasNoToken(
    h: string, verify: string -> Attempt<UserId>, findUser: UserId -> Attempt<Option<User>>)
    requires StartsWith(h, "Bearer") && ' ' !in h
    ensures Protect(Some(h), verify, findUser) == Reject(401, NoTokenFound)
  {
    SplitWithoutSeparator(h, ' ');
  }

  /**
   * A space right after the first field, then the end or another space, as in
   * "Bearer " or "Bearer  abc", leaves an empty token.
   */
  lemma EmptySecondFieldHasNoToken(
    p: string, rest: string, verify: string -> Attempt<UserId>, findUser: UserId -> Attempt<Option<User>>)
    requires StartsWith(p, "Bearer") && ' ' !in p
    requires rest == [] || rest[0] == ' '
    ensures Protect(Some(p + [' '] + rest), verify, findUser) == Reject(401, NoTokenFound)
  {
    SecondFieldOf(p, [], rest);
    assert p + [' '] + [] + rest == p + [' '] + rest;
    assert (p + [' '] + rest)[..6] == p[..6];
  }

  /**
   * The prefix check does not ask for the space: "Bearerxyz abc" hands "abc"
   * to verification just as "Bearer abc" does.
   */
  lemma AnyBearerPrefixYieldsToken(
    p: string, t: string, verify: string -> Attempt<UserId>, findUser: UserId -> Attempt<Option<User>>)
    requires StartsWith(p, "Bearer") && ' ' !in p
    requires t != [] && ' ' !in t
    ensures var o := Protect(Some(p + [' '] + t), verify, findUser);
      && (verify(t).Threw? ==> o == Reject(401, TokenFailed))
      && (verify(t).Returned? && findUser(verify(t).value).Returned? ==>
            o == Next(findUser(verify(t).value).value))
  {
    SecondFieldOf(p, t, []);
    assert p + [' '] + t + [] == p + [' '] + t;
    assert (p + [' '] + t)[..6] == p[..6];
  }
}
