/** The two request guards of the back end: the token check, which reads a
    token from the `Authorization` header and verifies it, and the role
    check, which admits the roles a route lists. Token verification
    (signature and expiry) is a parameter: a function from token text to
    the claims it carries, or to nothing when the token is not valid. */
module Auth {
  import opened Common

  // ---------------------------------------------------------------------
  // Splitting text at a separator

  /** `s.split(c)`: the pieces of `s` between occurrences of `c`, empty
      pieces included; a text without `c` is one piece. */
  function Split(s: string, c: char): (parts: seq<string>)
    ensures |parts| >= 1
    decreases |s|
  {
    if s == [] then [""]
    else
      var prefix := s[..|s| - 1];
      var x := s[|s| - 1];
      var r := Split(prefix, c);
      if x == c then r + [""] else ExtendLast(r, x)
  }

  /** The pieces with `x` added to the end of the last one. */
  function ExtendLast(parts: seq<string>, x: char): (r: seq<string>)
    requires |parts| >= 1
    ensures |r| == |parts|
  {
    parts[..|parts| - 1] + [parts[|parts| - 1] + [x]]
  }

  /** No piece contains the separator. */
  lemma {:induction false} SplitPiecesFree(s: string, c: char)
    ensures forall i :: 0 <= i < |Split(s, c)| ==> c !in Split(s, c)[i]
    decreases |s|
  {
    if s != [] {
      SplitPiecesFree(s[..|s| - 1], c);
    }
  }

  /** `parts.join(c)`. */
  function Join(parts: seq<string>, c: char): string
    requires |parts| >= 1
    decreases |parts|
  {
    if |parts| == 1 then parts[0]
    else parts[0] + [c] + Join(parts[1..], c)
  }

  /** A text without the separator is a single piece. */
  lemma {:induction false} SplitWhole(s: string, c: char)
    requires c !in s
    ensures Split(s, c) == [s]
    decreases |s|
  {
    if s != [] {
      var prefix := s[..|s| - 1];
      var x := s[|s| - 1];
      assert s == prefix + [x];
      assert c !in prefix && x != c;
      SplitWhole(prefix, c);
      assert Split(s, c) == ExtendLast([prefix], x);
      assert [prefix][..0] == [];
    }
  }

  /** One more character that is not the separator extends the last piece. */
  lemma SplitStep(s: string, x: char, c: char)
    requires x != c
    ensures Split(s + [x], c) == ExtendLast(Split(s, c), x)
  {
    assert (s + [x])[..|s + [x]| - 1] == s;
  }

  /** One more separator starts a new, empty piece. */
  lemma SplitSep(s: string, c: char)
    ensures Split(s + [c], c) == Split(s, c) + [""]
  {
    assert (s + [c])[..|s + [c]| - 1] == s;
  }

  /** The step of `SplitAt` for a last character that is not the separator. */
  lemma SplitAtStep(a: string, b': string, x: char, c: char)
    requires x != c
    requires Split(a + [c] + b', c) == Split(a, c) + Split(b', c)
    ensures Split(a + [c] + (b' + [x]), c) == Split(a, c) + Split(b' + [x], c)
  {
    assert a + [c] + (b' + [x]) == (a + [c] + b') + [x];
    SplitStep(a + [c] + b', x, c);
    SplitStep(b', x, c);
    ExtendLastOfConcat(Split(a, c), Split(b', c), x);
  }

  /** The step of `SplitAt` for a last character that is the separator. */
  lemma SplitAtSep(a: string, b': string, c: char)
    requires Split(a + [c] + b', c) == Split(a, c) + Split(b', c)
    ensures Split(a + [c] + (b' + [c]), c) == Split(a, c) + Split(b' + [c], c)
  {
    assert a + [c] + (b' + [c]) == (a + [c] + b') + [c];
    SplitSep(a + [c] + b', c);
    SplitSep(b', c);
  }

  /** Extending the last piece of a concatenation extends the last piece
      of its second part. */
  lemma ExtendLastOfConcat(ra: seq<string>, rb: seq<string>, x: char)
    requires |rb| >= 1
    ensures ExtendLast(ra + rb, x) == ra + ExtendLast(rb, x)
  {
    var r := ra + rb;
    assert r[..|r| - 1] == ra + rb[..|rb| - 1];
  }

  /** Splitting at an occurrence of the separator splits the two sides
      apart. */
  lemma {:induction false} SplitAt(a: string, b: string, c: char)
    ensures Split(a + [c] + b, c) == Split(a, c) + Split(b, c)
    decreases |b|
  {
    if b == [] {
      SplitSep(a, c);
      assert a + [c] + b == a + [c];
    } else {
      var b' := b[..|b| - 1];
      var x := b[|b| - 1];
      assert b == b' + [x];
      SplitAt(a, b', c);
      if x == c {
        SplitAtSep(a, b', c);
      } else {
        SplitAtStep(a, b', x, c);
      }
    }
  }

  /** Splitting undoes joining pieces that do not contain the separator. */
  lemma {:induction false} SplitJoin(parts: seq<string>, c: char)
    requires |parts| >= 1
    requires forall i :: 0 <= i < |parts| ==> c !in parts[i]
    ensures Split(Join(parts, c), c) == parts
    decreases |parts|
  {
    SplitWhole(parts[0], c);
    if |parts| > 1 {
      SplitJoin(parts[1..], c);
      SplitAt(parts[0], Join(parts[1..], c), c);
      assert parts == [parts[0]] + parts[1..];
    }
  }

  /** Joining an extended last piece extends the joined text. */
  lemma {:induction false} JoinExtendLast(parts: seq<string>, x: char, c: char)
    requires |parts| >= 1
    ensures Join(ExtendLast(parts, x), c) == Join(parts, c) + [x]
    decreases |parts|
  {
    if |parts| > 1 {
      var tail := parts[1..];
      JoinExtendLast(tail, x, c);
      assert ExtendLast(parts, x)[1..] == ExtendLast(tail, x);
    }
  }

  /** Joining with one more empty piece adds one separator. */
  lemma {:induction false} JoinEmptyLast(parts: seq<string>, c: char)
    requires |parts| >= 1
    ensures Join(parts + [""], c) == Join(parts, c) + [c]
    decreases |parts|
  {
    var q := parts + [""];
    if |parts| == 1 {
      assert q[1..] == [""];
    } else {
      JoinEmptyLast(parts[1..], c);
      assert q[1..] == parts[1..] + [""];
    }
  }

  /** Joining the pieces gives back the text that was split. */
  lemma {:induction false} JoinSplit(s: string, c: char)
    ensures Join(Split(s, c), c) == s
    decreases |s|
  {
    if s != [] {
      var prefix := s[..|s| - 1];
      var x := s[|s| - 1];
      JoinSplit(prefix, c);
      if x == c {
        JoinEmptyLast(Split(prefix, c), c);
      } else {
        JoinExtendLast(Split(prefix, c), x, c);
      }
      assert prefix + [x] == s;
    }
  }

  // ---------------------------------------------------------------------
  // The token check

  /** The claims a valid token carries, as the login handler signs them.
      The role is absent from a token signed without one. */
  datatype Claims = Claims(id: int, username: string, role: Option<string>, nama: string)

  /** The outcome of a guard: the request goes on to the next handler with
      the user attached, or is answered with an error. */
  datatype Gate = Next(user: Claims) | Reject(status: int, message: string)

  const NoToken: string := "Akses ditolak! Token tidak ditemukan."
  const BadToken: string := "Token tidak valid!"
  const Forbidden: string := "Akses ditolak! Anda tidak memiliki izin."

  /** The token of the `Authorization` header: its second space-separated
      piece, when the header is present and that piece exists and is not
      empty. The first piece, the scheme, is not looked at. */
  function BearerToken(header: Option<string>): (r: Option<string>)
    ensures r.Some? ==> r.value != "" && ' ' !in r.value
    ensures header.None? ==> r.None?
  {
    if header.None? || header.value == "" then None
    else
      var parts := Split(header.value, ' ');
      if |parts| < 2 || parts[1] == "" then None
      else
        SplitPiecesFree(header.value, ' ');
        Some(parts[1])
  }

  /** The header is `scheme token`, possibly followed by a space and more. */
  predicate HeaderForm(header: string, scheme: string, token: string, rest: string) {
    && ' ' !in scheme && ' ' !in token && token != ""
    && (rest == [] || rest[0] == ' ')
    && header == scheme + " " + token + rest
  }

  /** A header `scheme token`, possibly followed by a space and more, has
      the token `token`, whatever the scheme says. */
  lemma BearerTokenOf(h: string, scheme: string, token: string, rest: string)
    requires HeaderForm(h, scheme, token, rest)
    ensures BearerToken(Some(h)) == Some(token)
  {
    var parts := HeadPieces(h, scheme, token, rest);
    assert h != "";
  }

  /** The pieces of a header of that form start with the scheme and the token. */
  lemma HeadPieces(h: string, scheme: string, token: string, rest: string) returns (parts: seq<string>)
    requires HeaderForm(h, scheme, token, rest)
    ensures parts == Split(h, ' ') && |parts| >= 2 && parts[1] == token
  {
    var head := scheme + [' '] + token;
    SplitWhole(scheme, ' ');
    SplitWhole(token, ' ');
    SplitAt(scheme, token, ' ');
    assert Split(head, ' ') == [scheme, token];
    if rest == [] {
      assert h == head;
    } else {
      SplitAt(head, rest[1..], ' ');
      assert h == head + [' '] + rest[1..];
    }
    parts := Split(h, ' ');
  }

  /** A header without a space carries no token. */
  lemma NoSpaceNoToken(header: string)
    requires ' ' !in header
    ensures BearerToken(Some(header)).None?
  {
    SplitWhole(header, ' ');
  }

  /** Every token found is one of the form `BearerTokenOf` describes. */
  lemma BearerTokenForm(header: Option<string>)
    requires BearerToken(header).Some?
    ensures exists scheme, rest :: HeaderForm(header.value, scheme, BearerToken(header).value, rest)
  {
    var h := header.value;
    var parts := Split(h, ' ');
    JoinSplit(h, ' ');
    SplitPiecesFree(h, ' ');
    var rest := JoinFrom(parts, ' ');
    assert HeaderForm(h, parts[0], parts[1], rest);
  }

  /** The text joined from at least two pieces is the first piece, the
      separator, the second piece, and then the separator and the others
      when there are more. */
  lemma JoinFrom(parts: seq<string>, c: char) returns (rest: string)
    requires |parts| >= 2
    ensures rest == [] || rest[0] == c
    ensures Join(parts, c) == parts[0] + [c] + parts[1] + rest
  {
    var tail := parts[1..];
    if |parts| == 2 {
      rest := [];
    } else {
      rest := [c] + Join(parts[2..], c);
      assert tail[1..] == parts[2..];
    }
  }

  /** `authToken`: a request without a token is refused with 401, one whose
      token does not verify with 403; otherwise it goes on with the
      token's claims attached. */
  function AuthToken(header: Option<string>, verify: string -> Option<Claims>): (r: Gate)
    ensures BearerToken(header).None? <==> r == Reject(401, NoToken)
    ensures BearerToken(header).Some? && verify(BearerToken(header).value).None? ==> r == Reject(403, BadToken)
    ensures r.Next? <==> BearerToken(header).Some? && verify(BearerToken(header).value).Some?
    ensures r.Next? ==> r.user == verify(BearerToken(header).value).value
  {
    match BearerToken(header)
    case None => Reject(401, NoToken)
    case Some(token) =>
      match verify(token)
      case None => Reject(403, BadToken)
      case Some(claims) => Next(claims)
  }

  // ---------------------------------------------------------------------
  // The role check

  /** The role lists the routes use. */
  const AdminOnly: seq<string> := ["ADMIN"]
  const Staff: seq<string> := ["ADMIN", "KASIR"]

  /** `authRole(allowed)`: the request goes on when a user is attached and
      the user's role is one of `allowed`; otherwise it is refused with 403. */
  function AuthRole(user: Option<Claims>, allowed: seq<string>): (r: Gate)
    ensures r.Next? <==> user.Some? && user.value.role.Some? && user.value.role.value in allowed
    ensures r.Next? ==> r.user == user.value
    ensures r.Reject? ==> r == Reject(403, Forbidden)
  {
    if user.None? || user.value.role.None? || user.value.role.value !in allowed then Reject(403, Forbidden)
    else Next(user.value)
  }

  /** Both guards in the order the routes install them. */
  function Guard(header: Option<string>, verify: string -> Option<Claims>, allowed: seq<string>): Gate {
    match AuthToken(header, verify)
    case Reject(status, message) => Reject(status, message)
    case Next(user) => AuthRole(Some(user), allowed)
  }

  /** A request reaches a handler exactly when its header carries a token
      that verifies to claims whose role the route allows. */
  lemma GuardAdmits(header: Option<string>, verify: string -> Option<Claims>, allowed: seq<string>)
    ensures Guard(header, verify, allowed).Next? <==>
      && BearerToken(header).Some?
      && verify(BearerToken(header).value).Some?
      && verify(BearerToken(header).value).value.role.Some?
      && verify(BearerToken(header).value).value.role.value in allowed
  {
  }

  /** A cashier's token passes the guards of the staff routes and is
      refused with 403 on the admin-only routes. */
  lemma KasirOnlyStaffRoutes(header: Option<string>, verify: string -> Option<Claims>)
    requires AuthToken(header, verify).Next? && AuthToken(header, verify).user.role == Some("KASIR")
    ensures Guard(header, verify, Staff).Next?
    ensures Guard(header, verify, AdminOnly) == Reject(403, Forbidden)
  {
    assert "KASIR" != "ADMIN";
  }
}
