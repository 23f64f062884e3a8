/** The account routes: admins keyed by their normalised email, with account
    creation, login and password change over the abstract digest and token of
    module Credentials. */
module AdminRegistry {
  import opened Common
  import opened Credentials

  datatype Admin = Admin(id: Id, email: string, password: Digest, createdAt: Instant, updatedAt: Instant)

  /** A successful login: the token and the admin it names. */
  datatype Session = Session(token: Token, id: Id, email: string)

  /** A success that carries no data. */
  datatype Done = Done

  /** `req.body.email?.trim().toLowerCase()`: None when the body has no email. */
  function EmailKey(email: Option<string>): (r: Option<string>)
    ensures r.Some? <==> email.Some?
    ensures r.Some? ==> r.value == NormaliseEmail(email.value)
  {
    match email
    case None => None
    case Some(e) => Some(NormaliseEmail(e))
  }

  /** Two spellings of an email that normalise alike name the same account. */
  lemma {:induction false} EmailKeyOfNormalised(e: string)
    ensures EmailKey(Some(NormaliseEmail(e))) == EmailKey(Some(e))
  {
    NormaliseEmailIdempotent(e);
  }

  predicate HasId(admins: map<string, Admin>, k: Id) {
    exists e | e in admins :: admins[e].id == k
  }

  /** POST `/login`: a missing email or password is 400; an unknown email and a
      wrong password are the same 401; otherwise a token for the admin's id. */
  function Login(admins: map<string, Admin>, email: Option<string>, password: Option<string>, now: Instant)
    : (r: Outcome<Session>)
    ensures !Given(EmailKey(email)) || !Given(password) ==> r == Err(BadRequest)
    ensures Given(EmailKey(email)) && Given(password) ==>
              var key := EmailKey(email).value;
              && (r.Ok? <==> key in admins && Matches(password.value, admins[key].password))
              && (r.Err? ==> r == Err(Unauthorized))
    ensures r.Ok? ==> var key := EmailKey(email).value;
              && key in admins
              && r.value == Session(Sign(admins[key].id, now), admins[key].id, admins[key].email)
  {
    var key := EmailKey(email);
    if !Given(key) || !Given(password) then Err(BadRequest)
    else if key.value !in admins then Err(Unauthorized)
    else
      var a := admins[key.value];
      if !Matches(password.value, a.password) then Err(Unauthorized)
      else Ok(Session(Sign(a.id, now), a.id, a.email))
  }

  /** A caller cannot tell an unknown email from a wrong password. */
  lemma UnknownEmailLikeWrongPassword(admins: map<string, Admin>, unknown: string, known: string,
                                      p: string, q: string, now: Instant)
    requires NormaliseEmail(unknown) != "" && NormaliseEmail(unknown) !in admins
    requires NormaliseEmail(known) != "" && NormaliseEmail(known) in admins && !Matches(q, admins[NormaliseEmail(known)].password)
    requires p != "" && q != ""
    ensures Login(admins, Some(unknown), Some(p), now) == Login(admins, Some(known), Some(q), now)
  {
  }

  /** The token a login hands out names the admin for exactly 24 hours. */
  lemma {:induction false} SessionLifetime(admins: map<string, Admin>, email: Option<string>,
                                           password: Option<string>, issued: Instant, now: Instant)
    requires Login(admins, email, password, issued).Ok?
    ensures var s := Login(admins, email, password, issued).value;
            && (Verify(s.token, now).Some? <==> now < issued + DayMs)
            && (Verify(s.token, now).Some? ==> Verify(s.token, now).value.id == Some(s.id))
  {
    var s := Login(admins, email, password, issued).value;
    SignedTokenLifetime(s.id, issued, now);
  }

  /** `password` matches the digest of the admin with id `k`. */
  predicate CurrentMatches(admins: map<string, Admin>, k: Id, password: string) {
    forall e | e in admins && admins[e].id == k :: Matches(password, admins[e].password)
  }

  /** The guards of PUT `/change-password`, in order: a bearer token (401); a
      token that verifies, else `jwt.verify` throws (500); an admin with the
      token's id (404, or 500 when the id is no ObjectId); both passwords
      given (400); the current one correct (400); a new one that differs
      (400). On success, the admin's id. */
  function ChangeCheck(admins: map<string, Admin>, token: Option<Token>, current: Option<string>,
                       next: Option<string>, now: Instant): (r: Outcome<Id>)
    ensures token.None? ==> r == Err(Unauthorized)
    ensures token.Some? && Verify(token.value, now).None? ==> r == Err(ServerError)
    ensures token.Some? && Verify(token.value, now).Some? ==>
              var id := Verify(token.value, now).value.id;
              && (id.None? ==> r == Err(NotFound))
              && (id.Some? && CastObjectId(id.value).None? ==> r == Err(ServerError))
              && (id.Some? && CastObjectId(id.value).Some? ==>
                    var k := CastObjectId(id.value).value;
                    && (!HasId(admins, k) ==> r == Err(NotFound))
                    && (HasId(admins, k) && (!Given(current) || !Given(next)) ==> r == Err(BadRequest))
                    && (HasId(admins, k) && Given(current) && Given(next) ==>
                          && (r.Ok? <==> CurrentMatches(admins, k, current.value) && current != next)
                          && (r.Err? ==> r == Err(BadRequest)))
                    && (r.Ok? ==> r.value == k))
  {
    if token.None? then Err(Unauthorized)
    else match Verify(token.value, now)
      case None => Err(ServerError)
      case Some(claims) =>
        if claims.id.None? then Err(NotFound)
        else match CastObjectId(claims.id.value)
          case None => Err(ServerError)
          case Some(k) =>
            if !HasId(admins, k) then Err(NotFound)
            else if !Given(current) || !Given(next) then Err(BadRequest)
            else if !CurrentMatches(admins, k, current.value) then Err(BadRequest)
            else if current == next then Err(BadRequest)
            else Ok(k)
  }

  /** What a passing check establishes: both passwords given and different,
      the current one correct, and an admin with the returned id. */
  lemma ChangeCheckPassed(admins: map<string, Admin>, token: Option<Token>, current: Option<string>,
                          next: Option<string>, now: Instant)
    requires ChangeCheck(admins, token, current, next, now).Ok?
    ensures var k := ChangeCheck(admins, token, current, next, now).value;
            && HasId(admins, k) && Given(current) && Given(next) && current.value != next.value
            && CurrentMatches(admins, k, current.value)
  {
  }

  /** Every key is a normalised, non-empty email equal to its record's, and
      ids are unique (by `NormalisedEmailIsFixed`, a key is its own
      `NormaliseEmail`). */
  ghost predicate WellKeyed(admins: map<string, Admin>) {
    && (forall e | e in admins :: && e != "" && IsNormalisedEmail(e) && admins[e].email == e
                                  && IsCanonicalId(admins[e].id))
    && (forall a, b | a in admins && b in admins :: admins[a].id == admins[b].id ==> a == b)
  }

  /** After a passing check, replacing the digest of the admin `e` with the id
      it returned keeps the store well keyed, is the one change whichever key
      with that id is named, and leaves that admin matching the new password
      and not the old one. */
  lemma DigestReplaced(admins: map<string, Admin>, token: Option<Token>, current: Option<string>,
                       next: Option<string>, now: Instant, e: string)
    requires WellKeyed(admins)
    requires ChangeCheck(admins, token, current, next, now).Ok?
    requires e in admins && admins[e].id == ChangeCheck(admins, token, current, next, now).value
    ensures Given(next)
    ensures var k := ChangeCheck(admins, token, current, next, now).value;
            var after := admins[e := admins[e].(password := Hash(next.value), updatedAt := now)];
            && WellKeyed(after)
            && (forall x | x in admins && admins[x].id == k ::
                  after == admins[x := admins[x].(password := Hash(next.value), updatedAt := now)])
            && (forall x | x in after && after[x].id == k ::
                  Matches(next.value, after[x].password) && !Matches(current.value, after[x].password))
  {
    ChangeCheckPassed(admins, token, current, next, now);
    var after := admins[e := admins[e].(password := Hash(next.value), updatedAt := now)];
    assert forall x | x in after :: after[x].email == admins[x].email && after[x].id == admins[x].id;
    MatchesOnlyItsPassword(next.value, current.value);
  }

  class Admins {
    var admins: map<string, Admin>

    ghost predicate Valid()
      reads this
    {
      WellKeyed(admins)
    }

    constructor ()
      ensures Valid() && admins == map[]
    {
      admins := map[];
    }

    /** POST `/create`: a missing email or password, or an email already
        registered, is 400 with no change; an id already in use fails the insert
        (500); otherwise exactly one admin is added, with the digest of its
        password. */
    method Create(email: Option<string>, password: Option<string>, newId: Id, now: Instant)
      returns (res: Outcome<Done>)
      requires Valid() && IsCanonicalId(newId)
      modifies this
      ensures Valid()
      ensures !Given(EmailKey(email)) || !Given(password) ==> res == Err(BadRequest) && admins == old(admins)
      ensures Given(EmailKey(email)) && Given(password) && EmailKey(email).value in old(admins) ==>
                res == Err(BadRequest) && admins == old(admins)
      ensures (Given(EmailKey(email)) && Given(password) && EmailKey(email).value !in old(admins)
               && HasId(old(admins), newId)) ==> res == Err(ServerError) && admins == old(admins)
      ensures (Given(EmailKey(email)) && Given(password) && EmailKey(email).value !in old(admins)
               && !HasId(old(admins), newId)) ==>
                var key := EmailKey(email).value;
                && res == Ok(Done)
                && admins == old(admins)[key := Admin(newId, key, Hash(password.value), now, now)]
                && |admins| == |old(admins)| + 1
    {
      var key := EmailKey(email);
      if !Given(key) || !Given(password) {
        return Err(BadRequest);
      }
      if key.value in admins {
        return Err(BadRequest);
      }
      if HasId(admins, newId) {
        // the duplicate key error of the insert
        return Err(ServerError);
      }
      admins := admins[key.value := Admin(newId, key.value, Hash(password.value), now, now)];
      res := Ok(Done);
    }

    /** PUT `/change-password`: every refusal leaves the store as it was; a
        success replaces that admin's digest (and `updatedAt`) and nothing else. */
    method ChangePassword(token: Option<Token>, current: Option<string>, next: Option<string>, now: Instant)
      returns (res: Outcome<Done>)
      requires Valid()
      modifies this
      ensures Valid()
      ensures ChangeCheck(old(admins), token, current, next, now).Err? ==>
                && res == Err(ChangeCheck(old(admins), token, current, next, now).failure)
                && admins == old(admins)
      ensures ChangeCheck(old(admins), token, current, next, now).Ok? ==>
                var k := ChangeCheck(old(admins), token, current, next, now).value;
                && res == Ok(Done)
                && forall e | e in old(admins) && old(admins)[e].id == k ::
                     admins == old(admins)[e := old(admins)[e].(password := Hash(next.value), updatedAt := now)]
      ensures ChangeCheck(old(admins), token, current, next, now).Ok? ==>
                var k := ChangeCheck(old(admins), token, current, next, now).value;
                forall e | e in admins && admins[e].id == k ::
                  Matches(next.value, admins[e].password) && !Matches(current.value, admins[e].password)
    {
      var check := ChangeCheck(admins, token, current, next, now);
      if check.Err? {
        return Err(check.failure);
      }
      var k := check.value;
      ChangeCheckPassed(admins, token, current, next, now);
      var e :| e in admins && admins[e].id == k;
      DigestReplaced(admins, token, current, next, now, e);
      admins := admins[e := admins[e].(password := Hash(next.value), updatedAt := now)];
      res := Ok(Done);
    }
  }

  /** An account made with some spelling of an email can log in with any other
      spelling that normalises alike, and with its password. */
  lemma {:induction false} CreatedAdminCanLogIn(admins: map<string, Admin>, email: string, other: string,
                                                password: string, id: Id, at: Instant, now: Instant)
    requires NormaliseEmail(email) != "" && password != ""
    requires NormaliseEmail(other) == NormaliseEmail(email)
    ensures var key := NormaliseEmail(email);
            Login(admins[key := Admin(id, key, Hash(password), at, at)], Some(other), Some(password), now).Ok?
  {
  }
}
