/** Values shared by every component: optional values, the HTTP error classes the
    handlers answer with, document identifiers and the few string operations
    (ASCII case mapping, JavaScript's `trim`) the routes apply to their inputs. */
module Common {

  /** A document identifier. The ids the store assigns and prints satisfy
      `IsCanonicalId` (24 lower-case hex digits); an id that arrives in a
      request body or a token is any text until it is cast. */
  type Id = string

  /** A point on an abstract, totally ordered timeline, in milliseconds. */
  type Instant = int

  const DayMs: int := 86_400_000
  const WeekMs: int := 7 * DayMs

  datatype Option<+T> = None | Some(value: T) {
    function GetOr(default: T): T {
      match this
      case Some(v) => v
      case None => default
    }
  }

  /** The error classes a handler answers with: 400, 401, 404 and 500. */
  datatype Failure = BadRequest | Unauthorized | NotFound | ServerError

  /** What a handler answers: its data, or one error class. */
  datatype Outcome<+T> = Ok(value: T) | Err(failure: Failure)

  /** A string field that passes a schema's `required` check (and is truthy):
      present and not empty. */
  predicate Given(s: Option<string>) {
    s.Some? && s.value != ""
  }

  // ---------------------------------------------------------------------------
  // Object identifiers

  predicate IsHexDigit(c: char) {
    '0' <= c <= '9' || 'a' <= c <= 'f' || 'A' <= c <= 'F'
  }

  predicate IsLowerHexDigit(c: char) {
    '0' <= c <= '9' || 'a' <= c <= 'f'
  }

  /** The pattern `^[0-9a-fA-F]{24}$` that a path id must match to be an ObjectId. */
  predicate IsObjectIdText(s: string) {
    |s| == 24 && forall i | 0 <= i < |s| :: IsHexDigit(s[i])
  }

  /** An identifier in the form the store keeps and prints. */
  predicate IsCanonicalId(s: string) {
    |s| == 24 && forall i | 0 <= i < |s| :: IsLowerHexDigit(s[i])
  }

  /** The cast a lookup applies to a path id: text that matches the ObjectId
      pattern names the document whose printed id is its lower-case form; any
      other text makes the lookup throw. */
  function CastObjectId(raw: string): (r: Option<Id>)
    ensures r.Some? <==> IsObjectIdText(raw)
    ensures r.Some? ==> IsCanonicalId(r.value) && r.value == Lower(raw)
  {
    if IsObjectIdText(raw) then Some(Lower(raw)) else None
  }

  /** An optional reference field of a request body casts: it is absent, or
      text the ObjectId cast accepts. */
  predicate RefCasts(x: Option<string>) {
    x.None? || CastObjectId(x.value).Some?
  }

  /** The stored form of a reference field that casts: absent stays absent,
      and an id is kept lower-cased. */
  function CastRef(x: Option<string>): (r: Option<Id>)
    requires RefCasts(x)
    ensures r.Some? <==> x.Some?
    ensures r.Some? ==> IsCanonicalId(r.value) && r.value == Lower(x.value)
  {
    if x.None? then None else CastObjectId(x.value)
  }

  lemma CanonicalIdCastsToItself(id: Id)
    requires IsCanonicalId(id)
    ensures CastObjectId(id) == Some(id)
  {
    assert Lower(id) == id by {
      forall i | 0 <= i < |id| ensures Lower(id)[i] == id[i] {
        assert IsLowerHexDigit(id[i]);
      }
    }
  }

  // ---------------------------------------------------------------------------
  // ASCII case mapping

  function LowerChar(c: char): char {
    if 'A' <= c <= 'Z' then (c as int + 32) as char else c
  }

  function UpperChar(c: char): char {
    if 'a' <= c <= 'z' then (c as int - 32) as char else c
  }

  function Lower(s: string): (r: string)
    ensures |r| == |s|
    ensures forall i | 0 <= i < |s| :: r[i] == LowerChar(s[i])
  {
    seq(|s|, i requires 0 <= i < |s| => LowerChar(s[i]))
  }

  function Upper(s: string): (r: string)
    ensures |r| == |s|
    ensures forall i | 0 <= i < |s| :: r[i] == UpperChar(s[i])
  {
    seq(|s|, i requires 0 <= i < |s| => UpperChar(s[i]))
  }

  lemma LowerIdempotent(s: string)
    ensures Lower(Lower(s)) == Lower(s)
  {
  }

  /** Upper-casing loses nothing on the characters of a printed identifier. */
  lemma UpperInjectiveOnLowerHex(a: string, b: string)
    requires forall i | 0 <= i < |a| :: IsLowerHexDigit(a[i])
    requires forall i | 0 <= i < |b| :: IsLowerHexDigit(b[i])
    ensures Upper(a) == Upper(b) <==> a == b
  {
    if Upper(a) == Upper(b) {
      assert |a| == |b|;
      forall i | 0 <= i < |a| ensures a[i] == b[i] {
        assert UpperChar(a[i]) == Upper(a)[i] == Upper(b)[i] == UpperChar(b[i]);
      }
    }
  }

  // ---------------------------------------------------------------------------
  // JavaScript `String.prototype.trim`

  /** The white-space and line-terminator characters `trim` removes (the
      Unicode space separators beyond U+00A0 are not modelled). */
  predicate IsSpace(c: char) {
    c == ' ' || c == '\t' || c == '\n' || c == '\r' || c == '\U{0B}' || c == '\U{0C}'
    || c == '\U{A0}' || c == '\U{2028}' || c == '\U{2029}' || c == '\U{FEFF}'
  }

  /** Neither the first nor the last character is white space. */
  predicate NoEdgeSpace(s: string) {
    s == [] || (!IsSpace(s[0]) && !IsSpace(s[|s| - 1]))
  }

  function TrimStart(s: string): (r: string)
    ensures r == [] || !IsSpace(r[0])
  {
    if s != [] && IsSpace(s[0]) then TrimStart(s[1..]) else s
  }

  /** `TrimStart` keeps a suffix of `s` and cuts off only white space. */
  lemma {:induction false} TrimStartCuts(s: string)
    ensures var r := TrimStart(s);
            |r| <= |s| && r == s[|s| - |r|..] && forall k | 0 <= k < |s| - |r| :: IsSpace(s[k])
  {
    if s != [] && IsSpace(s[0]) {
      TrimStartCuts(s[1..]);
      var r := TrimStart(s);
      assert s[1..][|s| - 1 - |r|..] == s[|s| - |r|..];
      forall k | 0 <= k < |s| - |r| ensures IsSpace(s[k]) {
        if k > 0 {
          assert s[k] == s[1..][k - 1];
        }
      }
    }
  }

  function TrimEnd(s: string): (r: string)
    ensures r == [] || !IsSpace(r[|r| - 1])
    ensures |r| <= |s| && (r != [] ==> r[0] == s[0])
  {
    if s != [] && IsSpace(s[|s| - 1]) then TrimEnd(s[..|s| - 1]) else s
  }

  /** `TrimEnd` keeps a prefix of `s` and cuts off only white space. */
  lemma {:induction false} TrimEndCuts(s: string)
    ensures var r := TrimEnd(s);
            |r| <= |s| && r == s[..|r|] && forall k | |r| <= k < |s| :: IsSpace(s[k])
  {
    if s != [] && IsSpace(s[|s| - 1]) {
      TrimEndCuts(s[..|s| - 1]);
      var r := TrimEnd(s);
      assert s[..|s| - 1][..|r|] == s[..|r|];
      forall k | |r| <= k < |s| ensures IsSpace(s[k]) {
        if k < |s| - 1 {
          assert s[k] == s[..|s| - 1][k];
        }
      }
    }
  }

  predicate AllSpace(s: string) {
    forall k | 0 <= k < |s| :: IsSpace(s[k])
  }

  /** `trim()`: `s` without its leading and trailing white space, that is, the
      middle piece of `s` whose two cut-off ends are all white space. */
  function Trim(s: string): (r: string)
    ensures NoEdgeSpace(r)
    ensures exists i, j | 0 <= i <= j <= |s| :: r == s[i..j] && AllSpace(s[..i]) && AllSpace(s[j..])
  {
    TrimStartCuts(s);
    TrimEndCuts(TrimStart(s));
    TrimCutsEdges(s, TrimStart(s), TrimEnd(TrimStart(s)));
    TrimEnd(TrimStart(s))
  }

  /** Cutting white space off the front of `s` (giving `t`) and then off the
      back of `t` (giving `r`) leaves a middle piece of `s`. */
  lemma TrimCutsEdges(s: string, t: string, r: string)
    requires |t| <= |s| && t == s[|s| - |t|..] && forall k | 0 <= k < |s| - |t| :: IsSpace(s[k])
    requires |r| <= |t| && r == t[..|r|] && forall k | |r| <= k < |t| :: IsSpace(t[k])
    ensures exists i, j | 0 <= i <= j <= |s| :: r == s[i..j] && AllSpace(s[..i]) && AllSpace(s[j..])
  {
    var i := |s| - |t|;
    var j := i + |r|;
    assert t[..|r|] == s[i..j];
    assert AllSpace(s[..i]) by {
      forall k | 0 <= k < i ensures IsSpace(s[..i][k]) {
        assert s[..i][k] == s[k];
      }
    }
    assert AllSpace(s[j..]) by {
      forall k | 0 <= k < |s| - j ensures IsSpace(s[j..][k]) {
        assert s[j..][k] == s[j + k] == t[j + k - i];
      }
    }
  }

  /** Trimming text that neither starts nor ends with white space changes nothing. */
  lemma {:induction false} TrimOfTrimmed(s: string)
    requires NoEdgeSpace(s)
    ensures Trim(s) == s
  {
    assert TrimStart(s) == s;
    assert TrimEnd(s) == s;
  }

  lemma TrimIdempotent(s: string)
    ensures Trim(Trim(s)) == Trim(s)
  {
    TrimOfTrimmed(Trim(s));
  }

  /** `email.trim().toLowerCase()`, the normalisation applied to every email
      before lookup or insert. */
  function NormaliseEmail(s: string): (r: string)
    ensures NoEdgeSpace(r)
    ensures |r| == |Trim(s)|
    ensures forall i | 0 <= i < |r| :: !('A' <= r[i] <= 'Z')
    ensures forall i | 0 <= i < |r| :: r[i] == LowerChar(Trim(s)[i])
  {
    LowerKeepsNoEdgeSpace(Trim(s));
    Lower(Trim(s))
  }

  lemma LowerKeepsNoEdgeSpace(t: string)
    requires NoEdgeSpace(t)
    ensures NoEdgeSpace(Lower(t))
  {
    if t != [] {
      var n := Lower(t);
      assert n[0] == LowerChar(t[0]);
      assert n[|n| - 1] == LowerChar(t[|t| - 1]);
    }
  }

  /** Normalising again changes nothing, so the schema's own `trim` and
      `lowercase` options leave an already normalised email as it is. */
  lemma {:induction false} NormaliseEmailIdempotent(s: string)
    ensures NormaliseEmail(NormaliseEmail(s)) == NormaliseEmail(s)
  {
    var t := Trim(s);
    LowerKeepsNoEdgeSpace(t);
    TrimOfTrimmed(Lower(t));
    LowerIdempotent(t);
  }

  /** Text that normalisation leaves as it is: no white space at either end and
      no upper-case letter. */
  predicate IsNormalisedEmail(s: string) {
    NoEdgeSpace(s) && forall i | 0 <= i < |s| :: !('A' <= s[i] <= 'Z')
  }

  lemma {:induction false} NormalisedEmailIsFixed(s: string)
    ensures IsNormalisedEmail(s) <==> NormaliseEmail(s) == s
  {
    if IsNormalisedEmail(s) {
      TrimOfTrimmed(s);
      assert Lower(s) == s;
    }
  }
}
