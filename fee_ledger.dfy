/** The fee routes: a ledger of fee documents with the handlers that create,
    update, settle and delete them, and the read views (all fees, the due and
    upcoming selections, one fee, its receipt). Each handler is one atomic
    step; `now` is the clock reading the handler takes. */
module FeeLedger {
  import opened Common
  import opened Store
  import opened DayMonthYear
  import opened FeeModel
  import opened StudentModel
  import opened Credentials

  /** A request body for create or update; None and Unset are fields left out. */
  datatype FeeBody = FeeBody(
    studentId: Option<string>,
    feeType: Option<string>,
    amount: Option<int>,
    dueDate: DateField,
    status: Option<FeeStatus>,
    paidDate: DateField,
    paidAmount: Option<int>,
    paymentMethod: Option<string>,
    addedBy: Option<Id>,
    updatedBy: Option<Id>)

  const EmptyBody: FeeBody :=
    FeeBody(None, None, None, Unset, None, Unset, None, None, None, None)

  /** The body of a payment request. */
  datatype Payment = Payment(paidAmount: Option<int>, paymentMethod: Option<string>)

  datatype Listing = Listing(count: nat, data: seq<Fee>)

  /** The confirmation a deletion answers with. */
  datatype Deletion = Deletion(studentLabel: string, id: Id, feeType: string, amount: int)

  datatype Receipt = Receipt(
    fee: Fee,
    student: Option<Student>,
    receiptNumber: string,
    generatedAt: Instant,
    generatedBy: Option<string>)

  const DefaultPaymentMethod: string := "Cash"
  const UnknownStudent: string := "Unknown Student"

  // ---------------------------------------------------------------------------
  // Dates

  /** The stored date once a request's date field is rewritten and cast: a
      field left out keeps `current`, a date is kept, the empty string clears
      it and a DD-MM-YYYY string becomes the date built from its parts. */
  function DateAfterSet(current: Option<Instant>, raw: DateField, construct: DateParts -> Instant)
    : (d: Option<Instant>)
    requires !NormaliseField(raw, construct).InvalidDate?
    ensures raw.Unset? ==> d == current
    ensures raw.At? ==> d == Some(raw.t)
    ensures raw.Text? && raw.s == "" ==> d == None
    ensures raw.Text? && raw.s != "" ==> d == Some(construct(ParseDayMonthYear(raw.s).value))
  {
    var f := NormaliseField(raw, construct);
    if f.Unset? then current else CastDate(f).value
  }

  // ---------------------------------------------------------------------------
  // Create

  /** The document `new Fee({ ...body, addedBy: actor })` becomes once both dates
      are converted, or the validation error that rejects it. The schema is
      taken to require studentId, feeType, amount and dueDate and to default
      status to pending. */
  function NewFee(body: FeeBody, id: Id, actor: Option<Id>, now: Instant, construct: DateParts -> Instant)
    : (r: Outcome<Fee>)
    ensures r.Ok? || r == Err(BadRequest)
    ensures r.Ok? <==> && body.studentId.Some? && CastObjectId(body.studentId.value).Some?
                       && Given(body.feeType) && body.amount.Some?
                       && NormaliseField(body.dueDate, construct).At?
                       && !NormaliseField(body.paidDate, construct).InvalidDate?
                       && RefCasts(body.updatedBy)
    ensures !RefCasts(body.updatedBy) ==> r.Err?
    ensures body.studentId.None? || !Given(body.feeType) || body.amount.None? || body.dueDate.Unset? ==> r.Err?
    ensures body.dueDate.Text? && ParseDayMonthYear(body.dueDate.s).None? ==> r.Err?
    ensures body.paidDate.Text? && body.paidDate.s != "" && ParseDayMonthYear(body.paidDate.s).None? ==> r.Err?
    ensures r.Ok? ==> && r.value.id == id
                      && r.value.addedBy == actor
                      && r.value.updatedBy == CastRef(body.updatedBy)
                      && Some(r.value.studentId) == CastObjectId(body.studentId.value)
                      && r.value.feeType == body.feeType.value
                      && r.value.amount == body.amount.value
                      && r.value.status == body.status.GetOr(Pending)
                      && r.value.createdAt == now && r.value.updatedAt == now
                      && r.value.dueDate == DateAfterSet(None, body.dueDate, construct)
                      && r.value.dueDate.Some?
                      && r.value.paidDate == DateAfterSet(None, body.paidDate, construct)
                      && r.value.paidAmount == body.paidAmount
                      && r.value.paymentMethod == body.paymentMethod
  {
    var due := NormaliseField(body.dueDate, construct);
    var paid := NormaliseField(body.paidDate, construct);
    if body.studentId.None? || CastObjectId(body.studentId.value).None? then Err(BadRequest)
    else if !Given(body.feeType) || body.amount.None? then Err(BadRequest)
    else if CastDate(due).Err? || CastDate(paid).Err? then Err(BadRequest)
    else if CastDate(due).value.None? then Err(BadRequest)
    else if !RefCasts(body.updatedBy) then Err(BadRequest)
    else Ok(Fee(
      id, CastObjectId(body.studentId.value).value, body.feeType.value, body.amount.value,
      CastDate(due).value, body.status.GetOr(Pending), CastDate(paid).value,
      body.paidAmount, body.paymentMethod, actor, CastRef(body.updatedBy), now, now))
  }

  /** Whatever `addedBy` the client sends, the document records the acting admin. */
  lemma NewFeeIgnoresClientAddedBy(body: FeeBody, forged: Option<Id>, id: Id, actor: Option<Id>,
                                   now: Instant, construct: DateParts -> Instant)
    ensures NewFee(body.(addedBy := forged), id, actor, now, construct) == NewFee(body, id, actor, now, construct)
  {
  }

  /** A client-sent `updatedBy` that is no ObjectId fails the save. */
  lemma ForgedUpdatedByRefused(body: FeeBody, id: Id, actor: Option<Id>, now: Instant,
                               construct: DateParts -> Instant)
    requires body.updatedBy == Some("not-an-id")
    ensures NewFee(body, id, actor, now, construct) == Err(BadRequest)
  {
    assert !IsObjectIdText("not-an-id");
  }

  // ---------------------------------------------------------------------------
  // Mark paid

  /** A number in a body counts only when truthy: present and not 0. */
  predicate Truthy(n: Option<int>) {
    n.Some? && n.value != 0
  }

  /** The checks of the payment handler, in order: a token that names an admin,
      an id of 24 hex digits, an existing fee, a fee not yet paid. On success,
      the key of the fee to settle. */
  function PayCheck(fees: map<Id, Fee>, claims: Claims, rawId: string): (r: Outcome<Id>)
    ensures !Given(claims.id) ==> r == Err(Unauthorized)
    ensures Given(claims.id) && !IsObjectIdText(rawId) ==> r == Err(BadRequest)
    ensures Given(claims.id) && IsObjectIdText(rawId) && Lower(rawId) !in fees ==> r == Err(NotFound)
    ensures Given(claims.id) && IsObjectIdText(rawId) && Lower(rawId) in fees && fees[Lower(rawId)].status == Paid
            ==> r == Err(BadRequest)
    ensures r.Ok? <==> && Given(claims.id) && IsObjectIdText(rawId) && Lower(rawId) in fees
                       && fees[Lower(rawId)].status != Paid
    ensures r.Ok? ==> r.value == Lower(rawId)
  {
    if !Given(claims.id) then Err(Unauthorized)
    else match CastObjectId(rawId)
      case None => Err(BadRequest)
      case Some(id) =>
        if id !in fees then Err(NotFound)
        else if fees[id].status == Paid then Err(BadRequest)
        else Ok(id)
  }

  /** The fee after the payment write: paid now by `actor`, for the amount sent
      or else the fee's own amount, by the method sent or else cash; every other
      field as it was. */
  function Settle(f: Fee, payment: Payment, actor: Id, now: Instant): (g: Fee)
    ensures g.status == Paid && g.paidDate == Some(now)
    ensures g.paidAmount == Some(if Truthy(payment.paidAmount) then payment.paidAmount.value else f.amount)
    ensures g.paymentMethod == Some(if Given(payment.paymentMethod) then payment.paymentMethod.value
                                    else DefaultPaymentMethod)
    ensures g.updatedBy == Some(actor) && g.updatedAt == now
    ensures g.(status := f.status, paidDate := f.paidDate, paidAmount := f.paidAmount,
               paymentMethod := f.paymentMethod, updatedBy := f.updatedBy, updatedAt := f.updatedAt) == f
  {
    f.(status := Paid,
       paidDate := Some(now),
       paidAmount := Some(if Truthy(payment.paidAmount) then payment.paidAmount.value else f.amount),
       paymentMethod := Some(if Given(payment.paymentMethod) then payment.paymentMethod.value
                             else DefaultPaymentMethod),
       updatedBy := Some(actor),
       updatedAt := now)
  }

  /** Paying is not idempotent: once a payment went through, the same request
      is refused as already paid. */
  lemma {:induction false} PayTwiceRefused(fees: map<Id, Fee>, claims: Claims, rawId: string,
                                           payment: Payment, now: Instant)
    requires PayCheck(fees, claims, rawId).Ok?
    ensures var id := PayCheck(fees, claims, rawId).value;
            PayCheck(fees[id := Settle(fees[id], payment, claims.id.value, now)], claims, rawId) == Err(BadRequest)
  {
    var id := PayCheck(fees, claims, rawId).value;
    var g := Settle(fees[id], payment, claims.id.value, now);
    assert fees[id := g][Lower(rawId)] == g;
  }

  /** A settled fee is neither due nor upcoming at any time. */
  lemma SettledLeavesViews(f: Fee, payment: Payment, actor: Id, now: Instant, later: Instant)
    ensures !IsDue(Settle(f, payment, actor, now), later)
    ensures !IsUpcoming(Settle(f, payment, actor, now), later)
  {
  }

  // ---------------------------------------------------------------------------
  // Update

  /** The patch casts cleanly: a student id and an `addedBy` that are ObjectIds
      (when given) and no date that converted to an Invalid Date. */
  predicate PatchCasts(patch: FeeBody, construct: DateParts -> Instant) {
    && (patch.studentId.None? || CastObjectId(patch.studentId.value).Some?)
    && RefCasts(patch.addedBy)
    && !NormaliseField(patch.dueDate, construct).InvalidDate?
    && !NormaliseField(patch.paidDate, construct).InvalidDate?
  }


  /** The fee after `findByIdAndUpdate(id, { ...patch, updatedBy: actor,
      updatedAt: now })`: each field the patch carries replaces the stored one
      (no validators run), and the attribution is always the server's. */
  function Patched(f: Fee, patch: FeeBody, actor: Option<Id>, now: Instant, construct: DateParts -> Instant)
    : (g: Fee)
    requires PatchCasts(patch, construct)
    ensures g.id == f.id && g.createdAt == f.createdAt
    ensures g.updatedBy == actor && g.updatedAt == now
    ensures g.addedBy == (if patch.addedBy.Some? then CastRef(patch.addedBy) else f.addedBy)
    ensures patch.studentId.None? ==> g.studentId == f.studentId
    ensures patch.studentId.Some? ==> Some(g.studentId) == CastObjectId(patch.studentId.value)
    ensures g.feeType == patch.feeType.GetOr(f.feeType)
    ensures g.amount == patch.amount.GetOr(f.amount)
    ensures g.status == patch.status.GetOr(f.status)
    ensures g.dueDate == DateAfterSet(f.dueDate, patch.dueDate, construct)
    ensures g.paidDate == DateAfterSet(f.paidDate, patch.paidDate, construct)
    ensures g.paidAmount == (if patch.paidAmount.Some? then patch.paidAmount else f.paidAmount)
    ensures g.paymentMethod == (if patch.paymentMethod.Some? then patch.paymentMethod else f.paymentMethod)
  {
    f.(studentId := if patch.studentId.Some? then CastObjectId(patch.studentId.value).value else f.studentId,
       feeType := patch.feeType.GetOr(f.feeType),
       amount := patch.amount.GetOr(f.amount),
       dueDate := DateAfterSet(f.dueDate, patch.dueDate, construct),
       status := patch.status.GetOr(f.status),
       paidDate := DateAfterSet(f.paidDate, patch.paidDate, construct),
       paidAmount := if patch.paidAmount.Some? then patch.paidAmount else f.paidAmount,
       paymentMethod := if patch.paymentMethod.Some? then patch.paymentMethod else f.paymentMethod,
       addedBy := if patch.addedBy.Some? then CastRef(patch.addedBy) else f.addedBy,
       updatedBy := actor,
       updatedAt := now)
  }

  /** The `updatedBy` a client puts in the patch has no effect. */
  lemma PatchIgnoresClientUpdatedBy(f: Fee, patch: FeeBody, forged: Option<Id>, actor: Option<Id>,
                                    now: Instant, construct: DateParts -> Instant)
    requires PatchCasts(patch, construct)
    ensures Patched(f, patch.(updatedBy := forged), actor, now, construct) == Patched(f, patch, actor, now, construct)
  {
  }

  /** An empty patch changes nothing but the attribution. */
  lemma EmptyPatchOnlyStamps(f: Fee, actor: Option<Id>, now: Instant, construct: DateParts -> Instant)
    ensures PatchCasts(EmptyBody, construct)
    ensures Patched(f, EmptyBody, actor, now, construct) == f.(updatedBy := actor, updatedAt := now)
  {
  }

  // ---------------------------------------------------------------------------
  // Views

  /** The `due` query: pending or overdue, and due no later than now. */
  predicate IsDue(f: Fee, now: Instant) {
    (f.status == Pending || f.status == Overdue) && f.dueDate.Some? && f.dueDate.value <= now
  }

  /** The `upcoming` query: pending and due within the coming seven days. */
  predicate IsUpcoming(f: Fee, now: Instant) {
    f.status == Pending && f.dueDate.Some? && now <= f.dueDate.value <= now + WeekMs
  }

  /** The last six characters of a string, or all of it when it is shorter. */
  function Last6(s: string): (r: string)
    ensures |r| == if |s| >= 6 then 6 else |s|
  {
    if |s| >= 6 then s[|s| - 6..] else s
  }

  /** `FMS-` followed by the last six characters of the id in upper case. */
  function ReceiptNumber(id: string): (r: string)
    ensures |r| == 4 + |Last6(id)|
    ensures |id| >= 6 ==> |r| == 10
    ensures r[..4] == "FMS-"
    ensures r[4..] == Upper(Last6(id))
  {
    "FMS-" + Upper(Last6(id))
  }

  /** Receipt numbers are not unique: two ids that end alike share one. */
  lemma ReceiptNumbersCollide(a: string, b: string)
    requires |a| >= 6 && |b| >= 6 && a[|a| - 6..] == b[|b| - 6..]
    ensures ReceiptNumber(a) == ReceiptNumber(b)
  {
  }

  /** For stored ids the receipt number is equal exactly when the last six hex
      digits are. */
  lemma {:induction false} ReceiptNumberIdentifiesSuffix(a: Id, b: Id)
    requires IsCanonicalId(a) && IsCanonicalId(b)
    ensures ReceiptNumber(a) == ReceiptNumber(b) <==> a[18..] == b[18..]
  {
    var sa, sb := Last6(a), Last6(b);
    assert sa == a[18..] && sb == b[18..];
    assert forall i | 0 <= i < |sa| :: IsLowerHexDigit(sa[i]) by {
      forall i | 0 <= i < |sa| ensures IsLowerHexDigit(sa[i]) { assert sa[i] == a[18 + i]; }
    }
    assert forall i | 0 <= i < |sb| :: IsLowerHexDigit(sb[i]) by {
      forall i | 0 <= i < |sb| ensures IsLowerHexDigit(sb[i]) { assert sb[i] == b[18 + i]; }
    }
    UpperInjectiveOnLowerHex(sa, sb);
    if ReceiptNumber(a) == ReceiptNumber(b) {
      assert Upper(sa) == ReceiptNumber(a)[4..] == ReceiptNumber(b)[4..] == Upper(sb);
    }
  }

  /** The student name a deletion reports: `fee.studentId?.name || 'Unknown Student'`. */
  function StudentLabel(students: map<Id, Student>, sid: Id): (r: string)
    ensures sid in students && students[sid].name != "" ==> r == students[sid].name
    ensures sid !in students ==> r == UnknownStudent
    ensures sid in students && students[sid].name == "" ==> r == UnknownStudent
  {
    if sid in students && students[sid].name != "" then students[sid].name else UnknownStudent
  }

  // ---------------------------------------------------------------------------
  // The ledger

  class Ledger {
    var fees: map<Id, Fee>
    /** The natural order of the collection. */
    var order: seq<Id>

    ghost predicate Valid()
      reads this
    {
      && Indexes(order, fees)
      && (forall k | k in fees :: IsCanonicalId(k) && fees[k].id == k)
    }

    constructor ()
      ensures Valid() && fees == map[] && order == []
    {
      fees := map[];
      order := [];
    }

    /** The collection in natural order. */
    function Docs(): (r: seq<Fee>)
      reads this
      requires Valid()
      ensures |r| == |fees|
      ensures forall f :: f in r <==> f in fees.Values
      ensures Distinct(r)
    {
      ValuesCover(order, fees);
      IndexesCard(order, fees);
      var r := Values(order, fees);
      assert Distinct(r) by {
        forall i, j | 0 <= i < j < |r| ensures r[i] != r[j] {
          assert r[i].id == order[i] && r[j].id == order[j];
        }
      }
      r
    }

    /** GET `/`: every fee, newest first, with its count. */
    function List(): (r: Listing)
      reads this
      requires Valid()
      ensures r.count == |r.data| == |fees|
      ensures forall f :: f in r.data <==> f in fees.Values
      ensures Distinct(r.data)
      ensures SortedDesc(r.data, (f: Fee) => f.createdAt)
    {
      var data := SortDesc(Docs(), (f: Fee) => f.createdAt);
      SortDescMembers(Docs(), (f: Fee) => f.createdAt);
      Listing(|data|, data)
    }

    /** GET `/due`. */
    function Due(now: Instant): (r: seq<Fee>)
      reads this
      requires Valid()
      ensures forall f :: f in r <==> f in fees.Values && IsDue(f, now)
      ensures Distinct(r)
      ensures forall i | 0 <= i < |r| :: r[i].dueDate.Some? && r[i].dueDate.value <= now
    {
      Filter(Docs(), (f: Fee) => IsDue(f, now))
    }

    /** GET `/upcoming`. */
    function Upcoming(now: Instant): (r: seq<Fee>)
      reads this
      requires Valid()
      ensures forall f :: f in r <==> f in fees.Values && IsUpcoming(f, now)
      ensures Distinct(r)
      ensures forall i | 0 <= i < |r| :: r[i].status == Pending
      ensures forall i | 0 <= i < |r| :: r[i].dueDate.Some? && now <= r[i].dueDate.value <= now + WeekMs
    {
      Filter(Docs(), (f: Fee) => IsUpcoming(f, now))
    }

    /** GET `/:id`: a malformed id makes the lookup throw (500). */
    function Get(rawId: string): (r: Outcome<Fee>)
      reads this
      requires Valid()
      ensures CastObjectId(rawId).None? ==> r == Err(ServerError)
      ensures CastObjectId(rawId).Some? && CastObjectId(rawId).value !in fees ==> r == Err(NotFound)
      ensures r.Ok? <==> CastObjectId(rawId).Some? && CastObjectId(rawId).value in fees
      ensures r.Ok? ==> r.value == fees[CastObjectId(rawId).value] && r.value.id == Lower(rawId)
    {
      match CastObjectId(rawId)
      case None => Err(ServerError)
      case Some(id) => if id in fees then Ok(fees[id]) else Err(NotFound)
    }

    /** GET `/:id/receipt`: the fee, its student (None when the reference
        dangles), the receipt number, the time and the `email` claim of the
        caller's token. */
    function ReceiptFor(rawId: string, now: Instant, claims: Claims, students: map<Id, Student>)
      : (r: Outcome<Receipt>)
      reads this
      requires Valid()
      ensures r.Err? <==> Get(rawId).Err?
      ensures r.Err? ==> r.failure == Get(rawId).failure
      ensures r.Ok? ==> && r.value.fee == Get(rawId).value
                        && |r.value.receiptNumber| == 10
                        && r.value.receiptNumber == ReceiptNumber(r.value.fee.id)
                        && r.value.generatedAt == now
                        && r.value.generatedBy == claims.email
                        && (r.value.student.Some? <==> r.value.fee.studentId in students)
                        && (r.value.student.Some? ==> r.value.student.value == students[r.value.fee.studentId])
    {
      match Get(rawId)
      case Err(e) => Err(e)
      case Ok(f) =>
        var student := if f.studentId in students then Some(students[f.studentId]) else None;
        Ok(Receipt(f, student, ReceiptNumber(f.id), now, claims.email))
    }

    /** POST `/`. The fee is saved before its student is looked up for the
        reply, so a dangling `studentId` answers 400 although the fee was stored. */
    method Create(body: FeeBody, claims: Claims, newId: Id, now: Instant,
                  construct: DateParts -> Instant, students: map<Id, Student>)
      returns (res: Outcome<Fee>)
      requires Valid() && IsCanonicalId(newId)
      modifies this
      ensures Valid()
      ensures var made := NewFee(body, newId, claims.id, now, construct);
        made.Err? || newId in old(fees) ==> res == Err(BadRequest) && fees == old(fees) && order == old(order)
      ensures var made := NewFee(body, newId, claims.id, now, construct);
        made.Ok? && newId !in old(fees) ==>
          && fees == old(fees)[newId := made.value]
          && order == old(order) + [newId]
          && res == (if made.value.studentId in students then Ok(made.value) else Err(BadRequest))
    {
      var made := NewFee(body, newId, claims.id, now, construct);
      if made.Err? {
        return Err(BadRequest);
      }
      if newId in fees {
        // the duplicate key error of the insert
        return Err(BadRequest);
      }
      IndexesInsert(order, fees, newId, made.value);
      fees := fees[newId := made.value];
      order := order + [newId];
      if made.value.studentId in students {
        res := Ok(made.value);
      } else {
        res := Err(BadRequest);
      }
    }

    /** PUT `/:id`. A malformed id or patch (a student id, `addedBy` or date that
        does not cast) answers 400, a missing fee 404; like
        create, a dangling student answers 400 after the write. */
    method Update(rawId: string, patch: FeeBody, claims: Claims, now: Instant,
                  construct: DateParts -> Instant, students: map<Id, Student>)
      returns (res: Outcome<Fee>)
      requires Valid()
      modifies this
      ensures Valid()
      ensures CastObjectId(rawId).None? || !PatchCasts(patch, construct) ==>
                res == Err(BadRequest) && fees == old(fees) && order == old(order)
      ensures CastObjectId(rawId).Some? && PatchCasts(patch, construct) && CastObjectId(rawId).value !in old(fees) ==>
                res == Err(NotFound) && fees == old(fees) && order == old(order)
      ensures CastObjectId(rawId).Some? && PatchCasts(patch, construct) && CastObjectId(rawId).value in old(fees) ==>
                var id := CastObjectId(rawId).value;
                var g := Patched(old(fees)[id], patch, claims.id, now, construct);
                && fees == old(fees)[id := g]
                && order == old(order)
                && res == (if g.studentId in students then Ok(g) else Err(BadRequest))
    {
      var cast := CastObjectId(rawId);
      if cast.None? || !PatchCasts(patch, construct) {
        return Err(BadRequest);
      }
      var id := cast.value;
      if id !in fees {
        return Err(NotFound);
      }
      var g := Patched(fees[id], patch, claims.id, now, construct);
      fees := fees[id := g];
      if g.studentId in students {
        res := Ok(g);
      } else {
        res := Err(BadRequest);
      }
    }

    /** PUT `/:id/pay`. Every refusal leaves the ledger as it was; a success
        rewrites exactly the settled fee. */
    method MarkPaid(rawId: string, claims: Claims, payment: Payment, now: Instant)
      returns (res: Outcome<Fee>)
      requires Valid()
      modifies this
      ensures Valid()
      ensures PayCheck(old(fees), claims, rawId).Err? ==>
                && res == Err(PayCheck(old(fees), claims, rawId).failure)
                && fees == old(fees) && order == old(order)
      ensures PayCheck(old(fees), claims, rawId).Ok? ==>
                var id := PayCheck(old(fees), claims, rawId).value;
                var g := Settle(old(fees)[id], payment, claims.id.value, now);
                && res == Ok(g)
                && fees == old(fees)[id := g]
                && order == old(order)
    {
      var check := PayCheck(fees, claims, rawId);
      if check.Err? {
        return Err(check.failure);
      }
      var id := check.value;
      var g := Settle(fees[id], payment, claims.id.value, now);
      fees := fees[id := g];
      res := Ok(g);
    }

    /** DELETE `/:id`: the reply names the fee's student, or the placeholder
        when the reference dangles. */
    method Delete(rawId: string, students: map<Id, Student>) returns (res: Outcome<Deletion>)
      requires Valid()
      modifies this
      ensures Valid()
      ensures CastObjectId(rawId).None? ==> res == Err(ServerError) && fees == old(fees) && order == old(order)
      ensures CastObjectId(rawId).Some? && CastObjectId(rawId).value !in old(fees) ==>
                res == Err(NotFound) && fees == old(fees) && order == old(order)
      ensures CastObjectId(rawId).Some? && CastObjectId(rawId).value in old(fees) ==>
                var id := CastObjectId(rawId).value;
                var f := old(fees)[id];
                && fees == old(fees) - {id}
                && order == Remove(old(order), id)
                && res == Ok(Deletion(StudentLabel(students, f.studentId), id, f.feeType, f.amount))
    {
      var cast := CastObjectId(rawId);
      if cast.None? {
        return Err(ServerError);
      }
      var id := cast.value;
      if id !in fees {
        return Err(NotFound);
      }
      var f := fees[id];
      IndexesRemove(order, fees, id);
      fees := fees - {id};
      order := Remove(order, id);
      res := Ok(Deletion(StudentLabel(students, f.studentId), id, f.feeType, f.amount));
    }
  }

  /** The tokens issued at login carry no `email` claim, so a receipt made under
      one names no generator. */
  lemma LoginReceiptHasNoGenerator(ledger: Ledger, rawId: string, id: Id, issued: Instant,
                                   now: Instant, students: map<Id, Student>)
    requires ledger.Valid() && Verify(Sign(id, issued), now).Some?
    ensures var r := ledger.ReceiptFor(rawId, now, Verify(Sign(id, issued), now).value, students);
            r.Ok? ==> r.value.generatedBy.None?
  {
  }
}
