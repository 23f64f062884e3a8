/** The student routes: a registry of student records, unique by roll number,
    with the active-only listing, lookup, insert, update, the per-student fee
    listing and a delete that leaves the fee ledger alone. */
module StudentRegistry {
  import opened Common
  import opened Store
  import opened FeeModel
  import opened StudentModel
  import opened Credentials
  import opened FeeLedger

  datatype Roster = Roster(count: nat, data: seq<Student>)

  /** The reply of `/:id/fees`: the student and its fees, newest first. */
  datatype StudentFees = StudentFees(student: Student, fees: seq<Fee>)

  /** The confirmation a deletion answers with. */
  datatype Removal = Removal(id: Id, name: string, rollNumber: string)

  /** Some record other than `except` already holds roll number `roll`. */
  predicate RollTaken(students: map<Id, Student>, roll: string, except: Id) {
    exists k | k in students :: k != except && students[k].rollNumber == roll
  }

  /** No two records share a roll number (the unique index on `rollNumber`). */
  ghost predicate RollsUnique(students: map<Id, Student>) {
    forall a, b | a in students && b in students :: students[a].rollNumber == students[b].rollNumber ==> a == b
  }

  /** The record after `findByIdAndUpdate(id, patch)`: each field the patch
      carries replaces the stored one, with no validation beyond the cast of
      the `addedBy` reference. */
  function Amended(s: Student, p: StudentBody): (t: Student)
    requires RefCasts(p.addedBy)
    ensures t.id == s.id
    ensures t.name == p.name.GetOr(s.name)
    ensures t.rollNumber == p.rollNumber.GetOr(s.rollNumber)
    ensures t.className == p.className.GetOr(s.className)
    ensures t.section == (if p.section.Some? then p.section else s.section)
    ensures t.phone == p.phone.GetOr(s.phone)
    ensures t.email == (if p.email.Some? then p.email else s.email)
    ensures t.address == (if p.address.Some? then p.address else s.address)
    ensures t.parentName == p.parentName.GetOr(s.parentName)
    ensures t.parentPhone == p.parentPhone.GetOr(s.parentPhone)
    ensures t.admissionDate == p.admissionDate.GetOr(s.admissionDate)
    ensures t.totalFee == p.totalFee.GetOr(s.totalFee)
    ensures t.feeType == p.feeType.GetOr(s.feeType)
    ensures t.isActive == p.isActive.GetOr(s.isActive)
    ensures p.addedBy.None? ==> t.addedBy == s.addedBy
    ensures p.addedBy.Some? ==> t.addedBy == Lower(p.addedBy.value) && IsCanonicalId(t.addedBy)
    ensures t.createdAt == p.createdAt.GetOr(s.createdAt)
  {
    s.(name := p.name.GetOr(s.name),
       rollNumber := p.rollNumber.GetOr(s.rollNumber),
       className := p.className.GetOr(s.className),
       section := if p.section.Some? then p.section else s.section,
       phone := p.phone.GetOr(s.phone),
       email := if p.email.Some? then p.email else s.email,
       address := if p.address.Some? then p.address else s.address,
       parentName := p.parentName.GetOr(s.parentName),
       parentPhone := p.parentPhone.GetOr(s.parentPhone),
       admissionDate := p.admissionDate.GetOr(s.admissionDate),
       totalFee := p.totalFee.GetOr(s.totalFee),
       feeType := p.feeType.GetOr(s.feeType),
       isActive := p.isActive.GetOr(s.isActive),
       addedBy := CastRef(p.addedBy).GetOr(s.addedBy),
       createdAt := p.createdAt.GetOr(s.createdAt))
  }

  /** Keeping one's own roll number never clashes in a registry of unique rolls. */
  lemma OwnRollIsFree(students: map<Id, Student>, k: Id)
    requires RollsUnique(students) && k in students
    ensures !RollTaken(students, students[k].rollNumber, k)
  {
  }

  /** Once a student is gone, the fees that named it report the placeholder. */
  lemma RemovedStudentIsUnknown(students: map<Id, Student>, k: Id)
    ensures StudentLabel(students - {k}, k) == UnknownStudent
  {
  }

  /** A listing without repeats that holds exactly the active students is as
      long as there are active students. */
  lemma ActiveCount(students: map<Id, Student>, data: seq<Student>)
    requires Distinct(data)
    requires forall s :: s in data <==> s in students.Values && s.isActive
    ensures |data| == |set s | s in students.Values && s.isActive|
  {
    DistinctCard(data);
    assert (set s | s in data) == (set s | s in students.Values && s.isActive);
  }

  class Registry {
    var students: map<Id, Student>
    /** The natural order of the collection. */
    var order: seq<Id>

    ghost predicate Valid()
      reads this
    {
      && Indexes(order, students)
      && (forall k | k in students :: IsCanonicalId(k) && students[k].id == k)
      && RollsUnique(students)
    }

    constructor ()
      ensures Valid() && students == map[] && order == []
    {
      students := map[];
      order := [];
    }

    /** The collection in natural order. */
    function Docs(): (r: seq<Student>)
      reads this
      requires Valid()
      ensures |r| == |students|
      ensures forall s :: s in r <==> s in students.Values
      ensures Distinct(r)
    {
      ValuesCover(order, students);
      IndexesCard(order, students);
      var r := Values(order, students);
      assert Distinct(r) by {
        forall i, j | 0 <= i < j < |r| ensures r[i] != r[j] {
          assert r[i].id == order[i] && r[j].id == order[j];
        }
      }
      r
    }

    /** GET `/show-students`: the active students, newest first, with their count. */
    function ShowStudents(): (r: Roster)
      reads this
      requires Valid()
      ensures r.count == |r.data|
      ensures r.count == |set s | s in students.Values && s.isActive|
      ensures forall s :: s in r.data <==> s in students.Values && s.isActive
      ensures Distinct(r.data)
      ensures forall i | 0 <= i < |r.data| :: r.data[i].isActive
      ensures SortedDesc(r.data, (s: Student) => s.createdAt)
    {
      var active := Filter(Docs(), (s: Student) => s.isActive);
      var data := SortDesc(active, (s: Student) => s.createdAt);
      SortDescMembers(active, (s: Student) => s.createdAt);
      ActiveCount(students, data);
      assert forall i | 0 <= i < |data| :: data[i].isActive by {
        forall i | 0 <= i < |data| ensures data[i].isActive {
          assert data[i] in data;
        }
      }
      Roster(|data|, data)
    }

    /** GET `/:id`: a malformed id makes the lookup throw (500). */
    function Get(rawId: string): (r: Outcome<Student>)
      reads this
      requires Valid()
      ensures CastObjectId(rawId).None? ==> r == Err(ServerError)
      ensures CastObjectId(rawId).Some? && CastObjectId(rawId).value !in students ==> r == Err(NotFound)
      ensures r.Ok? <==> CastObjectId(rawId).Some? && CastObjectId(rawId).value in students
      ensures r.Ok? ==> r.value == students[CastObjectId(rawId).value] && r.value.id == Lower(rawId)
    {
      match CastObjectId(rawId)
      case None => Err(ServerError)
      case Some(id) => if id in students then Ok(students[id]) else Err(NotFound)
    }

    /** GET `/:id/fees`: the student and exactly the fees that name it, newest first. */
    function FeesOf(rawId: string, ledger: Ledger): (r: Outcome<StudentFees>)
      reads this, ledger
      requires Valid() && ledger.Valid()
      ensures r.Err? <==> Get(rawId).Err?
      ensures r.Err? ==> r.failure == Get(rawId).failure
      ensures r.Ok? ==> r.value.student == Get(rawId).value
      ensures r.Ok? ==> forall f :: f in r.value.fees <==> f in ledger.fees.Values && f.studentId == r.value.student.id
      ensures r.Ok? ==> Distinct(r.value.fees)
      ensures r.Ok? ==> SortedDesc(r.value.fees, (f: Fee) => f.createdAt)
    {
      match Get(rawId)
      case Err(e) => Err(e)
      case Ok(s) =>
        var mine := Filter(ledger.Docs(), (f: Fee) => f.studentId == s.id);
        SortDescMembers(mine, (f: Fee) => f.createdAt);
        Ok(StudentFees(s, SortDesc(mine, (f: Fee) => f.createdAt)))
    }

    /** POST `/add-student`: the body with `addedBy` taken from the token,
        validated, then inserted; a roll number or id already present is the
        duplicate key error (400), and nothing is stored. */
    method Add(body: StudentBody, claims: Claims, newId: Id, now: Instant) returns (res: Outcome<Student>)
      requires Valid() && IsCanonicalId(newId)
      modifies this
      ensures Valid()
      ensures var made := NewStudent(newId, body.(addedBy := claims.id), now);
        made.Err? || newId in old(students) || RollTaken(old(students), made.value.rollNumber, newId) ==>
          res == Err(BadRequest) && students == old(students) && order == old(order)
      ensures var made := NewStudent(newId, body.(addedBy := claims.id), now);
        made.Ok? && newId !in old(students) && !RollTaken(old(students), made.value.rollNumber, newId) ==>
          && res == made
          && students == old(students)[newId := made.value]
          && order == old(order) + [newId]
    {
      var made := NewStudent(newId, body.(addedBy := claims.id), now);
      if made.Err? || newId in students || RollTaken(students, made.value.rollNumber, newId) {
        return Err(BadRequest);
      }
      IndexesInsert(order, students, newId, made.value);
      students := students[newId := made.value];
      order := order + [newId];
      res := made;
    }

    /** PUT `/:id`: a malformed id or `addedBy` (the casts throw) and a roll
        number another record holds answer 400, a missing record 404; otherwise
        the patch is applied. */
    method Update(rawId: string, patch: StudentBody) returns (res: Outcome<Student>)
      requires Valid()
      modifies this
      ensures Valid()
      ensures order == old(order)
      ensures CastObjectId(rawId).None? || !RefCasts(patch.addedBy) ==>
                res == Err(BadRequest) && students == old(students)
      ensures CastObjectId(rawId).Some? && RefCasts(patch.addedBy) && CastObjectId(rawId).value !in old(students) ==>
                res == Err(NotFound) && students == old(students)
      ensures CastObjectId(rawId).Some? && RefCasts(patch.addedBy) && CastObjectId(rawId).value in old(students) ==>
                var id := CastObjectId(rawId).value;
                if patch.rollNumber.Some? && RollTaken(old(students), patch.rollNumber.value, id)
                then res == Err(BadRequest) && students == old(students)
                else var t := Amended(old(students)[id], patch);
                     res == Ok(t) && students == old(students)[id := t]
    {
      var cast := CastObjectId(rawId);
      if cast.None? || !RefCasts(patch.addedBy) {
        return Err(BadRequest);
      }
      var id := cast.value;
      if id !in students {
        return Err(NotFound);
      }
      if patch.rollNumber.Some? && RollTaken(students, patch.rollNumber.value, id) {
        return Err(BadRequest);
      }
      var t := Amended(students[id], patch);
      students := students[id := t];
      res := Ok(t);
    }

    /** DELETE `/:id`: removes the one record and nothing in the fee ledger. */
    method Delete(rawId: string, ledger: Ledger) returns (res: Outcome<Removal>)
      requires Valid()
      modifies this
      ensures Valid()
      ensures ledger.fees == old(ledger.fees) && ledger.order == old(ledger.order)
      ensures CastObjectId(rawId).None? ==> res == Err(ServerError) && students == old(students) && order == old(order)
      ensures CastObjectId(rawId).Some? && CastObjectId(rawId).value !in old(students) ==>
                res == Err(NotFound) && students == old(students) && order == old(order)
      ensures CastObjectId(rawId).Some? && CastObjectId(rawId).value in old(students) ==>
                var id := CastObjectId(rawId).value;
                var s := old(students)[id];
                && students == old(students) - {id}
                && order == Remove(old(order), id)
                && res == Ok(Removal(id, s.name, s.rollNumber))
    {
      var cast := CastObjectId(rawId);
      if cast.None? {
        return Err(ServerError);
      }
      var id := cast.value;
      if id !in students {
        return Err(NotFound);
      }
      var s := students[id];
      IndexesRemove(order, students, id);
      students := students - {id};
      order := Remove(order, id);
      res := Ok(Removal(id, s.name, s.rollNumber));
    }
  }
}
