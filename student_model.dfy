/** The student schema of models/Student.js: the stored record, the body a
    request supplies, the required fields and the defaults. */
module StudentModel {
  import opened Common

  datatype Student = Student(
    id: Id,
    name: string,
    rollNumber: string,
    className: string,
    section: Option<string>,
    phone: string,
    email: Option<string>,
    address: Option<string>,
    parentName: string,
    parentPhone: string,
    admissionDate: Instant,
    totalFee: int,
    feeType: string,
    isActive: bool,
    addedBy: Id,
    createdAt: Instant)

  /** The fields a request body may carry; None is a field left out. */
  datatype StudentBody = StudentBody(
    name: Option<string>,
    rollNumber: Option<string>,
    className: Option<string>,
    section: Option<string>,
    phone: Option<string>,
    email: Option<string>,
    address: Option<string>,
    parentName: Option<string>,
    parentPhone: Option<string>,
    admissionDate: Option<Instant>,
    totalFee: Option<int>,
    feeType: Option<string>,
    isActive: Option<bool>,
    addedBy: Option<Id>,
    createdAt: Option<Instant>)

  const DefaultFeeType: string := "Annual"

  /** Every `required: true` field is present; a required string must also be
      non-empty. `feeType` is required but defaulted, so only an explicit empty
      string fails it. */
  predicate HasRequired(b: StudentBody) {
    && Given(b.name)
    && Given(b.rollNumber)
    && Given(b.className)
    && Given(b.phone)
    && Given(b.parentName)
    && Given(b.parentPhone)
    && b.admissionDate.Some?
    && b.totalFee.Some?
    && b.addedBy.Some?
    && (b.feeType.None? || b.feeType.value != "")
  }

  /** The document `new Student(b)` validates into, or the validation error. */
  function NewStudent(id: Id, b: StudentBody, now: Instant): (r: Outcome<Student>)
    ensures r.Ok? <==> HasRequired(b)
    ensures r.Err? ==> r.failure == BadRequest
    ensures r.Ok? ==> && r.value.id == id
                      && r.value.name == b.name.value
                      && r.value.rollNumber == b.rollNumber.value
                      && r.value.className == b.className.value
                      && r.value.phone == b.phone.value
                      && r.value.parentName == b.parentName.value
                      && r.value.parentPhone == b.parentPhone.value
                      && r.value.admissionDate == b.admissionDate.value
                      && r.value.totalFee == b.totalFee.value
                      && r.value.addedBy == b.addedBy.value
                      && r.value.feeType == b.feeType.GetOr(DefaultFeeType)
                      && r.value.isActive == b.isActive.GetOr(true)
                      && r.value.createdAt == b.createdAt.GetOr(now)
                      && r.value.section == b.section
                      && r.value.email == b.email
                      && r.value.address == b.address
  {
    if !HasRequired(b) then Err(BadRequest)
    else Ok(Student(
      id, b.name.value, b.rollNumber.value, b.className.value, b.section,
      b.phone.value, b.email, b.address, b.parentName.value, b.parentPhone.value,
      b.admissionDate.value, b.totalFee.value, b.feeType.GetOr(DefaultFeeType),
      b.isActive.GetOr(true), b.addedBy.value, b.createdAt.GetOr(now)))
  }

  /** A body that leaves out every optional and defaulted field still validates,
      and the record then has the schema's defaults and no optional values. */
  lemma DefaultsApply(id: Id, b: StudentBody, now: Instant)
    requires HasRequired(b)
    requires b.section.None? && b.email.None? && b.address.None?
    requires b.feeType.None? && b.isActive.None? && b.createdAt.None?
    ensures NewStudent(id, b, now).Ok?
    ensures var s := NewStudent(id, b, now).value;
      s.feeType == "Annual" && s.isActive && s.createdAt == now
      && s.section.None? && s.email.None? && s.address.None?
  {
  }
}
