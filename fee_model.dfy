/** The fee document. models/Fee.js is not part of this model, so the record
    holds exactly the fields the routes read and write. */
module FeeModel {
  import opened Common

  /** The stored status; the `due` view filters on pending and overdue. */
  datatype FeeStatus = Pending | Paid | Overdue

  datatype Fee = Fee(
    id: Id,
    studentId: Id,
    feeType: string,
    amount: int,
    dueDate: Option<Instant>,
    status: FeeStatus,
    paidDate: Option<Instant>,
    paidAmount: Option<int>,
    paymentMethod: Option<string>,
    addedBy: Option<Id>,
    updatedBy: Option<Id>,
    createdAt: Instant,
    updatedAt: Instant)
}
