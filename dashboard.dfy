/** The `/dashboard` figures: counts and amount sums over the fee collection,
    and the number of students. */
module Dashboard {
  import opened Common
  import opened Store
  import opened FeeModel
  import opened StudentModel
  import opened FeeLedger
  import opened StudentRegistry

  datatype Stats = Stats(
    totalStudents: nat,
    totalFees: nat,
    pendingFees: nat,
    overdueFees: nat,
    paidFees: nat,
    totalAmountCollected: int,
    pendingAmount: int)

  predicate IsPending(f: Fee) {
    f.status == Pending
  }

  predicate IsPaid(f: Fee) {
    f.status == Paid
  }

  /** The overdue filter: still pending and due strictly before now. */
  predicate IsOverdue(f: Fee, now: Instant) {
    f.status == Pending && f.dueDate.Some? && f.dueDate.value < now
  }

  /** `countDocuments(filter)`: the number of fees the filter selects. */
  function Count(fees: seq<Fee>, p: Fee -> bool): (n: nat)
    ensures n <= |fees|
    ensures n == |Filter(fees, p)|
  {
    if fees == [] then 0
    else (if p(fees[0]) then 1 else 0) + Count(fees[1..], p)
  }

  /** The total of the `amount`s of `fees`. */
  function AmountOf(fees: seq<Fee>): int {
    if fees == [] then 0 else fees[0].amount + AmountOf(fees[1..])
  }

  lemma {:induction false} AmountOfConcat(a: seq<Fee>, b: seq<Fee>)
    ensures AmountOf(a + b) == AmountOf(a) + AmountOf(b)
  {
    if a == [] {
      assert a + b == b;
    } else {
      assert (a + b)[1..] == a[1..] + b;
      AmountOfConcat(a[1..], b);
    }
  }

  /** `$sum` of `amount` over the fees matching the filter: the total of the
      selected fees. With no match the aggregation is empty and the `|| 0`
      fallback gives 0, which is this sum. */
  function SumAmount(fees: seq<Fee>, p: Fee -> bool): (r: int)
    ensures r == AmountOf(Filter(fees, p))
  {
    if fees == [] then 0
    else
      var rest := SumAmount(fees[1..], p);
      assert fees == [fees[0]] + fees[1..];
      AmountOfConcat([fees[0]], Filter(fees[1..], p));
      (if p(fees[0]) then fees[0].amount else 0) + rest
  }

  /** The figures over the given collections, each the count or `amount` total
      of its filter. */
  function Summarize(students: seq<Student>, fees: seq<Fee>, now: Instant): (s: Stats)
    ensures s.totalStudents == |students| && s.totalFees == |fees|
    ensures s.pendingFees == |Filter(fees, IsPending)|
    ensures s.overdueFees == |Filter(fees, (f: Fee) => IsOverdue(f, now))|
    ensures s.paidFees == |Filter(fees, IsPaid)|
    ensures s.totalAmountCollected == AmountOf(Filter(fees, IsPaid))
    ensures s.pendingAmount == AmountOf(Filter(fees, IsPending))
    ensures s.overdueFees <= s.pendingFees
    ensures s.pendingFees + s.paidFees <= s.totalFees
  {
    CountImplied(fees, (f: Fee) => IsOverdue(f, now), IsPending);
    CountDisjoint(fees, IsPending, IsPaid);
    Stats(|students|, |fees|,
          Count(fees, IsPending),
          Count(fees, (f: Fee) => IsOverdue(f, now)),
          Count(fees, IsPaid),
          SumAmount(fees, IsPaid),
          SumAmount(fees, IsPending))
  }

  /** The dashboard over the live collections: every student counts, active or not. */
  function DashboardOf(registry: Registry, ledger: Ledger, now: Instant): (s: Stats)
    reads registry, ledger
    requires registry.Valid() && ledger.Valid()
    ensures s.totalStudents == |registry.students|
    ensures s.totalFees == |ledger.fees|
    ensures var fees := ledger.Docs();
            && s.pendingFees == |Filter(fees, IsPending)|
            && s.overdueFees == |Filter(fees, (f: Fee) => IsOverdue(f, now))|
            && s.paidFees == |Filter(fees, IsPaid)|
            && s.totalAmountCollected == AmountOf(Filter(fees, IsPaid))
            && s.pendingAmount == AmountOf(Filter(fees, IsPending))
    ensures s.overdueFees <= s.pendingFees
    ensures s.pendingFees + s.paidFees <= s.totalFees
  {
    Summarize(registry.Docs(), ledger.Docs(), now)
  }

  // ---------------------------------------------------------------------------
  // Relations between the figures

  /** A filter that implies another never counts more. */
  lemma {:induction false} CountImplied(fees: seq<Fee>, p: Fee -> bool, q: Fee -> bool)
    requires forall f :: p(f) ==> q(f)
    ensures Count(fees, p) <= Count(fees, q)
  {
    if fees != [] {
      CountImplied(fees[1..], p, q);
    }
  }

  /** Two filters no fee satisfies together count at most every fee. */
  lemma {:induction false} CountDisjoint(fees: seq<Fee>, p: Fee -> bool, q: Fee -> bool)
    requires forall f :: !(p(f) && q(f))
    ensures Count(fees, p) + Count(fees, q) <= |fees|
  {
    if fees != [] {
      CountDisjoint(fees[1..], p, q);
    }
  }

  /** A sum over a filter nothing matches is 0. */
  lemma {:induction false} SumOfNoneIsZero(fees: seq<Fee>, p: Fee -> bool)
    requires forall i | 0 <= i < |fees| :: !p(fees[i])
    ensures SumAmount(fees, p) == 0
    ensures Count(fees, p) == 0
  {
    if fees != [] {
      assert !p(fees[0]);
      SumOfNoneIsZero(fees[1..], p);
    }
  }

  /** Replacing one fee changes a count by what the old and the new fee contribute. */
  lemma {:induction false} CountReplace(fees: seq<Fee>, i: int, g: Fee, p: Fee -> bool)
    requires 0 <= i < |fees|
    ensures Count(fees[i := g], p) == Count(fees, p) - (if p(fees[i]) then 1 else 0) + (if p(g) then 1 else 0)
  {
    if i > 0 {
      CountReplace(fees[1..], i - 1, g, p);
      assert fees[i := g][1..] == fees[1..][i - 1 := g];
    } else {
      assert fees[i := g][1..] == fees[1..];
    }
  }

  /** Replacing one fee changes a sum by what the old and the new fee contribute. */
  lemma {:induction false} SumReplace(fees: seq<Fee>, i: int, g: Fee, p: Fee -> bool)
    requires 0 <= i < |fees|
    ensures SumAmount(fees[i := g], p)
            == SumAmount(fees, p) - (if p(fees[i]) then fees[i].amount else 0) + (if p(g) then g.amount else 0)
  {
    if i > 0 {
      SumReplace(fees[1..], i - 1, g, p);
      assert fees[i := g][1..] == fees[1..][i - 1 := g];
    } else {
      assert fees[i := g][1..] == fees[1..];
    }
  }

  /** Settling a pending fee moves it, and its `amount` (whatever was paid),
      from the pending figures to the paid ones. */
  lemma PayingMovesAmount(students: seq<Student>, fees: seq<Fee>, i: int, payment: Payment,
                          actor: Id, paidAt: Instant, now: Instant)
    requires 0 <= i < |fees| && fees[i].status == Pending
    ensures var before := Summarize(students, fees, now);
            var after := Summarize(students, fees[i := Settle(fees[i], payment, actor, paidAt)], now);
            && after.totalFees == before.totalFees
            && after.pendingFees == before.pendingFees - 1
            && after.paidFees == before.paidFees + 1
            && after.pendingAmount == before.pendingAmount - fees[i].amount
            && after.totalAmountCollected == before.totalAmountCollected + fees[i].amount
  {
    var g := Settle(fees[i], payment, actor, paidAt);
    CountReplace(fees, i, g, IsPending);
    CountReplace(fees, i, g, IsPaid);
    SumReplace(fees, i, g, IsPending);
    SumReplace(fees, i, g, IsPaid);
  }

  // ---------------------------------------------------------------------------
  // A worked example: one fee of 100 paid, one of 50 pending

  function SampleFee(amount: int, status: FeeStatus): Fee {
    Fee("000000000000000000000001", "000000000000000000000002", "Tuition", amount, Some(0),
        status, None, None, None, None, None, 0, 0)
  }

  lemma SampleFigures(now: Instant)
    ensures var s := Summarize([], [SampleFee(100, Paid), SampleFee(50, Pending)], now);
            && s.totalFees == 2 && s.paidFees == 1 && s.pendingFees == 1
            && s.totalAmountCollected == 100 && s.pendingAmount == 50
  {
    var fees := [SampleFee(100, Paid), SampleFee(50, Pending)];
    assert fees[1..] == [SampleFee(50, Pending)];
    assert fees[1..][1..] == [];
  }
}
