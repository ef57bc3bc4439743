/** The computations of the payments page: the completed and pending totals,
    the method and search filter, the newest-first listing and the guard
    before a payment is recorded. `timeOf` stands for
    `new Date(text).getTime()`. */
module PaymentsPage {
  import opened Seqs
  import opened Text
  import opened Entities
  import opened Store

  function Amount(p: Payment): int
  {
    p.amount
  }

  function HasPaymentStatus(st: PaymentStatus): Payment -> bool
  {
    (p: Payment) => p.status == st
  }

  /** The sum of the amounts of the payments with status `st`:
      `totalCompleted` and `totalPending`. */
  function TotalWithStatus(payments: seq<Payment>, st: PaymentStatus): (r: int)
    ensures r == SumBy(payments, Masked(HasPaymentStatus(st), Amount))
  {
    SumFilter(HasPaymentStatus(st), payments, Amount);
    SumBy(Filter(HasPaymentStatus(st), payments), Amount)
  }

  lemma {:induction false} TotalWithStatusCons(payments: seq<Payment>, st: PaymentStatus)
    requires payments != []
    ensures TotalWithStatus(payments, st)
         == (if payments[0].status == st then payments[0].amount else 0) + TotalWithStatus(payments[1..], st)
  {
    var rest := Filter(HasPaymentStatus(st), payments[1..]);
    if payments[0].status == st {
      assert Filter(HasPaymentStatus(st), payments) == [payments[0]] + rest;
      SumConcat([payments[0]], rest, Amount);
    } else {
      assert Filter(HasPaymentStatus(st), payments) == rest;
    }
  }

  /** Every payment counts in exactly one of the four status totals; the
      failed ones and those without a status count in neither figure the
      page shows. */
  lemma {:induction false} TotalsPartition(payments: seq<Payment>)
    ensures TotalWithStatus(payments, Completed) + TotalWithStatus(payments, Pending)
          + TotalWithStatus(payments, Failed) + TotalWithStatus(payments, NoStatus)
         == SumBy(payments, Amount)
  {
    if payments != [] {
      TotalsPartition(payments[1..]);
      TotalWithStatusCons(payments, Completed);
      TotalWithStatusCons(payments, Pending);
      TotalWithStatusCons(payments, Failed);
      TotalWithStatusCons(payments, NoStatus);
    }
  }

  /** Adding a payment that is neither completed nor pending leaves both
      figures as they were. */
  lemma OtherStatusesDoNotCount(payments: seq<Payment>, p: Payment)
    requires p.status == Failed || p.status == NoStatus
    ensures TotalWithStatus([p] + payments, Completed) == TotalWithStatus(payments, Completed)
    ensures TotalWithStatus([p] + payments, Pending) == TotalWithStatus(payments, Pending)
  {
    TotalWithStatusCons([p] + payments, Completed);
    TotalWithStatusCons([p] + payments, Pending);
    assert ([p] + payments)[1..] == payments;
  }

  predicate MatchesMode(p: Payment, mode: string)
  {
    mode == "all" || p.payment_method == mode
  }

  /** An empty term matches everything; otherwise the lower-cased member name
      or the decimal text of the amount must contain it. */
  predicate MatchesSearch(p: Payment, term: string)
  {
    term == [] || Contains(Lower(p.member_name), Lower(term)) || Contains(IntToString(p.amount), term)
  }

  function PaymentShown(mode: string, term: string): Payment -> bool
  {
    (p: Payment) => MatchesMode(p, mode) && MatchesSearch(p, term)
  }

  /** `filteredPayments`. */
  function FilteredPayments(payments: seq<Payment>, mode: string, term: string): (r: seq<Payment>)
    ensures forall p :: p in r <==> p in payments && MatchesMode(p, mode) && MatchesSearch(p, term)
  {
    FilterIn(PaymentShown(mode, term), payments);
    Filter(PaymentShown(mode, term), payments)
  }

  lemma FilteredPaymentsSpec(payments: seq<Payment>, mode: string, term: string)
    ensures forall p ::
      (p in FilteredPayments(payments, mode, term) <==> p in payments && MatchesMode(p, mode) && MatchesSearch(p, term))
    ensures IsSubsequence(FilteredPayments(payments, mode, term), payments)
    ensures mode != "all" ==> forall p :: p in FilteredPayments(payments, mode, term) ==> p.payment_method == mode
    ensures mode == "all" && term == "" ==> FilteredPayments(payments, mode, term) == payments
  {
    forall p | p in payments && MatchesMode(p, mode) && MatchesSearch(p, term)
      ensures p in FilteredPayments(payments, mode, term)
    {
      FilterKeeps(PaymentShown(mode, term), payments, p);
    }
    FilterIsSubsequence(PaymentShown(mode, term), payments);
    if mode == "all" && term == "" {
      FilterAll(PaymentShown(mode, term), payments);
    }
  }

  /** The sort key: newest first is ascending in minus the time. */
  function NewestFirst(timeOf: string -> int): Payment -> int
  {
    (p: Payment) => -timeOf(PaymentDay(p))
  }

  /** `sortedPayments`: a stable sort of a copy, newest first. */
  function SortedPayments(payments: seq<Payment>, timeOf: string -> int): (r: seq<Payment>)
    ensures multiset(r) == multiset(payments)
  {
    SortBy(payments, NewestFirst(timeOf))
  }

  lemma SortedPaymentsSpec(payments: seq<Payment>, timeOf: string -> int, t: int)
    ensures forall i, j :: 0 <= i < j < |SortedPayments(payments, timeOf)| ==>
      timeOf(PaymentDay(SortedPayments(payments, timeOf)[i])) >= timeOf(PaymentDay(SortedPayments(payments, timeOf)[j]))
    ensures Filter(KeyIs(NewestFirst(timeOf), -t), SortedPayments(payments, timeOf))
         == Filter(KeyIs(NewestFirst(timeOf), -t), payments)
  {
    var r := SortedPayments(payments, timeOf);
    SortBySorted(payments, NewestFirst(timeOf));
    forall i, j | 0 <= i < j < |r| ensures timeOf(PaymentDay(r[i])) >= timeOf(PaymentDay(r[j])) {
      assert NewestFirst(timeOf)(r[i]) <= NewestFirst(timeOf)(r[j]);
    }
    SortByStable(payments, NewestFirst(timeOf), -t);
  }

  /** `handleAddPayment`: the payload exists exactly when a member is
      selected and the amount is positive, and names that member. */
  function PaymentEntry(
    members: seq<Member>, selectedMemberId: string, amount: int, mode: string,
    plan: string, paymentDate: string): (r: Option<PaymentForm>)
    ensures r.Some? <==> (exists m :: m in members && m.id == selectedMemberId) && amount > 0
    ensures r.Some? ==> exists m :: m in members && m.id == selectedMemberId && r.value.memberName == m.name
    ensures r.Some? ==>
      exists i :: 0 <= i < |members| && members[i].id == selectedMemberId
        && (forall j :: 0 <= j < i ==> members[j].id != selectedMemberId) && r.value.memberName == members[i].name
    ensures r.Some? ==> r.value.amount == amount && r.value.mode == mode && r.value.planName == plan && r.value.paymentDate == paymentDate
  {
    var m := Find((m: Member) => m.id == selectedMemberId, members);
    if m.Some? && amount > 0 then Some(PaymentForm(m.value.name, amount, mode, paymentDate, plan))
    else None
  }
}
