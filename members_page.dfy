/** The computations of the members page: the search and status filter,
    the guard and date arithmetic of the add/edit form, the renewal dates
    and when renewal is offered. */
module MembersPage {
  import opened Seqs
  import opened Text
  import opened Calendar
  import opened Entities
  import opened Lifecycle
  import opened Store

  /** The status selector: "all" or one status. */
  datatype StatusFilter = AllStatuses | Only(status: Status)

  /** Name and e-mail are compared lower-cased; the phone as typed. */
  predicate MatchesMemberSearch(m: Member, term: string)
  {
    Contains(Lower(m.name), Lower(term)) || Contains(Lower(m.email), Lower(term)) || Contains(m.phone, term)
  }

  predicate MatchesStatus(m: Member, f: StatusFilter)
  {
    f.AllStatuses? || m.status == f.status
  }

  function MemberShown(term: string, f: StatusFilter): Member -> bool
  {
    (m: Member) => MatchesMemberSearch(m, term) && MatchesStatus(m, f)
  }

  /** `filteredMembers`. */
  function FilteredMembers(members: seq<Member>, term: string, f: StatusFilter): (r: seq<Member>)
    ensures forall m :: m in r <==> m in members && MatchesMemberSearch(m, term) && MatchesStatus(m, f)
  {
    FilterIn(MemberShown(term, f), members);
    Filter(MemberShown(term, f), members)
  }

  /** The empty text occurs in every text, so an empty search matches. */
  lemma ContainsEmpty(s: string)
    ensures Contains(s, "")
  {
    assert OccursAt(s, "", 0);
  }

  lemma FilteredMembersSpec(members: seq<Member>, term: string, f: StatusFilter)
    ensures forall m ::
      (m in FilteredMembers(members, term, f) <==> m in members && MatchesMemberSearch(m, term) && MatchesStatus(m, f))
    ensures IsSubsequence(FilteredMembers(members, term, f), members)
    ensures f.Only? ==> forall m :: m in FilteredMembers(members, term, f) ==> m.status == f.status
    ensures term == "" && f.AllStatuses? ==> FilteredMembers(members, term, f) == members
  {
    forall m | m in members && MatchesMemberSearch(m, term) && MatchesStatus(m, f)
      ensures m in FilteredMembers(members, term, f)
    {
      FilterKeeps(MemberShown(term, f), members, m);
    }
    FilterIsSubsequence(MemberShown(term, f), members);
    if term == "" && f.AllStatuses? {
      forall i | 0 <= i < |members| ensures MemberShown(term, f)(members[i]) {
        ContainsEmpty(Lower(members[i].name));
      }
      FilterAll(MemberShown(term, f), members);
    }
  }

  /** Name and e-mail are matched without regard to case: the search term
      and the member's name or e-mail may differ in case and still match. */
  lemma SearchIgnoresCase(m: Member, term: string)
    requires Contains(Lower(m.name), Lower(term)) || Contains(Lower(m.email), Lower(term))
    ensures MatchesMemberSearch(m, Lower(term))
    ensures MatchesMemberSearch(m.(name := Lower(m.name), email := Lower(m.email)), term)
  {
    LowerIdempotent(term);
    LowerIdempotent(m.name);
    LowerIdempotent(m.email);
  }

  /** What the form dispatches: a new member, or an update of the one being
      edited. */
  datatype MemberAction = AddAction(form: MemberForm) | UpdateAction(id: string, form: MemberForm)

  /** `handleAddMember`: nothing is dispatched unless name, e-mail and
      phone are all filled in and the joining date reads as a date (an
      unreadable date makes `toISOString` throw, which the handler swallows);
      the expiry is the joining date plus the plan's months. `editingId` is
      "" when a new member is being added. */
  function MemberEntry(
    name: string, email: string, phone: string, planDuration: int,
    joiningDate: string, editingId: string): (r: Option<MemberAction>)
    ensures r.Some? <==>
      name != "" && email != "" && phone != ""
      && ParseDate(joiningDate).Some? && IsValid(ParseDate(joiningDate).value)
    ensures r.Some? ==>
      var join := ParseDate(joiningDate).value;
      r.value.form == MemberForm(name, email, phone, planDuration, join, AddMonths(join, planDuration))
      && (if editingId == "" then r.value.AddAction? else r.value == UpdateAction(editingId, r.value.form))
  {
    if name != "" && email != "" && phone != "" && ParseDate(joiningDate).Some? && IsValid(ParseDate(joiningDate).value) then
      var join := ParseDate(joiningDate).value;
      var form := MemberForm(name, email, phone, planDuration, join, AddMonths(join, planDuration));
      Some(if editingId == "" then AddAction(form) else UpdateAction(editingId, form))
    else None
  }

  /** A plan of n months bought on the form's joining date lasts between 28n
      and 31n days. */
  lemma MemberEntryLength(
    name: string, email: string, phone: string, planDuration: nat,
    joiningDate: string, editingId: string)
    requires MemberEntry(name, email, phone, planDuration, joiningDate, editingId).Some?
    ensures var f := MemberEntry(name, email, phone, planDuration, joiningDate, editingId).value.form;
      28 * planDuration <= DayNumber(f.expiryDate) - DayNumber(f.joinDate) <= 31 * planDuration
  {
    AddMonthsLength(ParseDate(joiningDate).value, planDuration);
  }

  /** The dates a renewal sets: joined today, expiring the plan's months
      later. */
  function RenewalDates(today: CalDate, planDuration: int): (r: (CalDate, CalDate))
    requires IsValid(today)
    ensures r.0 == today && IsValid(r.1)
    ensures DayNumber(r.1) == DayNumber(CalDate(today.year, today.month + planDuration, today.day))
  {
    AddMonthsDayNumber(today, planDuration);
    (today, AddMonths(today, planDuration))
  }

  /** A renewed plan of at least one month is active on the day of renewal. */
  lemma RenewedIsActive(today: CalDate, planDuration: nat)
    requires IsValid(today) && planDuration >= 1
    ensures MemberStatus(RenewalDates(today, planDuration).1, DayNumber(today)) == Active
  {
    AddMonthsLength(today, planDuration);
  }

  /** The renew button: offered to expired and expiring members. */
  predicate CanRenew(m: Member)
    ensures CanRenew(m) <==> m.status == Expired || m.status == Expiring
  {
    m.status != Active
  }

  /** After a fetch, renewal is offered exactly to members with at most a
      week left. */
  lemma CanRenewAfterFetch(members: seq<Member>, today: int, i: int)
    requires 0 <= i < |members|
    ensures CanRenew(WithStatus(members, today)[i]) <==> DaysLeft(members[i].expiry_date, today) <= 7
  {
  }
}
