/** The reducer `dispatch` of the data hook, over the cached snapshot it
    overwrites. Each action makes an optimistic write at once and then, when
    the remote write succeeds, a final write built from the snapshot as it
    was before the action, with the server's echo of the record in place of
    the optimistic one. When the remote write fails the optimistic write
    stays and a refetch of the snapshot is requested. The server's reply,
    the temporary id `temp-<clock>` and today's date are inputs. */
module Store {
  import opened Seqs
  import opened Calendar
  import opened Entities
  import opened Lifecycle

  /** What a remote write returned: the stored record, or an error. */
  datatype Reply<T> = Echo(record: T) | Failure

  /** How an action ended; `NotLoggedIn` covers both the explicit login
      check and the `authUser.id` access that throws when nobody is signed
      in, and `Ignored` a branch id that names no branch. */
  datatype Outcome = Done | NotLoggedIn | MemberNotFound | Ignored | RemoteFailed

  /** The ADD_MEMBER and UPDATE_MEMBER payload of the member form. */
  datatype MemberForm = MemberForm(
    name: string, email: string, phone: string,
    planDuration: int, joinDate: CalDate, expiryDate: CalDate)

  /** The ADD_PAYMENT payload; `paymentDate` is "" when not given. */
  datatype PaymentForm = PaymentForm(
    memberName: string, amount: int, mode: string, paymentDate: string, planName: string)

  /** The ADD_PLAN and UPDATE_PLAN payload. */
  datatype PlanForm = PlanForm(name: string, price: int, duration: int, features: seq<string>)

  /** `currentBranch?.id || null`. */
  function BranchId(b: Option<Branch>): string
  {
    if b.Some? then b.value.id else ""
  }

  function MemberIdIs(id: string): Member -> bool { (m: Member) => m.id == id }
  function MemberIdIsNot(id: string): Member -> bool { (m: Member) => m.id != id }
  function MemberNamed(name: string): Member -> bool { (m: Member) => m.name == name }
  function PaymentIdIsNot(id: string): Payment -> bool { (p: Payment) => p.id != id }
  function PlanIdIs(id: string): Plan -> bool { (p: Plan) => p.id == id }
  function PlanIdIsNot(id: string): Plan -> bool { (p: Plan) => p.id != id }
  function BranchIdIs(id: string): Branch -> bool { (b: Branch) => b.id == id }

  /** The optimistic member of ADD_MEMBER. */
  function NewMember(form: MemberForm, tempId: string, today: int, branchId: string, userId: string): Member
  {
    Member(tempId, form.name, form.email, form.phone, form.planDuration, form.joinDate, form.expiryDate,
           MemberStatus(form.expiryDate, today), branchId, userId)
  }

  /** `{ ...m, ...payload, status }` of UPDATE_MEMBER: of the payload's
      camel-case keys only `name`, `email` and `phone` are member fields. */
  function MergeMemberForm(form: MemberForm, status: Status): Member -> Member
  {
    (m: Member) => m.(name := form.name, email := form.email, phone := form.phone, status := status)
  }

  function ToMember(x: Member): Member -> Member { _ => x }

  /** The optimistic payment of ADD_PAYMENT: always "completed", dated today
      when the form leaves the date empty. */
  function NewPayment(form: PaymentForm, member: Member, tempId: string, todayText: string, branchId: string, userId: string): Payment
  {
    Payment(tempId, member.id, form.memberName, form.amount,
            if form.paymentDate != "" then form.paymentDate else todayText,
            form.mode, Completed, form.planName, branchId, userId, "")
  }

  function NewPlan(form: PlanForm, tempId: string, branchId: string, userId: string): Plan
  {
    Plan(tempId, form.name, form.price, form.duration, form.features, branchId, userId)
  }

  /** `{ ...p, ...payload }` of UPDATE_PLAN: every payload key is a plan field. */
  function MergePlanForm(form: PlanForm): Plan -> Plan
  {
    (p: Plan) => p.(name := form.name, price := form.price, duration := form.duration, features := form.features)
  }

  function ToPlan(x: Plan): Plan -> Plan { _ => x }

  /** DELETE_MEMBER keeps, in order, exactly the members with another id. */
  lemma DeleteMemberExact(members: seq<Member>, id: string)
    ensures forall m :: m in Filter(MemberIdIsNot(id), members) <==> m in members && m.id != id
    ensures IsSubsequence(Filter(MemberIdIsNot(id), members), members)
    ensures (forall i :: 0 <= i < |members| ==> members[i].id != id) ==> Filter(MemberIdIsNot(id), members) == members
  {
    forall m | m in members && m.id != id
      ensures m in Filter(MemberIdIsNot(id), members)
    {
      FilterKeeps(MemberIdIsNot(id), members, m);
    }
    FilterIsSubsequence(MemberIdIsNot(id), members);
    if forall i :: 0 <= i < |members| ==> members[i].id != id {
      FilterAll(MemberIdIsNot(id), members);
    }
  }

  /** The optimistic UPDATE_MEMBER write changes, of the targeted members,
      only name, e-mail, phone and status, and no other member at all. */
  lemma UpdateMemberFrame(members: seq<Member>, id: string, form: MemberForm, status: Status)
    ensures var r := ReplaceWhere(MemberIdIs(id), MergeMemberForm(form, status), members);
      && |r| == |members|
      && (forall i :: 0 <= i < |r| && members[i].id != id ==> r[i] == members[i])
      && (forall i :: 0 <= i < |r| && members[i].id == id ==>
            r[i].name == form.name && r[i].email == form.email && r[i].phone == form.phone && r[i].status == status
            && r[i].(name := members[i].name, email := members[i].email, phone := members[i].phone, status := members[i].status) == members[i])
  {
  }

  /** When no cached member carries the temporary id, the final ADD_MEMBER
      write is the optimistic one with the echo in place of the temporary
      member: the server's record is first and the rest is the old list. */
  lemma AddMemberFinalSwapsHead(members: seq<Member>, tempId: string, optimistic: Member, echo: Member)
    requires forall i :: 0 <= i < |members| ==> members[i].id != tempId
    ensures [echo] + Filter(MemberIdIsNot(tempId), members) == ([optimistic] + members)[0 := echo]
  {
    TempIdAbsent(members, tempId);
    var opt := [optimistic] + members;
    assert opt[0 := echo] == [echo] + members by {
      assert opt[0 := echo][1..] == members;
    }
  }

  lemma TempIdAbsent(members: seq<Member>, tempId: string)
    requires forall i :: 0 <= i < |members| ==> members[i].id != tempId
    ensures Filter(MemberIdIsNot(tempId), members) == members
  {
    var p := MemberIdIsNot(tempId);
    forall i | 0 <= i < |members|
      ensures p(members[i])
    {
    }
    FilterAll(p, members);
  }

  class GymStore {
    /** The signed-in user's id; "" when nobody is signed in. */
    var authUserId: string
    var branches: seq<Branch>
    var currentBranch: Option<Branch>
    var members: seq<Member>
    var payments: seq<Payment>
    var plans: seq<Plan>
    var reminders: seq<Reminder>
    /** Set when a failed action asked for the snapshot to be fetched again. */
    var refetchRequested: bool

    constructor (userId: string, data: GymData)
      ensures authUserId == userId && branches == data.branches && currentBranch == data.currentBranch
      ensures members == data.members && payments == data.payments && plans == data.plans
      ensures reminders == data.reminders && !refetchRequested
    {
      authUserId := userId;
      branches := data.branches;
      currentBranch := data.currentBranch;
      members := data.members;
      payments := data.payments;
      plans := data.plans;
      reminders := data.reminders;
      refetchRequested := false;
    }

    /** A refetch replaces the snapshot. */
    method Revalidate(data: GymData)
      modifies this
      ensures authUserId == old(authUserId) && branches == data.branches && currentBranch == data.currentBranch
      ensures members == data.members && payments == data.payments && plans == data.plans
      ensures reminders == data.reminders && !refetchRequested
    {
      branches := data.branches;
      currentBranch := data.currentBranch;
      members := data.members;
      payments := data.payments;
      plans := data.plans;
      reminders := data.reminders;
      refetchRequested := false;
    }

    /** After every member change the worklist is derived afresh. */
    method RecomputeReminders(today: int)
      modifies this
      ensures reminders == CalculateReminders(members, today)
      ensures authUserId == old(authUserId) && branches == old(branches) && currentBranch == old(currentBranch)
      ensures members == old(members) && payments == old(payments) && plans == old(plans)
      ensures refetchRequested == old(refetchRequested)
    {
      reminders := CalculateReminders(members, today);
    }

    /** ADD_MEMBER: the new member goes first; the reminders are recomputed. */
    method AddMember(form: MemberForm, tempId: string, today: int, reply: Reply<Member>) returns (o: Outcome)
      modifies this
      ensures authUserId == old(authUserId) && branches == old(branches) && currentBranch == old(currentBranch)
      ensures payments == old(payments) && plans == old(plans)
      ensures old(authUserId) == "" ==>
        o == NotLoggedIn && members == old(members) && reminders == old(reminders) && refetchRequested == old(refetchRequested)
      ensures old(authUserId) != "" ==> reminders == CalculateReminders(members, today)
      ensures old(authUserId) != "" && reply.Failure? ==>
        o == RemoteFailed && refetchRequested
        && members == [NewMember(form, tempId, today, BranchId(old(currentBranch)), old(authUserId))] + old(members)
      ensures old(authUserId) != "" && reply.Echo? ==>
        o == Done && refetchRequested == old(refetchRequested)
        && members == [reply.record.(status := MemberStatus(form.expiryDate, today))] + Filter(MemberIdIsNot(tempId), old(members))
    {
      if authUserId == "" {
        return NotLoggedIn;
      }
      var before := members;
      var optimistic := [NewMember(form, tempId, today, BranchId(currentBranch), authUserId)] + before;
      members := optimistic;
      RecomputeReminders(today);
      match reply
      case Failure =>
        refetchRequested := true;
        o := RemoteFailed;
      case Echo(echo) =>
        var final := [echo.(status := MemberStatus(form.expiryDate, today))] + Filter(MemberIdIsNot(tempId), before);
        members := final;
        RecomputeReminders(today);
        o := Done;
    }

    /** UPDATE_MEMBER: only members with the id change, in place. */
    method UpdateMember(id: string, form: MemberForm, today: int, reply: Reply<Member>) returns (o: Outcome)
      modifies this
      ensures authUserId == old(authUserId) && branches == old(branches) && currentBranch == old(currentBranch)
      ensures payments == old(payments) && plans == old(plans)
      ensures old(authUserId) == "" ==>
        o == NotLoggedIn && members == old(members) && reminders == old(reminders) && refetchRequested == old(refetchRequested)
      ensures old(authUserId) != "" ==> reminders == CalculateReminders(members, today)
      ensures old(authUserId) != "" && reply.Failure? ==>
        o == RemoteFailed && refetchRequested
        && members == ReplaceWhere(MemberIdIs(id), MergeMemberForm(form, MemberStatus(form.expiryDate, today)), old(members))
      ensures old(authUserId) != "" && reply.Echo? ==>
        o == Done && refetchRequested == old(refetchRequested)
        && members == ReplaceWhere(MemberIdIs(id), ToMember(reply.record.(status := MemberStatus(form.expiryDate, today))), old(members))
    {
      if authUserId == "" {
        return NotLoggedIn;
      }
      var status := MemberStatus(form.expiryDate, today);
      var before := members;
      members := ReplaceWhere(MemberIdIs(id), MergeMemberForm(form, status), before);
      RecomputeReminders(today);
      match reply
      case Failure =>
        refetchRequested := true;
        o := RemoteFailed;
      case Echo(echo) =>
        members := ReplaceWhere(MemberIdIs(id), ToMember(echo.(status := status)), before);
        RecomputeReminders(today);
        o := Done;
    }

    /** DELETE_MEMBER: exactly the members with the id go. */
    method DeleteMember(id: string, today: int, failed: bool) returns (o: Outcome)
      modifies this
      ensures authUserId == old(authUserId) && branches == old(branches) && currentBranch == old(currentBranch)
      ensures payments == old(payments) && plans == old(plans)
      ensures old(authUserId) == "" ==>
        o == NotLoggedIn && members == old(members) && reminders == old(reminders) && refetchRequested == old(refetchRequested)
      ensures old(authUserId) != "" ==>
        members == Filter(MemberIdIsNot(id), old(members)) && reminders == CalculateReminders(members, today)
        && (if failed then o == RemoteFailed && refetchRequested else o == Done && refetchRequested == old(refetchRequested))
    {
      if authUserId == "" {
        return NotLoggedIn;
      }
      members := Filter(MemberIdIsNot(id), members);
      RecomputeReminders(today);
      if failed {
        refetchRequested := true;
        o := RemoteFailed;
      } else {
        o := Done;
      }
    }

    /** ADD_PAYMENT: the payment of the first member with the given name goes
        first; nothing changes when no member has that name. */
    method AddPayment(form: PaymentForm, tempId: string, todayText: string, reply: Reply<Payment>) returns (o: Outcome)
      modifies this
      ensures authUserId == old(authUserId) && branches == old(branches) && currentBranch == old(currentBranch)
      ensures members == old(members) && plans == old(plans) && reminders == old(reminders)
      ensures old(authUserId) == "" ==> o == NotLoggedIn
      ensures o == NotLoggedIn || o == MemberNotFound ==>
        payments == old(payments) && refetchRequested == old(refetchRequested)
      ensures old(authUserId) != "" ==>
        (o == MemberNotFound <==> Find(MemberNamed(form.memberName), old(members)).None?)
      ensures old(authUserId) != "" && Find(MemberNamed(form.memberName), old(members)).Some? ==>
        var member := Find(MemberNamed(form.memberName), old(members)).value;
        if reply.Failure? then
          o == RemoteFailed && refetchRequested
          && payments == [NewPayment(form, member, tempId, todayText, BranchId(old(currentBranch)), old(authUserId))] + old(payments)
        else
          o == Done && refetchRequested == old(refetchRequested)
          && payments == [reply.record] + Filter(PaymentIdIsNot(tempId), old(payments))
    {
      if authUserId == "" {
        return NotLoggedIn;
      }
      var found := Find(MemberNamed(form.memberName), members);
      if found.None? {
        return MemberNotFound;
      }
      var before := payments;
      payments := [NewPayment(form, found.value, tempId, todayText, BranchId(currentBranch), authUserId)] + before;
      match reply
      case Failure =>
        refetchRequested := true;
        o := RemoteFailed;
      case Echo(echo) =>
        payments := [echo] + Filter(PaymentIdIsNot(tempId), before);
        o := Done;
    }

    /** ADD_PLAN: the new plan goes first. */
    method AddPlan(form: PlanForm, tempId: string, reply: Reply<Plan>) returns (o: Outcome)
      modifies this
      ensures authUserId == old(authUserId) && branches == old(branches) && currentBranch == old(currentBranch)
      ensures members == old(members) && payments == old(payments) && reminders == old(reminders)
      ensures old(authUserId) == "" ==>
        o == NotLoggedIn && plans == old(plans) && refetchRequested == old(refetchRequested)
      ensures old(authUserId) != "" && reply.Failure? ==>
        o == RemoteFailed && refetchRequested
        && plans == [NewPlan(form, tempId, BranchId(old(currentBranch)), old(authUserId))] + old(plans)
      ensures old(authUserId) != "" && reply.Echo? ==>
        o == Done && refetchRequested == old(refetchRequested)
        && plans == [reply.record] + Filter(PlanIdIsNot(tempId), old(plans))
    {
      if authUserId == "" {
        return NotLoggedIn;
      }
      var before := plans;
      plans := [NewPlan(form, tempId, BranchId(currentBranch), authUserId)] + before;
      match reply
      case Failure =>
        refetchRequested := true;
        o := RemoteFailed;
      case Echo(echo) =>
        plans := [echo] + Filter(PlanIdIsNot(tempId), before);
        o := Done;
    }

    /** UPDATE_PLAN: only plans with the id change, in place. */
    method UpdatePlan(id: string, form: PlanForm, reply: Reply<Plan>) returns (o: Outcome)
      modifies this
      ensures authUserId == old(authUserId) && branches == old(branches) && currentBranch == old(currentBranch)
      ensures members == old(members) && payments == old(payments) && reminders == old(reminders)
      ensures old(authUserId) == "" ==>
        o == NotLoggedIn && plans == old(plans) && refetchRequested == old(refetchRequested)
      ensures old(authUserId) != "" && reply.Failure? ==>
        o == RemoteFailed && refetchRequested
        && plans == ReplaceWhere(PlanIdIs(id), MergePlanForm(form), old(plans))
      ensures old(authUserId) != "" && reply.Echo? ==>
        o == Done && refetchRequested == old(refetchRequested)
        && plans == ReplaceWhere(PlanIdIs(id), ToPlan(reply.record), old(plans))
    {
      if authUserId == "" {
        return NotLoggedIn;
      }
      var before := plans;
      plans := ReplaceWhere(PlanIdIs(id), MergePlanForm(form), before);
      match reply
      case Failure =>
        refetchRequested := true;
        o := RemoteFailed;
      case Echo(echo) =>
        plans := ReplaceWhere(PlanIdIs(id), ToPlan(echo), before);
        o := Done;
    }

    /** DELETE_PLAN: exactly the plans with the id go. */
    method DeletePlan(id: string, failed: bool) returns (o: Outcome)
      modifies this
      ensures authUserId == old(authUserId) && branches == old(branches) && currentBranch == old(currentBranch)
      ensures members == old(members) && payments == old(payments) && reminders == old(reminders)
      ensures old(authUserId) == "" ==>
        o == NotLoggedIn && plans == old(plans) && refetchRequested == old(refetchRequested)
      ensures old(authUserId) != "" ==>
        plans == Filter(PlanIdIsNot(id), old(plans))
        && (if failed then o == RemoteFailed && refetchRequested else o == Done && refetchRequested == old(refetchRequested))
    {
      if authUserId == "" {
        return NotLoggedIn;
      }
      plans := Filter(PlanIdIsNot(id), plans);
      if failed {
        refetchRequested := true;
        o := RemoteFailed;
      } else {
        o := Done;
      }
    }

    /** SWITCH_BRANCH: the first branch with the id becomes current; an
        unknown id changes nothing. */
    method SwitchBranch(id: string) returns (o: Outcome)
      modifies this
      ensures authUserId == old(authUserId) && branches == old(branches) && refetchRequested == old(refetchRequested)
      ensures members == old(members) && payments == old(payments) && plans == old(plans) && reminders == old(reminders)
      ensures Find(BranchIdIs(id), old(branches)).None? ==> o == Ignored && currentBranch == old(currentBranch)
      ensures Find(BranchIdIs(id), old(branches)).Some? && old(authUserId) == "" ==>
        o == NotLoggedIn && currentBranch == old(currentBranch)
      ensures Find(BranchIdIs(id), old(branches)).Some? && old(authUserId) != "" ==>
        o == Done && currentBranch == Find(BranchIdIs(id), old(branches))
    {
      var found := Find(BranchIdIs(id), branches);
      if found.None? {
        return Ignored;
      }
      if authUserId == "" {
        return NotLoggedIn;
      }
      currentBranch := found;
      o := Done;
    }
  }
}
