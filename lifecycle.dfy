/** The membership lifecycle of the data hook: the status a member's expiry
    date gives, the reminder worklist derived from the member list, and the
    snapshot the fetch assembles (statuses recomputed, lists defaulted, the
    owner's profile filled in). `today` is the day number of the current
    local midnight, which the hook reads from the clock. */
module Lifecycle {
  import opened Seqs
  import opened Text
  import opened Calendar
  import opened Entities

  /** Whole days from today to the expiry date. */
  function DaysLeft(expiry: CalDate, today: int): int
  {
    DayNumber(expiry) - today
  }

  /** `calculateMemberStatus` on a day count: the rules are tried in order,
      so the three ranges are exclusive and cover every count. */
  function ClassifyDays(daysLeft: int): (s: Status)
    ensures s == Expired <==> daysLeft < 0
    ensures s == Expiring <==> 0 <= daysLeft <= 7
    ensures s == Active <==> daysLeft > 7
  {
    if daysLeft < 0 then Expired
    else if daysLeft <= 7 then Expiring
    else Active
  }

  /** `calculateMemberStatus`: a plan is expired once its expiry day has
      passed, expiring from that day back to a week before it, and active
      before that. */
  function MemberStatus(expiry: CalDate, today: int): (s: Status)
    ensures s == Expired <==> DayNumber(expiry) < today
    ensures s == Expiring <==> today <= DayNumber(expiry) <= today + 7
    ensures s == Active <==> DayNumber(expiry) > today + 7
  {
    ClassifyDays(DaysLeft(expiry, today))
  }

  /** The reminder window: strictly after today, at most a week ahead. */
  predicate DueForReminder(m: Member, today: int)
  {
    0 < DaysLeft(m.expiry_date, today) <= 7
  }

  function Due(today: int): Member -> bool
  {
    m => DueForReminder(m, today)
  }

  /** The label `${n} month${n > 1 ? "s" : ""}`. */
  function PlanLabel(months: int): (r: string)
    ensures months == 1 ==> r == "1 month"
    ensures months > 1 ==> r == IntToString(months) + " months"
    ensures months < 1 ==> r == IntToString(months) + " month"
  {
    IntToString(months) + " month" + (if months > 1 then "s" else "")
  }

  function ToReminder(m: Member, today: int): Reminder
  {
    Reminder(m.id, m.name, DaysLeft(m.expiry_date, today), PlanLabel(m.plan_duration), "pending")
  }

  function AsReminder(today: int): Member -> Reminder
  {
    m => ToReminder(m, today)
  }

  function ReminderDays(r: Reminder): int
  {
    r.daysLeft
  }

  /** The reminders of the due members, in member order, before sorting. */
  function DueReminders(members: seq<Member>, today: int): seq<Reminder>
  {
    MapSeq(AsReminder(today), Filter(Due(today), members))
  }

  /** `calculateReminders`: filter, map, then the engine's stable sort by
      days left. */
  function CalculateReminders(members: seq<Member>, today: int): (r: seq<Reminder>)
    ensures |r| <= |members|
  {
    SortBy(DueReminders(members, today), ReminderDays)
  }

  lemma InDueReminders(members: seq<Member>, today: int, r: Reminder)
    ensures r in CalculateReminders(members, today) <==> r in DueReminders(members, today)
  {
    var d := DueReminders(members, today);
    assert multiset(CalculateReminders(members, today)) == multiset(d);
    assert r in CalculateReminders(members, today) <==> r in multiset(CalculateReminders(members, today));
  }

  /** Every reminder comes from a member inside the window. */
  lemma RemindersSound(members: seq<Member>, today: int, r: Reminder)
    requires r in CalculateReminders(members, today)
    ensures exists m :: m in members && DueForReminder(m, today) && r == ToReminder(m, today)
    ensures 0 < r.daysLeft <= 7 && r.status == "pending"
  {
    InDueReminders(members, today, r);
    var due := Filter(Due(today), members);
    var i :| 0 <= i < |due| && DueReminders(members, today)[i] == r;
    assert due[i] in due;
  }

  /** Every member inside the window has its reminder. */
  lemma RemindersComplete(members: seq<Member>, today: int, m: Member)
    requires m in members && DueForReminder(m, today)
    ensures ToReminder(m, today) in CalculateReminders(members, today)
  {
    FilterKeeps(Due(today), members, m);
    var due := Filter(Due(today), members);
    var i :| 0 <= i < |due| && due[i] == m;
    assert DueReminders(members, today)[i] == ToReminder(m, today);
    InDueReminders(members, today, ToReminder(m, today));
  }

  /** A member whose plan ends today is already "expiring" but is outside
      the reminder window: no reminder with zero days left exists. */
  lemma ExpiringTodayHasNoReminder(members: seq<Member>, today: int, m: Member)
    requires m in members && DaysLeft(m.expiry_date, today) == 0
    ensures MemberStatus(m.expiry_date, today) == Expiring
    ensures ToReminder(m, today) !in CalculateReminders(members, today)
  {
    if ToReminder(m, today) in CalculateReminders(members, today) {
      RemindersSound(members, today, ToReminder(m, today));
    }
  }

  lemma RemindersSorted(members: seq<Member>, today: int)
    ensures SortedBy(CalculateReminders(members, today), ReminderDays)
  {
    SortBySorted(DueReminders(members, today), ReminderDays);
  }

  function HasDaysLeft(today: int, d: int): Member -> bool
  {
    (m: Member) => DaysLeft(m.expiry_date, today) == d
  }

  /** Reminders with the same days left appear in member order: the
      reminders with `d` days left are exactly those of the members with `d`
      days left, in the order of the member list. */
  lemma RemindersStable(members: seq<Member>, today: int, d: int)
    ensures Filter(KeyIs(ReminderDays, d), CalculateReminders(members, today))
         == if 0 < d <= 7 then MapSeq(AsReminder(today), Filter(HasDaysLeft(today, d), members)) else []
  {
    SortByStable(DueReminders(members, today), ReminderDays, d);
    DueRemindersWithDays(members, today, d);
  }

  lemma DueRemindersCons(members: seq<Member>, today: int)
    requires members != []
    ensures DueReminders(members, today)
         == (if DueForReminder(members[0], today) then [ToReminder(members[0], today)] else [])
            + DueReminders(members[1..], today)
  {
    var rest := Filter(Due(today), members[1..]);
    if DueForReminder(members[0], today) {
      MapConcat(AsReminder(today), [members[0]], rest);
    } else {
      assert Filter(Due(today), members) == rest;
    }
  }

  lemma {:induction false} DueRemindersWithDays(members: seq<Member>, today: int, d: int)
    ensures Filter(KeyIs(ReminderDays, d), DueReminders(members, today))
         == if 0 < d <= 7 then MapSeq(AsReminder(today), Filter(HasDaysLeft(today, d), members)) else []
  {
    var isD := KeyIs(ReminderDays, d);
    if members != [] {
      var m := members[0];
      var head := if DueForReminder(m, today) then [ToReminder(m, today)] else [];
      DueRemindersCons(members, today);
      DueRemindersWithDays(members[1..], today, d);
      FilterConcat(isD, head, DueReminders(members[1..], today));
      if 0 < d <= 7 {
        var rest := Filter(HasDaysLeft(today, d), members[1..]);
        if DaysLeft(m.expiry_date, today) == d {
          assert Filter(HasDaysLeft(today, d), members) == [m] + rest;
          MapConcat(AsReminder(today), [m], rest);
        } else {
          assert Filter(HasDaysLeft(today, d), members) == rest;
        }
      }
    }
  }

  /** The reminders do not read a member's stored status. */
  lemma {:induction false} RemindersIgnoreStatus(a: seq<Member>, b: seq<Member>, today: int)
    requires |a| == |b|
    requires forall i :: 0 <= i < |a| ==> a[i].(status := b[i].status) == b[i]
    ensures CalculateReminders(a, today) == CalculateReminders(b, today)
  {
    DueRemindersIgnoreStatus(a, b, today);
  }

  lemma {:induction false} DueRemindersIgnoreStatus(a: seq<Member>, b: seq<Member>, today: int)
    requires |a| == |b|
    requires forall i :: 0 <= i < |a| ==> a[i].(status := b[i].status) == b[i]
    ensures DueReminders(a, today) == DueReminders(b, today)
  {
    if a != [] {
      DueRemindersIgnoreStatus(a[1..], b[1..], today);
      assert ToReminder(a[0], today) == ToReminder(b[0], today) by {
        assert a[0].(status := b[0].status) == b[0];
      }
      var fa, fb := Filter(Due(today), a[1..]), Filter(Due(today), b[1..]);
      if DueForReminder(a[0], today) {
        assert Filter(Due(today), a) == [a[0]] + fa;
        assert Filter(Due(today), b) == [b[0]] + fb;
        assert ([a[0]] + fa)[1..] == fa;
        assert ([b[0]] + fb)[1..] == fb;
      } else {
        assert Filter(Due(today), a) == fa;
        assert Filter(Due(today), b) == fb;
      }
    }
  }

  /** A member who joins on 1 January (of 2024, say) on a one-month plan and
      is looked at on 28 January expires on 1 February: four days left,
      expiring, and on the worklist as "1 month". */
  lemma JanuaryMember(m: Member, year: int, today: int)
    requires m.joining_date == CalDate(year, 1, 1) && m.plan_duration == 1
    requires m.expiry_date == AddMonths(m.joining_date, m.plan_duration)
    requires today == DayNumber(CalDate(year, 1, 28))
    ensures m.expiry_date == CalDate(year, 2, 1)
    ensures DaysLeft(m.expiry_date, today) == 4
    ensures MemberStatus(m.expiry_date, today) == Expiring
    ensures CalculateReminders([m], today) == [Reminder(m.id, m.name, 4, "1 month", "pending")]
  {
    JanuaryExpiry(year);
    SingleDueReminder(m, today);
    assert PlanLabel(1) == "1 month";
  }

  lemma JanuaryExpiry(year: int)
    ensures AddMonths(CalDate(year, 1, 1), 1) == CalDate(year, 2, 1)
    ensures DayNumber(CalDate(year, 2, 1)) - DayNumber(CalDate(year, 1, 28)) == 4
  {
    assert 1 / 12 == 0 && 1 % 12 == 1;
    JanuaryDays(year);
  }

  lemma JanuaryDays(year: int)
    ensures DayNumber(CalDate(year, 2, 1)) - DayNumber(CalDate(year, 1, 28)) == 4
  {
    assert 0 / 12 == 0 && 0 % 12 == 0 && 1 / 12 == 0 && 1 % 12 == 1;
    assert DaysBeforeMonth(year, 1) == 0 && DaysBeforeMonth(year, 2) == 31;
    assert DayNumber(CalDate(year, 2, 1)) == DaysBeforeYear(year) + 31;
    assert DayNumber(CalDate(year, 1, 28)) == DaysBeforeYear(year) + 27;
  }

  lemma SingleDueReminder(m: Member, today: int)
    requires DueForReminder(m, today)
    ensures CalculateReminders([m], today) == [ToReminder(m, today)]
  {
    var r := ToReminder(m, today);
    assert Filter(Due(today), [m]) == [m];
    assert DueReminders([m], today) == [r];
    assert SortBy([r], ReminderDays) == Insert(r, [], ReminderDays);
  }

  // ---------------------------------------------------------------------
  // The fetched snapshot.

  /** The status remap of the fetch: each member's status is recomputed from
      its expiry date; nothing else about it changes. */
  function WithStatus(members: seq<Member>, today: int): (r: seq<Member>)
    ensures |r| == |members|
    ensures forall i :: 0 <= i < |r| ==>
      r[i].status == MemberStatus(members[i].expiry_date, today) && r[i].(status := members[i].status) == members[i]
  {
    MapSeq((m: Member) => m.(status := MemberStatus(m.expiry_date, today)), members)
  }

  /** The profile row, or one with every field "" when there is none:
      `profile?.field` read through `||`. */
  function ProfileRow(profile: Option<Profile>): Profile
  {
    if profile.Some? then profile.value else Profile("", "", "", "", "")
  }

  function AuthRow(auth: Option<AuthUser>): AuthUser
  {
    if auth.Some? then auth.value else AuthUser("", "", "")
  }

  /** The candidates for the owner's name: profile name, the account's
      metadata name, the part of the account e-mail before the first "@". */
  function OwnerNameCandidates(profile: Option<Profile>, auth: Option<AuthUser>): seq<string>
  {
    [ProfileRow(profile).owner_name,
     AuthRow(auth).metadata_name,
     EmailPrefix(auth)]
  }

  /** `authUser?.email?.split("@")[0]` */
  function EmailPrefix(auth: Option<AuthUser>): string
  {
    Split(AuthRow(auth).email, '@')[0]
  }

  /** The `userData` record of the fetch. */
  function DefaultUserData(userId: string, profile: Option<Profile>, auth: Option<AuthUser>): (u: UserData)
    ensures u.id == userId
    ensures u.ownerName != "" && u.gymName != "" && u.role != ""
    ensures u.ownerName == "User" || u.ownerName in OwnerNameCandidates(profile, auth)
    ensures ProfileRow(profile).owner_name != "" ==> u.ownerName == ProfileRow(profile).owner_name
    ensures ProfileRow(profile).owner_name == "" && AuthRow(auth).metadata_name != "" ==>
      u.ownerName == AuthRow(auth).metadata_name
    ensures (ProfileRow(profile).owner_name == "" && AuthRow(auth).metadata_name == "" && EmailPrefix(auth) != "") ==>
      u.ownerName == EmailPrefix(auth)
    ensures (ProfileRow(profile).owner_name == "" && AuthRow(auth).metadata_name == "" && EmailPrefix(auth) == "") ==>
      u.ownerName == "User"
    ensures ProfileRow(profile).gym_name != "" ==> u.gymName == ProfileRow(profile).gym_name
    ensures ProfileRow(profile).gym_name == "" ==> u.gymName == "My Gym"
    ensures ProfileRow(profile).role != "" ==> u.role == ProfileRow(profile).role
    ensures ProfileRow(profile).role == "" ==> u.role == "owner"
    ensures ProfileRow(profile).email != "" ==> u.email == ProfileRow(profile).email
    ensures ProfileRow(profile).email == "" ==> u.email == AuthRow(auth).email
    ensures u.phone == ProfileRow(profile).phone
  {
    var names := OwnerNameCandidates(profile, auth);
    var emails := [ProfileRow(profile).email, AuthRow(auth).email];
    assert emails[1] == AuthRow(auth).email;
    assert names[1] == AuthRow(auth).metadata_name && names[2] == EmailPrefix(auth);
    UserData(
      userId,
      FirstNonEmpty(names, "User"),
      FirstNonEmpty(emails, ""),
      ProfileRow(profile).phone,
      FirstNonEmpty([ProfileRow(profile).gym_name], "My Gym"),
      FirstNonEmpty([ProfileRow(profile).role], "owner"))
  }

  /** The snapshot the fetch returns (the staff list and the always-empty
      activity log are not part of this model). */
  datatype GymData = GymData(
    user: UserData,
    branches: seq<Branch>,
    currentBranch: Option<Branch>,
    members: seq<Member>,
    payments: seq<Payment>,
    plans: seq<Plan>,
    reminders: seq<Reminder>)

  /** `x.data || []`: a null list result reads as empty. */
  function OrEmpty<T>(s: Option<seq<T>>): seq<T>
  {
    if s.Some? then s.value else []
  }

  /** The fetcher, given what the six remote reads returned. */
  function Fetch(
    userId: string, profile: Option<Profile>, auth: Option<AuthUser>,
    branches: Option<seq<Branch>>, members: Option<seq<Member>>,
    payments: Option<seq<Payment>>, plans: Option<seq<Plan>>, today: int): (g: GymData)
    ensures g.branches == OrEmpty(branches) && g.payments == OrEmpty(payments) && g.plans == OrEmpty(plans)
    ensures |g.members| == |OrEmpty(members)|
    ensures forall i :: 0 <= i < |g.members| ==>
      g.members[i] == OrEmpty(members)[i].(status := MemberStatus(OrEmpty(members)[i].expiry_date, today))
    ensures g.user == DefaultUserData(userId, profile, auth)
  {
    var bs := OrEmpty(branches);
    var ms := WithStatus(OrEmpty(members), today);
    GymData(
      DefaultUserData(userId, profile, auth),
      bs,
      if bs == [] then None else Some(bs[0]),
      ms,
      OrEmpty(payments),
      OrEmpty(plans),
      CalculateReminders(ms, today))
  }

  /** The fetched snapshot is consistent: statuses agree with the classifier,
      the reminders are those of the fetched members, the current branch is
      the first branch, and the owner has a name. */
  lemma FetchConsistent(
    userId: string, profile: Option<Profile>, auth: Option<AuthUser>,
    branches: Option<seq<Branch>>, members: Option<seq<Member>>,
    payments: Option<seq<Payment>>, plans: Option<seq<Plan>>, today: int)
    ensures var g := Fetch(userId, profile, auth, branches, members, payments, plans, today);
      && |g.members| == |OrEmpty(members)|
      && (forall i :: 0 <= i < |g.members| ==> g.members[i].status == MemberStatus(g.members[i].expiry_date, today))
      && g.reminders == CalculateReminders(OrEmpty(members), today)
      && (g.currentBranch.None? <==> g.branches == [])
      && (g.currentBranch.Some? ==> g.currentBranch.value == g.branches[0])
      && g.user.ownerName != ""
  {
    var raw := OrEmpty(members);
    var ms := WithStatus(raw, today);
    RemindersIgnoreStatus(ms, raw, today);
  }
}
