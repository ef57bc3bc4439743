/** The dashboard's figures: the three member buckets, the revenue figure
    and the recent-activity feed. The buckets are meant to partition the
    members; as written, a member whose plan ends today falls in none of
    them (see `BucketsMissToday`), and `ExpiringMembersCorrected` is the
    bucket that closes the gap. `timeOf` stands for
    `new Date(text).getTime()`. */
module Dashboard {
  import opened Seqs
  import opened Text
  import opened Calendar
  import opened Entities
  import opened Lifecycle
  import opened PaymentsPage

  function IsExpiredOn(today: int): Member -> bool
  {
    (m: Member) => DayNumber(m.expiry_date) < today
  }

  function IsActiveOn(today: int): Member -> bool
  {
    (m: Member) => DaysLeft(m.expiry_date, today) > 7
  }

  /** `expiredMembers`: expiry date before today. */
  function ExpiredMembers(members: seq<Member>, today: int): (r: seq<Member>)
    ensures forall m :: m in r <==> m in members && DayNumber(m.expiry_date) < today
  {
    FilterIn(IsExpiredOn(today), members);
    Filter(IsExpiredOn(today), members)
  }

  /** `expiringMembers` as written: one to seven days left. */
  function ExpiringMembers(members: seq<Member>, today: int): (r: seq<Member>)
    ensures forall m :: m in r <==> m in members && 0 < DaysLeft(m.expiry_date, today) <= 7
  {
    FilterIn(Due(today), members);
    Filter(Due(today), members)
  }

  /** `activeMembers`: more than seven days left. */
  function ActiveMembers(members: seq<Member>, today: int): (r: seq<Member>)
    ensures forall m :: m in r <==> m in members && DaysLeft(m.expiry_date, today) > 7
  {
    FilterIn(IsActiveOn(today), members);
    Filter(IsActiveOn(today), members)
  }

  function EndsOn(today: int): Member -> bool
  {
    (m: Member) => DaysLeft(m.expiry_date, today) == 0
  }

  /** A bucket is exactly the members the classifier puts in that state
      (for the expiring bucket: minus those whose plan ends today). */
  lemma BucketsAgreeWithClassifier(members: seq<Member>, today: int, m: Member)
    ensures m in ExpiredMembers(members, today) <==> m in members && MemberStatus(m.expiry_date, today) == Expired
    ensures m in ActiveMembers(members, today) <==> m in members && MemberStatus(m.expiry_date, today) == Active
    ensures m in ExpiringMembers(members, today)
        <==> m in members && MemberStatus(m.expiry_date, today) == Expiring && DaysLeft(m.expiry_date, today) != 0
  {
    if m in members {
      if IsExpiredOn(today)(m) { FilterKeeps(IsExpiredOn(today), members, m); }
      if IsActiveOn(today)(m) { FilterKeeps(IsActiveOn(today), members, m); }
      if Due(today)(m) { FilterKeeps(Due(today), members, m); }
    }
  }

  /** The expiring bucket and the reminder worklist hold the same members:
      mapping the bucket to reminders gives the worklist before sorting, and
      the same reminders as the worklist. */
  lemma ExpiringBucketIsWorklist(members: seq<Member>, today: int)
    ensures MapSeq(AsReminder(today), ExpiringMembers(members, today)) == DueReminders(members, today)
    ensures multiset(MapSeq(AsReminder(today), ExpiringMembers(members, today)))
         == multiset(CalculateReminders(members, today))
  {
  }

  /** No two buckets share a member. */
  lemma BucketsDisjoint(members: seq<Member>, today: int, m: Member)
    ensures !(m in ExpiredMembers(members, today) && m in ExpiringMembers(members, today))
    ensures !(m in ExpiredMembers(members, today) && m in ActiveMembers(members, today))
    ensures !(m in ExpiringMembers(members, today) && m in ActiveMembers(members, today))
  {
    BucketsAgreeWithClassifier(members, today, m);
  }

  /** The bucket sizes add up to the member count minus the members whose
      plan ends today. */
  lemma {:induction false} BucketCount(members: seq<Member>, today: int)
    ensures |ExpiredMembers(members, today)| + |ExpiringMembers(members, today)| + |ActiveMembers(members, today)|
            + |Filter(EndsOn(today), members)| == |members|
  {
    if members != [] {
      BucketCount(members[1..], today);
    }
  }

  /** The claim that the buckets add up to the member count holds exactly
      when no member's plan ends today. */
  lemma BucketsAddUpIff(members: seq<Member>, today: int)
    ensures |ExpiredMembers(members, today)| + |ExpiringMembers(members, today)| + |ActiveMembers(members, today)| == |members|
        <==> forall i :: 0 <= i < |members| ==> DaysLeft(members[i].expiry_date, today) != 0
  {
    BucketCount(members, today);
    if forall i :: 0 <= i < |members| ==> DaysLeft(members[i].expiry_date, today) != 0 {
      FilterNone(EndsOn(today), members);
    } else {
      var i :| 0 <= i < |members| && DaysLeft(members[i].expiry_date, today) == 0;
      FilterKeeps(EndsOn(today), members, members[i]);
    }
  }

  /** The counterexample: one member whose plan ends today is counted in no
      bucket, so the three figures add up to 0 out of 1. */
  lemma BucketsMissToday(m: Member, today: int)
    requires DaysLeft(m.expiry_date, today) == 0
    ensures ExpiredMembers([m], today) == [] && ExpiringMembers([m], today) == [] && ActiveMembers([m], today) == []
    ensures MemberStatus(m.expiry_date, today) == Expiring
  {
    assert !IsExpiredOn(today)(m) && !Due(today)(m) && !IsActiveOn(today)(m);
  }

  /** The expiring bucket as the classifier defines it: zero to seven days
      left. */
  function ExpiringMembersCorrected(members: seq<Member>, today: int): seq<Member>
  {
    Filter((m: Member) => MemberStatus(m.expiry_date, today) == Expiring, members)
  }

  /** With the corrected bucket the three buckets partition the members. */
  lemma {:induction false} CorrectedBucketsPartition(members: seq<Member>, today: int)
    ensures |ExpiredMembers(members, today)| + |ExpiringMembersCorrected(members, today)| + |ActiveMembers(members, today)|
         == |members|
    ensures forall m :: m in members ==>
      (m in ExpiredMembers(members, today)) || (m in ExpiringMembersCorrected(members, today)) || (m in ActiveMembers(members, today))
  {
    if members != [] {
      CorrectedBucketsPartition(members[1..], today);
    }
    forall m | m in members
      ensures (m in ExpiredMembers(members, today)) || (m in ExpiringMembersCorrected(members, today)) || (m in ActiveMembers(members, today))
    {
      var s := MemberStatus(m.expiry_date, today);
      if s == Expired {
        FilterKeeps(IsExpiredOn(today), members, m);
      } else if s == Active {
        FilterKeeps(IsActiveOn(today), members, m);
      } else {
        FilterKeeps((m: Member) => MemberStatus(m.expiry_date, today) == Expiring, members, m);
      }
    }
  }

  /** The "Monthly Revenue" figure: every completed payment, of any date. */
  function MonthlyRevenue(payments: seq<Payment>): (r: int)
    ensures r == SumBy(payments, CompletedAmount)
  {
    CompletedSum(payments);
    TotalWithStatus(payments, Completed)
  }

  /** What one payment adds to the revenue figure. */
  function CompletedAmount(p: Payment): int
  {
    if p.status == Completed then p.amount else 0
  }

  /** The completed total counts each completed payment once and nothing
      else. */
  lemma CompletedSum(payments: seq<Payment>)
    ensures TotalWithStatus(payments, Completed) == SumBy(payments, CompletedAmount)
  {
    var c := HasPaymentStatus(Completed);
    SumFilter(c, payments, Amount);
    SumCongruent(payments, Masked(c, Amount), CompletedAmount);
  }

  // ---------------------------------------------------------------------
  // The recent-activity feed.

  datatype Activity = Activity(id: string, kind: string, text: string, time: string)

  function MemberJoined(m: Member): Activity
  {
    Activity("member-" + m.id, "member", m.name + " joined", DateText(m.joining_date))
  }

  function PaymentMade(p: Payment): Activity
  {
    Activity("payment-" + p.id, "payment",
             "Payment of \U{20B9}" + IntToString(p.amount) + " from " + FirstNonEmpty([p.member_name], "Unknown"),
             PaymentDay(p))
  }

  function Latest(timeOf: string -> int): Activity -> int
  {
    (a: Activity) => -timeOf(a.time)
  }

  /** The feed before sorting: the last three members, then the last three
      payments. */
  function ActivityPool(members: seq<Member>, payments: seq<Payment>): seq<Activity>
  {
    MapSeq(MemberJoined, LastN(members, 3)) + MapSeq(PaymentMade, LastN(payments, 3))
  }

  /** `recentActivities`: the pool, newest first, cut to five. */
  function RecentActivities(members: seq<Member>, payments: seq<Payment>, timeOf: string -> int): (r: seq<Activity>)
    ensures |r| <= 5
    ensures multiset(r) <= multiset(ActivityPool(members, payments))
  {
    var sorted := SortBy(ActivityPool(members, payments), Latest(timeOf));
    var r := Take(sorted, 5);
    assert multiset(sorted) == multiset(r) + multiset(sorted[|r|..]);
    r
  }

  /** The feed holds at most five entries, newest first. */
  lemma RecentActivitiesOrdered(members: seq<Member>, payments: seq<Payment>, timeOf: string -> int)
    ensures var r := RecentActivities(members, payments, timeOf);
      && |r| == (if |ActivityPool(members, payments)| <= 5 then |ActivityPool(members, payments)| else 5)
      && (forall i, j :: 0 <= i < j < |r| ==> timeOf(r[i].time) >= timeOf(r[j].time))
  {
    var pool := ActivityPool(members, payments);
    var sorted := SortBy(pool, Latest(timeOf));
    var r := RecentActivities(members, payments, timeOf);
    SortBySorted(pool, Latest(timeOf));
    assert sorted == r + sorted[|r|..];
    forall i, j | 0 <= i < j < |r| ensures timeOf(r[i].time) >= timeOf(r[j].time) {
      assert r[i] == sorted[i] && r[j] == sorted[j];
      assert Latest(timeOf)(sorted[i]) <= Latest(timeOf)(sorted[j]);
    }
  }

  /** Every entry is the join of one of the last three members or one of the
      last three payments. */
  lemma RecentActivitiesDrawn(members: seq<Member>, payments: seq<Payment>, timeOf: string -> int, a: Activity)
    requires a in RecentActivities(members, payments, timeOf)
    ensures (exists m :: m in LastN(members, 3) && a == MemberJoined(m))
         || (exists p :: p in LastN(payments, 3) && a == PaymentMade(p))
  {
    var pool := ActivityPool(members, payments);
    var sorted := SortBy(pool, Latest(timeOf));
    assert sorted == RecentActivities(members, payments, timeOf) + sorted[|RecentActivities(members, payments, timeOf)|..];
    assert a in multiset(sorted);
    assert a in pool;
    PoolDrawn(members, payments, a);
  }

  lemma PoolDrawn(members: seq<Member>, payments: seq<Payment>, a: Activity)
    requires a in ActivityPool(members, payments)
    ensures (exists m :: m in LastN(members, 3) && a == MemberJoined(m))
         || (exists p :: p in LastN(payments, 3) && a == PaymentMade(p))
  {
    var ms, ps := MapSeq(MemberJoined, LastN(members, 3)), MapSeq(PaymentMade, LastN(payments, 3));
    if a in ms {
      var i :| 0 <= i < |ms| && ms[i] == a;
      assert LastN(members, 3)[i] in LastN(members, 3);
    } else {
      var i :| 0 <= i < |ps| && ps[i] == a;
      assert LastN(payments, 3)[i] in LastN(payments, 3);
    }
  }

  /** The feed is the newest part of the pool: whatever of the pool it
      leaves out is no newer than its last entry. */
  lemma RecentActivitiesNewest(members: seq<Member>, payments: seq<Payment>, timeOf: string -> int)
    ensures var r := RecentActivities(members, payments, timeOf);
      r != [] ==> forall a :: a in multiset(ActivityPool(members, payments)) - multiset(r) ==>
        timeOf(a.time) <= timeOf(r[|r| - 1].time)
  {
    var pool := ActivityPool(members, payments);
    var sorted := SortBy(pool, Latest(timeOf));
    SortBySorted(pool, Latest(timeOf));
    TakeSorted(sorted, Latest(timeOf), 5);
  }
}
