/** The records the dashboard keeps: members, payments, plans, branches, the
    reminder worklist and the signed-in owner's profile.

    Optional text fields (`branch_id?`, `member_name?`, `payment_date?`, …)
    hold "" when absent: every place that reads one goes through `||`, `?.`
    or a truthiness test, and those treat "" and `undefined` alike. Calendar
    dates of a member are `CalDate`s; amounts and prices are integers. */
module Entities {
  import opened Text
  import opened Calendar

  datatype Status = Active | Expiring | Expired

  /** The status as the records spell it. */
  function StatusText(s: Status): string
  {
    match s
    case Active => "active"
    case Expiring => "expiring"
    case Expired => "expired"
  }

  datatype Member = Member(
    id: string,
    name: string,
    email: string,
    phone: string,
    plan_duration: int,
    joining_date: CalDate,
    expiry_date: CalDate,
    status: Status,
    branch_id: string,
    user_id: string)

  /** A payment's optional status; `NoStatus` is a record without one. */
  datatype PaymentStatus = Completed | Pending | Failed | NoStatus

  datatype Payment = Payment(
    id: string,
    member_id: string,
    member_name: string,
    amount: int,
    payment_date: string,
    payment_method: string,
    status: PaymentStatus,
    plan_name: string,
    branch_id: string,
    user_id: string,
    created_at: string)

  /** `payment_date || created_at || "1970-01-01"`: the date a payment is
      listed, sorted and grouped by. */
  function PaymentDay(p: Payment): (r: string)
    ensures r != ""
    ensures p.payment_date != "" ==> r == p.payment_date
    ensures p.payment_date == "" && p.created_at != "" ==> r == p.created_at
    ensures p.payment_date == "" && p.created_at == "" ==> r == "1970-01-01"
  {
    var candidates := [p.payment_date, p.created_at];
    assert candidates[1] == p.created_at;
    FirstNonEmpty(candidates, "1970-01-01")
  }

  datatype Plan = Plan(
    id: string,
    name: string,
    price: int,
    duration: int,
    features: seq<string>,
    branch_id: string,
    user_id: string)

  datatype Branch = Branch(id: string, owner_id: string, name: string, address: string, phone: string, is_main: bool)

  datatype Reminder = Reminder(id: string, member_name: string, daysLeft: int, plan: string, status: string)

  datatype UserData = UserData(id: string, ownerName: string, email: string, phone: string, gymName: string, role: string)

  /** The `get_user_profile` row; its text fields are "" when null. */
  datatype Profile = Profile(owner_name: string, email: string, phone: string, gym_name: string, role: string)

  /** The parts of the signed-in account the defaults read. */
  datatype AuthUser = AuthUser(id: string, email: string, metadata_name: string)
}
