# MuscleDesk membership and bookkeeping core, in Dafny

MuscleDesk is a gym dashboard. Its data hook fetches a gym's members,
payments, plans and branches. It gives every member a status from the days
left until expiry: expired, expiring or active. It derives a reminder
worklist of the members whose plan ends within a week. A `dispatch`
function applies the owner's edits to the cached state, first
optimistically and then with the server's echo. The pages compute over
those lists:

- the dashboard buckets, revenue figure and recent-activity feed;
- member and payment search, filters and sorting;
- the plan feature parser;
- reminder selection and message templates;
- the CSV export of the settings page.

This project models that core and proves what its code promises.

- **Dates.** Member dates are calendar dates (`Calendar.CalDate`). They are
  counted as day numbers from 1970-01-01. "Today" is a parameter `today`,
  a day number. Days left is the expiry's day number minus `today`.
- **Month arithmetic.** `Calendar.AddMonths` is JavaScript's `setMonth`: a
  day the target month lacks rolls into the following month.
- **Payment dates.** Payment dates stay texts. Where the code orders them
  by `new Date(text).getTime()`, that conversion is a parameter
  `timeOf: string -> int`.
- **Absent values.** Optional texts (`undefined`/`null`) are the empty
  text. Every use in the code goes through `||`, which treats both alike.
- **Echoes.** A remote call's result is an input: `Echo(record)` for the
  server's copy of a record, or `Failure`.
- **The store.** `Store.GymStore` is a class holding the cached lists. It
  has one method per `dispatch` action. On failure the optimistic state
  stays and a refetch is requested (`refetchRequested`). On success the
  final write is built from the snapshot taken before the optimistic write,
  as the code's `data` is.
- **Integers.** Amounts, prices and durations are integers.
- **Text case.** Case folding and trimming cover ASCII only.

Modules follow the program:

| module | covers |
|---|---|
| `Seqs`, `Text` | JavaScript's array and string operations (`filter`, `map`, stable `sort`, `slice`, `split`, `join`, `includes`, `replace`, `trim`, `\|\|` chains) |
| `Calendar` | dates, `setMonth` and the `YYYY-MM-DD` text |
| `Entities` | the records |
| `Lifecycle` | classifier, reminders, fetch |
| `Store` | `dispatch` |
| `Dashboard`, `MembersPage`, `PaymentsPage`, `PlansPage`, `RemindersPage` | the pages |
| `Json`, `Export` | the CSV export |

## Model

| member | source | states |
|---|---|---|
| Lifecycle.ClassifyDays | hooks/useGymData.ts:101-111 | The classifier is total and exclusive: expired exactly when days left < 0, expiring exactly when 0 <= days left <= 7, active exactly when days left > 7. |
| Lifecycle.MemberStatus | hooks/useGymData.ts:101-111 | A member is expired exactly when its expiry day lies before today, expiring exactly when it lies in today..today + 7, and active exactly when it lies after today + 7. |
| Lifecycle.PlanLabel | hooks/useGymData.ts:132 | The plan label is "1 month" for one month and "N months" for N > 1. Otherwise it has no plural "s". |
| Lifecycle.CalculateReminders | hooks/useGymData.ts:113-137 | There are never more reminders than members. |
| Lifecycle.InDueReminders | hooks/useGymData.ts:117-136 | The sort keeps exactly the reminders produced by the filter and map. |
| Lifecycle.RemindersSound | hooks/useGymData.ts:117-134 | Every reminder belongs to a member in the window 0 < days left <= 7. It copies that member's id, name, days left and plan label. Its daysLeft lies in 1..7 and its status is "pending". |
| Lifecycle.RemindersComplete | hooks/useGymData.ts:117-134 | Every member in the window has its reminder in the list. |
| Lifecycle.ExpiringTodayHasNoReminder | hooks/useGymData.ts:101-123 | A member whose plan ends today is classified expiring but gets no reminder. |
| Lifecycle.RemindersSorted | hooks/useGymData.ts:136 | The worklist is in ascending order of days left. |
| Lifecycle.RemindersStable | hooks/useGymData.ts:117-136 | The reminders with d days left are those members' reminders in input order, so ties keep the members' order. There are none for d outside 1..7. |
| Lifecycle.DueRemindersWithDays | hooks/useGymData.ts:117-135 | The same holds for the unsorted filter-and-map list. |
| Lifecycle.RemindersIgnoreStatus | hooks/useGymData.ts:189-195 | The worklist does not depend on the stored status. Computing it from the status-remapped members gives the same list as from the raw rows. |
| Lifecycle.JanuaryMember | hooks/useGymData.ts:101-137 | Example: a one-month plan joined on 1 January of any year expires on 1 February. On 28 January that member has 4 days left, is expiring, and is the single reminder (4 days, "1 month", "pending"). |
| Lifecycle.WithStatus | hooks/useGymData.ts:189-192 | After the fetch every member's status is the classifier's verdict on its expiry date. The list length and every other field are unchanged. |
| Lifecycle.DefaultUserData | hooks/useGymData.ts:197-204 | The owner name, gym name and role are never empty. The owner name is the profile name when that is non-empty. Else it is the metadata name when that is non-empty. Else it is the sign-in e-mail text before the first "@" when that is non-empty. Else it is "User". A non-empty profile gym name, role and e-mail are kept. An empty gym name becomes "My Gym", an empty role "owner", and an empty profile e-mail the sign-in e-mail. The phone is the profile phone. |
| Lifecycle.FetchConsistent | hooks/useGymData.ts:185-216 | The fetched snapshot is consistent. Statuses agree with the classifier. The reminders are those of the fetched members. The current branch is the first branch, or none when there are none. The owner has a name. |
| Lifecycle.Fetch | hooks/useGymData.ts:170-216 | A failed or empty query gives an empty list. Branches, payments and plans are the rows as fetched. Member i is the fetched row i with its status set by the classifier, and no other change. The owner record is the defaulted user data. |
| Text.FirstNonEmpty | hooks/useGymData.ts:199 | A `\|\|` chain over texts yields the first non-empty candidate, or the fallback when all are empty. |
| Text.ReplaceFirstAt | components/pages/Reminders.tsx:27-28 | When the pattern first occurs after `a`, `replace` gives `a`, then the expanded replacement, then the rest after the pattern. |
| Text.SubstitutionPlain | components/pages/Reminders.tsx:27-28 | A replacement text without "$" is inserted as it is. |
| Text.SubstitutionPatterns | components/pages/Reminders.tsx:27-28 | "$$" stands for "$", "$&" for the match, "$`" for the text before it, "$'" for the text after it, and "$1" is copied as it is. |
| Entities.PaymentDay | components/pages/Settings.tsx:148 | `payment_date \|\| created_at \|\| "1970-01-01"` is never empty. It is the payment date when there is one, else the creation date, else 1970-01-01. |
| Store.GymStore.constructor | hooks/useGymData.ts:314-326 | The store starts with the fetched snapshot's lists and no pending refetch. |
| Store.GymStore.Revalidate | hooks/useGymData.ts:648-654 | A revalidation replaces every list by a fresh snapshot and clears the pending refetch. |
| Store.GymStore.RecomputeReminders | hooks/useGymData.ts:360-366 | The reminders become the worklist of the current members. Nothing else changes. |
| Store.GymStore.AddMember | hooks/useGymData.ts:339-397 | Logged out, nothing changes. Otherwise the new member is put first and the reminders are recomputed. On failure the optimistic member stays and a refetch is requested. On success the optimistic entry is replaced by the echo, which gets the classifier's status. Payments, plans and branches are unchanged. |
| Store.GymStore.UpdateMember | hooks/useGymData.ts:399-446 | Only members with the given id change. The optimistic merge sets name, e-mail, phone and status. On success the echo replaces the matching member. The reminders are recomputed. The other lists are unchanged. |
| Store.GymStore.DeleteMember | hooks/useGymData.ts:448-466 | The members with that id are removed and the rest keep their order. The reminders are recomputed. A failure requests a refetch. |
| Store.GymStore.AddPayment | hooks/useGymData.ts:468-525 | With no member of that name, or when logged out, nothing changes. Otherwise a completed payment for the first namesake is put first, then replaced by the echo on success. Members and reminders are unchanged. |
| Store.GymStore.AddPlan | hooks/useGymData.ts:527-574 | The new plan goes first. On success the echo replaces the optimistic plan. |
| Store.GymStore.UpdatePlan | hooks/useGymData.ts:576-611 | Only plans with the given id change: they are merged with the form, or replaced by the echo. |
| Store.GymStore.DeletePlan | hooks/useGymData.ts:613-628 | Exactly the plans with that id are removed. |
| Store.GymStore.SwitchBranch | hooks/useGymData.ts:630-643 | An unknown branch id leaves the state unchanged. A known one becomes the current branch. Nothing else changes. |
| Store.DeleteMemberExact | hooks/useGymData.ts:449 | The filter removes exactly the members with that id. The result is a subsequence of the input, and is the input itself when no member has that id. |
| Store.UpdateMemberFrame | hooks/useGymData.ts:404-406 | The merge keeps the length. Members with another id are untouched. A matching member takes the form's name, e-mail and phone and the new status, and keeps all its other fields. |
| Store.AddMemberFinalSwapsHead | hooks/useGymData.ts:384-386 | The final member list equals the optimistic list with its head replaced by the echo. |
| Dashboard.BucketsAgreeWithClassifier | components/pages/Dashboard.tsx:16-38 | The expired bucket is exactly the classifier's expired members and the active bucket its active members. The expiring bucket is its expiring members minus those whose plan ends today. |
| Dashboard.ExpiredMembers | components/pages/Dashboard.tsx:16-21 | A member is in the expired bucket exactly when its expiry day lies before today. |
| Dashboard.ExpiringMembers | components/pages/Dashboard.tsx:23-30 | A member is in the expiring bucket exactly when it has 1 to 7 days left. |
| Dashboard.ActiveMembers | components/pages/Dashboard.tsx:32-38 | A member is in the active bucket exactly when it has more than 7 days left. |
| Dashboard.ExpiringBucketIsWorklist | components/pages/Dashboard.tsx:23-30 | The expiring bucket is the same member set the reminder worklist is built from. |
| Dashboard.BucketsDisjoint | components/pages/Dashboard.tsx:13-38 | No member is in two buckets. |
| Dashboard.BucketCount | components/pages/Dashboard.tsx:16-38 | The three bucket sizes plus the number of members whose plan ends today equal the member count. |
| Dashboard.BucketsAddUpIff | components/pages/Dashboard.tsx:16-40 | The buckets add up to the member count if and only if no member's plan ends today. |
| Dashboard.BucketsMissToday | components/pages/Dashboard.tsx:16-40 | A member whose plan ends today is in no bucket, although the classifier calls that member expiring. |
| Dashboard.CorrectedBucketsPartition | components/pages/Dashboard.tsx:13-38 | With the expiring bucket taken as 0..7 days left, every member is in a bucket and the sizes add up to the member count. |
| Dashboard.MonthlyRevenue | components/pages/Dashboard.tsx:117-119 | The "Monthly Revenue" figure is the sum, over all payments, of the amount of each completed payment and 0 for the others. There is no date restriction. |
| Dashboard.CompletedSum | components/pages/Dashboard.tsx:117-119 | The figure equals the "completed" total of the payments page. |
| Dashboard.RecentActivitiesOrdered | components/pages/Dashboard.tsx:126-145 | The feed has min(5, pool size) entries, in non-increasing order of time. |
| Dashboard.RecentActivitiesDrawn | components/pages/Dashboard.tsx:126-145 | Every feed entry is a join of one of the last 3 members or a payment among the last 3 payments. |
| Dashboard.PoolDrawn | components/pages/Dashboard.tsx:126-143 | The merged pool holds only those two kinds of entry. |
| Dashboard.RecentActivities | components/pages/Dashboard.tsx:126-145 | The feed holds at most 5 entries, and every entry is taken from the pool, each no more often than it occurs there. |
| Dashboard.RecentActivitiesNewest | components/pages/Dashboard.tsx:126-145 | The feed is the newest part of the pool: every pool entry left out is no newer than the feed's last entry. |
| MembersPage.ContainsEmpty | components/pages/Members.tsx:53-56 | Every text includes the empty text, so an empty search matches every member. |
| MembersPage.FilteredMembersSpec | components/pages/Members.tsx:52-59 | A member is listed exactly when it matches the search and the status filter. The list is a subsequence of the members. Under a status filter every result has that status. An empty search with "all" lists every member in order. |
| MembersPage.FilteredMembers | components/pages/Members.tsx:52-59 | A member is listed exactly when it is one of the members, matches the search and passes the status filter. |
| MembersPage.SearchIgnoresCase | components/pages/Members.tsx:53-56 | Name and e-mail match whatever the case of the term or the field. |
| MembersPage.MemberEntry | components/pages/Members.tsx:61-103 | An add or edit is dispatched exactly when name, e-mail and phone are non-empty and the joining date reads as a real date. The form carries expiry = joining date plus the plan's months. An editing id makes it an update of that id. |
| MembersPage.MemberEntryLength | components/pages/Members.tsx:64-66 | A plan of n months lasts between 28n and 31n days. |
| MembersPage.RenewalDates | components/pages/Members.tsx:144-151 | A renewal starts today and expires the plan's months after today. |
| MembersPage.RenewedIsActive | components/pages/Members.tsx:144-151 | A renewed plan of at least one month is active today. |
| MembersPage.CanRenew | components/pages/Members.tsx:281 | The renew button is shown exactly for members whose status is expired or expiring. |
| MembersPage.CanRenewAfterFetch | components/pages/Members.tsx:281 | The renew action is offered exactly for members with at most 7 days left, that is, those not classified active. |
| Calendar.AddMonths | components/pages/Members.tsx:64-66 | The result is a valid date. It keeps the day of the month when the target month has it. |
| Calendar.AddMonthsDayNumber | components/pages/Members.tsx:64-66 | The result has the day number of year/month + n/day, with the month and day allowed to overflow, as `setMonth` computes it. |
| Calendar.AddMonthsLength | components/pages/Members.tsx:64-66 | Adding n months moves forward between 28n and 31n days. |
| Calendar.DateTextRoundTrip | components/pages/Members.tsx:68 | The `YYYY-MM-DD` text of a date in the years 0-9999 has 10 characters and reads back as that date. |
| PaymentsPage.TotalWithStatusCons | components/pages/Payments.tsx:43-44 | A status total grows by a payment's amount exactly when the payment has that status. |
| PaymentsPage.TotalWithStatus | components/pages/Payments.tsx:43-44 | A status total is the sum over all payments of the amount of each payment with that status and 0 for the others. |
| PaymentsPage.TotalsPartition | components/pages/Payments.tsx:43-44 | The completed, pending, failed and status-less totals add up to the sum of all amounts. |
| PaymentsPage.OtherStatusesDoNotCount | components/pages/Payments.tsx:43-44 | Failed payments and payments without a status count in neither the completed nor the pending total. |
| PaymentsPage.FilteredPaymentsSpec | components/pages/Payments.tsx:46-54 | A payment is listed exactly when it passes the method filter and the search. The list is a subsequence. A method filter other than "all" keeps only that method. "all" with an empty term keeps every payment. |
| PaymentsPage.FilteredPayments | components/pages/Payments.tsx:46-54 | A payment is listed exactly when it is one of the payments, passes the method filter and matches the search. |
| PaymentsPage.SortedPayments | components/pages/Payments.tsx:56-60 | The sorted list is a permutation of the filtered list. |
| PaymentsPage.SortedPaymentsSpec | components/pages/Payments.tsx:56-60 | The sorted list is newest first by `payment_date \|\| created_at \|\| "1970-01-01"`. Payments with equal times keep their order. |
| PaymentsPage.PaymentEntry | components/pages/Payments.tsx:62-75 | A payment is dispatched exactly when the selected id belongs to a member and the amount is positive. It carries the name of the first member with that id, and the form's amount, method, plan and date. |
| PlansPage.ParseFeaturesClean | components/pages/Plans.tsx:17-20 | Parsed features are non-empty, trimmed and comma-free. There are no more of them than comma-separated pieces. |
| PlansPage.ParseFeatures | components/pages/Plans.tsx:17-20 | A text is a parsed feature exactly when it is non-empty and some comma-separated piece trims to it. The features keep the order of the pieces. |
| PlansPage.ParseEmpty | components/pages/Plans.tsx:17-20 | An empty features field parses to no features. |
| PlansPage.ParseJoin | components/pages/Plans.tsx:17-20 | Joining trimmed, non-empty, comma-free features with ", " (as line 56 does) and parsing the result gives the same list. |
| PlansPage.PlanEntry | components/pages/Plans.tsx:15-47 | A plan is submitted exactly when the name is non-empty and the price is non-zero. The form carries the parsed features. An editing id makes it an update. |
| PlansPage.EditRoundTrip | components/pages/Plans.tsx:52-58 | Editing a plan and submitting it unchanged dispatches an update with the same name, price, duration and features. |
| RemindersPage.ToggleFlips | components/pages/Reminders.tsx:21-23 | Toggling an id flips its membership of the selection. Every other id keeps its membership. |
| RemindersPage.Toggle | components/pages/Reminders.tsx:21-23 | Toggling a selected id leaves exactly the other selected ids. Toggling an unselected id appends it at the end. |
| RemindersPage.ToggleTwice | components/pages/Reminders.tsx:21-23 | An absent id is appended at the end. Toggling it twice restores the selection. |
| RemindersPage.ToggleKeepsNoDuplicates | components/pages/Reminders.tsx:21-23 | A selection without duplicates stays without duplicates. |
| RemindersPage.FillTemplate | components/pages/Reminders.tsx:25-29 | In a template `a{name}b{days}c` whose `a` and `b` hold no "{", only the first "{name}" and then the first "{days}" are replaced. Each replacement text goes in with its "$" patterns expanded as `replace` does, provided the expanded name brings no "{". |
| RemindersPage.Preview | components/pages/Reminders.tsx:14-29 | When the inserted name brings no "{", the preview is "Hi ", then the first name (the text before the first space, its "$" patterns expanded), then the rest of the chosen template. In the renewal template the decimal days left stand in place of "{days}". |
| RemindersPage.PreviewName | components/pages/Reminders.tsx:27 | A first name without "$" is inserted as it is. |
| RemindersPage.DollarAmpersandName | components/pages/Reminders.tsx:27 | Example: the name "A$&b Lee" is inserted as "A{name}b", since "$&" stands for the matched "{name}". |
| RemindersPage.DollarDollarName | components/pages/Reminders.tsx:27 | Example: the name "$$ Lee" is inserted as "$". |
| RemindersPage.PreviewPanel | components/pages/Reminders.tsx:133 | With no reminders the panel shows "Select a member to preview". Otherwise it shows the preview of the first reminder. |
| RemindersPage.PreviewPanelOfWorklist | components/pages/Reminders.tsx:133 | For a non-empty worklist the panel previews the first displayed reminder, which has the fewest days left. |
| RemindersPage.DisplayOrder | components/pages/Reminders.tsx:76-77 | The displayed list is a permutation of the reminders in ascending order of days left. |
| RemindersPage.DisplayOrderStable | components/pages/Reminders.tsx:76-77 | The sort is stable: reminders with the same days left keep their input order. |
| RemindersPage.DisplayOrderOfWorklist | components/pages/Reminders.tsx:76-77 | Displaying the worklist leaves its order as it is. |
| RemindersPage.Send | components/pages/Reminders.tsx:31-34 | Sending clears the selection. The message is "Reminders sent to 1 member" for one selected member and "Reminders sent to N members" for N > 1 (and "0 member" for none, as the template builds it). |
| RemindersPage.SentMessageWording | components/pages/Reminders.tsx:31-34 | With the button enabled (a non-empty selection), the message is never "Reminders sent to 0 member": it says "1 member" for one selection and "N members" for more. |
| Json.EscapeChar | components/pages/Settings.tsx:92 | An escaped character holds no control character, and a plain printable character stands for itself. |
| Json.Quote | components/pages/Settings.tsx:92 | `JSON.stringify` of a text lies between quotes and holds no control character. |
| Json.QuoteHasNoLineBreak | components/pages/Settings.tsx:92 | An encoded value never holds a raw line feed or carriage return. |
| Json.EscapeRoundTrip | components/pages/Settings.tsx:92 | Undoing the escapes of RFC 8259 section 7 gives the text back. |
| Json.QuoteRoundTrip | components/pages/Settings.tsx:92 | Decoding an encoded value gives the text back. |
| Export.Cell | components/pages/Settings.tsx:92 | Falsy values (undefined, "", 0) become `""`. A text decodes back from its cell. A non-zero number reads back from its numeral. No cell holds a line feed. |
| Export.Lookup | components/pages/Settings.tsx:92 | `row[header]` is the value of the field of that name, or undefined when the row has none. |
| Export.Csv | components/pages/Settings.tsx:82-93 | No rows give no file ("No data to export"). Otherwise there is always a file. |
| Export.CsvLines | components/pages/Settings.tsx:89-93 | The file reads back as the first row's keys joined by ",", followed by one line per row in order: exactly data.length + 1 lines. |
| Export.LineOfOwnFields | components/pages/Settings.tsx:92 | A row with exactly the header fields is written as its own values, one per header, in header order. |
| Export.UniformExport | components/pages/Settings.tsx:89-93 | Rows sharing distinct header names give a header line that splits back into those names, and line i + 1 holds row i's encoded values. |
| Export.ShapedExport | components/pages/Settings.tsx:89-93 | Rows shaped by one record shaper give no file for no records. Otherwise they give one line per record under that shaper's headers. |
| Export.MemberRow | components/pages/Settings.tsx:109-118 | A member's export row has the fields Name, Email, Phone, Duration, Status, JoinDate and ExpiryDate, in that order. |
| Export.PaymentRow | components/pages/Settings.tsx:122-129 | A payment's export row has the fields MemberName, Amount, Date, Mode and Status. |
| Export.PlanRow | components/pages/Settings.tsx:133-139 | A plan's export row has the fields Name, Price, Duration and Features, in that order. |
| Export.RevenueRow | components/pages/Settings.tsx:153-156 | A revenue row has the fields Month and Revenue. |
| Export.MemberCells | components/pages/Settings.tsx:110-118 | Each cell of a member's line reads back as its field. Name, e-mail, phone and status decode as those texts. The duration decodes as a numeral that reads as the plan's months followed by " months". A date of the years 0-9999 decodes as its `YYYY-MM-DD` text, which reads back as the date. |
| Export.PaymentCells | components/pages/Settings.tsx:123-129 | Each cell of a payment's line reads back as its field: the member name, date and mode as those texts, and a non-zero amount as its numeral. A status decodes as "completed", "pending" or "failed". An amount of 0 and a missing status are written as `""`. |
| Export.PlanCells | components/pages/Settings.tsx:134-139 | Each cell of a plan's line reads back as its field. A non-zero price reads as its numeral, a zero price is `""`, the duration is the days' numeral followed by " days", and the features are their "; "-joined text. |
| Export.CountCell | components/pages/Settings.tsx:114 | A cell written as a number and a unit decodes and reads back as that number. |
| Export.DateCell | components/pages/Settings.tsx:116-117 | A date cell of the years 0-9999 reads back as the date. |
| Export.MembersExport | components/pages/Settings.tsx:109-119 | The members file is refused for no members. Otherwise it has \|members\| + 1 lines under the seven headers. |
| Export.PaymentsExport | components/pages/Settings.tsx:122-130 | The same holds for payments under their five headers. |
| Export.PlansExport | components/pages/Settings.tsx:133-140 | The same holds for plans under their four headers. |
| Export.MonthTotals | components/pages/Settings.tsx:145-151 | The `forEach` pass yields the months in first-appearance order, each with the sum of its payments. |
| Export.MonthlyRevenue | components/pages/Settings.tsx:143-156 | The revenue table is one entry per month of a completed payment, in first-appearance order, each with its month total. |
| Export.ExportRevenue | components/pages/Settings.tsx:143-158 | The revenue file is the CSV of that table. |
| Export.MonthTotalAbsent | components/pages/Settings.tsx:150 | A month no payment has totals 0. |
| Export.MonthsDistinct | components/pages/Settings.tsx:144-153 | No month appears twice in the revenue table. |
| Export.MonthsCover | components/pages/Settings.tsx:144-153 | A month is in the table exactly when some payment falls in it. |
| Export.MonthTotalIsSum | components/pages/Settings.tsx:150 | A month's running total is the sum of the amounts of that month's payments. |
| Export.RevenueSum | components/pages/Settings.tsx:143-156 | The table's revenues add up to the total of completed payments. |
| Export.RevenueEntriesSpec | components/pages/Settings.tsx:143-156 | The entries' months are distinct. Each revenue is the sum of the completed payments of its month, keyed by the first 7 characters of the payment's date. |
| Export.RevenueMonthsCover | components/pages/Settings.tsx:146-153 | A month has an entry exactly when a completed payment falls in it. Only completed payments count. |

## Left out

- Remote calls, the SWR cache and the realtime subscription are not modelled. The Supabase queries, the RPCs, `mutate` and the toasts are network I/O. A remote result is an input to the store methods (`Reply`, or the `failed` flag for deletes). The interleaving of the optimistic and final writes is not modelled.
- The ambient clock is not read. `today` (and the `YYYY-MM-DD` text of today for ADD_PAYMENT) is a parameter. `Date.now()` in temporary ids is a `tempId` parameter.
- Local-time effects of JavaScript dates are not modelled: `setHours` against UTC parsing, daylight-saving offsets in `Math.ceil(ms / 86400000)`, and the UTC shift of `toISOString`. Days are whole day numbers.
- The parse of a member's `expiry_date` text is not modelled, and neither is the NaN status of an unparsable date. Member dates are held as calendar dates.
- Payment and activity times are integers from `timeOf`, so they are never NaN. In JavaScript `new Date(text).getTime()` is NaN for an unparsable text. The comparators of Payments.tsx:56-60 and Dashboard.tsx:143 then return NaN, which `sort` reads as 0, so the order is implementation-defined. That case is not modelled.
- Renewal through `dispatch` is not modelled: `handleRenewMember` sends snake_case keys that UPDATE_MEMBER does not read, so the status is computed from an invalid date. `MembersPage.RenewalDates` gives only the dates the renewal computes.
- The status that `handleAddMember` computes locally and never uses is left out.
- The payload status of ADD_PAYMENT is ignored by the code, and here too. The payment is always "completed".
- Store.GymStore.UpdateMember: only the camelCase payload of the member form is modelled.
- The staff list and the always-empty activity log of the fetch are not part of this model. No modelled operation reads them.
- Amounts, prices and durations are integers. Floating point, `NaN` from arithmetic on a missing amount, and `toLocaleString` formatting are left out.
- Case folding and trimming cover ASCII letters and ASCII white space. The Unicode tables of `toLowerCase` and `trim` are not modelled.
- Export.MonthlyRevenue: the months are listed in first-appearance order. A JavaScript object lists a key that is a canonical non-negative integer below 2³² − 1 before all other keys, in numeric order. A month key is the first 7 characters of a date text, so a text such as "2024011" would be listed first in JavaScript but keeps its place here. A key such as "0123" is not canonical and is ordered alike in both.
- RemindersPage.Preview: the closed form of the message is stated only when the first name, with its "$" patterns expanded, holds no "{". Otherwise the expanded name could itself hold the "{days}" that the second `replace` finds. `Preview` computes that case as `replace` does, but no closed form is stated for it.
- RemindersPage.FillTemplate: it states the message only for a template whose text before "{days}" holds no "{", and a name whose expansion holds no "{". The three templates have no other "{".
- Json.Quote: lone UTF-16 surrogates, which `JSON.stringify` writes as `\u` escapes, cannot occur in Dafny strings. They are not modelled.
- Export.Cell: the `"null"` that `JSON.stringify` writes for `NaN` is not modelled, since amounts are integers.
- The Blob download, the file name carrying today's date, the PWA install prompt and the message timers of the settings page are browser side effects. They are left out.
- Rendering, the layout components, the Branches, Staff and authentication pages, the legacy scripts, the mock API routes and the service worker have no behaviour to state. They are not part of this model.

## Findings

| source | as written | input that shows it | evidently intended | confidence | as-written member | corrected member |
|---|---|---|---|---|---|---|
| components/pages/Dashboard.tsx:23-40 | The expiring bucket keeps only 0 < days left <= 7, so a member whose plan ends today is in none of the three buckets. | One member with expiry equal to today: all three buckets are empty, but the member count is 1. | Each member in exactly one bucket, as the comments at lines 13 and 40 say; the expiring bucket is 0..7 days left, as the classifier has it. | not executed | Dashboard.BucketsMissToday | Dashboard.CorrectedBucketsPartition |
