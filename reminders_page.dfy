/** The computations of the reminders page: the selection toggle, the
    message preview, the displayed order and the confirmation after
    sending. */
module RemindersPage {
  import opened Seqs
  import opened Text
  import opened Entities
  import opened Lifecycle

  predicate NoDuplicates(s: seq<string>)
  {
    forall x :: x in s ==> multiset(s)[x] <= 1
  }

  function IsNot(id: string): string -> bool
  {
    (x: string) => x != id
  }

  /** `toggleReminder`: drop every copy of a selected id, append one that is
      not selected. */
  function Toggle(selected: seq<string>, id: string): (r: seq<string>)
    ensures id in selected ==> forall x :: x in r <==> x in selected && x != id
    ensures id !in selected ==> r == selected + [id]
  {
    if id in selected then
      FilterIn(IsNot(id), selected);
      Filter(IsNot(id), selected)
    else selected + [id]
  }

  /** Toggling flips whether the id is selected and nothing else. */
  lemma ToggleFlips(selected: seq<string>, id: string, x: string)
    ensures id in Toggle(selected, id) <==> id !in selected
    ensures x != id ==> (x in Toggle(selected, id) <==> x in selected)
  {
    if id in selected && x != id && x in selected {
      FilterKeeps(IsNot(id), selected, x);
    }
  }

  /** An id that was not selected is appended at the end, and toggling it
      again gives back the selection. */
  lemma ToggleTwice(selected: seq<string>, id: string)
    requires id !in selected
    ensures Toggle(selected, id) == selected + [id]
    ensures Toggle(Toggle(selected, id), id) == selected
  {
    FilterConcat(IsNot(id), selected, [id]);
    FilterAll(IsNot(id), selected);
  }

  /** A selection without duplicates stays without duplicates. */
  lemma ToggleKeepsNoDuplicates(selected: seq<string>, id: string)
    requires NoDuplicates(selected)
    ensures NoDuplicates(Toggle(selected, id))
  {
    forall x | x in Toggle(selected, id) ensures multiset(Toggle(selected, id))[x] <= 1 {
      if id in selected {
        FilterMultiset(IsNot(id), selected, x);
      } else {
        assert multiset(selected + [id]) == multiset(selected) + multiset{id};
        assert multiset(selected)[id] == 0;
      }
    }
  }

  datatype Template = Renewal | ExpiredTemplate | FollowUp

  /** What each template says after its "{name}". */
  function AfterName(t: Template): string
  {
    match t
    case Renewal => ", Your membership expires in " + "{days}" + " days. Renew now to continue your fitness journey!"
    case ExpiredTemplate => ", Your membership has expired." + " Get back on track with a fresh renewal!"
    case FollowUp => ", We miss you! Your membership" + " expires soon. Reply to renew."
  }

  /** The message templates: every one greets "Hi {name}". */
  function TemplateText(t: Template): string
  {
    "Hi " + "{name}" + AfterName(t)
  }

  /** The text before the first space of the member's name. */
  function FirstName(name: string): string
  {
    Split(name, ' ')[0]
  }

  /** The first name as `replace` inserts it into template `t`, its "$"
      patterns expanded. */
  function PreviewName(t: Template, r: Reminder): (n: string)
    ensures '$' !in FirstName(r.member_name) ==> n == FirstName(r.member_name)
  {
    var name := FirstName(r.member_name);
    if '$' in name then Substitution(name, "Hi ", "{name}", AfterName(t))
    else
      SubstitutionPlain(name, "Hi ", "{name}", AfterName(t));
      Substitution(name, "Hi ", "{name}", AfterName(t))
  }

  /** `getPreviewMessage`: the first "{name}" becomes the first name, then
      the first "{days}" the number of days left. When the inserted name
      brings no "{" of its own, the message is the template with the first
      name (itself when it holds no "$") and, in the renewal template, the
      decimal days left in their places. */
  function Preview(t: Template, r: Reminder): (s: string)
    ensures '{' !in PreviewName(t, r) ==>
      s == "Hi " + PreviewName(t, r)
           + (if t == Renewal
              then ", Your membership expires in " + IntToString(r.daysLeft) + " days. Renew now to continue your fitness journey!"
              else AfterName(t))
  {
    if '{' in PreviewName(t, r) then Fill(t, r)
    else
      Filled(t, r);
      Fill(t, r)
  }

  /** The two replacements of `getPreviewMessage`. */
  function Fill(t: Template, r: Reminder): string
  {
    ReplaceFirst(ReplaceFirst(TemplateText(t), "{name}", FirstName(r.member_name)), "{days}", IntToString(r.daysLeft))
  }

  lemma Filled(t: Template, r: Reminder)
    requires '{' !in PreviewName(t, r)
    ensures Fill(t, r)
         == "Hi " + PreviewName(t, r)
            + (if t == Renewal
               then ", Your membership expires in " + IntToString(r.daysLeft) + " days. Renew now to continue your fitness journey!"
               else AfterName(t))
  {
    if t == Renewal {
      RenewalFilled(r);
    } else {
      OtherFilled(t, r);
    }
  }

  lemma RenewalFilled(r: Reminder)
    requires '{' !in PreviewName(Renewal, r)
    ensures Fill(Renewal, r)
         == "Hi " + PreviewName(Renewal, r) + ", Your membership expires in " + IntToString(r.daysLeft)
            + " days. Renew now to continue your fitness journey!"
  {
    var b, c := ", Your membership expires in ", " days. Renew now to continue your fitness journey!";
    var name, days := FirstName(r.member_name), IntToString(r.daysLeft);
    assert AfterName(Renewal) == b + "{days}" + c;
    assert PreviewName(Renewal, r) == Substitution(name, "Hi ", "{name}", b + "{days}" + c);
    FillTemplate("Hi ", b, c, name, days);
    assert '$' !in days;
    SubstitutionPlain(days, "Hi " + PreviewName(Renewal, r) + b, "{days}", c);
  }

  lemma OtherFilled(t: Template, r: Reminder)
    requires t != Renewal
    requires '{' !in PreviewName(t, r)
    ensures Fill(t, r) == "Hi " + PreviewName(t, r) + AfterName(t)
  {
    var name := FirstName(r.member_name);
    assert PreviewName(t, r) == Substitution(name, "Hi ", "{name}", AfterName(t));
    NoBraceAfterName(t);
    FillNameOnly("Hi ", AfterName(t), name, IntToString(r.daysLeft));
  }

  lemma NoBraceAfterName(t: Template)
    requires t != Renewal
    ensures '{' !in AfterName(t)
  {
    if t == ExpiredTemplate {
      NoBraceExpired();
    } else {
      NoBraceFollowUp();
    }
  }

  lemma NoBraceExpired()
    ensures '{' !in AfterName(ExpiredTemplate)
  {
    NoBracePair(", Your membership has expired.", " Get back on track with a fresh renewal!");
  }

  lemma NoBraceFollowUp()
    ensures '{' !in AfterName(FollowUp)
  {
    NoBracePair(", We miss you! Your membership", " expires soon. Reply to renew.");
  }

  lemma NoBracePair(a: string, b: string)
    requires '{' !in a && '{' !in b
    ensures '{' !in a + b
  {
  }

  /** Filling a template `a{name}b{days}c` whose texts before each
      placeholder hold no "{" puts the name and then the days in their
      places, each as `replace` expands its "$" patterns; the expanded name
      must bring no "{" of its own, or the second replacement could land in
      it. */
  lemma FillTemplate(a: string, b: string, c: string, name: string, days: string)
    requires '{' !in a && '{' !in b
    requires '{' !in Substitution(name, a, "{name}", b + "{days}" + c)
    ensures var n := Substitution(name, a, "{name}", b + "{days}" + c);
      ReplaceFirst(ReplaceFirst(a + "{name}" + (b + "{days}" + c), "{name}", name), "{days}", days)
         == (a + n + b) + Substitution(days, a + n + b, "{days}", c) + c
  {
    var n := Substitution(name, a, "{name}", b + "{days}" + c);
    NoOccurrenceBefore(a, "{name}", b + "{days}" + c);
    ReplaceFirstAt(a, "{name}", b + "{days}" + c, name);
    var a2 := a + n + b;
    assert a + n + (b + "{days}" + c) == a2 + "{days}" + c;
    NoBraceConcat(a, n, b);
    NoOccurrenceBefore(a2, "{days}", c);
    ReplaceFirstAt(a2, "{days}", c, days);
  }

  /** A template `a{name}c` without "{days}" gets only the name: the second
      replacement finds nothing. */
  lemma FillNameOnly(a: string, c: string, name: string, days: string)
    requires '{' !in a && '{' !in c
    requires '{' !in Substitution(name, a, "{name}", c)
    ensures ReplaceFirst(ReplaceFirst(a + "{name}" + c, "{name}", name), "{days}", days)
         == a + Substitution(name, a, "{name}", c) + c
  {
    var n := Substitution(name, a, "{name}", c);
    NoOccurrenceBefore(a, "{name}", c);
    ReplaceFirstAt(a, "{name}", c, name);
    NoBraceConcat(a, n, c);
    var s := a + n + c;
    if IndexOf(s, "{days}").Some? {
      OccursAtHead(s, "{days}", IndexOf(s, "{days}").value);
      assert false;
    }
  }

  lemma NoBraceConcat(a: string, n: string, b: string)
    requires '{' !in a && '{' !in n && '{' !in b
    ensures '{' !in a + n + b
  {
    var s := a + n + b;
    forall i | 0 <= i < |s| ensures s[i] != '{' {
      if i < |a| { assert s[i] == a[i]; }
      else if i < |a| + |n| { assert s[i] == n[i - |a|]; }
      else { assert s[i] == b[i - |a| - |n|]; }
    }
  }

  /** A first name with "$" patterns is expanded, as JavaScript does: "A$&b"
      shows the matched "{name}". */
  lemma DollarAmpersandName()
    ensures PreviewName(Renewal, Reminder("", "A$&b Lee", 0, "", "")) == "A{name}b"
  {
    var name, x, y := "A$&b", "Hi ", AfterName(Renewal);
    assert "A$&b Lee" == name + [' '] + "Lee";
    SplitAfter(name, ' ', "Lee");
    assert Substitution("b", x, "{name}", y) == "b" by { assert "b"[1..] == []; }
    assert Substitution("$&b", x, "{name}", y) == "{name}" + "b" by { assert "$&b"[2..] == "b"; }
    assert Substitution(name, x, "{name}", y) == "A" + ("{name}" + "b") by { assert name[1..] == "$&b"; }
    assert "A" + ("{name}" + "b") == "A{name}b";
    assert FirstName("A$&b Lee") == name;
  }

  /** "$$" in a first name shows a single "$". */
  lemma DollarDollarName()
    ensures PreviewName(Renewal, Reminder("", "$$ Lee", 0, "", "")) == "$"
  {
    var name, x, y := "$$", "Hi ", AfterName(Renewal);
    assert "$$ Lee" == name + [' '] + "Lee";
    SplitAfter(name, ' ', "Lee");
    assert Substitution(name, x, "{name}", y) == "$" + [] by { assert name[2..] == []; }
    assert FirstName("$$ Lee") == name;
  }

  /** The preview panel shows the first reminder of the state's list, or a
      prompt when there is none. */
  function PreviewPanel(t: Template, reminders: seq<Reminder>): (s: string)
    ensures reminders == [] ==> s == "Select a member to preview"
    ensures reminders != [] ==> s == Preview(t, reminders[0])
  {
    if |reminders| > 0 then Preview(t, reminders[0]) else "Select a member to preview"
  }

  /** The displayed list: a sorted copy, by days left ascending, in which
      reminders with equal days left keep their order. */
  function DisplayOrder(reminders: seq<Reminder>): (r: seq<Reminder>)
    ensures multiset(r) == multiset(reminders)
    ensures SortedBy(r, ReminderDays)
  {
    SortBySorted(reminders, ReminderDays);
    SortBy(reminders, ReminderDays)
  }

  /** The sort is stable: for each number of days left, the reminders with
      it keep their input order. */
  lemma DisplayOrderStable(reminders: seq<Reminder>, d: int)
    ensures Filter(KeyIs(ReminderDays, d), DisplayOrder(reminders)) == Filter(KeyIs(ReminderDays, d), reminders)
  {
    SortByStable(reminders, ReminderDays, d);
  }

  /** The worklist is already in order, so the display shows it as it is. */
  lemma DisplayOrderOfWorklist(members: seq<Member>, today: int)
    ensures DisplayOrder(CalculateReminders(members, today)) == CalculateReminders(members, today)
  {
    RemindersSorted(members, today);
    SortBySortedIdentity(CalculateReminders(members, today), ReminderDays);
  }

  /** On the worklist, the panel previews the top of the displayed list: a
      reminder with the fewest days left. */
  lemma PreviewPanelOfWorklist(t: Template, members: seq<Member>, today: int)
    requires CalculateReminders(members, today) != []
    ensures var w := CalculateReminders(members, today);
      PreviewPanel(t, w) == Preview(t, DisplayOrder(w)[0])
      && forall x :: x in w ==> w[0].daysLeft <= x.daysLeft
  {
    var w := CalculateReminders(members, today);
    DisplayOrderOfWorklist(members, today);
    RemindersSorted(members, today);
    forall x | x in w ensures w[0].daysLeft <= x.daysLeft {
      var k :| 0 <= k < |w| && w[k] == x;
      if k > 0 {
        assert ReminderDays(w[0]) <= ReminderDays(w[k]);
      }
    }
  }

  /** The confirmation text of `handleSendReminders`. */
  function SentMessage(count: int): string
  {
    "Reminders sent to " + IntToString(count) + " member" + (if count > 1 then "s" else "")
  }

  /** Sending is offered only with a non-empty selection; it yields the
      confirmation and clears the selection. */
  function Send(selected: seq<string>): (r: (string, seq<string>))
    ensures r.1 == []
    ensures |selected| == 0 ==> r.0 == "Reminders sent to 0 member"
    ensures |selected| == 1 ==> r.0 == "Reminders sent to 1 member"
    ensures |selected| > 1 ==> r.0 == "Reminders sent to " + IntToString(|selected|) + " members"
  {
    (SentMessage(|selected|), [])
  }

  predicate SendEnabled(selected: seq<string>)
  {
    |selected| != 0
  }

  lemma SentMessageWording(selected: seq<string>)
    requires SendEnabled(selected)
    ensures |selected| == 1 ==> Send(selected).0 == "Reminders sent to 1 member"
    ensures |selected| > 1 ==> Send(selected).0 == "Reminders sent to " + IntToString(|selected|) + " members"
    ensures Send(selected).0 != "Reminders sent to 0 member"
  {
    var pre, digits := "Reminders sent to ", IntToString(|selected|);
    var tail := if |selected| > 1 then " members" else " member";
    assert Send(selected).0 == pre + (digits + tail);
    assert digits[0] != '0';
    assert Send(selected).0[|pre|] == digits[0];
    assert "Reminders sent to 0 member"[|pre|] == '0';
  }
}
