/** The computations of the plans page: the comma-separated features text
    of the form, parsed on submit and rebuilt with `join(", ")` when a plan
    is edited, and the submit guard. */
module PlansPage {
  import opened Seqs
  import opened Text
  import opened Entities
  import opened Store

  function NonEmpty(s: string): bool
  {
    s != ""
  }

  /** `text.split(",").map(f => f.trim()).filter(f => f)`. */
  function ParseFeatures(text: string): (r: seq<string>)
    ensures forall f :: f in r <==> f != "" && f in MapSeq(Trim, Split(text, ','))
    ensures IsSubsequence(r, MapSeq(Trim, Split(text, ',')))
  {
    FilterIn(NonEmpty, MapSeq(Trim, Split(text, ',')));
    FilterIsSubsequence(NonEmpty, MapSeq(Trim, Split(text, ',')));
    Filter(NonEmpty, MapSeq(Trim, Split(text, ',')))
  }

  /** Every parsed feature is non-empty, trimmed and free of commas, and
      there are at most as many as comma-separated pieces. */
  lemma ParseFeaturesClean(text: string)
    ensures forall f :: f in ParseFeatures(text) ==> IsFeature(f)
    ensures |ParseFeatures(text)| <= |Split(text, ',')|
  {
    var pieces := Split(text, ',');
    var trimmed := MapSeq(Trim, pieces);
    forall f | f in ParseFeatures(text) ensures IsFeature(f) {
      assert f in trimmed;
      var i :| 0 <= i < |trimmed| && trimmed[i] == f;
      TrimKeepsOut(pieces[i], ',');
    }
  }

  lemma ParseEmpty()
    ensures ParseFeatures("") == []
  {
    assert Split("", ',') == [""];
    assert MapSeq(Trim, [""]) == [""];
  }

  /** A feature the text form keeps unchanged. */
  predicate IsFeature(f: string)
  {
    f != "" && IsTrimmed(f) && ',' !in f
  }

  function Spaced(s: string): string
  {
    " " + s
  }

  /** Splitting `p + f0, f1, …` at the commas gives `p + f0`, then each
      later feature behind its space. */
  lemma {:induction false} SplitJoined(p: string, fs: seq<string>)
    requires |fs| >= 1 && ',' !in p
    requires forall i :: 0 <= i < |fs| ==> ',' !in fs[i]
    ensures Split(p + Join(fs, ", "), ',') == [p + fs[0]] + MapSeq(Spaced, fs[1..])
    decreases |fs|
  {
    if |fs| == 1 {
      SplitWithout(p + fs[0], ',');
    } else {
      var rest := Join(fs[1..], ", ");
      assert p + Join(fs, ", ") == (p + fs[0]) + [','] + (" " + rest);
      SplitAfter(p + fs[0], ',', " " + rest);
      SplitJoined(" ", fs[1..]);
      assert fs[1..][1..] == fs[2..];
      MapConcat(Spaced, [fs[1]], fs[2..]);
      assert fs[1..] == [fs[1]] + fs[2..];
    }
  }

  /** What `join(", ")` builds, the parser reads back. */
  lemma ParseJoin(fs: seq<string>)
    requires forall i :: 0 <= i < |fs| ==> IsFeature(fs[i])
    ensures ParseFeatures(Join(fs, ", ")) == fs
  {
    if fs == [] {
      ParseEmpty();
    } else {
      SplitFeatures(fs);
      TrimPieces(fs);
      forall i | 0 <= i < |fs|
        ensures NonEmpty(fs[i])
      {
      }
      FilterAll(NonEmpty, fs);
    }
  }

  /** The pieces of a join of features: the first, then each later one
      behind its space. */
  lemma SplitFeatures(fs: seq<string>)
    requires |fs| >= 1
    requires forall i :: 0 <= i < |fs| ==> ',' !in fs[i]
    ensures Split(Join(fs, ", "), ',') == [fs[0]] + MapSeq(Spaced, fs[1..])
  {
    SplitJoined("", fs);
    assert "" + Join(fs, ", ") == Join(fs, ", ");
    assert "" + fs[0] == fs[0];
  }

  lemma TrimPieces(fs: seq<string>)
    requires |fs| >= 1
    requires forall i :: 0 <= i < |fs| ==> IsFeature(fs[i])
    ensures MapSeq(Trim, [fs[0]] + MapSeq(Spaced, fs[1..])) == fs
  {
    var tail := MapSeq(Spaced, fs[1..]);
    MapConcat(Trim, [fs[0]], tail);
    assert MapSeq(Trim, [fs[0]]) == [fs[0]];
    TrimSpacedAll(fs[1..]);
    assert fs == [fs[0]] + fs[1..];
  }

  /** Trimming undoes the space in front of each feature. */
  lemma {:induction false} TrimSpacedAll(gs: seq<string>)
    requires forall i :: 0 <= i < |gs| ==> IsFeature(gs[i])
    ensures MapSeq(Trim, MapSeq(Spaced, gs)) == gs
  {
    if gs != [] {
      TrimSpacedAll(gs[1..]);
      TrimSpaced(gs[0]);
      assert MapSeq(Spaced, gs)[1..] == MapSeq(Spaced, gs[1..]);
    }
  }

  lemma TrimSpaced(f: string)
    requires IsTrimmed(f)
    ensures Trim(Spaced(f)) == f
  {
    TrimLeadingSpace(f);
  }

  /** What the form submits. */
  datatype PlanAction = AddPlanAction(form: PlanForm) | UpdatePlanAction(id: string, form: PlanForm)

  /** `handleAddPlan`: nothing is submitted unless the name is filled in
      and the price is not zero. `editingId` is "" when adding. */
  function PlanEntry(name: string, price: int, duration: int, featuresText: string, editingId: string): (r: Option<PlanAction>)
    ensures r.Some? <==> name != "" && price != 0
    ensures r.Some? ==> r.value.form == PlanForm(name, price, duration, ParseFeatures(featuresText))
    ensures r.Some? ==> (if editingId == "" then r.value.AddPlanAction? else r.value.UpdatePlanAction? && r.value.id == editingId)
  {
    if name != "" && price != 0 then
      var form := PlanForm(name, price, duration, ParseFeatures(featuresText));
      Some(if editingId == "" then AddPlanAction(form) else UpdatePlanAction(editingId, form))
    else None
  }

  /** `handleEditPlan`: the form text of the features. */
  function FeaturesText(plan: Plan): string
  {
    Join(plan.features, ", ")
  }

  /** Opening a plan for editing and submitting it unchanged sends back the
      same plan, when its features are what the parser produces. */
  lemma EditRoundTrip(plan: Plan)
    requires plan.name != "" && plan.price != 0 && plan.id != ""
    requires forall i :: 0 <= i < |plan.features| ==> IsFeature(plan.features[i])
    ensures PlanEntry(plan.name, plan.price, plan.duration, FeaturesText(plan), plan.id)
         == Some(UpdatePlanAction(plan.id, PlanForm(plan.name, plan.price, plan.duration, plan.features)))
  {
    ParseJoin(plan.features);
  }
}
