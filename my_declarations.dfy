/**
 * The "my declarations" page: declarations grouped by tax type, one tab per
 * type, narrowed by a case-insensitive search over reference, declarant and
 * period.
 */
module MyDeclarations {
  import opened Wrappers
  import opened Text
  import opened Seqs

  datatype DeclarationType = TVA | IBS | IRG | TAP | TF
  datatype Status = Validee | EnAttente | Rejetee

  datatype MyDeclaration = MyDeclaration(
    id: int,
    reference: string,
    typ: DeclarationType,
    period: string,
    year: int,
    amount: real,
    status: Status,
    createdAt: string,
    user: string)

  /** One entry of the tab bar: the type it selects and its heading texts. */
  datatype TabInfo = TabInfo(value: DeclarationType, caption: string, description: string)

  const Tabs: seq<TabInfo> := [
    TabInfo(TVA, "TVA", "Taxe sur la Valeur Ajoutée"),
    TabInfo(IBS, "IBS", "Impôt sur les Bénéfices des Sociétés"),
    TabInfo(IRG, "IRG", "Impôt sur le Revenu Global"),
    TabInfo(TAP, "TAP", "Taxe sur l'Activité Professionnelle"),
    TabInfo(TF, "TF", "Taxe Foncière")
  ]

  /** The first tab entry whose value is `t`, as `Array.prototype.find` returns it. */
  function FindTab(tabs: seq<TabInfo>, t: DeclarationType): (r: Option<TabInfo>)
    ensures r.Some? ==> r.value in tabs && r.value.value == t
    ensures r.Some? ==>
      exists i :: 0 <= i < |tabs| && tabs[i] == r.value && forall j :: 0 <= j < i ==> tabs[j].value != t
    ensures r.None? <==> forall i :: 0 <= i < |tabs| ==> tabs[i].value != t
  {
    if tabs == [] then None
    else if tabs[0].value == t then Some(tabs[0])
    else FindTab(tabs[1..], t)
  }

  /** The lookup of the active tab's heading never comes back empty. */
  lemma ActiveTabInfoFound(t: DeclarationType)
    ensures FindTab(Tabs, t).Some? && FindTab(Tabs, t).value.value == t
  {
    var i := match t case TVA => 0 case IBS => 1 case IRG => 2 case TAP => 3 case TF => 4;
    assert Tabs[i].value == t;
  }

  /** `hay.toLowerCase().includes(needle.toLowerCase())` */
  predicate IncludesIgnoringCase(hay: string, needle: string) {
    Contains(Lower(hay), Lower(needle))
  }

  /** The filter callback: the record has the active type and, unless the
      search text is empty, one of the three searched fields contains it. */
  predicate Matches(activeTab: DeclarationType, search: string, d: MyDeclaration) {
    d.typ == activeTab &&
    (search == "" ||
     IncludesIgnoringCase(d.reference, search) ||
     IncludesIgnoringCase(d.user, search) ||
     IncludesIgnoringCase(d.period, search))
  }

  function MatchesFn(activeTab: DeclarationType, search: string): MyDeclaration -> bool {
    (d: MyDeclaration) => Matches(activeTab, search, d)
  }

  function Filtered(ds: seq<MyDeclaration>, activeTab: DeclarationType, search: string): seq<MyDeclaration> {
    Filter(MatchesFn(activeTab, search), ds)
  }

  function OfType(t: DeclarationType): MyDeclaration -> bool {
    (d: MyDeclaration) => d.typ == t
  }

  /** Some field, lower-cased, holds the lower-cased search text at some position. */
  ghost predicate FoundIn(search: string, d: MyDeclaration) {
    exists i :: OccursAt(Lower(d.reference), Lower(search), i) ||
                OccursAt(Lower(d.user), Lower(search), i) ||
                OccursAt(Lower(d.period), Lower(search), i)
  }

  /** A record is listed exactly when it has the active type and the search
      text occurs, ignoring case, inside its reference, declarant or period. */
  lemma MatchesIff(activeTab: DeclarationType, search: string, d: MyDeclaration)
    ensures Matches(activeTab, search, d) <==> d.typ == activeTab && FoundIn(search, d)
  {
    var n := Lower(search);
    ContainsIff(Lower(d.reference), n);
    ContainsIff(Lower(d.user), n);
    ContainsIff(Lower(d.period), n);
    if search == "" {
      assert OccursAt(Lower(d.reference), n, 0);
    }
  }

  /** What is listed is drawn from the store in its own order, and only of
      the active type; every record that matches is listed. */
  lemma FilteredProperties(ds: seq<MyDeclaration>, activeTab: DeclarationType, search: string)
    ensures IsSubsequence(Filtered(ds, activeTab, search), ds)
    ensures forall i :: 0 <= i < |Filtered(ds, activeTab, search)| ==>
      Filtered(ds, activeTab, search)[i].typ == activeTab
    ensures forall i :: 0 <= i < |ds| && Matches(activeTab, search, ds[i]) ==>
      ds[i] in Filtered(ds, activeTab, search)
  {
    FilterIsSubsequence(MatchesFn(activeTab, search), ds);
  }

  /** With an empty search box (as right after a tab switch, which clears it)
      the tab lists every record of its type. */
  lemma EmptySearchListsType(ds: seq<MyDeclaration>, activeTab: DeclarationType)
    ensures Filtered(ds, activeTab, "") == Filter(OfType(activeTab), ds)
  {
    FilterCongruent(MatchesFn(activeTab, ""), OfType(activeTab), ds);
  }

  /** The search does not depend on the case of the text typed. */
  lemma SearchIgnoresCase(ds: seq<MyDeclaration>, activeTab: DeclarationType, search: string)
    ensures Filtered(ds, activeTab, Lower(search)) == Filtered(ds, activeTab, search)
  {
    LowerIdempotent(search);
    assert Lower(search) == "" <==> search == "" by { assert |Lower(search)| == |search|; }
    FilterCongruent(MatchesFn(activeTab, Lower(search)), MatchesFn(activeTab, search), ds);
  }

  /** The page is built over an empty placeholder list, so it never lists anything. */
  const MockDeclarations: seq<MyDeclaration> := []

  lemma MockListsNothing(activeTab: DeclarationType, search: string)
    ensures Filtered(MockDeclarations, activeTab, search) == []
  {
  }
}
