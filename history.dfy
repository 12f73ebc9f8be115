/**
 * The history page: loading the stored collection, inferring each record's
 * type from the group it fills, the multi-criteria filter, the view of one
 * record's table, and deletion.
 */
module History {
  import opened Wrappers
  import opened Text
  import opened Numbers
  import opened Seqs
  import opened Declaration
  import opened Tabs
  import opened Store
  import opened NewDeclaration

  // ─── Classifier ──────────────────────────────────────────────────────────

  /** A record's type as the history table shows it: the tab key, a caption (the source's `label`) and a badge colour. */
  datatype DeclType = DeclType(key: string, caption: string, color: string)

  /** The priority in which groups are tried: the order of the tabs. */
  function Rank(t: Tab): nat {
    match t
    case Encaissement => 0
    case TvaImmo => 1
    case TvaBiens => 2
    case DroitsTimbre => 3
    case CaTap => 4
    case EtatTap => 5
  }

  /** `t`'s group is filled and every group before it is empty. */
  predicate FirstFilled(d: Declaration, t: Tab) {
    GroupFilled(d, t) && forall u :: Rank(u) < Rank(t) ==> !GroupFilled(d, u)
  }

  const Undefined := DeclType("encaissement", "Non défini", "#6b7280")

  /**
   * `getDeclarationType`: the first filled group, in tab order, names the
   * type with the tab's own key, label and colour; with no group filled the
   * record shows as "Non défini".
   */
  function TypeOf(d: Declaration): DeclType {
    if |d.encRows| > 0 then DeclType("encaissement", "Encaissement", "#2db34b")
    else if |d.tvaImmoRows| > 0 then DeclType("tva_immo", "TVA / IMMO", "#1d6fb8")
    else if |d.tvaBiensRows| > 0 then DeclType("tva_biens", "TVA / Biens & Serv", "#7c3aed")
    else if |d.timbreRows| > 0 then DeclType("droits_timbre", "Droits Timbre", "#0891b2")
    else if d.b12 != "" || d.b13 != "" then DeclType("ca_tap", "CA 7% & CA Glob 1%", "#ea580c")
    else if |d.tapRows| > 0 then DeclType("etat_tap", "ETAT TAP", "#be123c")
    else Undefined
  }

  /** The classifier picks the first filled group in tab order, with that tab's key, label and colour. */
  lemma TypeOfFirstFilled(d: Declaration, t: Tab)
    requires FirstFilled(d, t)
    ensures TypeOf(d) == DeclType(TabKey(t), TabLabel(t), TabColor(t))
  {
    EarlierGroupsEmpty(d, t);
  }

  /** With no group filled the record shows as "Non défini", under the key of tab 1. */
  lemma TypeOfNoGroup(d: Declaration)
    requires forall t :: !GroupFilled(d, t)
    ensures TypeOf(d) == Undefined
  {
    assert !GroupFilled(d, Encaissement) && !GroupFilled(d, TvaImmo) && !GroupFilled(d, TvaBiens);
    assert !GroupFilled(d, DroitsTimbre) && !GroupFilled(d, CaTap) && !GroupFilled(d, EtatTap);
  }

  /**
   * A record with no group filled shows under the key "encaissement", yet
   * the type filter set to that key rejects it: for such a record the badge
   * and the filter disagree.
   */
  lemma UndefinedNotUnderItsKey(d: Declaration)
    requires forall t :: !GroupFilled(d, t)
    ensures TypeOf(d).key == "encaissement" && !HasType(TypeOf(d).key, d)
  {
    TypeOfNoGroup(d);
    HasTypeIff("encaissement", d);
  }

  /** Spells out, tab by tab, which groups `FirstFilled(d, t)` says are empty. */
  lemma EarlierGroupsEmpty(d: Declaration, t: Tab)
    requires FirstFilled(d, t)
    ensures Rank(t) > 0 ==> !GroupFilled(d, Encaissement)
    ensures Rank(t) > 1 ==> !GroupFilled(d, TvaImmo)
    ensures Rank(t) > 2 ==> !GroupFilled(d, TvaBiens)
    ensures Rank(t) > 3 ==> !GroupFilled(d, DroitsTimbre)
    ensures Rank(t) > 4 ==> !GroupFilled(d, CaTap)
  {
    assert Rank(Encaissement) == 0 && Rank(TvaImmo) == 1 && Rank(TvaBiens) == 2;
    assert Rank(DroitsTimbre) == 3 && Rank(CaTap) == 4;
  }

  /** The type filter's `hasType`: the group that `filterType` names is filled. */
  function HasType(filterType: string, d: Declaration): bool {
    (filterType == "encaissement" && |d.encRows| > 0)
    || (filterType == "tva_immo" && |d.tvaImmoRows| > 0)
    || (filterType == "tva_biens" && |d.tvaBiensRows| > 0)
    || (filterType == "droits_timbre" && |d.timbreRows| > 0)
    || (filterType == "ca_tap" && (d.b12 != "" || d.b13 != ""))
    || (filterType == "etat_tap" && |d.tapRows| > 0)
  }

  /** `hasType` holds exactly when `filterType` is the key of a tab whose group is filled. */
  lemma HasTypeIff(filterType: string, d: Declaration)
    ensures HasType(filterType, d) <==> exists t :: TabKey(t) == filterType && GroupFilled(d, t)
  {
    if HasType(filterType, d) {
      var t :=
        if filterType == "encaissement" then Encaissement
        else if filterType == "tva_immo" then TvaImmo
        else if filterType == "tva_biens" then TvaBiens
        else if filterType == "droits_timbre" then DroitsTimbre
        else if filterType == "ca_tap" then CaTap
        else EtatTap;
      assert TabKey(t) == filterType && GroupFilled(d, t);
    }
  }

  /**
   * For a record that fills exactly one group, the type filter accepts
   * exactly the key the classifier shows, and that is the tab's own entry.
   */
  lemma TypeFilterAgreesWithType(d: Declaration, t: Tab, k: string)
    requires OnlyGroup(d, t)
    ensures TypeOf(d) == DeclType(TabKey(t), TabLabel(t), TabColor(t))
    ensures HasType(k, d) <==> k == TypeOf(d).key
  {
    assert FirstFilled(d, t);
    TypeOfFirstFilled(d, t);
    HasTypeIff(k, d);
  }

  /** A record saved from a form that passed the checks is classified as that form's tab. */
  lemma SavedRecordType(f: Form, id: string, createdAt: string, k: string)
    requires RowsPresent(f) && Validate(f).None?
    ensures TypeOf(BuildDecl(f, id, createdAt)) == DeclType(TabKey(f.tab), TabLabel(f.tab), TabColor(f.tab))
    ensures HasType(k, BuildDecl(f, id, createdAt)) <==> k == TabKey(f.tab)
  {
    SavedRecordHasOneGroup(f, id, createdAt);
    TypeFilterAgreesWithType(BuildDecl(f, id, createdAt), f.tab, k);
  }

  // ─── Amount of a record ──────────────────────────────────────────────────

  /** The representative total of a group: TTC, HT, HT, stamp duty, the two turnover taxes, TAP. */
  function CategoryTotal(t: Tab, d: Declaration): real {
    match t
    case Encaissement => Sum(EncTtc, d.encRows)
    case TvaImmo => Sum(TvaHt, d.tvaImmoRows)
    case TvaBiens => Sum(TvaHt, d.tvaBiensRows)
    case DroitsTimbre => Sum(TimbreDroit, d.timbreRows)
    case CaTap => Num(d.b12) * CaRate + Num(d.b13) * CaGlobalRate
    case EtatTap => Sum(TapAmount, d.tapRows)
  }

  /** The amount filter's `total`: that of the first filled group, in tab order, else 0. */
  function RecordTotal(d: Declaration): real {
    if |d.encRows| > 0 then Sum(EncTtc, d.encRows)
    else if |d.tvaImmoRows| > 0 then Sum(TvaHt, d.tvaImmoRows)
    else if |d.tvaBiensRows| > 0 then Sum(TvaHt, d.tvaBiensRows)
    else if |d.timbreRows| > 0 then Sum(TimbreDroit, d.timbreRows)
    else if d.b12 != "" || d.b13 != "" then Num(d.b12) * 0.07 + Num(d.b13) * 0.01
    else if |d.tapRows| > 0 then Sum(TapAmount, d.tapRows)
    else 0.0
  }

  /** The amount is the representative total of the type the record is classified as. */
  lemma RecordTotalFirstFilled(d: Declaration, t: Tab)
    requires FirstFilled(d, t)
    ensures RecordTotal(d) == CategoryTotal(t, d)
  {
    EarlierGroupsEmpty(d, t);
    match t
    case Encaissement =>
    case TvaImmo => assert d.encRows == [];
    case TvaBiens => assert d.encRows == [] && d.tvaImmoRows == [];
    case DroitsTimbre => assert d.encRows == [] && d.tvaImmoRows == [] && d.tvaBiensRows == [];
    case CaTap => assert d.encRows == [] && d.tvaImmoRows == [] && d.tvaBiensRows == [] && d.timbreRows == [];
    case EtatTap =>
      assert d.encRows == [] && d.tvaImmoRows == [] && d.tvaBiensRows == [] && d.timbreRows == [];
      assert d.b12 == "" && d.b13 == "";
  }

  /** A record with no group filled has amount 0. */
  lemma RecordTotalNoGroup(d: Declaration)
    requires forall t :: !GroupFilled(d, t)
    ensures RecordTotal(d) == 0.0
  {
    assert !GroupFilled(d, Encaissement) && !GroupFilled(d, TvaImmo) && !GroupFilled(d, TvaBiens);
    assert !GroupFilled(d, DroitsTimbre) && !GroupFilled(d, CaTap) && !GroupFilled(d, EtatTap);
    assert d.encRows == [] && d.tvaImmoRows == [] && d.tvaBiensRows == [] && d.timbreRows == [];
    assert d.b12 == "" && d.b13 == "" && d.tapRows == [];
  }

  /** The figure the creation page shows in the footer of the active tab, the one the history filters on. */
  function FormFooterTotal(f: Form): real {
    match f.tab
    case Encaissement => EncTotalsOf(f.encRows).ttc
    case TvaImmo => TvaTotalsOf(f.tvaImmoRows).totalHT
    case TvaBiens => TvaTotalsOf(f.tvaBiensRows).totalHT
    case DroitsTimbre => TimbreTotalsOf(f.timbreRows).totalDroit
    case CaTap => CaTotalsOf(f.b12, f.b13).tax
    case EtatTap => TapTotal(f.tapRows)
  }

  /** A saved record's amount is the footer total of the tab it was saved from. */
  lemma SavedRecordTotal(f: Form, id: string, createdAt: string)
    requires RowsPresent(f) && Validate(f).None?
    ensures RecordTotal(BuildDecl(f, id, createdAt)) == FormFooterTotal(f)
  {
    var d := BuildDecl(f, id, createdAt);
    SavedRecordHasOneGroup(f, id, createdAt);
    assert FirstFilled(d, f.tab);
    RecordTotalFirstFilled(d, f.tab);
  }

  // ─── Filter ──────────────────────────────────────────────────────────────

  /** The six filter fields of the page; the empty string means "no constraint". */
  datatype FilterSpec = FilterSpec(
    mois: string, annee: string, direction: string, typ: string, montantMin: string, montantMax: string)

  const NoFilter := FilterSpec("", "", "", "", "", "")

  /** `total < Number(bound)`: false when the bound is not a number. */
  predicate Below(total: real, bound: string) {
    match JsNumber(bound)
    case Some(v) => total < v
    case None => false
  }

  /** `total > Number(bound)`: false when the bound is not a number. */
  predicate Above(total: real, bound: string) {
    match JsNumber(bound)
    case Some(v) => total > v
    case None => false
  }

  /** The `filtered` callback: each filter that is set can reject the record. */
  predicate Keep(spec: FilterSpec, d: Declaration) {
    if spec.mois != "" && spec.mois != "all" && d.mois != spec.mois then false
    else if spec.annee != "" && d.annee != spec.annee then false
    else if spec.direction != "" && !Contains(Lower(d.direction), Lower(spec.direction)) then false
    else if spec.typ != "" && spec.typ != "all" && !HasType(spec.typ, d) then false
    else if spec.montantMin != "" || spec.montantMax != "" then
      var total := RecordTotal(d);
      if spec.montantMin != "" && Below(total, spec.montantMin) then false
      else if spec.montantMax != "" && Above(total, spec.montantMax) then false
      else true
    else true
  }

  function KeepFn(spec: FilterSpec): Declaration -> bool {
    (d: Declaration) => Keep(spec, d)
  }

  /** `declarations.filter(...)`. */
  function FilterDecls(ds: seq<Declaration>, spec: FilterSpec): seq<Declaration> {
    Filter(KeepFn(spec), ds)
  }

  /**
   * A record is kept exactly when every filter that is set accepts it: the
   * month ("all" is no filter) and year by equality, the direction as a
   * substring ignoring case, the type by its group, and the amount between
   * the bounds that read as numbers, both included.
   */
  lemma KeepIff(spec: FilterSpec, d: Declaration)
    ensures Keep(spec, d) <==>
      (spec.mois == "" || spec.mois == "all" || d.mois == spec.mois)
      && (spec.annee == "" || d.annee == spec.annee)
      && (spec.direction == "" || exists i :: OccursAt(Lower(d.direction), Lower(spec.direction), i))
      && (spec.typ == "" || spec.typ == "all" || exists t :: TabKey(t) == spec.typ && GroupFilled(d, t))
      && (spec.montantMin == "" || JsNumber(spec.montantMin).None? || JsNumber(spec.montantMin).value <= RecordTotal(d))
      && (spec.montantMax == "" || JsNumber(spec.montantMax).None? || RecordTotal(d) <= JsNumber(spec.montantMax).value)
  {
    ContainsIff(Lower(d.direction), Lower(spec.direction));
    HasTypeIff(spec.typ, d);
  }

  /** The result is the collection with some records left out and the rest in their order. */
  lemma FilterKeepsOrder(ds: seq<Declaration>, spec: FilterSpec)
    ensures IsSubsequence(FilterDecls(ds, spec), ds)
    ensures forall i :: 0 <= i < |FilterDecls(ds, spec)| ==> Keep(spec, FilterDecls(ds, spec)[i])
  {
    FilterIsSubsequence(KeepFn(spec), ds);
  }

  /** With every filter field empty (or month and type on "all"), every record is listed. */
  lemma NoFilterListsAll(ds: seq<Declaration>, spec: FilterSpec)
    requires spec.mois in {"", "all"} && spec.typ in {"", "all"}
    requires spec.annee == "" && spec.direction == "" && spec.montantMin == "" && spec.montantMax == ""
    ensures FilterDecls(ds, spec) == ds
  {
    FilterAllPass(KeepFn(spec), ds);
  }

  /** Filtering the filtered list again with the same fields changes nothing. */
  lemma FilterTwice(ds: seq<Declaration>, spec: FilterSpec)
    ensures FilterDecls(FilterDecls(ds, spec), spec) == FilterDecls(ds, spec)
  {
    FilterIdempotent(KeepFn(spec), ds);
  }

  /** A record holding one receipt line. */
  function ReceiptRecord(id: string, ttc: string): Declaration {
    Declaration(id, "", "", "", "", [EncRow("", ttc)], [], [], [], "", "", [])
  }

  /** A record holding one TAP line. */
  function TapRecord(id: string, tap2: string): Declaration {
    Declaration(id, "", "", "", "", [], [], [], [], "", "", [TapRow("", "", tap2)])
  }

  /** A one-line record's amount is the number on its line. */
  lemma OneLineTotals(idA: string, idB: string, n: nat, m: nat)
    ensures RecordTotal(ReceiptRecord(idA, NatToString(n))) == n as real
    ensures RecordTotal(TapRecord(idB, NatToString(m))) == m as real
  {
    NumNatRoundTrip(n);
    NumNatRoundTrip(m);
    SumCons(EncTtc, ReceiptRecord(idA, NatToString(n)).encRows);
    SumCons(TapAmount, TapRecord(idB, NatToString(m)).tapRows);
  }

  /** The filter over a two-record list, one record at a time. */
  lemma FilterPair(a: Declaration, b: Declaration, spec: FilterSpec)
    ensures FilterDecls([a, b], spec) == (if Keep(spec, a) then [a] else []) + (if Keep(spec, b) then [b] else [])
  {
    var p := KeepFn(spec);
    assert p(a) == Keep(spec, a) && p(b) == Keep(spec, b);
    assert [a, b][1..] == [b];
    assert [b][1..] == [];
    assert Filter(p, [b]) == (if p(b) then [b] else []) + Filter(p, []);
    assert Filter(p, [a, b]) == (if p(a) then [a] else []) + Filter(p, [b]);
  }

  /**
   * A receipt of `n` and a TAP line of `m`, with `m < k <= n`: a minimum
   * amount of `k` lists only the receipt, and the type "etat_tap" lists only
   * the TAP record.
   */
  lemma TwoRecordExample(idA: string, idB: string, n: nat, m: nat, k: nat)
    requires m < k <= n
    ensures var a := ReceiptRecord(idA, NatToString(n));
      var b := TapRecord(idB, NatToString(m));
      FilterDecls([a, b], NoFilter.(montantMin := NatToString(k))) == [a]
      && FilterDecls([a, b], NoFilter.(typ := "etat_tap")) == [b]
  {
    var a := ReceiptRecord(idA, NatToString(n));
    var b := TapRecord(idB, NatToString(m));
    MinimumExample(idA, idB, n, m, k);
    TypeExample(a, b);
    FilterPair(a, b, NoFilter.(montantMin := NatToString(k)));
    FilterPair(a, b, NoFilter.(typ := "etat_tap"));
  }

  /** A minimum amount keeps the record whose total reaches it and rejects the one below. */
  lemma MinimumExample(idA: string, idB: string, n: nat, m: nat, k: nat)
    requires m < k <= n
    ensures Keep(NoFilter.(montantMin := NatToString(k)), ReceiptRecord(idA, NatToString(n)))
    ensures !Keep(NoFilter.(montantMin := NatToString(k)), TapRecord(idB, NatToString(m)))
  {
    OneLineTotals(idA, idB, n, m);
    NumNatRoundTrip(k);
  }

  /** The type "etat_tap" rejects a record without TAP lines and keeps one with. */
  lemma TypeExample(a: Declaration, b: Declaration)
    requires a.tapRows == [] && b.tapRows != []
    ensures !Keep(NoFilter.(typ := "etat_tap"), a)
    ensures Keep(NoFilter.(typ := "etat_tap"), b)
  {
    var spec := NoFilter.(typ := "etat_tap");
    assert TabKey(EtatTap) == "etat_tap" && GroupFilled(b, EtatTap);
    KeepIff(spec, a);
    KeepIff(spec, b);
    HasTypeIff("etat_tap", a);
  }

  // ─── One record's table ──────────────────────────────────────────────────

  /** What `TabDataView` renders: one table of the record, or nothing for an unknown key. */
  datatype View =
    | EncView(encRows: seq<EncRow>)
    | TvaView(tvaRows: seq<TvaRow>)
    | TimbreView(timbreRows: seq<TimbreRow>)
    | CaView(b12: string, b13: string)
    | TapView(tapRows: seq<TapRow>)
    | NoView

  function TabDataView(tabKey: string, d: Declaration): View {
    match tabKey
    case "encaissement" => EncView(d.encRows)
    case "tva_immo" => TvaView(d.tvaImmoRows)
    case "tva_biens" => TvaView(d.tvaBiensRows)
    case "droits_timbre" => TimbreView(d.timbreRows)
    case "ca_tap" => CaView(d.b12, d.b13)
    case "etat_tap" => TapView(d.tapRows)
    case _ => NoView
  }

  /** The table of the form's active tab, as the creation page held it. */
  function FormView(f: Form): View {
    match f.tab
    case Encaissement => EncView(f.encRows)
    case TvaImmo => TvaView(f.tvaImmoRows)
    case TvaBiens => TvaView(f.tvaBiensRows)
    case DroitsTimbre => TimbreView(f.timbreRows)
    case CaTap => CaView(f.b12, f.b13)
    case EtatTap => TapView(f.tapRows)
  }

  /** Viewing a saved record under the type the page shows for it displays the table that was saved. */
  lemma ViewShowsSavedTable(f: Form, id: string, createdAt: string)
    requires RowsPresent(f) && Validate(f).None?
    ensures TabDataView(TypeOf(BuildDecl(f, id, createdAt)).key, BuildDecl(f, id, createdAt)) == FormView(f)
  {
    SavedRecordType(f, id, createdAt, "");
    BuildKeepsOnlyActiveTab(f, id, createdAt);
  }

  // ─── Deletion ────────────────────────────────────────────────────────────

  function IdIsNot(id: string): Declaration -> bool {
    (d: Declaration) => d.id != id
  }

  /** `declarations.filter((d) => d.id !== id)`. */
  function DeleteById(ds: seq<Declaration>, id: string): seq<Declaration> {
    Filter(IdIsNot(id), ds)
  }

  /**
   * Deletion leaves no record with that id and keeps every other record in
   * order; it changes nothing when the id is absent, and a second deletion
   * changes nothing more.
   */
  lemma DeleteProperties(ds: seq<Declaration>, id: string)
    ensures forall i :: 0 <= i < |DeleteById(ds, id)| ==> DeleteById(ds, id)[i].id != id
    ensures forall i :: 0 <= i < |ds| && ds[i].id != id ==> ds[i] in DeleteById(ds, id)
    ensures IsSubsequence(DeleteById(ds, id), ds)
    ensures (forall i :: 0 <= i < |ds| ==> ds[i].id != id) ==> DeleteById(ds, id) == ds
    ensures DeleteById(DeleteById(ds, id), id) == DeleteById(ds, id)
  {
    FilterIsSubsequence(IdIsNot(id), ds);
    if forall i :: 0 <= i < |ds| ==> ds[i].id != id {
      FilterAllPass(IdIsNot(id), ds);
    }
    FilterIdempotent(IdIsNot(id), ds);
  }

  /** Every record with another id keeps all of its copies, duplicates included. */
  lemma DeleteKeepsCopies(ds: seq<Declaration>, id: string)
    ensures forall d: Declaration :: d.id != id ==> multiset(DeleteById(ds, id))[d] == multiset(ds)[d]
    ensures forall d: Declaration :: d.id == id ==> multiset(DeleteById(ds, id))[d] == 0
  {
    FilterMultiplicity(IdIsNot(id), ds);
  }

  /** After a deletion is written back, loading the collection finds no record with that id. */
  lemma DeleteThenList(ds: seq<Declaration>, id: string)
    ensures forall d :: d in Listed(Saved(DeleteById(ds, id))) ==> d.id != id
  {
    DeleteProperties(ds, id);
  }

  // ─── The page ────────────────────────────────────────────────────────────

  /** The history page's `declarations` state, over the storage entry it loads from and writes to. */
  class HistoryPage {
    var declarations: seq<Declaration>
    const store: DeclarationStore

    constructor (store: DeclarationStore)
      ensures this.store == store && declarations == []
    {
      this.store := store;
      declarations := [];
    }

    /** The mount effect: the collection from storage, empty when the entry is missing or unreadable. */
    method LoadDeclarations()
      modifies this
      ensures declarations == Listed(store.content)
    {
      declarations := store.Load();
    }

    /** The rows the table lists for the current filter fields. */
    function Filtered(spec: FilterSpec): seq<Declaration>
      reads this
    {
      FilterDecls(declarations, spec)
    }

    /** `handleDelete`: the new list replaces the state and is written back; a refused write is swallowed. */
    method HandleDelete(id: string, writable: bool)
      modifies this, store
      ensures declarations == DeleteById(old(declarations), id)
      ensures store.content == if writable then Saved(declarations) else old(store.content)
    {
      var updated := DeleteById(declarations, id);
      declarations := updated;
      store.Write(updated, writable);
    }
  }
}
