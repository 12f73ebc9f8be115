/**
 * The creation page: the form state, the checks `handleSave` makes before it
 * stores anything, the record it builds from the active tab, and the save
 * itself.
 */
module NewDeclaration {
  import opened Wrappers
  import opened Text
  import opened RowEditing
  import opened Declaration
  import opened Store
  import opened Tabs

  /** The page's state: the active tab, the period and direction, and the six tables. */
  datatype Form = Form(
    tab: Tab, direction: string, mois: string, annee: string,
    encRows: seq<EncRow>, tvaImmoRows: seq<TvaRow>, tvaBiensRows: seq<TvaRow>,
    timbreRows: seq<TimbreRow>, b12: string, b13: string, tapRows: seq<TapRow>)

  /** The page as it opens: tab 1, no direction, the current period, one empty row per table. */
  function InitialForm(mois: string, annee: string): Form {
    Form(Encaissement, "", mois, annee, [EmptyEnc], [EmptyTva], [EmptyTva], [EmptyTimbre], "", "", [EmptyTap])
  }

  /** Every table has at least one row: the page opens that way and never removes the last row. */
  predicate RowsPresent(f: Form) {
    |f.encRows| >= 1 && |f.tvaImmoRows| >= 1 && |f.tvaBiensRows| >= 1
    && |f.timbreRows| >= 1 && |f.tapRows| >= 1
  }

  /** The tables of the form that hold rows (tab 5 holds two bases instead). */
  datatype RowTable = EncTable | TvaImmoTable | TvaBiensTable | TimbreTable | TapTable

  /**
   * What the user does to a table: the add button, a row's trash button, a
   * typed cell, or the wilaya select of a TAP row.
   */
  datatype RowAction =
    | AddClicked(table: RowTable)
    | TrashClicked(table: RowTable, row: int)
    | EncTyped(row: int, encField: EncField, text: string)
    | TvaImmoTyped(row: int, tvaField: TvaField, text: string)
    | TvaBiensTyped(row: int, tvaField: TvaField, text: string)
    | TimbreTyped(row: int, timbreField: TimbreField, text: string)
    | TapTyped(row: int, tapField: TapField, text: string)
    | WilayaPicked(row: int, code: string)

  /** The wilaya select's handler: the new code, then the commune cleared. */
  function PickWilaya(p: seq<TapRow>, i: int, code: string): (r: seq<TapRow>)
    ensures |r| == |p|
    ensures forall k :: 0 <= k < |p| && k != i ==> r[k] == p[k]
    ensures 0 <= i < |p| ==> r[i] == TapRow(code, "", p[i].tap2)
  {
    var q := UpdateTap(p, i, WilayaCode, code);
    var r := UpdateTap(q, i, Commune, "");
    assert 0 <= i < |p| ==> r[i].Get(WilayaCode) == code && r[i].Get(Commune) == "" && r[i].Get(Tap2) == p[i].Get(Tap2);
    r
  }

  /** The table an action is on. */
  function Target(a: RowAction): RowTable {
    match a
    case AddClicked(t) => t
    case TrashClicked(t, _) => t
    case EncTyped(_, _, _) => EncTable
    case TvaImmoTyped(_, _, _) => TvaImmoTable
    case TvaBiensTyped(_, _, _) => TvaBiensTable
    case TimbreTyped(_, _, _) => TimbreTable
    case TapTyped(_, _, _) => TapTable
    case WilayaPicked(_, _) => TapTable
  }

  /** The number of rows in one table of the form. */
  function TableSize(f: Form, t: RowTable): nat {
    match t
    case EncTable => |f.encRows|
    case TvaImmoTable => |f.tvaImmoRows|
    case TvaBiensTable => |f.tvaBiensRows|
    case TimbreTable => |f.timbreRows|
    case TapTable => |f.tapRows|
  }

  /**
   * The form after one action. Each action changes its own table only: an
   * add appends a row, a trash press removes the row when it exists and is
   * not the last one (the button is disabled on a single row), and a cell
   * edit or wilaya pick keeps the number of rows.
   */
  function Apply(f: Form, a: RowAction): (g: Form)
    ensures g.tab == f.tab && g.direction == f.direction && g.mois == f.mois && g.annee == f.annee
    ensures g.b12 == f.b12 && g.b13 == f.b13
    ensures Target(a) != EncTable ==> g.encRows == f.encRows
    ensures Target(a) != TvaImmoTable ==> g.tvaImmoRows == f.tvaImmoRows
    ensures Target(a) != TvaBiensTable ==> g.tvaBiensRows == f.tvaBiensRows
    ensures Target(a) != TimbreTable ==> g.timbreRows == f.timbreRows
    ensures Target(a) != TapTable ==> g.tapRows == f.tapRows
    ensures a.AddClicked? ==> TableSize(g, a.table) == TableSize(f, a.table) + 1
    ensures a.TrashClicked? ==>
      TableSize(g, a.table) == (if TableSize(f, a.table) != 1 && 0 <= a.row < TableSize(f, a.table)
                                then TableSize(f, a.table) - 1 else TableSize(f, a.table))
    ensures !a.AddClicked? && !a.TrashClicked? ==> TableSize(g, Target(a)) == TableSize(f, Target(a))
  {
    match a
    case AddClicked(t) =>
      (match t
       case EncTable => f.(encRows := AddEncRow(f.encRows))
       case TvaImmoTable => f.(tvaImmoRows := AddTvaRow(f.tvaImmoRows))
       case TvaBiensTable => f.(tvaBiensRows := AddTvaRow(f.tvaBiensRows))
       case TimbreTable => f.(timbreRows := AddTimbreRow(f.timbreRows))
       case TapTable => f.(tapRows := AddTapRow(f.tapRows)))
    case TrashClicked(t, i) =>
      (match t
       case EncTable => if CanRemove(f.encRows) then f.(encRows := RemoveEncRow(f.encRows, i)) else f
       case TvaImmoTable => if CanRemove(f.tvaImmoRows) then f.(tvaImmoRows := RemoveTvaRow(f.tvaImmoRows, i)) else f
       case TvaBiensTable => if CanRemove(f.tvaBiensRows) then f.(tvaBiensRows := RemoveTvaRow(f.tvaBiensRows, i)) else f
       case TimbreTable => if CanRemove(f.timbreRows) then f.(timbreRows := RemoveTimbreRow(f.timbreRows, i)) else f
       case TapTable => if CanRemove(f.tapRows) then f.(tapRows := RemoveTapRow(f.tapRows, i)) else f)
    case EncTyped(i, g, v) => f.(encRows := UpdateEnc(f.encRows, i, g, v))
    case TvaImmoTyped(i, g, v) => f.(tvaImmoRows := UpdateTva(f.tvaImmoRows, i, g, v))
    case TvaBiensTyped(i, g, v) => f.(tvaBiensRows := UpdateTva(f.tvaBiensRows, i, g, v))
    case TimbreTyped(i, g, v) => f.(timbreRows := UpdateTimbre(f.timbreRows, i, g, v))
    case TapTyped(i, g, v) => f.(tapRows := UpdateTap(f.tapRows, i, g, v))
    case WilayaPicked(i, code) => f.(tapRows := PickWilaya(f.tapRows, i, code))
  }

  /** The form after a sequence of actions, first to last. */
  function Replay(f: Form, actions: seq<RowAction>): Form
    decreases |actions|
  {
    if actions == [] then f else Replay(Apply(f, actions[0]), actions[1..])
  }

  /** The opening form has a row in every table. */
  lemma InitialRowsPresent(mois: string, annee: string)
    ensures RowsPresent(InitialForm(mois, annee))
  {
  }

  /** No action, on any of the five tables, leaves a table without a row. */
  lemma RowsPresentKept(f: Form, a: RowAction)
    requires RowsPresent(f)
    ensures RowsPresent(Apply(f, a))
  {
    match a
    case AddClicked(_) =>
    case TrashClicked(t, i) =>
      match t {
        case EncTable => EditsKeepARow(f.encRows, EmptyEnc, i, (r: EncRow) => r);
        case TvaImmoTable => EditsKeepARow(f.tvaImmoRows, EmptyTva, i, (r: TvaRow) => r);
        case TvaBiensTable => EditsKeepARow(f.tvaBiensRows, EmptyTva, i, (r: TvaRow) => r);
        case TimbreTable => EditsKeepARow(f.timbreRows, EmptyTimbre, i, (r: TimbreRow) => r);
        case TapTable => EditsKeepARow(f.tapRows, EmptyTap, i, (r: TapRow) => r);
      }
    case _ =>
  }

  /**
   * Every form reachable by row actions keeps a row in every table. The other
   * edits of the page (tab, direction, period, the two bases) leave the row
   * tables alone.
   */
  lemma {:induction false} ReachableRowsPresent(f: Form, actions: seq<RowAction>)
    requires RowsPresent(f)
    ensures RowsPresent(Replay(f, actions))
    decreases |actions|
  {
    if actions != [] {
      RowsPresentKept(f, actions[0]);
      ReachableRowsPresent(Apply(f, actions[0]), actions[1..]);
    }
  }

  /**
   * Picking a wilaya empties that row's commune, so with the TAP tab active
   * the form cannot be saved until a commune is chosen again.
   */
  lemma WilayaClearsCommune(f: Form, i: int, code: string)
    requires 0 <= i < |f.tapRows|
    ensures Apply(f, WilayaPicked(i, code)).tapRows[i] == TapRow(code, "", f.tapRows[i].tap2)
    ensures f.tab == EtatTap ==> Validate(Apply(f, WilayaPicked(i, code))) != None
  {
    var g := Apply(f, WilayaPicked(i, code));
    assert g.tapRows[i].commune == "";
    assert !TapRowComplete(g.tapRows[i]) by { BlankIff(""); }
    if f.tab == EtatTap {
      assert !ActiveTableComplete(g);
      ValidateIff(g);
    }
  }

  /** Why a save was refused, in the order the page checks. */
  datatype SaveError = DirectionRequired | MonthRequired | YearRequired | IncompleteFields

  predicate EncRowComplete(r: EncRow) {
    !Blank(r.designation) && r.ttc != ""
  }

  predicate TvaRowComplete(r: TvaRow) {
    !Blank(r.nomRaisonSociale) && !Blank(r.idFiscal) && !Blank(r.adresse) && !Blank(r.numRC)
    && r.dateFacture != "" && !Blank(r.refFacture) && r.montantHT != "" && r.tvaDeductible != ""
    && r.nature != ""
  }

  predicate TimbreRowComplete(r: TimbreRow) {
    !Blank(r.designation) && r.caTTCEsp != "" && r.droitTimbre != ""
  }

  predicate TapRowComplete(r: TapRow) {
    r.wilayaCode != "" && !Blank(r.commune) && r.tap2 != ""
  }

  /** `rows.some(r => !complete(r))`: some row has an empty required cell. */
  predicate SomeIncomplete<R>(rows: seq<R>, complete: R -> bool) {
    exists i :: 0 <= i < |rows| && !complete(rows[i])
  }

  /** No row of the active table has an empty required cell (for tab 5, both bases are filled). */
  predicate ActiveTableComplete(f: Form) {
    match f.tab
    case Encaissement => forall i :: 0 <= i < |f.encRows| ==> EncRowComplete(f.encRows[i])
    case TvaImmo => forall i :: 0 <= i < |f.tvaImmoRows| ==> TvaRowComplete(f.tvaImmoRows[i])
    case TvaBiens => forall i :: 0 <= i < |f.tvaBiensRows| ==> TvaRowComplete(f.tvaBiensRows[i])
    case DroitsTimbre => forall i :: 0 <= i < |f.timbreRows| ==> TimbreRowComplete(f.timbreRows[i])
    case CaTap => f.b12 != "" && f.b13 != ""
    case EtatTap => forall i :: 0 <= i < |f.tapRows| ==> TapRowComplete(f.tapRows[i])
  }

  /** The first check of `handleSave` that fails, or None when the form may be saved. */
  function Validate(f: Form): Option<SaveError> {
    if Blank(f.direction) then Some(DirectionRequired)
    else if f.mois == "" then Some(MonthRequired)
    else if f.annee == "" then Some(YearRequired)
    else if !ActiveTableComplete(f) then Some(IncompleteFields)
    else None
  }

  /** A row's label is filled when it holds a character other than white space. */
  predicate HasText(s: string) {
    exists k :: 0 <= k < |s| && !IsSpace(s[k])
  }

  /**
   * A form passes the checks exactly when its direction holds some text, the
   * month and year are chosen, and every cell of the active table is filled;
   * an earlier failing check hides the later ones.
   */
  lemma ValidateIff(f: Form)
    ensures Validate(f).None? <==>
      HasText(f.direction) && f.mois != "" && f.annee != "" && ActiveTableComplete(f)
    ensures Validate(f) == Some(DirectionRequired) <==> !HasText(f.direction)
    ensures Validate(f) == Some(MonthRequired) <==> HasText(f.direction) && f.mois == ""
    ensures Validate(f) == Some(YearRequired) <==> HasText(f.direction) && f.mois != "" && f.annee == ""
  {
    BlankIff(f.direction);
  }

  /** On tab 1 a saved form has, in every row, a label with text and a TTC amount. */
  lemma SavedEncRowsFilled(f: Form)
    requires f.tab == Encaissement && Validate(f).None?
    ensures forall i :: 0 <= i < |f.encRows| ==> HasText(f.encRows[i].designation) && f.encRows[i].ttc != ""
  {
    forall i | 0 <= i < |f.encRows|
      ensures HasText(f.encRows[i].designation)
    {
      BlankIff(f.encRows[i].designation);
    }
  }

  /** The record `handleSave` builds: the form's metadata, and data for the active tab only. */
  function BuildDecl(f: Form, id: string, createdAt: string): Declaration {
    var base := Declaration(id, createdAt, f.direction, f.mois, f.annee, [], [], [], [], "", "", []);
    match f.tab
    case Encaissement => base.(encRows := f.encRows)
    case TvaImmo => base.(tvaImmoRows := f.tvaImmoRows)
    case TvaBiens => base.(tvaBiensRows := f.tvaBiensRows)
    case DroitsTimbre => base.(timbreRows := f.timbreRows)
    case CaTap => base.(b12 := f.b12, b13 := f.b13)
    case EtatTap => base.(tapRows := f.tapRows)
  }

  /** The active tab's data as the form holds it is the data the record holds for that tab. */
  predicate CarriesActiveData(d: Declaration, f: Form) {
    match f.tab
    case Encaissement => d.encRows == f.encRows
    case TvaImmo => d.tvaImmoRows == f.tvaImmoRows
    case TvaBiens => d.tvaBiensRows == f.tvaBiensRows
    case DroitsTimbre => d.timbreRows == f.timbreRows
    case CaTap => d.b12 == f.b12 && d.b13 == f.b13
    case EtatTap => d.tapRows == f.tapRows
  }

  /** The built record copies the metadata and the active tab's data, and every other group is empty. */
  lemma BuildKeepsOnlyActiveTab(f: Form, id: string, createdAt: string)
    ensures var d := BuildDecl(f, id, createdAt);
      d.id == id && d.createdAt == createdAt && d.direction == f.direction
      && d.mois == f.mois && d.annee == f.annee
      && CarriesActiveData(d, f)
      && forall t :: t != f.tab ==> !GroupFilled(d, t)
  {
  }

  /** A record saved from a form that passed the checks carries data for exactly its tab. */
  lemma SavedRecordHasOneGroup(f: Form, id: string, createdAt: string)
    requires RowsPresent(f) && Validate(f).None?
    ensures OnlyGroup(BuildDecl(f, id, createdAt), f.tab)
  {
    BuildKeepsOnlyActiveTab(f, id, createdAt);
  }

  /** The `switch (activeTab)` of `handleSave` that sets `validationError` when a cell is empty. */
  method CheckActiveTable(f: Form) returns (validationError: bool)
    ensures validationError <==> !ActiveTableComplete(f)
  {
    validationError := false;
    match f.tab {
      case Encaissement =>
        validationError := SomeIncomplete(f.encRows, EncRowComplete);
      case TvaImmo =>
        validationError := SomeIncomplete(f.tvaImmoRows, TvaRowComplete);
      case TvaBiens =>
        validationError := SomeIncomplete(f.tvaBiensRows, TvaRowComplete);
      case DroitsTimbre =>
        validationError := SomeIncomplete(f.timbreRows, TimbreRowComplete);
      case CaTap =>
        validationError := f.b12 == "" || f.b13 == "";
      case EtatTap =>
        validationError := SomeIncomplete(f.tapRows, TapRowComplete);
    }
  }

  /** What `handleSave` did: refused with a reason, or stored this record. */
  datatype SaveResult = Rejected(error: SaveError) | Accepted(decl: Declaration)

  /**
   * `handleSave`. `id` and `createdAt` are the clock readings the page takes;
   * `writable` says whether the browser accepts the write.
   */
  method HandleSave(f: Form, id: string, createdAt: string, store: DeclarationStore, writable: bool)
    returns (result: SaveResult)
    modifies store
    ensures Validate(f).Some? ==> result == Rejected(Validate(f).value) && store.content == old(store.content)
    ensures Validate(f).None? ==> result == Accepted(BuildDecl(f, id, createdAt))
    ensures Validate(f).None? ==> store.content == AfterPrepend(old(store.content), BuildDecl(f, id, createdAt), writable)
  {
    if Blank(f.direction) {
      return Rejected(DirectionRequired);
    }
    if f.mois == "" {
      return Rejected(MonthRequired);
    }
    if f.annee == "" {
      return Rejected(YearRequired);
    }

    var validationError := CheckActiveTable(f);
    if validationError {
      return Rejected(IncompleteFields);
    }

    var baseDecl := Declaration(id, createdAt, f.direction, f.mois, f.annee, [], [], [], [], "", "", []);
    match f.tab {
      case Encaissement => baseDecl := baseDecl.(encRows := f.encRows);
      case TvaImmo => baseDecl := baseDecl.(tvaImmoRows := f.tvaImmoRows);
      case TvaBiens => baseDecl := baseDecl.(tvaBiensRows := f.tvaBiensRows);
      case DroitsTimbre => baseDecl := baseDecl.(timbreRows := f.timbreRows);
      case CaTap => baseDecl := baseDecl.(b12 := f.b12, b13 := f.b13);
      case EtatTap => baseDecl := baseDecl.(tapRows := f.tapRows);
    }
    assert baseDecl == BuildDecl(f, id, createdAt);

    var existing := store.ReadExisting();
    if existing.Some? {
      store.Write([baseDecl] + existing.value, writable);
    }
    result := Accepted(baseDecl);
  }
}
