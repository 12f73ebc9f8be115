/**
 * The declaration record and its row types, as the creation page saves them
 * and the history page reads them back. Every amount is kept as the text the
 * user typed; totals read it with `Numbers.Num`.
 */
module Declaration {

  /** An encaissement row: a label and a tax-inclusive (TTC) amount. */
  datatype EncRow = EncRow(designation: string, ttc: string)
  {
    function Get(f: EncField): string {
      match f
      case Designation => designation
      case Ttc => ttc
    }

    /** `{ ...r, [f]: v }`. */
    function With(f: EncField, v: string): (r: EncRow)
      ensures r.Get(f) == v
      ensures forall g :: g != f ==> r.Get(g) == Get(g)
    {
      match f
      case Designation => this.(designation := v)
      case Ttc => this.(ttc := v)
    }
  }

  datatype EncField = Designation | Ttc

  /** A VAT row (fixed assets, or goods and services): the supplier and one invoice. */
  datatype TvaRow = TvaRow(
    nomRaisonSociale: string, idFiscal: string, adresse: string, numRC: string,
    dateFacture: string, refFacture: string, montantHT: string, tvaDeductible: string, nature: string)
  {
    function Get(f: TvaField): string {
      match f
      case NomRaisonSociale => nomRaisonSociale
      case IdFiscal => idFiscal
      case Adresse => adresse
      case NumRC => numRC
      case DateFacture => dateFacture
      case RefFacture => refFacture
      case MontantHT => montantHT
      case TvaDeductible => tvaDeductible
      case Nature => nature
    }

    /** `{ ...r, [f]: v }`. */
    function With(f: TvaField, v: string): (r: TvaRow)
      ensures r.Get(f) == v
      ensures forall g :: g != f ==> r.Get(g) == Get(g)
    {
      match f
      case NomRaisonSociale => this.(nomRaisonSociale := v)
      case IdFiscal => this.(idFiscal := v)
      case Adresse => this.(adresse := v)
      case NumRC => this.(numRC := v)
      case DateFacture => this.(dateFacture := v)
      case RefFacture => this.(refFacture := v)
      case MontantHT => this.(montantHT := v)
      case TvaDeductible => this.(tvaDeductible := v)
      case Nature => this.(nature := v)
    }
  }

  datatype TvaField =
    NomRaisonSociale | IdFiscal | Adresse | NumRC | DateFacture | RefFacture | MontantHT | TvaDeductible | Nature

  /** A stamp-duty row: a label, the cash TTC turnover and the stamp duty. */
  datatype TimbreRow = TimbreRow(designation: string, caTTCEsp: string, droitTimbre: string)
  {
    function Get(f: TimbreField): string {
      match f
      case TimbreDesignation => designation
      case CaTTCEsp => caTTCEsp
      case DroitTimbre => droitTimbre
    }

    /** `{ ...r, [f]: v }`. */
    function With(f: TimbreField, v: string): (r: TimbreRow)
      ensures r.Get(f) == v
      ensures forall g :: g != f ==> r.Get(g) == Get(g)
    {
      match f
      case TimbreDesignation => this.(designation := v)
      case CaTTCEsp => this.(caTTCEsp := v)
      case DroitTimbre => this.(droitTimbre := v)
    }
  }

  datatype TimbreField = TimbreDesignation | CaTTCEsp | DroitTimbre

  /** A TAP row: a wilaya code, a commune and the 2 % professional-activity tax. */
  datatype TapRow = TapRow(wilayaCode: string, commune: string, tap2: string)
  {
    function Get(f: TapField): string {
      match f
      case WilayaCode => wilayaCode
      case Commune => commune
      case Tap2 => tap2
    }

    /** `{ ...r, [f]: v }`. */
    function With(f: TapField, v: string): (r: TapRow)
      ensures r.Get(f) == v
      ensures forall g :: g != f ==> r.Get(g) == Get(g)
    {
      match f
      case WilayaCode => this.(wilayaCode := v)
      case Commune => this.(commune := v)
      case Tap2 => this.(tap2 := v)
    }
  }

  datatype TapField = WilayaCode | Commune | Tap2

  /** The empty rows that `addRow` appends. */
  const EmptyEnc := EncRow("", "")
  const EmptyTva := TvaRow("", "", "", "", "", "", "", "", "")
  const EmptyTimbre := TimbreRow("", "", "")
  const EmptyTap := TapRow("", "", "")

  /**
   * A saved declaration. A group the record does not use is the empty list
   * (or, for the two turnover bases, the empty string); a field missing from
   * stored data reads the same way.
   */
  datatype Declaration = Declaration(
    id: string, createdAt: string, direction: string, mois: string, annee: string,
    encRows: seq<EncRow>, tvaImmoRows: seq<TvaRow>, tvaBiensRows: seq<TvaRow>,
    timbreRows: seq<TimbreRow>, b12: string, b13: string, tapRows: seq<TapRow>)

  /** The six tables of the creation page. */
  datatype Tab = Encaissement | TvaImmo | TvaBiens | DroitsTimbre | CaTap | EtatTap

  /** The tab's key: the value the creation page's tabs and the history type filter use. */
  function TabKey(t: Tab): string {
    match t
    case Encaissement => "encaissement"
    case TvaImmo => "tva_immo"
    case TvaBiens => "tva_biens"
    case DroitsTimbre => "droits_timbre"
    case CaTap => "ca_tap"
    case EtatTap => "etat_tap"
  }

  /** The tab's label in the creation page's tab table. */
  function TabLabel(t: Tab): string {
    match t
    case Encaissement => "Encaissement"
    case TvaImmo => "TVA / IMMO"
    case TvaBiens => "TVA / Biens & Serv"
    case DroitsTimbre => "Droits Timbre"
    case CaTap => "CA 7% & CA Glob 1%"
    case EtatTap => "ETAT TAP"
  }

  /** The tab's accent colour in the creation page's tab table. */
  function TabColor(t: Tab): string {
    match t
    case Encaissement => "#2db34b"
    case TvaImmo => "#1d6fb8"
    case TvaBiens => "#7c3aed"
    case DroitsTimbre => "#0891b2"
    case CaTap => "#ea580c"
    case EtatTap => "#be123c"
  }

  /** Distinct tabs have distinct keys, so a key names at most one tab. */
  lemma TabKeyInjective(t: Tab, u: Tab)
    ensures TabKey(t) == TabKey(u) <==> t == u
  {
  }

  /** Whether the record's data group for tab `t` holds anything. */
  predicate GroupFilled(d: Declaration, t: Tab) {
    match t
    case Encaissement => |d.encRows| > 0
    case TvaImmo => |d.tvaImmoRows| > 0
    case TvaBiens => |d.tvaBiensRows| > 0
    case DroitsTimbre => |d.timbreRows| > 0
    case CaTap => d.b12 != "" || d.b13 != ""
    case EtatTap => |d.tapRows| > 0
  }

  /** The record carries data for tab `t` and for no other tab. */
  predicate OnlyGroup(d: Declaration, t: Tab) {
    GroupFilled(d, t) && forall u :: u != t ==> !GroupFilled(d, u)
  }
}
