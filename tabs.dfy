/**
 * The six tables of the creation page: their row edits and the totals they
 * display. TTC is the tax-inclusive amount, HT the tax-exclusive one and TVA
 * the value-added tax; 1.19 is the VAT multiplier (19 %).
 */
module Tabs {
  import opened Seqs
  import opened Numbers
  import opened RowEditing
  import opened Declaration

  const VatMultiplier: real := 1.19
  const CaRate: real := 0.07
  const CaGlobalRate: real := 0.01

  // ─── Arithmetic ──────────────────────────────────────────────────────────

  /** HT from TTC: `ttc / 1.19`. */
  function Ht(ttc: real): (ht: real)
    ensures ht * VatMultiplier == ttc
  {
    ttc / VatMultiplier
  }

  /** TVA from TTC: `ttc - ht`; HT and TVA make up TTC again. */
  function Tva(ttc: real): (tva: real)
    ensures Ht(ttc) + tva == ttc
    ensures ttc >= 0.0 ==> 0.0 <= tva <= ttc && 0.0 <= Ht(ttc) <= ttc
  {
    ttc - Ht(ttc)
  }

  /** A tax at a fixed rate on a base. */
  function FixedRateTax(base: real, rate: real): real {
    base * rate
  }

  /** The two fixed rates on a base of 100 give 7 and 1. */
  lemma FixedRatesOnHundred()
    ensures FixedRateTax(100.0, CaRate) == 7.0
    ensures FixedRateTax(100.0, CaGlobalRate) == 1.0
  {
  }

  // ─── Tab 1: encaissement ─────────────────────────────────────────────────

  function EncTtc(r: EncRow): real { Num(r.ttc) }
  /** The HT column of one row, `num(ttc) / 1.19`. */
  function EncRowHt(r: EncRow): real { Ht(Num(r.ttc)) }
  /** The TVA column of one row, `num(ttc) - ht`. */
  function EncRowTva(r: EncRow): real { Tva(Num(r.ttc)) }

  datatype EncTotals = EncTotals(ttc: real, ht: real, tva: real)

  /** The table footer: TTC summed over the rows, then HT and TVA from that sum. */
  function EncTotalsOf(rows: seq<EncRow>): (t: EncTotals)
    ensures t.ht + t.tva == t.ttc
    ensures t.ht * VatMultiplier == t.ttc
    ensures (forall i :: 0 <= i < |rows| ==> Num(rows[i].ttc) >= 0.0) ==> 0.0 <= t.tva <= t.ttc
  {
    var ttc := Sum(EncTtc, rows);
    assert (forall i :: 0 <= i < |rows| ==> Num(rows[i].ttc) >= 0.0) ==> ttc >= 0.0 by {
      if forall i :: 0 <= i < |rows| ==> Num(rows[i].ttc) >= 0.0 {
        SumNonNegative(EncTtc, rows);
      }
    }
    EncTotals(ttc, Ht(ttc), Tva(ttc))
  }

  /**
   * Summing the per-row HT and TVA columns, as the printed form does, gives
   * the footer's HT and TVA computed from the TTC total.
   */
  lemma {:induction false} RowColumnsSumToTotals(rows: seq<EncRow>)
    ensures Sum(EncRowHt, rows) == EncTotalsOf(rows).ht
    ensures Sum(EncRowTva, rows) == EncTotalsOf(rows).tva
  {
    if rows != [] {
      RowColumnsSumToTotals(rows[..|rows| - 1]);
    }
  }

  function AddEncRow(p: seq<EncRow>): seq<EncRow> { AddRow(p, EmptyEnc) }
  function RemoveEncRow(p: seq<EncRow>, i: int): seq<EncRow> { RemoveRow(p, i) }

  /** `update(i, field, val)` on the encaissement table. */
  function UpdateEnc(p: seq<EncRow>, i: int, f: EncField, v: string): (r: seq<EncRow>)
    ensures |r| == |p|
    ensures forall k :: 0 <= k < |p| && k != i ==> r[k] == p[k]
    ensures 0 <= i < |p| ==> r[i].Get(f) == v && forall g :: g != f ==> r[i].Get(g) == p[i].Get(g)
  {
    UpdateRow(p, i, (r: EncRow) => r.With(f, v))
  }

  /** Adding a row leaves the footer as it was. */
  lemma AddEncRowKeepsTotals(p: seq<EncRow>)
    ensures EncTotalsOf(AddEncRow(p)) == EncTotalsOf(p)
  {
    NumBlank("");
    AddRowKeepsTotal(EncTtc, p, EmptyEnc);
    assert Sum(EncTtc, AddEncRow(p)) == Sum(EncTtc, p);
  }

  /** Typing a TTC amount changes the TTC total by the difference; editing a label changes nothing. */
  lemma UpdateEncTotals(p: seq<EncRow>, i: int, v: string)
    requires 0 <= i < |p|
    ensures EncTotalsOf(UpdateEnc(p, i, Ttc, v)).ttc == EncTotalsOf(p).ttc - Num(p[i].ttc) + Num(v)
    ensures EncTotalsOf(UpdateEnc(p, i, Designation, v)) == EncTotalsOf(p)
  {
    UpdateRowTotal(EncTtc, p, i, (r: EncRow) => r.With(Ttc, v));
    UpdateRowTotal(EncTtc, p, i, (r: EncRow) => r.With(Designation, v));
    assert Sum(EncTtc, UpdateEnc(p, i, Designation, v)) == Sum(EncTtc, p);
  }

  // ─── Tabs 2 and 3: VAT on fixed assets, VAT on goods and services ────────

  function TvaHt(r: TvaRow): real { Num(r.montantHT) }
  function TvaDed(r: TvaRow): real { Num(r.tvaDeductible) }

  datatype TvaTotals = TvaTotals(totalHT: real, totalTVA: real)

  function TvaTotalsOf(rows: seq<TvaRow>): TvaTotals {
    TvaTotals(Sum(TvaHt, rows), Sum(TvaDed, rows))
  }

  function AddTvaRow(p: seq<TvaRow>): seq<TvaRow> { AddRow(p, EmptyTva) }
  function RemoveTvaRow(p: seq<TvaRow>, i: int): seq<TvaRow> { RemoveRow(p, i) }

  /** `update(i, field, val)` on a VAT table. */
  function UpdateTva(p: seq<TvaRow>, i: int, f: TvaField, v: string): (r: seq<TvaRow>)
    ensures |r| == |p|
    ensures forall k :: 0 <= k < |p| && k != i ==> r[k] == p[k]
    ensures 0 <= i < |p| ==> r[i].Get(f) == v && forall g :: g != f ==> r[i].Get(g) == p[i].Get(g)
  {
    UpdateRow(p, i, (r: TvaRow) => r.With(f, v))
  }

  /** Removing a VAT row takes its HT amount and its deductible VAT out of the footer. */
  lemma RemoveTvaRowTotals(p: seq<TvaRow>, i: int)
    requires 0 <= i < |p|
    ensures TvaTotalsOf(RemoveTvaRow(p, i)).totalHT == TvaTotalsOf(p).totalHT - Num(p[i].montantHT)
    ensures TvaTotalsOf(RemoveTvaRow(p, i)).totalTVA == TvaTotalsOf(p).totalTVA - Num(p[i].tvaDeductible)
  {
    RemoveRowTotal(TvaHt, p, i);
    RemoveRowTotal(TvaDed, p, i);
  }

  // ─── Tab 4: stamp duty ───────────────────────────────────────────────────

  function TimbreCa(r: TimbreRow): real { Num(r.caTTCEsp) }
  function TimbreDroit(r: TimbreRow): real { Num(r.droitTimbre) }

  datatype TimbreTotals = TimbreTotals(totalCA: real, totalDroit: real)

  function TimbreTotalsOf(rows: seq<TimbreRow>): TimbreTotals {
    TimbreTotals(Sum(TimbreCa, rows), Sum(TimbreDroit, rows))
  }

  function AddTimbreRow(p: seq<TimbreRow>): seq<TimbreRow> { AddRow(p, EmptyTimbre) }
  function RemoveTimbreRow(p: seq<TimbreRow>, i: int): seq<TimbreRow> { RemoveRow(p, i) }

  /** `update(i, field, val)` on the stamp-duty table. */
  function UpdateTimbre(p: seq<TimbreRow>, i: int, f: TimbreField, v: string): (r: seq<TimbreRow>)
    ensures |r| == |p|
    ensures forall k :: 0 <= k < |p| && k != i ==> r[k] == p[k]
    ensures 0 <= i < |p| ==> r[i].Get(f) == v && forall g :: g != f ==> r[i].Get(g) == p[i].Get(g)
  {
    UpdateRow(p, i, (r: TimbreRow) => r.With(f, v))
  }

  // ─── Tab 5: turnover at 7 % and global turnover at 1 % ───────────────────

  /** `c12 = num(b12) * 0.07`. */
  function C12(b12: string): real { FixedRateTax(Num(b12), CaRate) }
  /** `c13 = num(b13) * 0.01`. */
  function C13(b13: string): real { FixedRateTax(Num(b13), CaGlobalRate) }

  datatype CaTotals = CaTotals(base: real, tax: real)

  /** The footer: the two bases added up, and the two taxes added up. */
  function CaTotalsOf(b12: string, b13: string): CaTotals {
    CaTotals(Num(b12) + Num(b13), C12(b12) + C13(b13))
  }

  /** With bases typed as whole numbers, the tax total is 7 % of the first plus 1 % of the second. */
  lemma CaTotalsOfWholeBases(n: nat, m: nat)
    ensures CaTotalsOf(NatToString(n), NatToString(m)) ==
      CaTotals(n as real + m as real, n as real * 0.07 + m as real * 0.01)
  {
    NumNatRoundTrip(n);
    NumNatRoundTrip(m);
    CaTotalsFromValues(NatToString(n), NatToString(m), n as real, m as real);
  }

  lemma CaTotalsFromValues(b12: string, b13: string, x: real, y: real)
    requires Num(b12) == x && Num(b13) == y
    ensures CaTotalsOf(b12, b13) == CaTotals(x + y, x * 0.07 + y * 0.01)
  {
  }

  /** An empty base contributes nothing to either total. */
  lemma CaEmptyBase(b: string)
    ensures CaTotalsOf(b, "") == CaTotals(Num(b), Num(b) * CaRate)
    ensures CaTotalsOf("", b) == CaTotals(Num(b), Num(b) * CaGlobalRate)
  {
    NumBlank("");
    CaTotalsFromValues(b, "", Num(b), 0.0);
    CaTotalsFromValues("", b, 0.0, Num(b));
  }

  // ─── Tab 6: TAP ──────────────────────────────────────────────────────────

  function TapAmount(r: TapRow): real { Num(r.tap2) }

  /** `MONTANT TAP`: the TAP 2 % column summed. */
  function TapTotal(rows: seq<TapRow>): real {
    Sum(TapAmount, rows)
  }

  function AddTapRow(p: seq<TapRow>): seq<TapRow> { AddRow(p, EmptyTap) }
  function RemoveTapRow(p: seq<TapRow>, i: int): seq<TapRow> { RemoveRow(p, i) }

  /** `updateRow(i, field, val)` on the TAP table. */
  function UpdateTap(p: seq<TapRow>, i: int, f: TapField, v: string): (r: seq<TapRow>)
    ensures |r| == |p|
    ensures forall k :: 0 <= k < |p| && k != i ==> r[k] == p[k]
    ensures 0 <= i < |p| ==> r[i].Get(f) == v && forall g :: g != f ==> r[i].Get(g) == p[i].Get(g)
  {
    UpdateRow(p, i, (r: TapRow) => r.With(f, v))
  }
}
