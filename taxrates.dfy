/**
 * The `tax_rates` table of `server/db/db.js`: two-digit generated tax codes,
 * listing ordered by the code read as an integer, lookup by code, creation,
 * and update and delete guarded by an existence check. The rate is stored and
 * returned unchanged; no arithmetic is done on it.
 */
module TaxRates {
  import opened Wrappers
  import opened Tables
  import Ordering
  import CodeGen

  datatype TaxRateRow = TaxRateRow(
    taxCode: string,
    taxName: string,
    rate: real,
    calculationType: int,
    createdBy: string,
    updatedBy: string,
    createdAt: string,
    updatedAt: string)

  /** The object `createTaxRate` and `updateTaxRate` resolve with: the supplied fields and the code, not a re-read row. */
  datatype TaxRateInfo = TaxRateInfo(taxCode: string, taxName: string, rate: real, calculationType: int)

  datatype Deleted = Deleted(success: bool, taxCode: string)

  const UnknownCodeMessage: string := "指定された税率コードは存在しません"

  function TaxCodeOf(t: TaxRateRow): string { t.taxCode }
  predicate HasTaxCode(code: string, t: TaxRateRow) { t.taxCode == code }

  function TaxCodes(rows: seq<TaxRateRow>): (codes: seq<string>)
    ensures |codes| == |rows| && forall i :: 0 <= i < |rows| ==> codes[i] == rows[i].taxCode
  {
    seq(|rows|, i requires 0 <= i < |rows| => rows[i].taxCode)
  }

  /** `generateNextTaxCode` over the table. */
  function GenerateNextTaxCode(rows: seq<TaxRateRow>): (code: string)
    ensures |code| >= CodeGen.TaxCodeWidth
    ensures forall i :: 0 <= i < |rows| ==> CodeGen.CastInteger(rows[i].taxCode) < CodeGen.CastInteger(code)
    ensures forall i :: 0 <= i < |rows| ==> rows[i].taxCode != code
  {
    var codes := TaxCodes(rows);
    assert forall i :: 0 <= i < |rows| ==> codes[i] == rows[i].taxCode;
    CodeGen.NextTaxCode(codes)
  }

  /** `ORDER BY CAST(tax_code AS INTEGER)`. */
  function CompareByCode(a: TaxRateRow, b: TaxRateRow): int {
    Ordering.CompareInt(CodeGen.CastInteger(a.taxCode), CodeGen.CastInteger(b.taxCode))
  }

  predicate CodeLe(a: TaxRateRow, b: TaxRateRow) {
    CodeGen.CastInteger(a.taxCode) <= CodeGen.CastInteger(b.taxCode)
  }

  /** `getAllTaxRates`: every row once, ascending by the integer value of the code. */
  function GetAllTaxRates(rows: seq<TaxRateRow>): (r: seq<TaxRateRow>)
    ensures multiset(r) == multiset(rows)
    ensures Ordering.SortedBy(r, CodeLe)
  {
    Ordering.SortSorted(rows, CompareByCode, CodeLe);
    Ordering.Sort(rows, CompareByCode)
  }

  /** `findTaxRateByCode`. */
  function FindTaxRateByCode(rows: seq<TaxRateRow>, code: string): (r: Option<TaxRateRow>)
    ensures r.Some? <==> exists i :: 0 <= i < |rows| && rows[i].taxCode == code
    ensures r.Some? ==> r.value in rows && r.value.taxCode == code
  {
    match FindFirst(rows, t => HasTaxCode(code, t))
    case None => None
    case Some(i) => Some(rows[i])
  }

  /** The row `updateTaxRate` writes: name, rate, type and updater replaced, the code and creation fields kept. */
  function Updated(t: TaxRateRow, taxName: string, rate: real, calculationType: int, userId: string, now: string): TaxRateRow {
    t.(taxName := taxName, rate := rate, calculationType := calculationType, updatedBy := userId, updatedAt := now)
  }

  class TaxRateTable {
    var rows: seq<TaxRateRow>

    /** The UNIQUE constraint on tax_code. */
    ghost predicate Valid()
      reads this
    {
      UniqueBy(rows, TaxCodeOf)
    }

    constructor ()
      ensures Valid() && rows == []
    {
      rows := [];
    }

    /**
     * `createTaxRate`: inserts one row under the generated code. The code is
     * fresh, so the UNIQUE constraint never rejects the insert.
     */
    method CreateTaxRate(taxName: string, rate: real, calculationType: int, userId: string, now: string)
      returns (r: TaxRateInfo)
      requires Valid()
      modifies this
      ensures Valid()
      ensures var code := GenerateNextTaxCode(old(rows));
              rows == old(rows) + [TaxRateRow(code, taxName, rate, calculationType, userId, userId, now, now)]
              && r == TaxRateInfo(code, taxName, rate, calculationType)
    {
      var taxCode := GenerateNextTaxCode(rows);
      var row := TaxRateRow(taxCode, taxName, rate, calculationType, userId, userId, now, now);
      AppendKeepsUnique(rows, TaxCodeOf, row);
      rows := rows + [row];
      r := TaxRateInfo(taxCode, taxName, rate, calculationType);
    }

    /**
     * `updateTaxRate`: an unknown code throws and changes nothing; otherwise
     * only the row with that code changes, and only in its name, rate, type
     * and updater.
     */
    method UpdateTaxRate(taxCode: string, taxName: string, rate: real, calculationType: int, userId: string, now: string)
      returns (r: Result<TaxRateInfo>)
      requires Valid()
      modifies this
      ensures Valid()
      ensures (forall i :: 0 <= i < |old(rows)| ==> old(rows)[i].taxCode != taxCode) ==>
                r == Err(UnknownCodeMessage) && rows == old(rows)
      ensures forall i :: 0 <= i < |old(rows)| && old(rows)[i].taxCode == taxCode ==>
                rows == old(rows)[i := Updated(old(rows)[i], taxName, rate, calculationType, userId, now)]
                && r == Ok(TaxRateInfo(taxCode, taxName, rate, calculationType))
    {
      var found := FindFirst(rows, t => HasTaxCode(taxCode, t));
      if found.None? {
        return Err(UnknownCodeMessage);
      }
      var i := found.value;
      forall j | 0 <= j < |rows| && rows[j].taxCode == taxCode ensures j == i {
        UniqueKeyIndex(rows, TaxCodeOf, i, j);
      }
      var row := Updated(rows[i], taxName, rate, calculationType, userId, now);
      ReplaceKeepsUnique(rows, TaxCodeOf, i, row);
      rows := rows[i := row];
      r := Ok(TaxRateInfo(taxCode, taxName, rate, calculationType));
    }

    /** `deleteTaxRate`: an unknown code throws; otherwise exactly the row with that code is removed. */
    method DeleteTaxRate(taxCode: string) returns (r: Result<Deleted>)
      requires Valid()
      modifies this
      ensures Valid()
      ensures (forall i :: 0 <= i < |old(rows)| ==> old(rows)[i].taxCode != taxCode) ==>
                r == Err(UnknownCodeMessage) && rows == old(rows)
      ensures (exists i :: 0 <= i < |old(rows)| && old(rows)[i].taxCode == taxCode) ==>
                r == Ok(Deleted(true, taxCode))
                && |rows| == |old(rows)| - 1
                && forall t :: t in rows <==> t in old(rows) && t.taxCode != taxCode
    {
      var found := FindFirst(rows, t => HasTaxCode(taxCode, t));
      if found.None? {
        return Err(UnknownCodeMessage);
      }
      var i := found.value;
      RemoveKeepsUnique(rows, TaxCodeOf, i);
      RemoveUniqueKey(rows, TaxCodeOf, i);
      rows := RemoveAt(rows, i);
      r := Ok(Deleted(true, taxCode));
    }
  }
}
