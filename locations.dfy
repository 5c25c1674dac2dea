/**
 * The `locations` table of `server/db/db.js`: the same shape as the tax
 * rates, with a two-digit generated location code and a name.
 */
module Locations {
  import opened Wrappers
  import opened Tables
  import Ordering
  import CodeGen

  datatype LocationRow = LocationRow(
    locationCode: string,
    locationName: string,
    createdBy: string,
    updatedBy: string,
    createdAt: string,
    updatedAt: string)

  /** The object `createLocation` and `updateLocation` resolve with. */
  datatype LocationInfo = LocationInfo(locationCode: string, locationName: string)

  datatype Deleted = Deleted(success: bool, locationCode: string)

  const UnknownCodeMessage: string := "指定された拠点コードは存在しません"

  function LocationCodeOf(l: LocationRow): string { l.locationCode }
  predicate HasLocationCode(code: string, l: LocationRow) { l.locationCode == code }

  function LocationCodes(rows: seq<LocationRow>): (codes: seq<string>)
    ensures |codes| == |rows| && forall i :: 0 <= i < |rows| ==> codes[i] == rows[i].locationCode
  {
    seq(|rows|, i requires 0 <= i < |rows| => rows[i].locationCode)
  }

  /** `generateNextLocationCode` over the table. */
  function GenerateNextLocationCode(rows: seq<LocationRow>): (code: string)
    ensures |code| >= CodeGen.LocationCodeWidth
    ensures forall i :: 0 <= i < |rows| ==> CodeGen.CastInteger(rows[i].locationCode) < CodeGen.CastInteger(code)
    ensures forall i :: 0 <= i < |rows| ==> rows[i].locationCode != code
  {
    var codes := LocationCodes(rows);
    assert forall i :: 0 <= i < |rows| ==> codes[i] == rows[i].locationCode;
    CodeGen.NextLocationCode(codes)
  }

  /** `ORDER BY CAST(location_code AS INTEGER)`. */
  function CompareByCode(a: LocationRow, b: LocationRow): int {
    Ordering.CompareInt(CodeGen.CastInteger(a.locationCode), CodeGen.CastInteger(b.locationCode))
  }

  predicate CodeLe(a: LocationRow, b: LocationRow) {
    CodeGen.CastInteger(a.locationCode) <= CodeGen.CastInteger(b.locationCode)
  }

  /** `getAllLocations`: every row once, ascending by the integer value of the code. */
  function GetAllLocations(rows: seq<LocationRow>): (r: seq<LocationRow>)
    ensures multiset(r) == multiset(rows)
    ensures Ordering.SortedBy(r, CodeLe)
  {
    Ordering.SortSorted(rows, CompareByCode, CodeLe);
    Ordering.Sort(rows, CompareByCode)
  }

  /** `findLocationByCode`. */
  function FindLocationByCode(rows: seq<LocationRow>, code: string): (r: Option<LocationRow>)
    ensures r.Some? <==> exists i :: 0 <= i < |rows| && rows[i].locationCode == code
    ensures r.Some? ==> r.value in rows && r.value.locationCode == code
  {
    match FindFirst(rows, l => HasLocationCode(code, l))
    case None => None
    case Some(i) => Some(rows[i])
  }

  /** The row `updateLocation` writes: name and updater replaced, the code and creation fields kept. */
  function Updated(l: LocationRow, locationName: string, userId: string, now: string): LocationRow {
    l.(locationName := locationName, updatedBy := userId, updatedAt := now)
  }

  class LocationTable {
    var rows: seq<LocationRow>

    /** The UNIQUE constraint on location_code. */
    ghost predicate Valid()
      reads this
    {
      UniqueBy(rows, LocationCodeOf)
    }

    constructor ()
      ensures Valid() && rows == []
    {
      rows := [];
    }

    /** `createLocation`: inserts one row under the generated, fresh code. */
    method CreateLocation(locationName: string, userId: string, now: string) returns (r: LocationInfo)
      requires Valid()
      modifies this
      ensures Valid()
      ensures var code := GenerateNextLocationCode(old(rows));
              rows == old(rows) + [LocationRow(code, locationName, userId, userId, now, now)]
              && r == LocationInfo(code, locationName)
    {
      var locationCode := GenerateNextLocationCode(rows);
      var row := LocationRow(locationCode, locationName, userId, userId, now, now);
      AppendKeepsUnique(rows, LocationCodeOf, row);
      rows := rows + [row];
      r := LocationInfo(locationCode, locationName);
    }

    /** `updateLocation`: an unknown code throws and changes nothing; otherwise only that row's name and updater change. */
    method UpdateLocation(locationCode: string, locationName: string, userId: string, now: string)
      returns (r: Result<LocationInfo>)
      requires Valid()
      modifies this
      ensures Valid()
      ensures (forall i :: 0 <= i < |old(rows)| ==> old(rows)[i].locationCode != locationCode) ==>
                r == Err(UnknownCodeMessage) && rows == old(rows)
      ensures forall i :: 0 <= i < |old(rows)| && old(rows)[i].locationCode == locationCode ==>
                rows == old(rows)[i := Updated(old(rows)[i], locationName, userId, now)]
                && r == Ok(LocationInfo(locationCode, locationName))
    {
      var found := FindFirst(rows, l => HasLocationCode(locationCode, l));
      if found.None? {
        return Err(UnknownCodeMessage);
      }
      var i := found.value;
      forall j | 0 <= j < |rows| && rows[j].locationCode == locationCode ensures j == i {
        UniqueKeyIndex(rows, LocationCodeOf, i, j);
      }
      var row := Updated(rows[i], locationName, userId, now);
      ReplaceKeepsUnique(rows, LocationCodeOf, i, row);
      rows := rows[i := row];
      r := Ok(LocationInfo(locationCode, locationName));
    }

    /** `deleteLocation`: an unknown code throws; otherwise exactly the row with that code is removed. */
    method DeleteLocation(locationCode: string) returns (r: Result<Deleted>)
      requires Valid()
      modifies this
      ensures Valid()
      ensures (forall i :: 0 <= i < |old(rows)| ==> old(rows)[i].locationCode != locationCode) ==>
                r == Err(UnknownCodeMessage) && rows == old(rows)
      ensures (exists i :: 0 <= i < |old(rows)| && old(rows)[i].locationCode == locationCode) ==>
                r == Ok(Deleted(true, locationCode))
                && |rows| == |old(rows)| - 1
                && forall l :: l in rows <==> l in old(rows) && l.locationCode != locationCode
    {
      var found := FindFirst(rows, l => HasLocationCode(locationCode, l));
      if found.None? {
        return Err(UnknownCodeMessage);
      }
      var i := found.value;
      RemoveKeepsUnique(rows, LocationCodeOf, i);
      RemoveUniqueKey(rows, LocationCodeOf, i);
      rows := RemoveAt(rows, i);
      r := Ok(Deleted(true, locationCode));
    }
  }
}
