/**
 * The handlers of `server/routes/staff.js` over the `staff` table: the same
 * check-then-write chain as the customers, with staff_code as the unique
 * business code and `is_active` required to be present (any value but
 * undefined, so `false` is accepted) and stored as 1 or 0.
 */
module Staff {
  import opened Wrappers
  import opened Tables
  import opened Js
  import opened Http
  import Ordering

  /** The request body of POST and PUT. */
  datatype StaffInput = StaffInput(
    staffCode: Option<string>,
    staffName: Option<string>,
    email: Option<string>,
    department: Option<string>,
    position: Option<string>,
    phoneNumber: Option<string>,
    isActive: JsValue,
    createdBy: Option<string>,
    updatedBy: Option<string>)

  /** The business columns that both INSERT and UPDATE write; None is SQL NULL. */
  datatype StaffColumns = StaffColumns(
    staffCode: string,
    staffName: string,
    email: Option<string>,
    department: Option<string>,
    position: Option<string>,
    phoneNumber: Option<string>,
    isActive: int)

  datatype StaffRow = StaffRow(
    id: nat,
    columns: StaffColumns,
    createdBy: string,
    createdAt: string,
    updatedBy: Option<string>,
    updatedAt: string)

  const MissingFieldsMessage: string := "必須項目が入力されていません"
  const DuplicateCodeMessage: string := "既に存在する担当者コードです"
  const NotFoundMessage: string := "担当者が見つかりません"
  const CreateFailedMessage: string := "担当者の作成に失敗しました"

  function IdOf(s: StaffRow): nat { s.id }
  function CodeOf(s: StaffRow): string { s.columns.staffCode }
  predicate HasId(id: nat, s: StaffRow) { s.id == id }
  predicate HasCode(code: string, s: StaffRow) { s.columns.staffCode == code }
  predicate HasCodeOtherThan(code: string, id: nat, s: StaffRow) { s.columns.staffCode == code && s.id != id }

  /** The validation both POST and PUT run first: a missing or empty code or name, or an is_active left undefined. */
  function MissingRequired(input: StaffInput): (missing: bool)
    ensures !missing <==>
              && input.staffCode.Some? && input.staffCode.value != ""
              && input.staffName.Some? && input.staffName.value != ""
              && input.isActive != Undefined
  {
    Falsy(input.staffCode) || Falsy(input.staffName) || input.isActive.Undefined?
  }

  /** The parameters bound to the business columns: code and name as given, optional text through `|| null`, the flag as 1 or 0. */
  function Columns(input: StaffInput): (c: StaffColumns)
    requires !MissingRequired(input)
    ensures c.staffCode == input.staffCode.value && c.staffCode != ""
    ensures c.staffName == input.staffName.value && c.staffName != ""
    ensures c.email.None? <==> Falsy(input.email)
    ensures !Falsy(input.email) ==> c.email == input.email
    ensures c.department.None? <==> Falsy(input.department)
    ensures !Falsy(input.department) ==> c.department == input.department
    ensures c.position.None? <==> Falsy(input.position)
    ensures !Falsy(input.position) ==> c.position == input.position
    ensures c.phoneNumber.None? <==> Falsy(input.phoneNumber)
    ensures !Falsy(input.phoneNumber) ==> c.phoneNumber == input.phoneNumber
    ensures c.isActive == 1 <==> Truthy(input.isActive)
    ensures c.isActive == 0 || c.isActive == 1
  {
    StaffColumns(
      input.staffCode.value,
      input.staffName.value,
      OrNull(input.email),
      OrNull(input.department),
      OrNull(input.position),
      OrNull(input.phoneNumber),
      Flag(input.isActive))
  }

  /** `is_active: false` passes validation and is stored as 0; null is accepted too; only undefined is refused. */
  lemma InactiveAccepted(input: StaffInput)
    requires !Falsy(input.staffCode) && !Falsy(input.staffName)
    ensures input.isActive == Bool(false) ==> !MissingRequired(input) && Columns(input).isActive == 0
    ensures input.isActive == Null ==> !MissingRequired(input) && Columns(input).isActive == 0
    ensures MissingRequired(input) <==> input.isActive == Undefined
  {
  }

  predicate CodeTaken(rows: seq<StaffRow>, code: string) {
    exists i :: 0 <= i < |rows| && rows[i].columns.staffCode == code
  }

  predicate CodeTakenByOther(rows: seq<StaffRow>, code: string, id: nat) {
    exists i :: 0 <= i < |rows| && rows[i].columns.staffCode == code && rows[i].id != id
  }

  predicate IdExists(rows: seq<StaffRow>, id: nat) {
    exists i :: 0 <= i < |rows| && rows[i].id == id
  }

  /** The position of the row `WHERE id = ?` reads. */
  function IndexOfId(rows: seq<StaffRow>, id: nat): (r: Option<nat>)
    ensures r.Some? <==> IdExists(rows, id)
    ensures r.Some? ==> r.value < |rows| && rows[r.value].id == id
  {
    FindFirst(rows, s => HasId(id, s))
  }

  /** `SELECT * FROM staff WHERE id = ?` */
  function FindById(rows: seq<StaffRow>, id: nat): (r: Option<StaffRow>)
    ensures r.Some? <==> IdExists(rows, id)
    ensures r.Some? ==> r.value in rows && r.value.id == id
  {
    match IndexOfId(rows, id)
    case None => None
    case Some(i) => Some(rows[i])
  }

  /** `SELECT * FROM staff WHERE staff_code = ?` */
  function FindByCode(rows: seq<StaffRow>, code: string): (r: Option<StaffRow>)
    ensures r.Some? <==> CodeTaken(rows, code)
    ensures r.Some? ==> r.value in rows && r.value.columns.staffCode == code
  {
    match FindFirst(rows, s => HasCode(code, s))
    case None => None
    case Some(i) => Some(rows[i])
  }

  function CompareCodes(a: StaffRow, b: StaffRow): int {
    Ordering.LexCompare(a.columns.staffCode, b.columns.staffCode)
  }

  predicate CodeLe(a: StaffRow, b: StaffRow) {
    Ordering.LexLe(a.columns.staffCode, b.columns.staffCode)
  }

  /** GET /: every row once, ordered by staff_code. */
  function ListStaff(rows: seq<StaffRow>): (r: Reply<StaffRow>)
    ensures r.status == OK && r.body.RowsBody?
    ensures multiset(r.body.rows) == multiset(rows)
    ensures Ordering.SortedBy(r.body.rows, CodeLe)
  {
    Ordering.LexTotalOrder();
    assert Ordering.Transitive(CodeLe) && Ordering.Agrees(CompareCodes, CodeLe);
    Ordering.SortSorted(rows, CompareCodes, CodeLe);
    Reply(OK, RowsBody(Ordering.Sort(rows, CompareCodes)))
  }

  /** GET /:id */
  function GetStaff(rows: seq<StaffRow>, id: nat): (r: Reply<StaffRow>)
    ensures IdExists(rows, id) <==> r.status == OK
    ensures r.status == OK ==> r.body.RowBody? && r.body.row in rows && r.body.row.id == id
    ensures r.status != OK ==> r == Reply(NotFound, ErrorBody(NotFoundMessage))
  {
    match FindById(rows, id)
    case None => Reply(NotFound, ErrorBody(NotFoundMessage))
    case Some(s) => Reply(OK, RowBody(s))
  }

  /** GET /code/:code */
  function GetStaffByCode(rows: seq<StaffRow>, code: string): (r: Reply<StaffRow>)
    ensures CodeTaken(rows, code) <==> r.status == OK
    ensures r.status == OK ==> r.body.RowBody? && r.body.row in rows && r.body.row.columns.staffCode == code
    ensures r.status != OK ==> r == Reply(NotFound, ErrorBody(NotFoundMessage))
  {
    match FindByCode(rows, code)
    case None => Reply(NotFound, ErrorBody(NotFoundMessage))
    case Some(s) => Reply(OK, RowBody(s))
  }

  /** The row an UPDATE leaves: the business columns and the updater rewritten, id and creation fields kept. */
  function Updated(s: StaffRow, input: StaffInput, now: string): (r: StaffRow)
    requires !MissingRequired(input)
    ensures r.id == s.id && r.createdBy == s.createdBy && r.createdAt == s.createdAt
    ensures r.columns == Columns(input) && r.columns.staffCode == input.staffCode.value
    ensures r.updatedBy == input.updatedBy && r.updatedAt == now
  {
    s.(columns := Columns(input), updatedBy := input.updatedBy, updatedAt := now)
  }

  class StaffTable {
    var rows: seq<StaffRow>
    var nextId: nat

    /** staff_code is UNIQUE, id is the primary key and below the AUTOINCREMENT counter. */
    ghost predicate Valid()
      reads this
    {
      && UniqueBy(rows, CodeOf)
      && UniqueBy(rows, IdOf)
      && forall i :: 0 <= i < |rows| ==> rows[i].id < nextId
    }

    constructor ()
      ensures Valid() && rows == [] && nextId == 1
    {
      rows := [];
      nextId := 1;
    }

    /**
     * POST /: missing fields give 400 before the table is read; a taken
     * staff_code gives 400; an absent created_by fails the NOT NULL constraint
     * and gives 500; otherwise one row is inserted and returned with 201.
     */
    method Create(input: StaffInput, now: string) returns (reply: Reply<StaffRow>)
      requires Valid()
      modifies this
      ensures Valid()
      ensures MissingRequired(input) ==>
                reply == Reply(BadRequest, ErrorBody(MissingFieldsMessage)) && rows == old(rows) && nextId == old(nextId)
      ensures !MissingRequired(input) && CodeTaken(old(rows), input.staffCode.value) ==>
                reply == Reply(BadRequest, ErrorBody(DuplicateCodeMessage)) && rows == old(rows) && nextId == old(nextId)
      ensures !MissingRequired(input) && !CodeTaken(old(rows), input.staffCode.value) && input.createdBy.None? ==>
                reply == Reply(ServerError, ErrorBody(CreateFailedMessage)) && rows == old(rows) && nextId == old(nextId)
      ensures !MissingRequired(input) && !CodeTaken(old(rows), input.staffCode.value) && input.createdBy.Some? ==>
                var row := StaffRow(old(nextId), Columns(input), input.createdBy.value, now, input.updatedBy, now);
                rows == old(rows) + [row] && nextId == old(nextId) + 1 && reply == Reply(Created, RowBody(row))
    {
      if MissingRequired(input) {
        return Reply(BadRequest, ErrorBody(MissingFieldsMessage));
      }
      var code := input.staffCode.value;
      var existing := FindByCode(rows, code);
      if existing.Some? {
        return Reply(BadRequest, ErrorBody(DuplicateCodeMessage));
      }
      if input.createdBy.None? {
        return Reply(ServerError, ErrorBody(CreateFailedMessage));
      }
      var row := StaffRow(nextId, Columns(input), input.createdBy.value, now, input.updatedBy, now);
      AppendKeepsUnique(rows, CodeOf, row);
      AppendKeepsUnique(rows, IdOf, row);
      rows := rows + [row];
      nextId := nextId + 1;
      var created := IndexOfId(rows, row.id);
      assert rows[|rows| - 1] == row;
      UniqueKeyIndex(rows, IdOf, created.value, |rows| - 1);
      reply := Reply(Created, RowBody(rows[created.value]));
    }

    /**
     * PUT /:id: missing fields give 400; an unknown id gives 404; a staff_code
     * held by another row gives 400 (the row's own code is allowed);
     * otherwise only that row is rewritten and returned with 200.
     */
    method Update(id: nat, input: StaffInput, now: string) returns (reply: Reply<StaffRow>)
      requires Valid()
      modifies this
      ensures Valid() && nextId == old(nextId)
      ensures MissingRequired(input) ==>
                reply == Reply(BadRequest, ErrorBody(MissingFieldsMessage)) && rows == old(rows)
      ensures !MissingRequired(input) && !IdExists(old(rows), id) ==>
                reply == Reply(NotFound, ErrorBody(NotFoundMessage)) && rows == old(rows)
      ensures !MissingRequired(input) && IdExists(old(rows), id) && CodeTakenByOther(old(rows), input.staffCode.value, id) ==>
                reply == Reply(BadRequest, ErrorBody(DuplicateCodeMessage)) && rows == old(rows)
      ensures !MissingRequired(input) && !CodeTakenByOther(old(rows), input.staffCode.value, id) ==>
                forall i :: 0 <= i < |old(rows)| && old(rows)[i].id == id ==>
                  rows == old(rows)[i := Updated(old(rows)[i], input, now)]
                  && reply == Reply(OK, RowBody(rows[i]))
    {
      if MissingRequired(input) {
        return Reply(BadRequest, ErrorBody(MissingFieldsMessage));
      }
      var found := IndexOfId(rows, id);
      if found.None? {
        return Reply(NotFound, ErrorBody(NotFoundMessage));
      }
      var i := found.value;
      var code := input.staffCode.value;
      var clash := FindFirst(rows, s => HasCodeOtherThan(code, id, s));
      if clash.Some? {
        return Reply(BadRequest, ErrorBody(DuplicateCodeMessage));
      }
      forall j | 0 <= j < |rows| && rows[j].id == id ensures j == i {
        UniqueKeyIndex(rows, IdOf, i, j);
      }
      var row := Updated(rows[i], input, now);
      ReplaceKeepsUnique(rows, CodeOf, i, row);
      ReplaceKeepsUnique(rows, IdOf, i, row);
      rows := rows[i := row];
      reply := Reply(OK, RowBody(rows[i]));
    }

    /** DELETE /:id: an unknown id gives 404; otherwise exactly that row is removed and 204 is sent. */
    method Delete(id: nat) returns (reply: Reply<StaffRow>)
      requires Valid()
      modifies this
      ensures Valid() && nextId == old(nextId)
      ensures !IdExists(old(rows), id) ==>
                reply == Reply(NotFound, ErrorBody(NotFoundMessage)) && rows == old(rows)
      ensures IdExists(old(rows), id) ==>
                reply == Reply(NoContent, NoBody)
                && |rows| == |old(rows)| - 1
                && forall s :: s in rows <==> s in old(rows) && s.id != id
    {
      var found := IndexOfId(rows, id);
      if found.None? {
        return Reply(NotFound, ErrorBody(NotFoundMessage));
      }
      var i := found.value;
      RemoveKeepsUnique(rows, CodeOf, i);
      RemoveKeepsUnique(rows, IdOf, i);
      RemoveUniqueKey(rows, IdOf, i);
      rows := RemoveAt(rows, i);
      reply := Reply(NoContent, NoBody);
    }
  }
}
