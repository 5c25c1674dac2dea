/**
 * The handlers of `server/routes/customers.js` over the `customers` table:
 * validation of the required fields, a duplicate check on customer_code
 * before an insert, an existence check and a duplicate check that excludes
 * the row itself before an update, an existence check before a delete.
 * Optional fields go through `x || null`. The table's surrogate id is
 * SQLite's AUTOINCREMENT counter, kept as `nextId`.
 */
module Customers {
  import opened Wrappers
  import opened Tables
  import opened Js
  import opened Http
  import Ordering

  /** The request body of POST and PUT. */
  datatype CustomerInput = CustomerInput(
    customerCode: Option<string>,
    customerName: Option<string>,
    departmentName: Option<string>,
    honorific: Option<string>,
    postalCode: Option<string>,
    address1: Option<string>,
    address2: Option<string>,
    phoneNumber: Option<string>,
    faxNumber: Option<string>,
    email: Option<string>,
    invoiceNumber: Option<string>,
    invoiceIssuance: Option<string>,
    invoiceMethod: Option<string>,
    closingDay: Option<string>,
    paymentDay: Option<string>,
    paymentSiteDay: Option<string>,
    taxProcessing: Option<string>,
    taxRounding: Option<string>,
    staffId: Option<int>,
    woSpecialCode: Option<string>,
    createdBy: Option<string>,
    updatedBy: Option<string>)

  /** The business columns that both INSERT and UPDATE write; None is SQL NULL. */
  datatype CustomerColumns = CustomerColumns(
    customerCode: string,
    customerName: string,
    departmentName: Option<string>,
    honorific: string,
    postalCode: Option<string>,
    address1: Option<string>,
    address2: Option<string>,
    phoneNumber: Option<string>,
    faxNumber: Option<string>,
    email: Option<string>,
    invoiceNumber: Option<string>,
    invoiceIssuance: string,
    invoiceMethod: Option<string>,
    closingDay: Option<string>,
    paymentDay: Option<string>,
    paymentSiteDay: Option<string>,
    taxProcessing: string,
    taxRounding: string,
    staffId: Option<int>,
    woSpecialCode: Option<string>)

  datatype CustomerRow = CustomerRow(
    id: nat,
    columns: CustomerColumns,
    createdBy: string,
    createdAt: string,
    updatedBy: Option<string>,
    updatedAt: string)

  const MissingFieldsMessage: string := "必須項目が入力されていません"
  const DuplicateCodeMessage: string := "既に存在する得意先コードです"
  const NotFoundMessage: string := "得意先が見つかりません"
  const CreateFailedMessage: string := "得意先の作成に失敗しました"

  function IdOf(c: CustomerRow): nat { c.id }
  function CodeOf(c: CustomerRow): string { c.columns.customerCode }
  predicate HasId(id: nat, c: CustomerRow) { c.id == id }
  predicate HasCode(code: string, c: CustomerRow) { c.columns.customerCode == code }
  predicate HasCodeOtherThan(code: string, id: nat, c: CustomerRow) { c.columns.customerCode == code && c.id != id }

  /** The validation both POST and PUT run first: a required field that is missing, null or empty. */
  function MissingRequired(input: CustomerInput): (missing: bool)
    ensures !missing <==>
              && input.customerCode.Some? && input.customerCode.value != ""
              && input.customerName.Some? && input.customerName.value != ""
              && input.honorific.Some? && input.honorific.value != ""
              && input.invoiceIssuance.Some? && input.invoiceIssuance.value != ""
              && input.taxProcessing.Some? && input.taxProcessing.value != ""
              && input.taxRounding.Some? && input.taxRounding.value != ""
  {
    Falsy(input.customerCode) || Falsy(input.customerName) || Falsy(input.honorific)
    || Falsy(input.invoiceIssuance) || Falsy(input.taxProcessing) || Falsy(input.taxRounding)
  }

  /** The parameters bound to the business columns: required fields as given, optional ones through `|| null`. */
  function Columns(input: CustomerInput): (c: CustomerColumns)
    requires !MissingRequired(input)
    ensures c.customerCode == input.customerCode.value && c.customerCode != ""
    ensures c.customerName == input.customerName.value && c.customerName != ""
    ensures c.honorific == input.honorific.value && c.honorific != ""
    ensures c.invoiceIssuance == input.invoiceIssuance.value && c.invoiceIssuance != ""
    ensures c.taxProcessing == input.taxProcessing.value && c.taxProcessing != ""
    ensures c.taxRounding == input.taxRounding.value && c.taxRounding != ""
    ensures c.departmentName.Some? ==> c.departmentName.value != ""
    ensures c.postalCode.Some? ==> c.postalCode.value != ""
    ensures c.address1.Some? ==> c.address1.value != ""
    ensures c.address2.Some? ==> c.address2.value != ""
    ensures c.phoneNumber.Some? ==> c.phoneNumber.value != ""
    ensures c.faxNumber.Some? ==> c.faxNumber.value != ""
    ensures c.email.Some? ==> c.email.value != ""
    ensures c.invoiceNumber.Some? ==> c.invoiceNumber.value != ""
    ensures c.invoiceMethod.Some? ==> c.invoiceMethod.value != ""
    ensures c.closingDay.Some? ==> c.closingDay.value != ""
    ensures c.paymentDay.Some? ==> c.paymentDay.value != ""
    ensures c.paymentSiteDay.Some? ==> c.paymentSiteDay.value != ""
    ensures c.woSpecialCode.Some? ==> c.woSpecialCode.value != ""
    ensures c.staffId.Some? ==> c.staffId.value != 0
  {
    CustomerColumns(
      input.customerCode.value,
      input.customerName.value,
      OrNull(input.departmentName),
      input.honorific.value,
      OrNull(input.postalCode),
      OrNull(input.address1),
      OrNull(input.address2),
      OrNull(input.phoneNumber),
      OrNull(input.faxNumber),
      OrNull(input.email),
      OrNull(input.invoiceNumber),
      input.invoiceIssuance.value,
      OrNull(input.invoiceMethod),
      OrNull(input.closingDay),
      OrNull(input.paymentDay),
      OrNull(input.paymentSiteDay),
      input.taxProcessing.value,
      input.taxRounding.value,
      OrNullInt(input.staffId),
      OrNull(input.woSpecialCode))
  }

  /**
   * Every optional field is stored as NULL exactly when it is falsy (missing,
   * null, the empty string, or 0 for staff_id) and as given otherwise.
   */
  lemma OptionalFieldsCoerced(input: CustomerInput)
    requires !MissingRequired(input)
    ensures Columns(input).departmentName.None? <==> Falsy(input.departmentName)
    ensures !Falsy(input.departmentName) ==> Columns(input).departmentName == input.departmentName
    ensures Columns(input).postalCode.None? <==> Falsy(input.postalCode)
    ensures !Falsy(input.postalCode) ==> Columns(input).postalCode == input.postalCode
    ensures Columns(input).address1.None? <==> Falsy(input.address1)
    ensures !Falsy(input.address1) ==> Columns(input).address1 == input.address1
    ensures Columns(input).address2.None? <==> Falsy(input.address2)
    ensures !Falsy(input.address2) ==> Columns(input).address2 == input.address2
    ensures Columns(input).phoneNumber.None? <==> Falsy(input.phoneNumber)
    ensures !Falsy(input.phoneNumber) ==> Columns(input).phoneNumber == input.phoneNumber
    ensures Columns(input).faxNumber.None? <==> Falsy(input.faxNumber)
    ensures !Falsy(input.faxNumber) ==> Columns(input).faxNumber == input.faxNumber
    ensures Columns(input).email.None? <==> Falsy(input.email)
    ensures !Falsy(input.email) ==> Columns(input).email == input.email
    ensures Columns(input).invoiceNumber.None? <==> Falsy(input.invoiceNumber)
    ensures !Falsy(input.invoiceNumber) ==> Columns(input).invoiceNumber == input.invoiceNumber
    ensures Columns(input).invoiceMethod.None? <==> Falsy(input.invoiceMethod)
    ensures !Falsy(input.invoiceMethod) ==> Columns(input).invoiceMethod == input.invoiceMethod
    ensures Columns(input).closingDay.None? <==> Falsy(input.closingDay)
    ensures !Falsy(input.closingDay) ==> Columns(input).closingDay == input.closingDay
    ensures Columns(input).paymentDay.None? <==> Falsy(input.paymentDay)
    ensures !Falsy(input.paymentDay) ==> Columns(input).paymentDay == input.paymentDay
    ensures Columns(input).paymentSiteDay.None? <==> Falsy(input.paymentSiteDay)
    ensures !Falsy(input.paymentSiteDay) ==> Columns(input).paymentSiteDay == input.paymentSiteDay
    ensures Columns(input).woSpecialCode.None? <==> Falsy(input.woSpecialCode)
    ensures !Falsy(input.woSpecialCode) ==> Columns(input).woSpecialCode == input.woSpecialCode
    ensures Columns(input).staffId.None? <==> input.staffId.None? || input.staffId.value == 0
    ensures input.staffId.Some? && input.staffId.value != 0 ==> Columns(input).staffId == input.staffId
  {
  }

  predicate CodeTaken(rows: seq<CustomerRow>, code: string) {
    exists i :: 0 <= i < |rows| && rows[i].columns.customerCode == code
  }

  predicate CodeTakenByOther(rows: seq<CustomerRow>, code: string, id: nat) {
    exists i :: 0 <= i < |rows| && rows[i].columns.customerCode == code && rows[i].id != id
  }

  predicate IdExists(rows: seq<CustomerRow>, id: nat) {
    exists i :: 0 <= i < |rows| && rows[i].id == id
  }

  /** The position of the row `WHERE id = ?` reads. */
  function IndexOfId(rows: seq<CustomerRow>, id: nat): (r: Option<nat>)
    ensures r.Some? <==> IdExists(rows, id)
    ensures r.Some? ==> r.value < |rows| && rows[r.value].id == id
  {
    FindFirst(rows, c => HasId(id, c))
  }

  /** `SELECT * FROM customers WHERE id = ?` */
  function FindById(rows: seq<CustomerRow>, id: nat): (r: Option<CustomerRow>)
    ensures r.Some? <==> IdExists(rows, id)
    ensures r.Some? ==> r.value in rows && r.value.id == id
  {
    match IndexOfId(rows, id)
    case None => None
    case Some(i) => Some(rows[i])
  }

  /** `SELECT * FROM customers WHERE customer_code = ?` */
  function FindByCode(rows: seq<CustomerRow>, code: string): (r: Option<CustomerRow>)
    ensures r.Some? <==> CodeTaken(rows, code)
    ensures r.Some? ==> r.value in rows && r.value.columns.customerCode == code
  {
    match FindFirst(rows, c => HasCode(code, c))
    case None => None
    case Some(i) => Some(rows[i])
  }

  function CompareCodes(a: CustomerRow, b: CustomerRow): int {
    Ordering.LexCompare(a.columns.customerCode, b.columns.customerCode)
  }

  predicate CodeLe(a: CustomerRow, b: CustomerRow) {
    Ordering.LexLe(a.columns.customerCode, b.columns.customerCode)
  }

  /** GET /: every row once, ordered by customer_code. */
  function ListCustomers(rows: seq<CustomerRow>): (r: Reply<CustomerRow>)
    ensures r.status == OK && r.body.RowsBody?
    ensures multiset(r.body.rows) == multiset(rows)
    ensures Ordering.SortedBy(r.body.rows, CodeLe)
  {
    Ordering.LexTotalOrder();
    assert Ordering.Transitive(CodeLe) && Ordering.Agrees(CompareCodes, CodeLe);
    Ordering.SortSorted(rows, CompareCodes, CodeLe);
    Reply(OK, RowsBody(Ordering.Sort(rows, CompareCodes)))
  }

  /** GET /:id */
  function GetCustomer(rows: seq<CustomerRow>, id: nat): (r: Reply<CustomerRow>)
    ensures IdExists(rows, id) <==> r.status == OK
    ensures r.status == OK ==> r.body.RowBody? && r.body.row in rows && r.body.row.id == id
    ensures r.status != OK ==> r == Reply(NotFound, ErrorBody(NotFoundMessage))
  {
    match FindById(rows, id)
    case None => Reply(NotFound, ErrorBody(NotFoundMessage))
    case Some(c) => Reply(OK, RowBody(c))
  }

  /** GET /code/:code */
  function GetCustomerByCode(rows: seq<CustomerRow>, code: string): (r: Reply<CustomerRow>)
    ensures CodeTaken(rows, code) <==> r.status == OK
    ensures r.status == OK ==> r.body.RowBody? && r.body.row in rows && r.body.row.columns.customerCode == code
    ensures r.status != OK ==> r == Reply(NotFound, ErrorBody(NotFoundMessage))
  {
    match FindByCode(rows, code)
    case None => Reply(NotFound, ErrorBody(NotFoundMessage))
    case Some(c) => Reply(OK, RowBody(c))
  }

  /** The row an UPDATE leaves: the business columns and the updater rewritten, id and creation fields kept. */
  function Updated(c: CustomerRow, input: CustomerInput, now: string): (r: CustomerRow)
    requires !MissingRequired(input)
    ensures r.id == c.id && r.createdBy == c.createdBy && r.createdAt == c.createdAt
    ensures r.columns == Columns(input) && r.columns.customerCode == input.customerCode.value
    ensures r.updatedBy == input.updatedBy && r.updatedAt == now
  {
    c.(columns := Columns(input), updatedBy := input.updatedBy, updatedAt := now)
  }

  class CustomerTable {
    var rows: seq<CustomerRow>
    var nextId: nat

    /** customer_code is UNIQUE, id is the primary key and below the AUTOINCREMENT counter. */
    ghost predicate Valid()
      reads this
    {
      && UniqueBy(rows, CodeOf)
      && UniqueBy(rows, IdOf)
      && forall i :: 0 <= i < |rows| ==> rows[i].id < nextId
    }

    constructor ()
      ensures Valid() && rows == [] && nextId == 1
    {
      rows := [];
      nextId := 1;
    }

    /**
     * POST /: missing required fields give 400 before the table is read; a
     * taken customer_code gives 400; an absent created_by fails the NOT NULL
     * constraint and gives 500; otherwise one row is inserted under the next
     * id and returned with 201.
     */
    method Create(input: CustomerInput, now: string) returns (reply: Reply<CustomerRow>)
      requires Valid()
      modifies this
      ensures Valid()
      ensures MissingRequired(input) ==>
                reply == Reply(BadRequest, ErrorBody(MissingFieldsMessage)) && rows == old(rows) && nextId == old(nextId)
      ensures !MissingRequired(input) && CodeTaken(old(rows), input.customerCode.value) ==>
                reply == Reply(BadRequest, ErrorBody(DuplicateCodeMessage)) && rows == old(rows) && nextId == old(nextId)
      ensures !MissingRequired(input) && !CodeTaken(old(rows), input.customerCode.value) && input.createdBy.None? ==>
                reply == Reply(ServerError, ErrorBody(CreateFailedMessage)) && rows == old(rows) && nextId == old(nextId)
      ensures !MissingRequired(input) && !CodeTaken(old(rows), input.customerCode.value) && input.createdBy.Some? ==>
                var row := CustomerRow(old(nextId), Columns(input), input.createdBy.value, now, input.updatedBy, now);
                rows == old(rows) + [row] && nextId == old(nextId) + 1 && reply == Reply(Created, RowBody(row))
    {
      if MissingRequired(input) {
        return Reply(BadRequest, ErrorBody(MissingFieldsMessage));
      }
      var code := input.customerCode.value;
      var existing := FindByCode(rows, code);
      if existing.Some? {
        return Reply(BadRequest, ErrorBody(DuplicateCodeMessage));
      }
      if input.createdBy.None? {
        return Reply(ServerError, ErrorBody(CreateFailedMessage));
      }
      var row := CustomerRow(nextId, Columns(input), input.createdBy.value, now, input.updatedBy, now);
      AppendKeepsUnique(rows, CodeOf, row);
      AppendKeepsUnique(rows, IdOf, row);
      rows := rows + [row];
      nextId := nextId + 1;
      var created := IndexOfId(rows, row.id);
      assert rows[|rows| - 1] == row;
      UniqueKeyIndex(rows, IdOf, created.value, |rows| - 1);
      reply := Reply(Created, RowBody(rows[created.value]));
    }

    /**
     * PUT /:id: missing required fields give 400; an unknown id gives 404; a
     * customer_code held by another row gives 400 (the row's own code is
     * allowed); otherwise only that row is rewritten and returned with 200.
     */
    method Update(id: nat, input: CustomerInput, now: string) returns (reply: Reply<CustomerRow>)
      requires Valid()
      modifies this
      ensures Valid() && nextId == old(nextId)
      ensures MissingRequired(input) ==>
                reply == Reply(BadRequest, ErrorBody(MissingFieldsMessage)) && rows == old(rows)
      ensures !MissingRequired(input) && !IdExists(old(rows), id) ==>
                reply == Reply(NotFound, ErrorBody(NotFoundMessage)) && rows == old(rows)
      ensures !MissingRequired(input) && IdExists(old(rows), id) && CodeTakenByOther(old(rows), input.customerCode.value, id) ==>
                reply == Reply(BadRequest, ErrorBody(DuplicateCodeMessage)) && rows == old(rows)
      ensures !MissingRequired(input) && !CodeTakenByOther(old(rows), input.customerCode.value, id) ==>
                forall i :: 0 <= i < |old(rows)| && old(rows)[i].id == id ==>
                  rows == old(rows)[i := Updated(old(rows)[i], input, now)]
                  && reply == Reply(OK, RowBody(rows[i]))
    {
      if MissingRequired(input) {
        return Reply(BadRequest, ErrorBody(MissingFieldsMessage));
      }
      var found := IndexOfId(rows, id);
      if found.None? {
        return Reply(NotFound, ErrorBody(NotFoundMessage));
      }
      var i := found.value;
      var code := input.customerCode.value;
      var clash := FindFirst(rows, c => HasCodeOtherThan(code, id, c));
      if clash.Some? {
        return Reply(BadRequest, ErrorBody(DuplicateCodeMessage));
      }
      forall j | 0 <= j < |rows| && rows[j].id == id ensures j == i {
        UniqueKeyIndex(rows, IdOf, i, j);
      }
      var row := Updated(rows[i], input, now);
      ReplaceKeepsUnique(rows, CodeOf, i, row);
      ReplaceKeepsUnique(rows, IdOf, i, row);
      rows := rows[i := row];
      reply := Reply(OK, RowBody(rows[i]));
    }

    /** DELETE /:id: an unknown id gives 404; otherwise exactly that row is removed and 204 is sent. */
    method Delete(id: nat) returns (reply: Reply<CustomerRow>)
      requires Valid()
      modifies this
      ensures Valid() && nextId == old(nextId)
      ensures !IdExists(old(rows), id) ==>
                reply == Reply(NotFound, ErrorBody(NotFoundMessage)) && rows == old(rows)
      ensures IdExists(old(rows), id) ==>
                reply == Reply(NoContent, NoBody)
                && |rows| == |old(rows)| - 1
                && forall c :: c in rows <==> c in old(rows) && c.id != id
    {
      var found := IndexOfId(rows, id);
      if found.None? {
        return Reply(NotFound, ErrorBody(NotFoundMessage));
      }
      var i := found.value;
      RemoveKeepsUnique(rows, CodeOf, i);
      RemoveKeepsUnique(rows, IdOf, i);
      RemoveUniqueKey(rows, IdOf, i);
      rows := RemoveAt(rows, i);
      reply := Reply(NoContent, NoBody);
    }
  }
}
