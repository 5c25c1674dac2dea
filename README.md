# sales-manage core in Dafny

This project models the core of the sales-manage back office. It covers
four parts:

- The data-access layer of the server (`server/db/db.js`):
  - users, with five-digit generated user ids, duplicate-email rejection and
    password authentication;
  - tax rates and locations, with two-digit generated codes, listings ordered
    by the code read as an integer, and update and delete guarded by an
    existence check.
- The customer and staff route handlers (`server/routes/customers.js`,
  `server/routes/staff.js`):
  - validation comes first, with 400 before the table is read;
  - a duplicate code gives 400;
  - 404 for an unknown id, with the duplicate check on update excluding the
    row itself;
  - 204 on delete;
  - `x || null` on optional fields, and `is_active` stored as 1 or 0.
- Two client pieces:
  - the customer list's search, sort comparator and header-click state
    (`src/components/master/CustomerList.tsx`);
  - the registration form's client-side id derivation and checks
    (`src/components/auth/Register.tsx`).
- The calculation-type label of `src/api/taxRate.ts`.

Each table is a class that holds its rows as a sequence. Its `Valid()`
predicate is the table's UNIQUE and primary-key constraints. Every
state-changing operation keeps `Valid()` and states the table it leaves in
terms of the old table. The read-only queries are functions.

Modules:

- `Wrappers`: `Option` and `Result`.
- `CodeGen`: decimal digits, SQLite's `CAST(... AS INTEGER)` on a code, `padStart`, and the max-plus-one generator.
- `Ordering`: insertion sort under a comparator, sortedness and lexicographic order.
- `Tables`: first-match lookup (`db.get`), uniqueness of a key, removal.
- `Js`: JavaScript falsiness, `|| null` and `? 1 : 0`.
- `Http`: status codes and reply bodies.
- `Users`, `TaxRates`, `Locations`: the tables of `db.js`.
- `Customers`, `Staff`: the route handlers.
- `CustomerList`, `Register`, `CalcType`: the client pieces.

The clock (`datetime('now')`, `CURRENT_TIMESTAMP`) is the parameter `now`.
The bcrypt hash of a new password is the parameter `passwordHash`.
`bcrypt.compareSync` is the function parameter `matches`.

Three behaviours of the code are worth knowing:

- The handlers of `customers.js` and `staff.js` call `db.get`, `db.all` and
  `db.run` on the object `db.js` exports, which does not export them.
  `server.js` does not mount these routers either. The handlers are modelled
  as written, against their own tables.
- Creating a customer or staff member without `created_by` violates the
  NOT NULL constraint on `created_by`. The INSERT then fails and the handler
  answers 500.
- The registration form works on a list that is rebuilt from the two fixed
  users on every render (`RegisterForm.Render`). It does not call the server
  and it stores the password in clear.

## Model

| member | source | states |
|---|---|---|
| CodeGen.Decimal | server/db/db.js:34 | `String(n)` of a non-negative number is a non-empty string of decimal digits |
| CodeGen.DecimalValue | server/db/db.js:34 | reading back the digits `String(n)` writes gives n again |
| CodeGen.DecimalLength | server/db/db.js:34 | `String(n)` has more than k digits iff n >= 10^k |
| CodeGen.PadStart | server/db/db.js:34 | `padStart(width, '0')` has the larger of the string's length and `width` as its length, ends with s unchanged, and adds only fill characters in front; it never truncates |
| CodeGen.LeadingZerosValue | server/db/db.js:34 | zeros added by padding do not change the value the code denotes |
| CodeGen.CastInteger | server/db/db.js:22 | CAST of a code that does not start with a digit is 0, and CAST of a string of digits is its decimal value |
| CodeGen.LeadingDigits | server/db/db.js:22 | the prefix CAST reads is the longest run of leading digits |
| CodeGen.CastOfDigits | server/db/db.js:22 | on a string of digits, CAST reads the whole string's value |
| CodeGen.MaxCast | server/db/db.js:22 | MAX(CAST(...)) is NULL exactly on an empty table; otherwise it bounds every stored code and is attained by one |
| CodeGen.NextNumber | server/db/db.js:28-31 | the next number is at least 1, exceeds every stored code's value, and is 1 or the maximum plus one |
| CodeGen.NextCode | server/db/db.js:28-34 | the generated code is all digits and at least `width` long |
| CodeGen.NextCodeIsFresh | server/db/db.js:28-34 | the code reads back as the next number, exceeds every stored code and differs from each |
| CodeGen.CodeWidth | server/db/db.js:34 | the code is exactly `width` long iff the next number has at most `width` digits; past that it has all the number's digits |
| CodeGen.NextUserId | server/db/db.js:18-40 | user ids are five or more digits, read back as the next number, and are fresh |
| CodeGen.NextTaxCode | server/db/db.js:139-161 | tax codes are two or more digits, read back as the next number, and are fresh |
| CodeGen.NextLocationCode | server/db/db.js:288-310 | location codes are two or more digits, read back as the next number, and are fresh |
| CodeGen.FirstUserId | server/db/db.js:28-34 | on an empty users table the first id is 00001 |
| CodeGen.TaxCodeAfterTwo | server/db/db.js:150-155 | after tax codes 01 and 02 the next is 03 |
| CodeGen.TaxCodeOutgrowsWidth | server/db/db.js:150-155 | after tax code 99 the next is 100: padding does not cut it to two digits |
| Ordering.Sort | server/db/db.js:168 | sorting returns a permutation of its input |
| Ordering.SortSorted | server/db/db.js:168 | with a comparator whose sign agrees with a transitive order, the result is sorted by that order |
| Ordering.LexCompare | server/routes/customers.js:7 | text comparison is -1, 0 or 1, and 0 exactly on equal strings |
| Ordering.LexTotalOrder | server/routes/customers.js:7 | lexicographic order is transitive and agrees with the comparison's sign |
| Ordering.CompareInt | server/db/db.js:168 | integer comparison is negative iff a < b and positive iff a > b |
| Tables.FindFirst | server/db/db.js:47 | `db.get`: the first matching row, or none exactly when no row matches |
| Tables.RemoveAt | server/db/db.js:269 | removal drops exactly one row and keeps the others in order |
| Tables.RemoveUniqueKey | server/db/db.js:269 | under a unique key, deleting by the key leaves exactly the rows with other keys |
| Tables.AppendKeepsUnique | server/db/db.js:96 | inserting a row with a fresh key keeps the key unique |
| Js.OrNull | server/routes/customers.js:111-134 | `x \|\| null` is NULL exactly for a falsy field and the field itself otherwise |
| Js.OrNullInt | server/routes/customers.js:130 | `staff_id \|\| null` turns 0 and a missing id into NULL and keeps every other id |
| Js.Flag | server/routes/staff.js:102 | `is_active ? 1 : 0` is 0 or 1, and 1 exactly for a truthy value |
| Users.FindUserByEmail | server/db/db.js:43-57 | a row is found iff some row has the email, and it is that row |
| Users.FindUserById | server/db/db.js:60-74 | a row is found iff some row has the user id, and it is that row |
| Users.GenerateNextUserId | server/db/db.js:18-40 | the generated id is five or more long, exceeds every stored id read as an integer, and equals none |
| Users.AuthenticateUser | server/db/db.js:115-136 | success carries the id and email of a row with that id whose hash matches; failure means the id is unknown or the hash of a row with that id does not match |
| Users.AuthenticateExactly | server/db/db.js:115-136 | under the UNIQUE user_id constraint, authentication succeeds exactly when the row with that id has a matching hash |
| Users.UserTable.CreateUser | server/db/db.js:77-112 | a known email gives an error and inserts nothing; otherwise exactly one row with the generated id, the email and the hash is appended, only `{userId, email}` is returned, and ids and emails stay unique |
| TaxRates.GenerateNextTaxCode | server/db/db.js:139-161 | the new tax code is at least two long, exceeds every stored code read as an integer, and equals none |
| TaxRates.GetAllTaxRates | server/db/db.js:164-178 | every row appears once, ordered ascending by CAST(tax_code AS INTEGER) |
| TaxRates.FindTaxRateByCode | server/db/db.js:181-195 | a row is found iff some row has the code, and it is that row |
| TaxRates.TaxRateTable.CreateTaxRate | server/db/db.js:198-223 | one row is appended under the generated code with creator and updater set to the user; the result is the supplied fields plus the code; codes stay unique |
| TaxRates.TaxRateTable.UpdateTaxRate | server/db/db.js:226-254 | an unknown code is an error and changes nothing; otherwise only that row changes, in name, rate, type, updater and time, and the result is the supplied fields |
| TaxRates.TaxRateTable.DeleteTaxRate | server/db/db.js:257-285 | an unknown code is an error and changes nothing; otherwise exactly the row with that code is removed and `{success: true, taxCode}` is returned |
| Locations.GenerateNextLocationCode | server/db/db.js:288-310 | the new location code is at least two long, exceeds every stored code read as an integer, and equals none |
| Locations.GetAllLocations | server/db/db.js:313-327 | every row appears once, ordered ascending by CAST(location_code AS INTEGER) |
| Locations.FindLocationByCode | server/db/db.js:330-344 | a row is found iff some row has the code, and it is that row |
| Locations.LocationTable.CreateLocation | server/db/db.js:347-372 | one row is appended under the generated code; the result is the name plus the code; codes stay unique |
| Locations.LocationTable.UpdateLocation | server/db/db.js:375-403 | an unknown code is an error and changes nothing; otherwise only that row's name, updater and time change |
| Locations.LocationTable.DeleteLocation | server/db/db.js:406-434 | an unknown code is an error and changes nothing; otherwise exactly the row with that code is removed |
| Customers.MissingRequired | server/routes/customers.js:85 | validation fails exactly when one of the six required fields is missing, null or empty |
| Customers.Columns | server/routes/customers.js:111-134 | each of the six required fields is bound as given and non-empty; optional text fields are bound only when non-empty and staff_id only when non-zero |
| Customers.OptionalFieldsCoerced | server/routes/customers.js:111-134 | each of the thirteen optional text fields is NULL exactly when falsy and otherwise the given value; staff_id is NULL exactly when absent or 0 and otherwise the given number |
| Customers.Updated | server/routes/customers.js:209-259 | an UPDATE rewrites the business columns from the body and sets updated_by and updated_at, keeping id, created_by and created_at |
| Customers.FindById | server/routes/customers.js:22 | a customer is found iff some row has the id |
| Customers.FindByCode | server/routes/customers.js:41 | a customer is found iff some row has the code |
| Customers.ListCustomers | server/routes/customers.js:6-17 | GET / answers 200 with every row once, ordered by customer_code |
| Customers.GetCustomer | server/routes/customers.js:20-36 | GET /:id answers 200 with that row iff the id exists, and 404 with its message otherwise |
| Customers.GetCustomerByCode | server/routes/customers.js:39-55 | GET /code/:code answers 200 with that row iff the code exists, and 404 otherwise |
| Customers.CustomerTable.Create | server/routes/customers.js:58-153 | missing required fields give 400 and a taken code gives 400, both with no change; a missing created_by gives 500; otherwise one row is inserted under the next id and returned with 201; codes and ids stay unique |
| Customers.CustomerTable.Update | server/routes/customers.js:156-279 | 400 for missing fields, 404 for an unknown id, 400 for a code held by another row, all with no change; otherwise only that row is rewritten and returned with 200 |
| Customers.CustomerTable.Delete | server/routes/customers.js:282-306 | 404 for an unknown id with no change; otherwise exactly that row is removed and 204 is sent |
| Staff.MissingRequired | server/routes/staff.js:72 | validation fails exactly when the code or the name is missing, null or empty, or is_active is undefined |
| Staff.Columns | server/routes/staff.js:93-103 | code and name are bound as given and non-empty; email, department, position and phone are NULL exactly when falsy and otherwise as given; is_active is 1 exactly for a truthy value, 0 otherwise |
| Staff.Updated | server/routes/staff.js:167-190 | an UPDATE rewrites the business columns from the body and sets updated_by and updated_at, keeping id, created_by and created_at |
| Staff.InactiveAccepted | server/routes/staff.js:72-74 | `is_active: false` and `null` pass validation and are stored as 0; only an absent is_active is refused |
| Staff.FindById | server/routes/staff.js:22 | a staff member is found iff some row has the id |
| Staff.FindByCode | server/routes/staff.js:41 | a staff member is found iff some row has the code |
| Staff.ListStaff | server/routes/staff.js:6-17 | GET / answers 200 with every row once, ordered by staff_code |
| Staff.GetStaff | server/routes/staff.js:20-36 | GET /:id answers 200 with that row iff the id exists, and 404 otherwise |
| Staff.GetStaffByCode | server/routes/staff.js:39-55 | GET /code/:code answers 200 with that row iff the code exists, and 404 otherwise |
| Staff.StaffTable.Create | server/routes/staff.js:58-124 | missing fields give 400 and a taken code gives 400, both with no change; a missing created_by gives 500; otherwise one row is inserted and returned with 201; codes stay unique |
| Staff.StaffTable.Update | server/routes/staff.js:127-211 | 400 for missing fields, 404 for an unknown id, 400 for a code held by another row, all with no change; otherwise only that row is rewritten and returned with 200 |
| Staff.StaffTable.Delete | server/routes/staff.js:214-238 | 404 for an unknown id with no change; otherwise exactly that row is removed and 204 is sent |
| CustomerList.FieldOf | src/components/master/CustomerList.tsx:86-87 | code and name are always strings, department and phone are strings or missing, staff_id is a number or missing |
| CustomerList.Lower | src/components/master/CustomerList.tsx:77 | lowercasing keeps the length and lowers each ASCII capital |
| CustomerList.IncludesAt | src/components/master/CustomerList.tsx:79-82 | `includes` holds exactly when the term occurs at some position |
| CustomerList.Filter | src/components/master/CustomerList.tsx:75-84 | the result is exactly the customers whose code or name, or present department or phone, contains the lowercased term, each as often as in the input |
| CustomerList.FilterKeepsOrder | src/components/master/CustomerList.tsx:75-84 | filtering keeps the customers' relative order |
| CustomerList.EmptySearchKeepsAll | src/components/master/CustomerList.tsx:75-84 | an empty search keeps every customer in order |
| CustomerList.MissingPlacement | src/components/master/CustomerList.tsx:89-90 | a missing value compares below a present one in ascending order and above it in descending order |
| CustomerList.DescendingSwapsArguments | src/components/master/CustomerList.tsx:92-101 | between present values, descending order compares with the arguments swapped |
| CustomerList.Compare | src/components/master/CustomerList.tsx:85-102 | the comparator is 0 exactly when both customers have the field with equal values, and on a missing first value it is negative exactly in ascending order |
| CustomerList.ComparatorAgreesWithOrder | src/components/master/CustomerList.tsx:85-102 | the comparator's sign always agrees with one transitive order: missing values first (ascending) or last (descending), present values by value |
| CustomerList.MissingBothWays | src/components/master/CustomerList.tsx:89 | two customers both missing the field compare with the same non-zero sign in both argument orders |
| CustomerList.FilteredAndSorted | src/components/master/CustomerList.tsx:74-102 | the list shown is a permutation of the filtered customers, sorted by the selected field and direction |
| CustomerList.MissingFirstWhenAscending | src/components/master/CustomerList.tsx:89 | in ascending order every customer missing the field comes before every customer that has it |
| CustomerList.MissingLastWhenDescending | src/components/master/CustomerList.tsx:89-90 | in descending order every customer missing the field comes after every customer that has it |
| CustomerList.Flip | src/components/master/CustomerList.tsx:66 | toggling always changes the direction |
| CustomerList.CustomerListView.constructor | src/components/master/CustomerList.tsx:13-15 | the list starts with an empty search, sorted by customer_code ascending |
| CustomerList.CustomerListView.HandleSort | src/components/master/CustomerList.tsx:63-72 | the clicked field becomes the sort field; the same field flips the direction and another field starts ascending |
| CustomerList.CustomerListView.Shown | src/components/master/CustomerList.tsx:74-102 | what is shown is the filtered customers sorted by the current selection |
| CustomerList.ClickTwice | src/components/master/CustomerList.tsx:63-72 | two clicks on the current header restore the direction; two clicks on another header leave it descending; the customers and the search term are unchanged |
| Register.ParseInt | src/components/auth/Register.tsx:36 | `parseInt(id, 10)` is NaN exactly when the id does not start with a digit |
| Register.ParseIntIsCast | src/components/auth/Register.tsx:36 | on an id that starts with a digit, `parseInt` reads the same number as the server's CAST |
| Register.Max | src/components/auth/Register.tsx:36 | `Math.max` is NaN iff some value is NaN, and otherwise an attained upper bound |
| Register.MaxParsed | src/components/auth/Register.tsx:36 | the maximum parsed id is NaN iff some id does not parse, and otherwise the largest parsed id |
| Register.LastUserId | src/components/auth/Register.tsx:35-37 | the last id is 0 for an empty list and otherwise the maximum parsed id |
| Register.SuccessorTextValue | src/components/auth/Register.tsx:39 | `String(lastUserId + 1)` is "NaN" for NaN and otherwise digits that read back as the number plus one |
| Register.NewUserIdShape | src/components/auth/Register.tsx:39 | the new id is at least five characters: "00NaN" when the last id is NaN, otherwise zero-padded digits reading back as the last id plus one |
| Register.NaNUserId | src/components/auth/Register.tsx:35-39 | one id that parses as NaN turns the new id into "00NaN" |
| Register.AgreesWithServer | src/components/auth/Register.tsx:35-39 | when every id starts with a digit, the form derives the same id as the server's generator |
| Register.NewUserIdFresh | src/components/auth/Register.tsx:35-39 | when every id parses, the new id is five or more digits, parses to the maximum plus one, and equals no listed id |
| Register.ThirdUserId | src/components/auth/Register.tsx:14-17 | against the two fixed users the new id is 00003 |
| Register.RegistrationKeepsValid | src/components/auth/Register.tsx:43-50 | appending a user with an unused email and the derived id keeps ids and emails unique and every id parsable |
| Register.Submit | src/components/auth/Register.tsx:23-50 | a mismatched confirmation is rejected with its message before the email is looked at; a known email is rejected with its message; otherwise a user with that email and password is registered, and on a valid list that keeps the list valid |
| Register.SubmitRegistersNewUserId | src/components/auth/Register.tsx:39-47 | the registered user carries the id derived from the current list, the email and the password |
| Register.RegisterForm.constructor | src/components/auth/Register.tsx:5-17 | the form starts with empty fields, no message, no success and the two fixed users |
| Register.RegisterForm.Enter | src/components/auth/Register.tsx:97-121 | the three inputs' change handlers set email, password and confirmation to the typed values and nothing else |
| Register.RegisterForm.Render | src/components/auth/Register.tsx:14-17 | every render starts again from the two fixed users |
| Register.RegisterForm.HandleRegister | src/components/auth/Register.tsx:19-58 | a rejection sets its message and changes nothing else; a registration shows the new id, appends and stores the user, clears the message and sets success; the list stays valid |
| CalcType.CalculationTypeName | src/api/taxRate.ts:141-152 | the label is one of four; 1, 2 and 3 get their own labels and exactly the other numbers get '不明' |

## Left out

- SQLite's CAST of a code with leading whitespace or a sign is not modelled. A code is read by its leading decimal digits, with 0 when there are none. Stored codes are always generated digit strings.
- `parseInt` skipping whitespace or reading a sign is not modelled, for the same reason.
- Integer limits are not modelled: SQLite's 64-bit integers and JavaScript's 2^53. Numbers are unbounded.
- bcrypt hashing and comparison are not modelled. The salted hash is an input and the comparison is a parameter.
- Timestamps are the parameter `now`. `db.js` takes created_at from the column default and sets `updated_at = CURRENT_TIMESTAMP` on UPDATE; the route handlers use `datetime('now')`.
- Concurrency is not modelled. Two requests can both pass the duplicate check before either inserts; each operation is atomic here.
- The UNIQUE constraint rejecting a racing insert is left out for the same reason.
- Database errors (the 500 answers on a failed query) are not modelled, except the NOT NULL failure on created_by.
- Connection handling (`getDb`, `db.close`) is not modelled.
- Express wiring, JSON parsing and a non-numeric `:id` parameter are not modelled. Ids are natural numbers.
- Migrations and the seeding in `server/db/init.js` are not modelled. Tables start empty.
- Ordering.LexCompare: `localeCompare` is modelled as code-point order, a total order standing in for the locale's collation.
- CustomerList.Lower: `toLowerCase` is modelled on ASCII letters only.
- CustomerList.FieldOf: only the four header columns and staff_id are sort fields. The other columns of `keyof Customer` sort the same way as one of these kinds.
- CustomerList.FilteredAndSorted: the engine's sort algorithm is replaced by a stable insertion sort. `Array.prototype.sort` is stable too, so customers with equal keys keep their input order in the engine as well, but the contract does not state stability. When two customers both lack the sort field the comparator is inconsistent (`MissingBothWays`), and ECMA-262 leaves the whole order implementation-defined; "missing first when ascending, last when descending" (`MissingFirstWhenAscending`, `MissingLastWhenDescending`) is then a property of the model's sort that the engine does not promise.
- The rendering of the screens is not modelled: tables, modals, navigation and the dropdown masters.
- Register: the local-storage write is a field, and the navigation back to the login page is not modelled.
- The tax rate is a `real` that is only stored and returned. No floating-point arithmetic is modelled.
