/**
 * The customer list screen (`src/components/master/CustomerList.tsx`): a
 * case-insensitive search over code, name, department and phone, an ordering
 * by the selected field in the selected direction with missing values first
 * in ascending and last in descending order, and the header click that flips
 * or resets the direction.
 */
module CustomerList {
  import opened Wrappers
  import opened Customers
  import Ordering

  /** The columns the list can be ordered by: the four header columns and one numeric column. */
  datatype SortField = CustomerCode | CustomerName | DepartmentName | PhoneNumber | StaffId

  datatype SortDirection = Asc | Desc

  /** A field of a customer as the comparator sees it: null/undefined, a string or a number. */
  datatype FieldValue = Missing | Text(s: string) | Number(n: int)

  function FieldOf(c: CustomerRow, f: SortField): (v: FieldValue)
    ensures f == StaffId ==> !v.Text?
    ensures f != StaffId ==> !v.Number?
    ensures (f == CustomerCode || f == CustomerName) ==> v.Text?
  {
    match f
    case CustomerCode => Text(c.columns.customerCode)
    case CustomerName => Text(c.columns.customerName)
    case DepartmentName => if c.columns.departmentName.Some? then Text(c.columns.departmentName.value) else Missing
    case PhoneNumber => if c.columns.phoneNumber.Some? then Text(c.columns.phoneNumber.value) else Missing
    case StaffId => if c.columns.staffId.Some? then Number(c.columns.staffId.value) else Missing
  }

  // ---------------------------------------------------------------- search

  /** `toLowerCase` on ASCII letters. */
  function LowerChar(c: char): (r: char)
    ensures 'A' <= c <= 'Z' ==> r as int == c as int + 32
    ensures !('A' <= c <= 'Z') ==> r == c
  {
    if 'A' <= c <= 'Z' then (c as int + 32) as char else c
  }

  function Lower(s: string): (r: string)
    ensures |r| == |s| && forall i :: 0 <= i < |s| ==> r[i] == LowerChar(s[i])
  {
    seq(|s|, i requires 0 <= i < |s| => LowerChar(s[i]))
  }

  /** `s.includes(t)`. */
  predicate Includes(s: string, t: string)
  {
    t <= s || (s != [] && Includes(s[1..], t))
  }

  /** `t` occurs in `s` starting at position `i`. */
  predicate OccursAt(s: string, t: string, i: int) {
    0 <= i <= |s| - |t| && s[i..i + |t|] == t
  }

  /** `includes` holds exactly when `t` occurs at some position of `s`. */
  lemma {:induction false} IncludesAt(s: string, t: string)
    ensures Includes(s, t) <==> exists i :: OccursAt(s, t, i)
  {
    if t <= s {
      assert OccursAt(s, t, 0);
    } else if s != [] {
      IncludesAt(s[1..], t);
      if exists i :: OccursAt(s[1..], t, i) {
        var i :| OccursAt(s[1..], t, i);
        assert s[i + 1..i + 1 + |t|] == s[1..][i..i + |t|];
        assert OccursAt(s, t, i + 1);
      }
      if exists i :: OccursAt(s, t, i) {
        var i :| OccursAt(s, t, i);
        assert i != 0;
        assert s[1..][i - 1..i - 1 + |t|] == s[i..i + |t|];
        assert OccursAt(s[1..], t, i - 1);
      }
    } else {
      assert |t| > 0;
    }
  }

  /** A text column the filter looks at only when it holds a truthy string. */
  predicate OptionalIncludes(x: Option<string>, q: string) {
    x.Some? && x.value != "" && Includes(Lower(x.value), q)
  }

  /** The predicate of `customers.filter(...)`. */
  predicate Matches(c: CustomerRow, searchTerm: string) {
    var q := Lower(searchTerm);
    Includes(Lower(c.columns.customerCode), q)
    || Includes(Lower(c.columns.customerName), q)
    || OptionalIncludes(c.columns.departmentName, q)
    || OptionalIncludes(c.columns.phoneNumber, q)
  }

  /** `customers.filter(...)`: exactly the matching customers, each as often as in the input. */
  function Filter(cs: seq<CustomerRow>, searchTerm: string): (r: seq<CustomerRow>)
    ensures forall i :: 0 <= i < |r| ==> Matches(r[i], searchTerm)
    ensures forall x :: multiset(r)[x] == if Matches(x, searchTerm) then multiset(cs)[x] else 0
  {
    if cs == [] then []
    else
      assert cs == [cs[0]] + cs[1..];
      (if Matches(cs[0], searchTerm) then [cs[0]] else []) + Filter(cs[1..], searchTerm)
  }

  /** `a` occurs in `b` in the same relative order. */
  predicate IsSubsequence(a: seq<CustomerRow>, b: seq<CustomerRow>)
    decreases |b|
  {
    if a == [] then true
    else if b == [] then false
    else if a[0] == b[0] then IsSubsequence(a[1..], b[1..])
    else IsSubsequence(a, b[1..])
  }

  /** Filtering keeps the relative order of the customers. */
  lemma {:induction false} FilterKeepsOrder(cs: seq<CustomerRow>, searchTerm: string)
    ensures IsSubsequence(Filter(cs, searchTerm), cs)
  {
    if cs != [] {
      FilterKeepsOrder(cs[1..], searchTerm);
      var rest := Filter(cs[1..], searchTerm);
      if Matches(cs[0], searchTerm) {
        assert Filter(cs, searchTerm) == [cs[0]] + rest;
        assert ([cs[0]] + rest)[1..] == rest;
      } else {
        assert Filter(cs, searchTerm) == rest;
        if rest != [] {
          assert Matches(rest[0], searchTerm);
        }
      }
    }
  }

  /** An empty search term keeps every customer. */
  lemma {:induction false} EmptySearchKeepsAll(cs: seq<CustomerRow>)
    ensures Filter(cs, "") == cs
  {
    if cs != [] {
      assert Lower("") == "";
      assert "" <= Lower(cs[0].columns.customerCode);
      EmptySearchKeepsAll(cs[1..]);
    }
  }

  // ---------------------------------------------------------------- order

  /** `a.localeCompare(b)`, with code-point order standing in for the locale's collation. */
  function LocaleCompare(a: string, b: string): int {
    Ordering.LexCompare(a, b)
  }

  /** `x < y ? -1 : x > y ? 1 : 0` on two numbers; values of one field are never a string and a number. */
  function PrimitiveCompare(x: FieldValue, y: FieldValue): int {
    if x.Number? && y.Number? then Ordering.CompareInt(x.n, y.n) else 0
  }

  /** The comparator handed to `sort`. */
  function Compare(f: SortField, dir: SortDirection, a: CustomerRow, b: CustomerRow): (r: int)
    ensures r == 0 <==> !FieldOf(a, f).Missing? && FieldOf(a, f) == FieldOf(b, f)
    ensures FieldOf(a, f).Missing? ==> (r < 0 <==> dir == Asc)
  {
    var av := FieldOf(a, f);
    var bv := FieldOf(b, f);
    if av.Missing? then (if dir == Asc then -1 else 1)
    else if bv.Missing? then (if dir == Asc then 1 else -1)
    else if av.Text? && bv.Text? then
      (if dir == Asc then LocaleCompare(av.s, bv.s) else LocaleCompare(bv.s, av.s))
    else if dir == Asc then PrimitiveCompare(av, bv) else PrimitiveCompare(bv, av)
  }

  /** A missing value sorts first in ascending order and last in descending order. */
  lemma MissingPlacement(f: SortField, a: CustomerRow, b: CustomerRow)
    ensures FieldOf(a, f).Missing? ==> Compare(f, Asc, a, b) < 0 && Compare(f, Desc, a, b) > 0
    ensures !FieldOf(a, f).Missing? && FieldOf(b, f).Missing? ==> Compare(f, Asc, a, b) > 0 && Compare(f, Desc, a, b) < 0
  {
  }

  /** Between two present values, descending order compares with the arguments swapped. */
  lemma DescendingSwapsArguments(f: SortField, a: CustomerRow, b: CustomerRow)
    requires !FieldOf(a, f).Missing? && !FieldOf(b, f).Missing?
    ensures Compare(f, Desc, a, b) == Compare(f, Asc, b, a)
  {
  }

  predicate ValueLe(x: FieldValue, y: FieldValue) {
    if x.Text? && y.Text? then Ordering.LexLe(x.s, y.s)
    else if x.Number? && y.Number? then x.n <= y.n
    else true
  }

  /** The order the sorted list is in: missing values first (ascending) or last (descending), present values by value. */
  predicate InOrder(f: SortField, dir: SortDirection, a: CustomerRow, b: CustomerRow) {
    var av := FieldOf(a, f);
    var bv := FieldOf(b, f);
    if dir == Asc then av.Missing? || (!bv.Missing? && ValueLe(av, bv))
    else bv.Missing? || (!av.Missing? && ValueLe(bv, av))
  }

  function Order(f: SortField, dir: SortDirection): (CustomerRow, CustomerRow) -> bool {
    (a, b) => InOrder(f, dir, a, b)
  }

  function Comparator(f: SortField, dir: SortDirection): (CustomerRow, CustomerRow) -> int {
    (a, b) => Compare(f, dir, a, b)
  }

  /**
   * The comparator's sign always agrees with a transitive order. This is
   * weaker than the consistency ECMA-262 asks of a sort comparator: see
   * `MissingBothWays`.
   */
  lemma {:induction false} ComparatorAgreesWithOrder(f: SortField, dir: SortDirection)
    ensures Ordering.Transitive(Order(f, dir))
    ensures Ordering.Agrees(Comparator(f, dir), Order(f, dir))
  {
    forall a, b, c | InOrder(f, dir, a, b) && InOrder(f, dir, b, c)
      ensures InOrder(f, dir, a, c)
    {
      var av, bv, cv := FieldOf(a, f), FieldOf(b, f), FieldOf(c, f);
      if av.Text? && bv.Text? && cv.Text? {
        if dir == Asc { Ordering.LexTransitive(av.s, bv.s, cv.s); }
        else { Ordering.LexTransitive(cv.s, bv.s, av.s); }
      }
    }
    forall a, b
      ensures if Compare(f, dir, a, b) <= 0 then InOrder(f, dir, a, b) else InOrder(f, dir, b, a)
    {
      var av, bv := FieldOf(a, f), FieldOf(b, f);
      if av.Text? && bv.Text? {
        Ordering.LexAntisymmetric(av.s, bv.s);
      }
    }
  }

  /**
   * Two customers that both lack the field compare the same way in both
   * argument orders, so the comparator is not consistent in the sense of
   * ECMA-262 and the engine's order among them is implementation-defined.
   */
  lemma MissingBothWays(f: SortField, dir: SortDirection, a: CustomerRow, b: CustomerRow)
    requires FieldOf(a, f).Missing? && FieldOf(b, f).Missing?
    ensures Compare(f, dir, a, b) == Compare(f, dir, b, a) != 0
  {
  }

  /** `filteredAndSortedCustomers`: the filtered customers, reordered. */
  function FilteredAndSorted(cs: seq<CustomerRow>, searchTerm: string, f: SortField, dir: SortDirection): (r: seq<CustomerRow>)
    ensures multiset(r) == multiset(Filter(cs, searchTerm))
    ensures Ordering.SortedBy(r, Order(f, dir))
  {
    ComparatorAgreesWithOrder(f, dir);
    Ordering.SortSorted(Filter(cs, searchTerm), Comparator(f, dir), Order(f, dir));
    Ordering.Sort(Filter(cs, searchTerm), Comparator(f, dir))
  }

  /** In an ascending list every customer missing the field precedes every customer that has it. */
  lemma MissingFirstWhenAscending(r: seq<CustomerRow>, f: SortField)
    requires Ordering.SortedBy(r, Order(f, Asc))
    ensures forall i, j :: 0 <= i < j < |r| && FieldOf(r[j], f).Missing? ==> FieldOf(r[i], f).Missing?
  {
    forall i, j | 0 <= i < j < |r| && FieldOf(r[j], f).Missing? ensures FieldOf(r[i], f).Missing? {
      assert Order(f, Asc)(r[i], r[j]);
    }
  }

  /** In a descending list every customer missing the field follows every customer that has it. */
  lemma MissingLastWhenDescending(r: seq<CustomerRow>, f: SortField)
    requires Ordering.SortedBy(r, Order(f, Desc))
    ensures forall i, j :: 0 <= i < j < |r| && FieldOf(r[i], f).Missing? ==> FieldOf(r[j], f).Missing?
  {
    forall i, j | 0 <= i < j < |r| && FieldOf(r[i], f).Missing? ensures FieldOf(r[j], f).Missing? {
      assert Order(f, Desc)(r[i], r[j]);
    }
  }

  // ---------------------------------------------------------------- state

  function Flip(d: SortDirection): (e: SortDirection)
    ensures e != d
  {
    if d == Asc then Desc else Asc
  }

  /** The component's state: the loaded customers, the search box and the sort selection. */
  class CustomerListView {
    var customers: seq<CustomerRow>
    var searchTerm: string
    var sortField: SortField
    var sortDirection: SortDirection

    constructor (customers: seq<CustomerRow>)
      ensures this.customers == customers && searchTerm == ""
      ensures sortField == CustomerCode && sortDirection == Asc
    {
      this.customers := customers;
      searchTerm := "";
      sortField := CustomerCode;
      sortDirection := Asc;
    }

    /** `handleSort`: the current field flips the direction; another field is selected in ascending order. */
    method HandleSort(field: SortField)
      modifies this`sortField, this`sortDirection
      ensures sortField == field
      ensures field == old(sortField) ==> sortDirection == Flip(old(sortDirection))
      ensures field != old(sortField) ==> sortDirection == Asc
    {
      if field == sortField {
        sortDirection := Flip(sortDirection);
      } else {
        sortField := field;
        sortDirection := Asc;
      }
    }

    /** What the table shows: the matching customers, ordered by the current selection. */
    function Shown(): (r: seq<CustomerRow>)
      reads this
      ensures multiset(r) == multiset(Filter(customers, searchTerm))
      ensures Ordering.SortedBy(r, Order(sortField, sortDirection))
    {
      FilteredAndSorted(customers, searchTerm, sortField, sortDirection)
    }
  }

  /** Clicking the same header twice restores the direction; clicking another header always starts ascending. */
  method ClickTwice(view: CustomerListView, field: SortField)
    modifies view`sortField, view`sortDirection
    ensures view.customers == old(view.customers) && view.searchTerm == old(view.searchTerm)
    ensures view.sortField == field
    ensures field == old(view.sortField) ==> view.sortDirection == old(view.sortDirection)
    ensures field != old(view.sortField) ==> view.sortDirection == Desc
  {
    view.HandleSort(field);
    view.HandleSort(field);
  }
}
