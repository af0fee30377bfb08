/**
 * EmployeeRepository: where the organisation comes from. The switch to
 * mock data and the mock tables are modelled exactly; the database is an
 * input (`Database`) that either lists rows or throws.
 */
module EmployeeRepository {
  import opened Wrappers
  import opened Exceptions
  import opened Strings
  import opened Entities

  /** One employee as the data source lists it: name, inn, department. */
  datatype EmployeeRow = EmployeeRow(name: string, inn: string, department: string)

  /** What the database queries return, or the exception they throw. */
  datatype Database = Database(
    activeDepartments: Result<seq<string>, Exception>,
    employeesOf: string -> Result<seq<EmployeeRow>, Exception>)

  /** The repository's inputs: the "UseMockData" configuration value (null
      when absent), the database, and the identifiers `Guid.NewGuid()` hands
      out, numbered in the order employees are created within one listing. */
  datatype Repository = Repository(
    useMockData: Option<string>,
    database: Database,
    newGuid: nat -> Guid)

  /** "UseMockData" is set and reads "true" once lower-cased; only a
      four-character setting can. */
  predicate ShouldUseMockData(useMockData: Option<string>)
    ensures ShouldUseMockData(useMockData) ==> useMockData.Some? && |useMockData.value| == 4
  {
    !IsNullOrEmpty(useMockData) && ToLower(useMockData.value) == "true"
  }

  /** Mock mode is chosen by exactly the sixteen spellings of "true" that
      differ only in letter case. */
  lemma ShouldUseMockDataSpellings(useMockData: Option<string>)
    ensures ShouldUseMockData(useMockData) <==>
      && useMockData.Some?
      && |useMockData.value| == 4
      && useMockData.value[0] in "tT"
      && useMockData.value[1] in "rR"
      && useMockData.value[2] in "uU"
      && useMockData.value[3] in "eE"
  {
    if useMockData.Some? && |useMockData.value| == 4 {
      var s := useMockData.value;
      var lower := ToLower(s);
      if lower == "true" {
        assert ToUpperChar(lower[0]) == ToUpperChar(s[0]);
        assert ToUpperChar(lower[1]) == ToUpperChar(s[1]);
        assert ToUpperChar(lower[2]) == ToUpperChar(s[2]);
        assert ToUpperChar(lower[3]) == ToUpperChar(s[3]);
      }
    }
  }

  function MockActiveDepartments(): seq<string> {
    ["Finance Department", "Accounting", "IT"]
  }

  /** The mock dictionary from department name to its employees. */
  function MockEmployeeTable(): map<string, seq<EmployeeRow>> {
    map[
      "Finance Department" := [
        EmployeeRow("Andrew Barnes", "123456789", "Finance Department"),
        EmployeeRow("Gregory Evans", "234567890", "Finance Department"),
        EmployeeRow("Jacob Smith", "345678901", "Finance Department"),
        EmployeeRow("Alex Ryan", "456789012", "Finance Department")],
      "Accounting" := [
        EmployeeRow("William Johnson", "567890123", "Accounting"),
        EmployeeRow("Damian Carter", "678901234", "Accounting"),
        EmployeeRow("Michael Anderson", "789012345", "Accounting")],
      "IT" := [
        EmployeeRow("Philip Rogers", "890123456", "IT"),
        EmployeeRow("Dmitry Collins", "901234567", "IT"),
        EmployeeRow("Andrew Miller", "012345678", "IT"),
        EmployeeRow("Arvid Nelson", "123456780", "IT")]
    ]
  }

  /** The mock employees of a department; an unknown department has none. */
  function MockEmployees(department: string): (r: seq<EmployeeRow>)
    ensures department !in MockActiveDepartments() ==> r == []
  {
    var table := MockEmployeeTable();
    if department in table then table[department] else []
  }

  /** `GetActiveDepartmentsAsync`: the three mock departments in mock mode,
      whatever the database holds; otherwise the database's answer. */
  function GetActiveDepartments(repository: Repository): (r: Result<seq<string>, Exception>)
    ensures ShouldUseMockData(repository.useMockData) ==> r == Success(["Finance Department", "Accounting", "IT"])
    ensures !ShouldUseMockData(repository.useMockData) ==> r == repository.database.activeDepartments
  {
    if ShouldUseMockData(repository.useMockData) then Success(MockActiveDepartments())
    else repository.database.activeDepartments
  }

  /** The rows `GetEmployeesByDepartmentAsync` turns into employees. In mock
      mode the listing never fails and lists only the department's own
      employees. */
  function EmployeeRows(repository: Repository, department: string): (r: Result<seq<EmployeeRow>, Exception>)
    ensures ShouldUseMockData(repository.useMockData) ==>
      r.Success? && forall row :: row in r.value ==> row.department == department
    ensures !ShouldUseMockData(repository.useMockData) ==> r == repository.database.employeesOf(department)
  {
    MockEmployeesBelongToDepartment(department);
    if ShouldUseMockData(repository.useMockData) then Success(MockEmployees(department))
    else repository.database.employeesOf(department)
  }

  /** In mock mode the departments are the three fixed ones, in this order,
      whatever the database holds. */
  lemma MockModeDepartments(repository: Repository)
    requires ShouldUseMockData(repository.useMockData)
    ensures GetActiveDepartments(repository) == Success(["Finance Department", "Accounting", "IT"])
  {
  }

  /** Every mock employee listed for a department belongs to it; the three
      mock departments have 4, 3 and 4 employees and any other has none. */
  lemma MockEmployeesBelongToDepartment(department: string)
    ensures forall row :: row in MockEmployees(department) ==> row.department == department
    ensures |MockEmployees("Finance Department")| == 4
    ensures |MockEmployees("Accounting")| == 3
    ensures |MockEmployees("IT")| == 4
    ensures department !in MockActiveDepartments() ==> MockEmployees(department) == []
  {
  }

  /** No two mock employees, across all departments, share an inn. */
  lemma MockInnsDistinct(d: string, d': string, i: nat, j: nat)
    requires i < |MockEmployees(d)| && j < |MockEmployees(d')|
    requires d != d' || i != j
    ensures MockEmployees(d)[i].inn != MockEmployees(d')[j].inn
  {
    assert d in MockActiveDepartments() && d' in MockActiveDepartments();
  }

  /** The state each listed employee starts in. */
  function RowState(row: EmployeeRow): EmployeeState {
    InitialState(row.name, row.inn, row.department)
  }

  /** The employee objects stand for the rows, one to one and in order,
      each a distinct object in its initial state. */
  ghost predicate Materializes(employees: seq<Employee>, rows: seq<EmployeeRow>)
    reads employees
  {
    && |employees| == |rows|
    && (forall i :: 0 <= i < |employees| ==> employees[i].Valid() && employees[i].State() == RowState(rows[i]))
    && (forall i, j :: 0 <= i < j < |employees| ==> employees[i] != employees[j])
  }

  /** `GetEmployeesByDepartmentAsync`: a new Employee object for each row,
      in order, or the data source's exception. */
  method GetEmployeesByDepartment(repository: Repository, department: string)
    returns (r: Result<seq<Employee>, Exception>)
    ensures EmployeeRows(repository, department).Failure? ==>
      r == Failure(EmployeeRows(repository, department).error)
    ensures EmployeeRows(repository, department).Success? ==>
      && r.Success?
      && Materializes(r.value, EmployeeRows(repository, department).value)
      && (forall i :: 0 <= i < |r.value| ==> fresh(r.value[i]))
  {
    var rows := EmployeeRows(repository, department);
    if rows.Failure? {
      return Failure(rows.error);
    }
    var employees := CreateEmployees(rows.value, repository.newGuid);
    return Success(employees);
  }

  /** The loop that turns listed rows into Employee objects, one per row. */
  method CreateEmployees(rows: seq<EmployeeRow>, newGuid: nat -> Guid) returns (employees: seq<Employee>)
    ensures Materializes(employees, rows)
    ensures forall i :: 0 <= i < |employees| ==> fresh(employees[i])
  {
    employees := [];
    for i := 0 to |rows|
      invariant |employees| == i
      invariant forall k :: 0 <= k < i ==> fresh(employees[k])
      invariant forall k :: 0 <= k < i ==> employees[k].Valid() && employees[k].State() == RowState(rows[k])
      invariant forall k, l :: 0 <= k < l < i ==> employees[k] != employees[l]
    {
      var employee := new Employee(newGuid(i), rows[i].name, rows[i].inn, rows[i].department);
      employees := employees + [employee];
    }
    assert rows[..|rows|] == rows;
  }
}
