/**
 * The Employee entity: an object whose identity, name and inn are fixed at
 * construction, and whose department, salary and employee code are changed
 * in place by guarded update methods.
 */
module Entities {
  import opened Wrappers
  import opened Exceptions
  import opened Strings
  import opened Decimal

  /** `Guid`: the model only needs identifiers to be values. */
  type Guid = nat

  /** Everything about an employee that a service can observe, at one instant. */
  datatype EmployeeState = EmployeeState(
    name: string,
    inn: string,
    department: string,
    salary: real,
    employeeCode: string,
    isActive: bool)

  /** The state of a freshly constructed employee. */
  function InitialState(name: string, inn: string, department: string): (s: EmployeeState)
    ensures s.name == name && s.inn == inn && s.department == department
    ensures s.salary == 0.0 && s.employeeCode == "" && s.isActive
  {
    EmployeeState(name, inn, department, 0.0, "", true)
  }

  const NegativeSalaryMessage := "Salary cannot be negative"

  /** What `UpdateEmployeeCode` stores: null becomes "", anything else is
      trimmed and upper-cased, character by character. */
  function NormalizeCode(code: Option<string>): (r: string)
    ensures code.None? ==> r == ""
    ensures IsTrimmed(r)
    ensures forall i :: 0 <= i < |r| ==> !IsAsciiLower(r[i])
    ensures code.Some? ==> |r| == |Trim(code.value)|
    ensures code.Some? ==> forall i :: 0 <= i < |r| ==> r[i] == ToUpperChar(Trim(code.value)[i])
  {
    if code.Some? then
      var t := Trim(code.value);
      ToUpperKeepsTrimmed(t);
      ToUpperInvariant(t)
    else ""
  }

  /** A code in the form `UpdateEmployeeCode` stores: trimmed, and with no
      lower-case letter. */
  predicate IsNormalizedCode(code: string) {
    IsTrimmed(code) && forall i :: 0 <= i < |code| ==> !IsAsciiLower(code[i])
  }

  /** The normalized codes are exactly the codes `UpdateEmployeeCode` would
      store unchanged. */
  lemma NormalizedCodeIsFixpoint(code: string)
    ensures IsNormalizedCode(code) <==> NormalizeCode(Some(code)) == code
  {
    if IsNormalizedCode(code) {
      TrimOfTrimmed(code);
      ToUpperOfUpper(code);
    }
  }

  /** Applying `UpdateEmployeeCode` to the stored code leaves it unchanged. */
  lemma NormalizeCodeIdempotent(code: Option<string>)
    ensures NormalizeCode(Some(NormalizeCode(code))) == NormalizeCode(code)
  {
    NormalizedCodeIsFixpoint(NormalizeCode(code));
  }

  /** The constructor's null checks, in the order it makes them: the name of
      the first null argument, or None when all three are present. */
  function FirstNullArgument(name: Option<string>, inn: Option<string>, department: Option<string>): (r: Option<string>)
    ensures r.None? <==> name.Some? && inn.Some? && department.Some?
    ensures r == Some("name") <==> name.None?
    ensures r == Some("inn") <==> name.Some? && inn.None?
    ensures r == Some("department") <==> name.Some? && inn.Some? && department.None?
  {
    if name.None? then Some("name")
    else if inn.None? then Some("inn")
    else if department.None? then Some("department")
    else None
  }

  class Employee {
    const Id: Guid
    const Name: string
    const Inn: string
    var Department: string
    var Salary: real
    var EmployeeCode: string
    const IsActive: bool

    /** The entity's invariant: the salary is a non-negative amount in
        cents, and the code is in the form `UpdateEmployeeCode` stores. */
    ghost predicate Valid()
      reads this
    {
      && 0.0 <= Salary
      && IsCents(Salary)
      && IsNormalizedCode(EmployeeCode)
    }

    function State(): EmployeeState
      reads this
    {
      EmployeeState(Name, Inn, Department, Salary, EmployeeCode, IsActive)
    }

    /** `new Employee(name, inn, department)`, once its null checks have
        passed (see NewEmployee): salary 0, empty code, active. */
    constructor (id: Guid, name: string, inn: string, department: string)
      ensures Valid()
      ensures Id == id && State() == InitialState(name, inn, department)
    {
      Id := id;
      Name := name;
      Inn := inn;
      Department := department;
      Salary := 0.0;
      EmployeeCode := "";
      IsActive := true;
    }

    /** Rejects a negative salary and leaves the old one; otherwise stores
        it rounded to two decimals. Changes nothing but Salary. */
    method UpdateSalary(newSalary: real) returns (error: Option<Exception>)
      requires Valid()
      modifies this`Salary
      ensures Valid()
      ensures newSalary < 0.0 ==> error == Some(ArgumentException(NegativeSalaryMessage)) && Salary == old(Salary)
      ensures 0.0 <= newSalary ==> error.None? && Salary == Round2(newSalary)
    {
      if newSalary < 0.0 {
        return Some(ArgumentException(NegativeSalaryMessage));
      }
      Salary := Round2(newSalary);
      return None;
    }

    /** Stores the trimmed, upper-cased code ("" for null). Changes nothing
        but EmployeeCode. */
    method UpdateEmployeeCode(employeeCode: Option<string>)
      requires Valid()
      modifies this`EmployeeCode
      ensures Valid()
      ensures EmployeeCode == NormalizeCode(employeeCode)
    {
      EmployeeCode := NormalizeCode(employeeCode);
    }

    /** Rejects null and otherwise moves the employee to `newDepartment`.
        Changes nothing but Department. */
    method TransferToDepartment(newDepartment: Option<string>) returns (error: Option<Exception>)
      requires Valid()
      modifies this`Department
      ensures Valid()
      ensures newDepartment.None? ==> error == Some(ArgumentNullException("newDepartment")) && Department == old(Department)
      ensures newDepartment.Some? ==> error.None? && Department == newDepartment.value
    {
      if newDepartment.None? {
        return Some(ArgumentNullException("newDepartment"));
      }
      Department := newDepartment.value;
      return None;
    }
  }

  /** `new Employee(name, inn, department)` with its null checks: the first
      null argument is reported as an ArgumentNullException, otherwise a new
      employee in its initial state. */
  method NewEmployee(id: Guid, name: Option<string>, inn: Option<string>, department: Option<string>)
    returns (r: Result<Employee, Exception>)
    ensures FirstNullArgument(name, inn, department).Some? ==>
      r == Failure(ArgumentNullException(FirstNullArgument(name, inn, department).value))
    ensures FirstNullArgument(name, inn, department).None? ==>
      && r.Success? && fresh(r.value) && r.value.Valid() && r.value.Id == id
      && r.value.State() == InitialState(name.value, inn.value, department.value)
  {
    var missing := FirstNullArgument(name, inn, department);
    if missing.Some? {
      return Failure(ArgumentNullException(missing.value));
    }
    var e := new Employee(id, name.value, inn.value, department.value);
    return Success(e);
  }
}
