/**
 * EmployeeService: the two enrichment lookups. The HTTP call and
 * `decimal.TryParse` are inputs (`ExternalServices`); what is left is the
 * guard and fallback logic, and neither operation ever throws.
 */
module EmployeeService {
  import opened Wrappers
  import opened Strings
  import opened Entities

  /** What `HttpClient.GetStringAsync(url)` does for one URL: it returns a
      body (a null body is kept for the `?.` guard) or throws. */
  datatype HttpOutcome = Responded(body: Option<string>) | Threw

  /** The service's collaborators: its two configured base URLs (null when
      the key is missing), the HTTP client and the decimal parser. */
  datatype ExternalServices = ExternalServices(
    hrBaseUrl: Option<string>,
    salaryBaseUrl: Option<string>,
    getString: string -> HttpOutcome,
    tryParseDecimal: string -> Option<real>)

  /** The IEmployeeService interface as a pair of total operations that
      always return a value: the report builder is stated for every
      implementation of that kind. One that throws, or that returns a null
      code, cannot be expressed. */
  datatype EmployeeServiceApi = EmployeeServiceApi(
    calculateSalary: Option<EmployeeState> -> real,
    getEmployeeCode: Option<string> -> string)

  const DefaultCode := "DEFAULT"

  /** `$"{baseUrl}{inn}"`: a null base URL interpolates as "". */
  function LookupUrl(baseUrl: Option<string>, inn: string): string {
    OrEmpty(baseUrl) + inn
  }

  /** The salary lookup for one employee (`CalculateSalaryAsync`). It asks
      the salary service only when the employee is present and has both an
      inn and a code, and then only for the inn; every failure is 0. */
  function CalculateSalary(employee: Option<EmployeeState>, ext: ExternalServices): (r: real)
    ensures employee.None? || employee.value.inn == "" || employee.value.employeeCode == "" ==> r == 0.0
    ensures r != 0.0 ==>
      var outcome := ext.getString(LookupUrl(ext.salaryBaseUrl, employee.value.inn));
      outcome.Responded? && outcome.body.Some? && ext.tryParseDecimal(outcome.body.value) == Some(r)
    ensures employee.Some? && employee.value.inn != "" && employee.value.employeeCode != "" ==>
      var outcome := ext.getString(LookupUrl(ext.salaryBaseUrl, employee.value.inn));
      (outcome.Responded? && outcome.body.Some? && ext.tryParseDecimal(outcome.body.value).Some? ==>
        r == ext.tryParseDecimal(outcome.body.value).value)
  {
    if employee.None? || IsNullOrEmpty(Some(employee.value.inn)) || IsNullOrEmpty(Some(employee.value.employeeCode)) then
      0.0
    else
      match ext.getString(LookupUrl(ext.salaryBaseUrl, employee.value.inn))
      case Threw => 0.0
      case Responded(body) =>
        if body.None? then 0.0
        else
          match ext.tryParseDecimal(body.value)
          case Some(salary) => salary
          case None => 0.0
  }

  /** The salary depends on the salary service only through the answer for
      this employee's inn: the code gates the call but is not sent. */
  lemma CalculateSalaryDependsOnInnOnly(state: EmployeeState, other: EmployeeState, ext: ExternalServices, ext': ExternalServices)
    requires state.inn == other.inn && (state.employeeCode == "" <==> other.employeeCode == "")
    requires ext.salaryBaseUrl == ext'.salaryBaseUrl && ext.tryParseDecimal == ext'.tryParseDecimal
    requires ext.getString(LookupUrl(ext.salaryBaseUrl, state.inn)) == ext'.getString(LookupUrl(ext.salaryBaseUrl, state.inn))
    ensures CalculateSalary(Some(state), ext) == CalculateSalary(Some(other), ext')
  {
  }

  /** The code lookup (`GetEmployeeCodeAsync`): "DEFAULT" without asking
      when the inn is null or empty, when the call throws or when it answers
      null; otherwise the answer, trimmed. */
  function GetEmployeeCode(inn: Option<string>, ext: ExternalServices): (r: string)
    ensures IsNullOrEmpty(inn) ==> r == DefaultCode
    ensures IsTrimmed(r)
    ensures r != DefaultCode ==>
      var outcome := ext.getString(LookupUrl(ext.hrBaseUrl, inn.value));
      outcome.Responded? && outcome.body.Some? && r == Trim(outcome.body.value)
    ensures !IsNullOrEmpty(inn) ==>
      var outcome := ext.getString(LookupUrl(ext.hrBaseUrl, inn.value));
      (outcome.Responded? && outcome.body.Some? ==> r == Trim(outcome.body.value))
  {
    if IsNullOrEmpty(inn) then
      DefaultCode
    else
      match ext.getString(LookupUrl(ext.hrBaseUrl, inn.value))
      case Threw => DefaultCode
      case Responded(body) => if body.Some? then Trim(body.value) else DefaultCode
  }

  /** The code is empty only when the HR service answered with nothing but
      white space: every fallback yields the non-empty "DEFAULT". */
  lemma GetEmployeeCodeEmptyOnlyForBlankAnswer(inn: Option<string>, ext: ExternalServices)
    requires GetEmployeeCode(inn, ext) == ""
    ensures !IsNullOrEmpty(inn)
    ensures var outcome := ext.getString(LookupUrl(ext.hrBaseUrl, inn.value));
      outcome.Responded? && outcome.body.Some? && AllWhiteSpace(outcome.body.value)
  {
    var outcome := ext.getString(LookupUrl(ext.hrBaseUrl, inn.value));
    var body := outcome.body.value;
    var a :| SurroundedBy(body, a, Trim(body));
    assert body == body[..a] + body[a..];
  }

  /** The real EmployeeService as an implementation of the interface: it
      pays nothing to an employee without a code, and gives "DEFAULT" as the
      code for a missing inn. */
  function Service(ext: ExternalServices): (r: EmployeeServiceApi)
    ensures forall e: EmployeeState :: e.employeeCode == "" ==> r.calculateSalary(Some(e)) == 0.0
    ensures r.getEmployeeCode(None) == DefaultCode && r.getEmployeeCode(Some("")) == DefaultCode
  {
    EmployeeServiceApi(
      employee => CalculateSalary(employee, ext),
      inn => GetEmployeeCode(inn, ext))
  }
}
