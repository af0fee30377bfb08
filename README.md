# Payroll report service — a Dafny model

The service answers `GET api/report/{year}/{month}` with a text file, the
payroll report for that month. The controller first checks the year, then the
month. The report service then lists the active departments from the employee
repository. For each department, in order, it lists the employees. For each
employee, in order, it asks the employee service for a code and a salary,
stores both on the employee object, and appends one line to a `StringBuilder`.
Each department gets a total, and the report ends with a company total. The
text is encoded as UTF-8 and served under a name built from the period and the
current time. Any exception from the builder is rethrown and becomes a 500
response.

The model has one module per source file, plus small helper modules:

- `Entities` (`employee.dfy`): the `Employee` class. Its `Salary`,
  `EmployeeCode` and `Department` fields change in place through guarded
  update methods.
- `EmployeeService` (`employee_service.dfy`): the guard and fallback logic of
  the two lookups, as pure functions. The HTTP client and the decimal parser
  are inputs to it.
- `EmployeeRepository` (`employee_repository.dfy`):
  - the `UseMockData` switch and the mock organisation, modelled exactly;
  - the database, as an input that lists rows or throws;
  - `GetEmployeesByDepartment`, which creates one fresh `Employee` object per
    row.
- `ReportService` (`report_service.dfy`): the report builder. It works in two
  layers:
  - specification functions: `Aggregate` says what the report contains, and
    `Render` and `Join` say how it is laid out;
  - imperative methods that mirror the source's loops over a `StringBuilder`
    object and the employee objects, each proved equal to the specification.
  The module also holds the file download (`GenerateReport`), the file name
  and the finding below.
- `ReportController` (`report_controller.dfy`): the request validation and the
  mapping of results to responses.
- `ReportApiTests` (`report_api_tests.dfy`): the end-to-end scenario of the
  API test, stated as a lemma.
- Helper modules:
  - `Strings` (`strings.dfy`): white-space trimming, ASCII casing, integer
    formatting, `Join` and `Contains`;
  - `Decimal` (`decimal.dfy`): `Math.Round(d, 2)` with midpoint-to-even, and
    sums;
  - `Wrappers` (`wrappers.dfy`): Option and Result;
  - `Exceptions` (`exceptions.dfy`): the exceptions the code throws.

Modelling conventions:

- A thrown exception is a `Failure` value, and `null` is `None`.
- C# `decimal` is Dafny `real`.
- The behaviour of the culture and the platform is held by a `Platform`
  value. This covers:
  - the month name of `"MMMM"`;
  - the `"C"` currency format;
  - `Environment.NewLine`;
  - `Encoding.UTF8`.
- `DateTime.Now` is a parameter.

The service processes one call after another, renders every salary with the
currency format, and lets exceptions escape to the controller.

## Model

| member | source | states |
|---|---|---|
| Entities.InitialState | ReportService/ReportService/Domain/Entities/Employee.cs:17-25 | a new employee has the given name, inn and department, salary 0, code "" and is active |
| Entities.Employee.constructor | ReportService/ReportService/Domain/Entities/Employee.cs:17-25 | the constructed employee is in its initial state with the given id, and satisfies the entity invariant |
| Entities.FirstNullArgument | ReportService/ReportService/Domain/Entities/Employee.cs:20-22 | the null checks run in order name, inn, department; the first null argument is the one reported, and none is reported iff all three are present |
| Entities.NewEmployee | ReportService/ReportService/Domain/Entities/Employee.cs:17-25 | a null argument gives ArgumentNullException naming the first null one; otherwise a fresh employee in its initial state |
| Entities.Employee.UpdateSalary | ReportService/ReportService/Domain/Entities/Employee.cs:27-31 | a negative salary throws ArgumentException("Salary cannot be negative") and leaves Salary unchanged; otherwise Salary becomes the value rounded to 2 decimals; only Salary may change, and Salary stays non-negative and in cents |
| Decimal.RoundedCents | ReportService/ReportService/Domain/Entities/Employee.cs:30 | the kept number of cents is within half a cent of the value, and even at an exact tie |
| Decimal.Round2 | ReportService/ReportService/Domain/Entities/Employee.cs:30 | `Math.Round(x, 2)` has at most two decimals, is within 0.005 of x, is non-negative for non-negative x, and leaves a value already in cents unchanged |
| Decimal.Round2Idempotent | ReportService/ReportService/Domain/Entities/Employee.cs:30 | rounding twice equals rounding once, so applying UpdateSalary to the stored salary changes nothing |
| Decimal.Round2MidpointToEven | ReportService/ReportService/Domain/Entities/Employee.cs:30 | at an exact half cent the result is an even number of cents |
| Entities.NormalizeCode | ReportService/ReportService/Domain/Entities/Employee.cs:35 | null becomes ""; otherwise the result is the trimmed input upper-cased character by character, so it is trimmed, has no lower-case letter and is as long as the trimmed input |
| Entities.NormalizedCodeIsFixpoint | ReportService/ReportService/Domain/Entities/Employee.cs:33-36 | a code is stored unchanged iff it is trimmed and has no lower-case letter |
| Entities.NormalizeCodeIdempotent | ReportService/ReportService/Domain/Entities/Employee.cs:33-36 | re-applying UpdateEmployeeCode to the stored code leaves it unchanged |
| Entities.Employee.UpdateEmployeeCode | ReportService/ReportService/Domain/Entities/Employee.cs:33-36 | EmployeeCode becomes the normalized code ("" for null); only EmployeeCode may change |
| Entities.Employee.TransferToDepartment | ReportService/ReportService/Domain/Entities/Employee.cs:38-41 | null throws ArgumentNullException("newDepartment") and keeps the department; otherwise Department becomes the new one; only Department may change (Id, Name, Inn are constants) |
| Strings.Trim | ReportService/ReportService/Domain/Services/EmployeeService.cs:68 | `Trim()` yields a string with no white space (in the sense of `Char.IsWhiteSpace`) at either end, obtained by removing only white space from both ends |
| Strings.TrimUnique | ReportService/ReportService/Domain/Services/EmployeeService.cs:68 | any trimmed string obtained from s by removing white space at both ends is Trim(s) |
| Strings.ToUpperInvariant | ReportService/ReportService/Domain/Entities/Employee.cs:35 | upper-casing keeps the length, leaves no lower-case letter and changes each character only in case |
| Strings.TrimIdempotent | ReportService/ReportService/Domain/Entities/Employee.cs:35 | trimming twice equals trimming once |
| EmployeeService.CalculateSalary | ReportService/ReportService/Domain/Services/EmployeeService.cs:24-51 | 0 without a lookup for a null employee, an empty inn or an empty code; otherwise the parsed answer for `{baseUrl}{inn}` when the call returns and parses, and 0 when it throws or does not parse; a non-zero result is always a parsed answer |
| EmployeeService.CalculateSalaryDependsOnInnOnly | ReportService/ReportService/Domain/Services/EmployeeService.cs:28-35 | two employees with the same inn, and codes that are both empty or both non-empty, get the same salary: the code only gates the call |
| EmployeeService.GetEmployeeCode | ReportService/ReportService/Domain/Services/EmployeeService.cs:54-75 | "DEFAULT" without a lookup for a null or empty inn; the trimmed answer when the call returns a body; "DEFAULT" for a null body or a throwing call; the result is always trimmed |
| EmployeeService.GetEmployeeCodeEmptyOnlyForBlankAnswer | ReportService/ReportService/Domain/Services/EmployeeService.cs:58-74 | the code is empty only when the inn was given and the HR service answered with white space only |
| EmployeeService.Service | ReportService/ReportService/Domain/Services/EmployeeService.cs:11-76 | the real implementation of the interface: an employee without a code is paid 0 without a lookup, and a missing or empty inn gets "DEFAULT"; the report-level consequence is AsWrittenSalariesAreZero |
| EmployeeRepository.ShouldUseMockData | ReportService/ReportService/Infrastructure/Repositories/EmployeeRepository.cs:94-98 | only a four-character setting selects mock data; ShouldUseMockDataSpellings gives the exact sixteen spellings |
| EmployeeRepository.GetActiveDepartments | ReportService/ReportService/Infrastructure/Repositories/EmployeeRepository.cs:24-26 | in mock mode the three mock departments in order, whatever the database holds; otherwise the database's answer or exception |
| EmployeeRepository.MockEmployees | ReportService/ReportService/Infrastructure/Repositories/EmployeeRepository.cs:113-143 | an unknown department has no employees; MockEmployeesBelongToDepartment gives the counts and departments |
| EmployeeRepository.EmployeeRows | ReportService/ReportService/Infrastructure/Repositories/EmployeeRepository.cs:54-59 | in mock mode the listing never fails and lists only the department's own employees; otherwise the database's rows or exception |
| EmployeeRepository.ShouldUseMockDataSpellings | ReportService/ReportService/Infrastructure/Repositories/EmployeeRepository.cs:94-98 | mock data is used iff the setting is present and is "true" in any letter case |
| EmployeeRepository.MockModeDepartments | ReportService/ReportService/Infrastructure/Repositories/EmployeeRepository.cs:100-110 | in mock mode the departments are exactly Finance Department, Accounting, IT, in that order |
| EmployeeRepository.MockEmployeesBelongToDepartment | ReportService/ReportService/Infrastructure/Repositories/EmployeeRepository.cs:113-143 | every mock employee of d has department d; the three departments have 4, 3 and 4 employees; any other department has none |
| EmployeeRepository.MockInnsDistinct | ReportService/ReportService/Infrastructure/Repositories/EmployeeRepository.cs:118-140 | no two mock employees share an inn |
| EmployeeRepository.GetEmployeesByDepartment | ReportService/ReportService/Infrastructure/Repositories/EmployeeRepository.cs:54-59 | the data source's exception is passed on; otherwise one fresh, distinct employee per listed row, in order, each in its initial state |
| EmployeeRepository.CreateEmployees | ReportService/ReportService/Infrastructure/Repositories/EmployeeRepository.cs:118-142 | the created employees stand for the rows one to one and in order, are fresh and pairwise distinct |
| ReportService.StringBuilder.AppendLine | ReportService/ReportService/Application/Services/ReportService.cs:54-57 | appending adds exactly one line at the end of the buffer |
| ReportService.GenerateReportContent | ReportService/ReportService/Application/Services/ReportService.cs:51-92 | the builder returns exactly the rendered report, or the first exception thrown: an unrepresentable month, the repository's exception, or a negative salary |
| ReportService.AppendDepartment | ReportService/ReportService/Application/Services/ReportService.cs:64-84 | one pass of the department loop appends the department's header, blank line, employee lines, blank line, total line and blank line, and returns the department total; it fails with the repository's exception or the negative-salary one |
| ReportService.AppendEmployeeLines | ReportService/ReportService/Application/Services/ReportService.cs:70-80 | the inner loop appends one line per employee in order and sums the returned salaries; it stops at the first negative salary with UpdateSalary's exception |
| ReportService.AppendEmployeeLine | ReportService/ReportService/Application/Services/ReportService.cs:72-78 | one pass of the inner loop: the employee ends with its new code and rounded salary and its line is appended, or the negative salary is rejected |
| ReportService.EnrichEmployee | ReportService/ReportService/Application/Services/ReportService.cs:72-76 | the salary is asked for while the employee still has its initial state; the code and the rounded salary are then stored; a negative salary throws |
| ReportService.EntriesOrder | ReportService/ReportService/Application/Services/ReportService.cs:70-80 | a department's lines exist iff no returned salary is negative; there is one line per employee in repository order, with its name and its returned salary; the only error is the negative-salary one |
| ReportService.SectionsAt | ReportService/ReportService/Application/Services/ReportService.cs:62-87 | when every department succeeds, section i is department i's |
| ReportService.SectionsFirstFailure | ReportService/ReportService/Application/Services/ReportService.cs:62-87 | when the report fails, it fails with the error of a department all of whose predecessors succeeded |
| ReportService.SectionsOrder | ReportService/ReportService/Application/Services/ReportService.cs:59-87 | the sections exist iff every department's does; they follow the order of GetActiveDepartmentsAsync one to one; otherwise the error is that of the first failing department |
| ReportService.DepartmentSectionContent | ReportService/ReportService/Application/Services/ReportService.cs:64-80 | a section carries its department name and one entry per listed employee; it fails iff the listing throws or a returned salary is negative |
| ReportService.DepartmentTotalIsReturnedSum | ReportService/ReportService/Application/Services/ReportService.cs:73-79 | a department total is the sum of the salaries the service returned, not of the stored rounded values |
| ReportService.DepartmentTotalIsNotRounded | ReportService/ReportService/Application/Services/ReportService.cs:76-79 | two returned salaries of 0.005 give a department total of 0.01, while both stored salaries round to 0 |
| ReportService.CompanyTotalIsSumOfAllLines | ReportService/ReportService/Application/Services/ReportService.cs:79-89 | the company total is the sum of the department totals, and so the sum of every employee line |
| ReportService.EntryLinesAt | ReportService/ReportService/Application/Services/ReportService.cs:78 | exactly one `\| name \| salary \|` line per employee, in order |
| ReportService.SectionsLinesPrefix | ReportService/ReportService/Application/Services/ReportService.cs:62-87 | each department's block follows directly after the blocks of the departments before it |
| ReportService.RenderLayout | ReportService/ReportService/Application/Services/ReportService.cs:53-89 | the text opens with `<month name> <year>` and a blank line; then come the department blocks in order, each `### <department>`, a blank line, the employee lines, a blank line, the total and a blank line; the text ends with the company-total line |
| ReportService.OnlyLastLineIsCompanyTotal | ReportService/ReportService/Application/Services/ReportService.cs:89 | exactly one line, the last, starts with "### Company Total", provided no department name starts with "Company Total" and the period line (month name from the culture, then the year) does not start with "### Company Total" |
| ReportService.TimestampFields | ReportService/ReportService/Application/Services/ReportService.cs:34 | `yyyyMMdd_HHmmss` is 15 characters with `_` at position 8, and each fixed-width field reads back as its component |
| ReportService.TimestampInjective | ReportService/ReportService/Application/Services/ReportService.cs:34 | different moments, down to the second, give different timestamps |
| ReportService.FileNameInjective | ReportService/ReportService/Application/Services/ReportService.cs:34 | `report_<year>_<month>_<timestamp>.txt` determines the year, the month and the moment |
| ReportService.Timestamp | ReportService/ReportService/Application/Services/ReportService.cs:34 | `yyyyMMdd_HHmmss`: digits around a single underscore; TimestampFields and TimestampInjective give its fields and injectivity |
| ReportService.FileName | ReportService/ReportService/Application/Services/ReportService.cs:34 | starts with `report_` and ends with `.txt`; FileNameInjective shows it determines the year, the month and the moment |
| ReportService.ReportFileFacts | ReportService/ReportService/Application/Services/ReportService.cs:31-47 | the file is the UTF-8 of the report, typed text/plain, and its name starts with `report_<year>_<month>_`; a builder failure is rethrown unchanged, and no fallback file is produced |
| ReportService.GenerateReport | ReportService/ReportService/Application/Services/ReportService.cs:27-49 | the method returns exactly the specified file, or the builder's exception |
| ReportService.AsWrittenSalariesAreZero | ReportService/ReportService/Application/Services/ReportService.cs:72-76 | with the real EmployeeService, every salary line, every department total and the company total are 0 |
| ReportService.AsWrittenNeverRejectsSalary | ReportService/ReportService/Application/Services/ReportService.cs:72-76 | with the real EmployeeService, a department never fails on a negative salary |
| ReportService.EnrichEmployeeCodeFirst | ReportService/ReportService/Application/Services/ReportService.cs:72-76 | in the intended order, the code is stored before the salary is asked for, and the employee ends with both |
| ReportService.CodeFirstUsesSalaryService | ReportService/ReportService/Application/Services/ReportService.cs:72-76 | in the intended order, with an inn and a non-blank code, the salary is the salary service's parsed answer (0 when it fails) |
| ReportService.SalaryOrderCounterexample | ReportService/ReportService/Application/Services/ReportService.cs:72-76 | with services that answer "2500", the salary is 0 as written and 2500 in the intended order |
| ReportController.Download | ReportService/ReportService/Controllers/ReportController.cs:25-53 | year outside 1900..2100 iff the year BadRequest; valid year and month outside 1..12 iff the month BadRequest; otherwise the service's file unchanged, or status 500 with the fixed message iff the service throws |
| ReportController.InvalidRequestIgnoresService | ReportService/ReportService/Controllers/ReportController.cs:27-37 | a rejected request gets a BadRequest whatever the report service would do, so the service is not called |
| ReportController.ValidRequestIsRepresentable | ReportService/ReportService/Controllers/ReportController.cs:27-37 | every accepted year and month is a valid date for the builder |
| ReportController.DownloadReport | ReportService/ReportService/Controllers/ReportController.cs:39-51 | the endpoint over the real report service: a file exactly when the year and month are accepted and the report text exists, and then the UTF-8 text/plain file named after the period |
| ReportController.DownloadReportOutcome | ReportService/ReportService/Controllers/ReportController.cs:39-51 | for an accepted request, the response is the report file iff the builder succeeds; otherwise it is the fixed 500 |
| ReportApiTests.MockReportSections | ReportService.Tests/ReportApiTests.cs:26-30 | in mock mode the report for 2017/1 is built, with three sections, the first one Finance Department |
| ReportApiTests.GetReportForJanuary2017 | ReportService.Tests/ReportApiTests.cs:24-31 | in mock mode, `api/report/2017/1` serves the report file, and its text contains "Finance Department" and "Company Total" |

## Left out

- The Npgsql database paths (connection, SQL, reader loops) are not modelled. The database is a `Database` value that lists rows or throws.
- `HttpClient.GetStringAsync` and `decimal.TryParse` are foreign calls. They are inputs of `ExternalServices`.
- The configured base URLs are inputs. A missing one interpolates as "".
- The `"MMMM"` month name, the `"C"` currency format, `Environment.NewLine` and `Encoding.UTF8` are culture- or platform-bound. They are fields of `Platform`.
- `DateTime.Now` is a parameter of `GenerateReport`.
- `Guid.NewGuid()` is a function of the creation index, held by the `Repository` value.
- Logging is left out everywhere.
- `Startup.cs` and `TestController.cs` are wiring and constant output, and are not part of this model.
- The interfaces `IEmployeeRepository`, `IEmployeeService` and `IReportService` carry signatures only. `IEmployeeService` is the `EmployeeServiceApi` pair of operations.
- EmployeeServiceApi: both operations are total and return a string or a decimal. An implementation that throws, or that returns a null code (which would reach `UpdateEmployeeCode(null)`), cannot be expressed. The real EmployeeService catches every failure, so the shipped wiring is covered.
- `async`/`await` is modelled as sequential calls. The code awaits each call before the next.
- Strings.ToUpperInvariant: upper-cases ASCII letters only. Non-ASCII case mapping is not modelled.
- Strings.ToLower: lower-cases ASCII letters only. It is used only to compare with "true", which is all ASCII.
- Decimal.Round2: uses exact reals. The 28-digit precision and the overflow of C# `decimal` are not modelled.
- The `StringBuilder` is modelled as the list of lines appended to it, and `ToString()` as their join with the newline after each line. Its character buffer is not modelled.
- ReportService.AppendEmployeeLines: does not restate, for the whole department, the state each employee object ends in. AppendEmployeeLine and EnrichEmployee state it for each employee. The objects are discarded after the department, so nothing outside the loop observes them.
- ReportService.GenerateReportContent: `DateTime(year, month, 1)` is modelled by its range check only (year 1..9999, month 1..12). The check throws ArgumentOutOfRangeException before anything else.
- ReportApiTests.GetReportForJanuary2017: assumes the test host has mock data enabled. The test's configuration file is not part of this model.
- Mock employees are created by `CreateEmployees` from the requested department's mock rows, one `Employee` per row. The source's dictionary literal creates all 11 mock employees on every call. Only the requested department's objects are created here, because the others are never observed.

## Findings

| source | as written | input that shows it | evidently intended | confidence | as-written member | corrected member |
|---|---|---|---|---|---|---|
| ReportService/ReportService/Application/Services/ReportService.cs:72-76 | `CalculateSalaryAsync(employee)` is called before `employee.UpdateEmployeeCode(employeeCode)`. The employee's code is still "" (Employee.cs:24), so the real EmployeeService returns 0 without asking the salary service (EmployeeService.cs:28-32). | any employee, with services that answer "2500" to every request: the line shows 0, where the salary service's answer is 2500 | store the code first, then ask for the salary of the employee with its code | not executed | ReportService.AsWrittenSalariesAreZero, ReportService.SalaryOrderCounterexample | ReportService.EnrichEmployeeCodeFirst, ReportService.CodeFirstUsesSalaryService |

The report builder (`GenerateReportContent`) keeps the order as written, so
that it describes what the service produces. The corrected step is modelled
and proved on its own.
