/**
 * ReportService: builds the payroll report for one month. It walks the
 * departments in the order the repository gives them and, inside each,
 * the employees in order; for each employee it asks the employee service
 * for a code and a salary, writes both onto the employee, and appends one
 * line; it keeps a department total and a company total and ends with one
 * company-total line.
 *
 * The imperative builder (GenerateReportContent) is proved equal to a
 * specification in two steps: Aggregate collects what the report says,
 * Render lays it out as lines.
 */
module ReportService {
  import opened Wrappers
  import opened Exceptions
  import opened Strings
  import opened Decimal
  import opened Entities
  import opened EmployeeService
  import opened EmployeeRepository

  newtype Byte = b: int | 0 <= b < 256

  /** Culture- and platform-bound library behaviour, as inputs: the month
      name of `DateTime.ToString("MMMM")`, the currency format "C",
      `Environment.NewLine` and `Encoding.UTF8.GetBytes`. */
  datatype Platform = Platform(
    monthName: int -> string,
    currency: real -> string,
    newLine: string,
    utf8: string -> seq<Byte>)

  /** `DateTime.Now`, which is an input of the file name. */
  datatype DateTime = DateTime(year: nat, month: nat, day: nat, hour: nat, minute: nat, second: nat)

  /** The download `GenerateReportAsync` returns. */
  datatype FileContentResult = FileContentResult(fileContents: seq<Byte>, contentType: string, fileDownloadName: string)

  /** One employee line: the name and the salary the service returned. */
  datatype Entry = Entry(name: string, salary: real)

  /** One department section. */
  datatype Section = Section(department: string, entries: seq<Entry>)

  /** What a report says, before it is laid out as text. */
  datatype Report = Report(year: int, month: int, sections: seq<Section>)

  // ---------------------------------------------------------------------
  // Aggregation: what goes into the report
  // ---------------------------------------------------------------------

  /** `new DateTime(year, month, 1)` succeeds exactly for these. */
  predicate IsRepresentableMonth(year: int, month: int) {
    1 <= year <= 9999 && 1 <= month <= 12
  }

  /** The salary the builder obtains for a listed employee. The builder
      asks for it before it applies the code, so the service sees the
      employee exactly as the repository created it. */
  function CalculatedSalary(row: EmployeeRow, service: EmployeeServiceApi): real {
    service.calculateSalary(Some(RowState(row)))
  }

  /** One employee's line, or the exception `UpdateSalary` throws when the
      service returned a negative salary. */
  function EmployeeEntry(row: EmployeeRow, service: EmployeeServiceApi): Result<Entry, Exception> {
    var salary := CalculatedSalary(row, service);
    if salary < 0.0 then Failure(ArgumentException(NegativeSalaryMessage))
    else Success(Entry(row.name, salary))
  }

  /** The lines of the listed employees, in order; the first exception stops it. */
  function Entries(rows: seq<EmployeeRow>, service: EmployeeServiceApi): Result<seq<Entry>, Exception> {
    if rows == [] then Success([])
    else
      match Entries(rows[..|rows| - 1], service)
      case Failure(e) => Failure(e)
      case Success(entries) =>
        match EmployeeEntry(rows[|rows| - 1], service)
        case Failure(e) => Failure(e)
        case Success(entry) => Success(entries + [entry])
  }

  /** One department: its employee listing, then its employees' lines. */
  function DepartmentSection(repository: Repository, department: string, service: EmployeeServiceApi): Result<Section, Exception> {
    match EmployeeRows(repository, department)
    case Failure(e) => Failure(e)
    case Success(rows) =>
      match Entries(rows, service)
      case Failure(e) => Failure(e)
      case Success(entries) => Success(Section(department, entries))
  }

  /** The departments' sections, in order; the first exception stops it. */
  function Sections(repository: Repository, departments: seq<string>, service: EmployeeServiceApi): Result<seq<Section>, Exception> {
    if departments == [] then Success([])
    else
      match Sections(repository, departments[..|departments| - 1], service)
      case Failure(e) => Failure(e)
      case Success(sections) =>
        match DepartmentSection(repository, departments[|departments| - 1], service)
        case Failure(e) => Failure(e)
        case Success(section) => Success(sections + [section])
  }

  /** Everything the report for year/month says, or the exception that
      escapes while it is being put together. */
  function Aggregate(year: int, month: int, repository: Repository, service: EmployeeServiceApi): Result<Report, Exception> {
    if !IsRepresentableMonth(year, month) then Failure(ArgumentOutOfRangeException)
    else
      match GetActiveDepartments(repository)
      case Failure(e) => Failure(e)
      case Success(departments) =>
        match Sections(repository, departments, service)
        case Failure(e) => Failure(e)
        case Success(sections) => Success(Report(year, month, sections))
  }

  function Salaries(entries: seq<Entry>): seq<real> {
    if entries == [] then [] else Salaries(entries[..|entries| - 1]) + [entries[|entries| - 1].salary]
  }

  function SectionTotal(section: Section): real {
    Sum(Salaries(section.entries))
  }

  function SectionTotals(sections: seq<Section>): seq<real> {
    if sections == [] then [] else SectionTotals(sections[..|sections| - 1]) + [SectionTotal(sections[|sections| - 1])]
  }

  function CompanyTotal(report: Report): real {
    Sum(SectionTotals(report.sections))
  }

  // ---------------------------------------------------------------------
  // Rendering: how the report is laid out
  // ---------------------------------------------------------------------

  const CompanyTotalPrefix := "### Company Total"

  function PeriodLine(year: int, month: int, platform: Platform): string {
    platform.monthName(month) + " " + IntToString(year)
  }

  function DepartmentHeaderLine(department: string): string {
    "### " + department
  }

  function EntryLine(entry: Entry, platform: Platform): string {
    "| " + entry.name + " | " + platform.currency(entry.salary) + " |"
  }

  function DepartmentTotalLine(total: real, platform: Platform): string {
    "**Department Total: " + platform.currency(total) + "**"
  }

  function CompanyTotalLine(total: real, platform: Platform): string {
    CompanyTotalPrefix + ": **" + platform.currency(total) + "**"
  }

  function EntryLines(entries: seq<Entry>, platform: Platform): seq<string> {
    if entries == [] then [] else EntryLines(entries[..|entries| - 1], platform) + [EntryLine(entries[|entries| - 1], platform)]
  }

  function SectionLines(section: Section, platform: Platform): seq<string> {
    [DepartmentHeaderLine(section.department), ""]
      + EntryLines(section.entries, platform)
      + ["", DepartmentTotalLine(SectionTotal(section), platform), ""]
  }

  function SectionsLines(sections: seq<Section>, platform: Platform): seq<string> {
    if sections == [] then [] else SectionsLines(sections[..|sections| - 1], platform) + SectionLines(sections[|sections| - 1], platform)
  }

  /** The report's lines: period, blank, the sections, the company total. */
  function Render(report: Report, platform: Platform): seq<string> {
    [PeriodLine(report.year, report.month, platform), ""]
      + SectionsLines(report.sections, platform)
      + [CompanyTotalLine(CompanyTotal(report), platform)]
  }

  /** The text GenerateReportContentAsync returns, or the exception it throws. */
  function ReportText(year: int, month: int, repository: Repository, service: EmployeeServiceApi, platform: Platform): Result<string, Exception> {
    match Aggregate(year, month, repository, service)
    case Failure(e) => Failure(e)
    case Success(report) => Success(Join(Render(report, platform), platform.newLine))
  }

  // ---------------------------------------------------------------------
  // The downloaded file
  // ---------------------------------------------------------------------

  /** The fields of a `DateTime` value are in range. */
  predicate IsValidDateTime(t: DateTime) {
    && 1 <= t.year <= 9999 && 1 <= t.month <= 12 && 1 <= t.day <= 31
    && t.hour < 24 && t.minute < 60 && t.second < 60
  }

  /** `{DateTime.Now:yyyyMMdd_HHmmss}`: the date, an underscore, the time;
      nothing but digits around that one underscore. */
  function Timestamp(t: DateTime): (r: string)
    ensures |DatePart(t)| < |r| && r[|DatePart(t)|] == '_'
    ensures forall i :: 0 <= i < |r| && i != |DatePart(t)| ==> IsDigit(r[i])
  {
    var date, time := DatePart(t), TimePart(t);
    DigitsAroundUnderscore(date, time);
    date + "_" + time
  }

  /** `yyyyMMdd`. */
  function DatePart(t: DateTime): (r: string)
    ensures AllDigits(r)
  {
    var year, month, day := PadNat(t.year, 4), PadNat(t.month, 2), PadNat(t.day, 2);
    DigitsConcat(year, month);
    DigitsConcat(year + month, day);
    year + month + day
  }

  /** `HHmmss`. */
  function TimePart(t: DateTime): (r: string)
    ensures AllDigits(r)
  {
    var hour, minute, second := PadNat(t.hour, 2), PadNat(t.minute, 2), PadNat(t.second, 2);
    DigitsConcat(hour, minute);
    DigitsConcat(hour + minute, second);
    hour + minute + second
  }

  lemma DigitsConcat(a: string, b: string)
    requires AllDigits(a) && AllDigits(b)
    ensures AllDigits(a + b)
  {
    assert forall i :: 0 <= i < |a + b| ==> (a + b)[i] == if i < |a| then a[i] else b[i - |a|];
  }

  lemma DigitsAroundUnderscore(a: string, b: string)
    requires AllDigits(a) && AllDigits(b)
    ensures |a| < |a + "_" + b| && (a + "_" + b)[|a|] == '_'
    ensures forall i :: 0 <= i < |a + "_" + b| && i != |a| ==> IsDigit((a + "_" + b)[i])
  {
    var r := a + "_" + b;
    assert forall i :: 0 <= i < |r| ==> r[i] == if i < |a| then a[i] else if i == |a| then '_' else b[i - |a| - 1];
  }

  /** A timestamp is fifteen characters with `_` at position 8; the date
      and the time have fixed-width fields, each reading back as its
      component. */
  lemma TimestampFields(t: DateTime)
    requires IsValidDateTime(t)
    ensures |DatePart(t)| == 8 && |TimePart(t)| == 6
    ensures |Timestamp(t)| == 15 && Timestamp(t)[8] == '_'
    ensures var date := DatePart(t);
      && ParseNat(date[..4]) == t.year && ParseNat(date[4..6]) == t.month && ParseNat(date[6..]) == t.day
    ensures var time := TimePart(t);
      && ParseNat(time[..2]) == t.hour && ParseNat(time[2..4]) == t.minute && ParseNat(time[4..]) == t.second
  {
    assert Pow10(4) == 10000 && Pow10(2) == 100;
    PadNatWidth(t.year, 4);
    PadNatWidth(t.month, 2);
    PadNatWidth(t.day, 2);
    PadNatWidth(t.hour, 2);
    PadNatWidth(t.minute, 2);
    PadNatWidth(t.second, 2);
    Fields3(PadNat(t.year, 4), PadNat(t.month, 2), PadNat(t.day, 2));
    Fields3(PadNat(t.hour, 2), PadNat(t.minute, 2), PadNat(t.second, 2));
    Fields3(DatePart(t), "_", TimePart(t));
    PadNatRoundTrip(t.year, 4);
    PadNatRoundTrip(t.month, 2);
    PadNatRoundTrip(t.day, 2);
    PadNatRoundTrip(t.hour, 2);
    PadNatRoundTrip(t.minute, 2);
    PadNatRoundTrip(t.second, 2);
  }

  /** The three parts of `a + b + c` are where their lengths put them. */
  lemma Fields3<T>(a: seq<T>, b: seq<T>, c: seq<T>)
    ensures (a + b + c)[..|a|] == a
    ensures (a + b + c)[|a|..|a| + |b|] == b
    ensures (a + b + c)[|a| + |b|..] == c
  {
  }

  /** Two moments a second or more apart get different timestamps. */
  lemma TimestampInjective(t: DateTime, u: DateTime)
    requires IsValidDateTime(t) && IsValidDateTime(u)
    requires Timestamp(t) == Timestamp(u)
    ensures t == u
  {
    TimestampFields(t);
    TimestampFields(u);
    SplitEnd(DatePart(t) + "_", TimePart(t), DatePart(u) + "_", TimePart(u));
    SplitEnd(DatePart(t), "_", DatePart(u), "_");
  }

  /** `report_{year}_{month}_{timestamp}.txt`. */
  function FileName(year: int, month: int, now: DateTime): (r: string)
    ensures |r| > 11 && r[..7] == "report_" && r[|r| - 4..] == ".txt"
  {
    var stem := "report_" + IntToString(year) + "_" + IntToString(month) + "_" + Timestamp(now);
    Framed("report_", IntToString(year) + "_" + IntToString(month) + "_" + Timestamp(now), ".txt");
    AppendAssociative("report_", IntToString(year) + "_" + IntToString(month) + "_", Timestamp(now));
    AppendAssociative("report_", IntToString(year) + "_" + IntToString(month), "_");
    AppendAssociative("report_", IntToString(year) + "_", IntToString(month));
    AppendAssociative("report_", IntToString(year), "_");
    stem + ".txt"
  }

  /** The two ends of `prefix + middle + suffix` are `prefix` and `suffix`. */
  lemma Framed<T>(prefix: seq<T>, middle: seq<T>, suffix: seq<T>)
    ensures (prefix + middle + suffix)[..|prefix|] == prefix
    ensures (prefix + middle + suffix)[|prefix + middle|..] == suffix
  {
  }

  /** The file name identifies the report: the period and the moment of
      generation can be read back from it. */
  lemma FileNameInjective(year: int, month: int, now: DateTime, year': int, month': int, now': DateTime)
    requires IsValidDateTime(now) && IsValidDateTime(now')
    requires FileName(year, month, now) == FileName(year', month', now')
    ensures year == year' && month == month' && now == now'
  {
    var a, b, ts := IntToString(year), IntToString(month), Timestamp(now);
    var a', b', ts' := IntToString(year'), IntToString(month'), Timestamp(now');
    TimestampFields(now);
    TimestampFields(now');
    SplitEnd("report_" + a + "_" + b + "_" + ts, ".txt", "report_" + a' + "_" + b' + "_" + ts', ".txt");
    SplitEnd("report_" + a + "_" + b + "_", ts, "report_" + a' + "_" + b' + "_", ts');
    TimestampInjective(now, now');
    SplitEnd("report_" + a + "_" + b, "_", "report_" + a' + "_" + b', "_");
    Regroup("report_", a, "_", b);
    Regroup("report_", a', "_", b');
    SplitStart("report_", a + "_" + b, a' + "_" + b');
    IntToStringChars(year);
    IntToStringChars(year');
    SplitAtUnderscore(a, b, a', b');
    IntToStringInjective(year, year');
    IntToStringInjective(month, month');
  }

  /** Equal sequences with equally long tails have equal heads and tails. */
  lemma SplitEnd<T>(x: seq<T>, t: seq<T>, x': seq<T>, t': seq<T>)
    requires x + t == x' + t' && |t| == |t'|
    ensures x == x' && t == t'
  {
    assert x == (x + t)[..|x|];
    assert x' == (x' + t')[..|x'|];
    assert t == (x + t)[|x|..];
    assert t' == (x' + t')[|x'|..];
  }

  lemma Regroup<T>(p: seq<T>, x: seq<T>, u: seq<T>, y: seq<T>)
    ensures p + x + u + y == p + (x + u + y)
  {
  }

  /** A common head can be dropped. */
  lemma SplitStart<T>(p: seq<T>, x: seq<T>, x': seq<T>)
    requires p + x == p + x'
    ensures x == x'
  {
    assert x == (p + x)[|p|..];
    assert x' == (p + x')[|p|..];
  }

  /** Splitting at the first `_` recovers both parts when the first has none. */
  lemma SplitAtUnderscore(a: string, b: string, a': string, b': string)
    requires forall i :: 0 <= i < |a| ==> a[i] != '_'
    requires forall i :: 0 <= i < |a'| ==> a'[i] != '_'
    requires a + "_" + b == a' + "_" + b'
    ensures a == a' && b == b'
  {
    var s := a + "_" + b;
    FirstUnderscore(a, b);
    FirstUnderscore(a', b');
    assert a == s[..|a|] == a';
    assert b == s[|a| + 1..] == b';
  }

  /** In `a + "_" + b`, with no `_` in `a`, the first `_` is at `|a|`. */
  lemma FirstUnderscore(a: string, b: string)
    requires forall i :: 0 <= i < |a| ==> a[i] != '_'
    ensures (a + "_" + b)[|a|] == '_'
    ensures forall i :: 0 <= i < |a| ==> (a + "_" + b)[i] != '_'
  {
  }

  /** What `GenerateReportAsync` returns: the report text as UTF-8, typed
      text/plain and named after the period and the moment, or the very
      exception the content builder threw, rethrown. */
  function ReportFile(year: int, month: int, repository: Repository, service: EmployeeServiceApi,
                      platform: Platform, now: DateTime): Result<FileContentResult, Exception>
  {
    match ReportText(year, month, repository, service, platform)
    case Failure(e) => Failure(e)
    case Success(text) => Success(FileContentResult(platform.utf8(text), "text/plain", FileName(year, month, now)))
  }

  /** The file holds the encoded report and its name starts with the period;
      a failure is the builder's exception unchanged, and no fallback file
      is produced. */
  lemma ReportFileFacts(year: int, month: int, repository: Repository, service: EmployeeServiceApi,
                        platform: Platform, now: DateTime)
    ensures ReportFile(year, month, repository, service, platform, now).Failure? <==>
      ReportText(year, month, repository, service, platform).Failure?
    ensures ReportFile(year, month, repository, service, platform, now).Failure? ==>
      ReportFile(year, month, repository, service, platform, now).error == ReportText(year, month, repository, service, platform).error
    ensures ReportFile(year, month, repository, service, platform, now).Success? ==>
      var file := ReportFile(year, month, repository, service, platform, now).value;
      && file.fileContents == platform.utf8(ReportText(year, month, repository, service, platform).value)
      && file.contentType == "text/plain"
      && StartsWith(file.fileDownloadName, "report_" + IntToString(year) + "_" + IntToString(month) + "_")
  {
  }

  // ---------------------------------------------------------------------
  // The builder
  // ---------------------------------------------------------------------

  /** `System.Text.StringBuilder` as the report uses it: a buffer that only
      ever receives whole lines. It keeps the lines appended so far; its text
      is each of them followed by the line terminator it was created with. */
  class StringBuilder {
    const newLine: string
    var lines: seq<string>

    constructor (newLine: string)
      ensures this.newLine == newLine && lines == []
    {
      this.newLine := newLine;
      lines := [];
    }

    /** `AppendLine(line)`. */
    method AppendLine(line: string)
      modifies this
      ensures lines == old(lines) + [line]
    {
      lines := lines + [line];
    }

    /** `ToString()`. */
    function ToString(): string
      reads this
    {
      Join(lines, newLine)
    }
  }

  /** The state a listed employee is left in once the builder has applied
      the code and the salary the service returned for it. */
  function ProcessedState(row: EmployeeRow, service: EmployeeServiceApi): EmployeeState
    requires 0.0 <= CalculatedSalary(row, service)
  {
    var s := RowState(row);
    s.(employeeCode := NormalizeCode(Some(service.getEmployeeCode(Some(row.inn)))),
       salary := Round2(CalculatedSalary(row, service)))
  }

  /** `GenerateReportContentAsync`. */
  method GenerateReportContent(year: int, month: int, repository: Repository, service: EmployeeServiceApi, platform: Platform)
    returns (r: Result<string, Exception>)
    ensures r == ReportText(year, month, repository, service, platform)
  {
    if !IsRepresentableMonth(year, month) {
      return Failure(ArgumentOutOfRangeException);
    }
    var monthName := platform.monthName(month);
    var reportBuilder := new StringBuilder(platform.newLine);
    reportBuilder.AppendLine(monthName + " " + IntToString(year));
    reportBuilder.AppendLine("");
    ghost var head := [PeriodLine(year, month, platform), ""];

    var departments := GetActiveDepartments(repository);
    if departments.Failure? {
      return Failure(departments.error);
    }
    var totalCompanySalary := 0.0;
    ghost var sections: seq<Section> := [];

    for i := 0 to |departments.value|
      invariant Sections(repository, departments.value[..i], service) == Success(sections)
      invariant reportBuilder.newLine == platform.newLine
      invariant reportBuilder.lines == head + SectionsLines(sections, platform)
      invariant totalCompanySalary == Sum(SectionTotals(sections))
    {
      var departmentSalary, error := AppendDepartment(reportBuilder, repository, departments.value[i], service, platform);
      SectionsStep(repository, departments.value, i, service);
      if error.Some? {
        SectionsStopAtFailure(repository, departments.value, i + 1, service);
        return Failure(error.value);
      }
      ghost var section := DepartmentSection(repository, departments.value[i], service).value;
      SectionsAdvance(repository, departments.value, i, service, platform, head, sections, section);
      sections := sections + [section];
      totalCompanySalary := totalCompanySalary + departmentSalary;
    }

    assert departments.value[..|departments.value|] == departments.value;
    reportBuilder.AppendLine("### Company Total: **" + platform.currency(totalCompanySalary) + "**");
    ReportTextOfLines(year, month, repository, service, platform, departments.value, head, totalCompanySalary);
    return Success(reportBuilder.ToString());
  }

  /** The body of the outer loop of `GenerateReportContentAsync`: list the
      department's employees, append its header, one line per employee and
      its total. Returns the department total, or the exception the listing
      or `UpdateSalary` throws. */
  method AppendDepartment(reportBuilder: StringBuilder, repository: Repository, department: string,
                          service: EmployeeServiceApi, platform: Platform)
    returns (departmentSalary: real, error: Option<Exception>)
    modifies reportBuilder
    ensures DepartmentSection(repository, department, service).Failure? ==>
      error == Some(DepartmentSection(repository, department, service).error)
    ensures DepartmentSection(repository, department, service).Success? ==>
      var section := DepartmentSection(repository, department, service).value;
      && error.None?
      && reportBuilder.lines == old(reportBuilder.lines) + SectionLines(section, platform)
      && departmentSalary == SectionTotal(section)
  {
    departmentSalary := 0.0;
    var employees := GetEmployeesByDepartment(repository, department);
    if employees.Failure? {
      return departmentSalary, Some(employees.error);
    }
    ghost var rows := EmployeeRows(repository, department).value;

    ghost var before := reportBuilder.lines;
    reportBuilder.AppendLine("### " + department);
    reportBuilder.AppendLine("");
    departmentSalary, error := AppendEmployeeLines(reportBuilder, employees.value, rows, service, platform);
    if error.Some? {
      return;
    }
    reportBuilder.AppendLine("");
    reportBuilder.AppendLine("**Department Total: " + platform.currency(departmentSalary) + "**");
    reportBuilder.AppendLine("");
    SectionBlock(before, DepartmentHeaderLine(department), EntryLines(Entries(rows, service).value, platform),
                 DepartmentTotalLine(departmentSalary, platform));
  }

  /** `GenerateReportAsync`: builds the content, names the file after the
      period and the moment `now`, and encodes the text as UTF-8; any
      exception from the content builder is rethrown unchanged. */
  method GenerateReport(year: int, month: int, repository: Repository, service: EmployeeServiceApi,
                        platform: Platform, now: DateTime)
    returns (r: Result<FileContentResult, Exception>)
    ensures r == ReportFile(year, month, repository, service, platform, now)
  {
    var reportContent := GenerateReportContent(year, month, repository, service, platform);
    if reportContent.Failure? {
      return Failure(reportContent.error);
    }
    var fileName := "report_" + IntToString(year) + "_" + IntToString(month) + "_" + Timestamp(now) + ".txt";
    var fileBytes := platform.utf8(reportContent.value);
    return Success(FileContentResult(fileBytes, "text/plain", fileName));
  }

  /** The first four statements of the inner loop of
      `GenerateReportContentAsync`: ask the service for the employee's code
      and salary, then store the code and the salary on the employee. The
      salary is asked for before the code is stored. */
  method EnrichEmployee(employee: Employee, service: EmployeeServiceApi, ghost row: EmployeeRow)
    returns (salary: real, error: Option<Exception>)
    requires employee.Valid() && employee.State() == RowState(row)
    modifies employee
    ensures employee.Valid()
    ensures salary == CalculatedSalary(row, service)
    ensures salary < 0.0 ==> error == Some(ArgumentException(NegativeSalaryMessage))
    ensures 0.0 <= salary ==> error.None? && employee.State() == ProcessedState(row, service)
  {
    var employeeCode := service.getEmployeeCode(Some(employee.Inn));
    salary := service.calculateSalary(Some(employee.State()));
    employee.UpdateEmployeeCode(Some(employeeCode));
    error := employee.UpdateSalary(salary);
  }

  /** The inner loop of `GenerateReportContentAsync`: for each employee of
      one department, in order, fetch the code and the salary, apply both to
      the employee and append its line. Returns the department total, or the
      exception `UpdateSalary` throws for a negative salary. */
  method AppendEmployeeLines(reportBuilder: StringBuilder, employees: seq<Employee>, ghost rows: seq<EmployeeRow>,
                             service: EmployeeServiceApi, platform: Platform)
    returns (departmentSalary: real, error: Option<Exception>)
    requires |employees| == |rows|
    requires forall k :: 0 <= k < |employees| ==> employees[k].Valid() && employees[k].State() == RowState(rows[k])
    requires forall k :: 0 <= k < |employees| ==> employees[k] as object != reportBuilder
    requires forall k, l :: 0 <= k < l < |employees| ==> employees[k] != employees[l]
    modifies reportBuilder, employees
    ensures Entries(rows, service).Failure? ==> error == Some(Entries(rows, service).error)
    ensures Entries(rows, service).Success? ==>
      && error.None?
      && reportBuilder.lines == old(reportBuilder.lines) + EntryLines(Entries(rows, service).value, platform)
      && departmentSalary == Sum(Salaries(Entries(rows, service).value))
  {
    departmentSalary, error := 0.0, None;
    ghost var base := reportBuilder.lines;
    ghost var entries: seq<Entry> := [];
    for j := 0 to |employees|
      invariant Entries(rows[..j], service) == Success(entries) && error.None?
      invariant reportBuilder.lines == base + EntryLines(entries, platform)
      invariant departmentSalary == Sum(Salaries(entries))
      invariant forall k :: j <= k < |employees| ==>
        employees[k].Valid() && employees[k].State() == RowState(rows[k])
    {
      var salary;
      salary, error := AppendEmployeeLine(reportBuilder, employees[j], rows[j], service, platform);
      if error.Some? {
        EntriesStep(rows, j, service);
        EntriesStopAtFailure(rows, j + 1, service);
        return;
      }
      EntriesAdvance(rows, j, service, platform, base, entries);
      entries := entries + [Entry(rows[j].name, salary)];
      departmentSalary := departmentSalary + salary;
    }
    assert rows[..|rows|] == rows;
  }

  /** One pass of the inner loop's body: enrich the employee and, unless
      its salary was rejected, append its line. */
  method AppendEmployeeLine(reportBuilder: StringBuilder, employee: Employee, ghost row: EmployeeRow,
                            service: EmployeeServiceApi, platform: Platform)
    returns (salary: real, error: Option<Exception>)
    requires employee.Valid() && employee.State() == RowState(row)
    requires employee as object != reportBuilder
    modifies reportBuilder, employee
    ensures employee.Valid()
    ensures salary == CalculatedSalary(row, service)
    ensures salary < 0.0 ==> error == Some(ArgumentException(NegativeSalaryMessage))
    ensures 0.0 <= salary ==>
      && error.None? && employee.State() == ProcessedState(row, service)
      && reportBuilder.lines == old(reportBuilder.lines) + [EntryLine(Entry(row.name, salary), platform)]
  {
    salary, error := EnrichEmployee(employee, service, row);
    if error.Some? {
      return;
    }
    reportBuilder.AppendLine("| " + employee.Name + " | " + platform.currency(salary) + " |");
  }

  // ---------------------------------------------------------------------
  // How the specification grows, one employee or department at a time
  // ---------------------------------------------------------------------

  /** One more accepted employee: its line follows the lines so far, and
      its salary adds to the running total. */
  lemma EntriesAdvance(rows: seq<EmployeeRow>, j: nat, service: EmployeeServiceApi, platform: Platform,
                       base: seq<string>, entries: seq<Entry>)
    requires j < |rows| && Entries(rows[..j], service) == Success(entries)
    requires 0.0 <= CalculatedSalary(rows[j], service)
    ensures var entry := Entry(rows[j].name, CalculatedSalary(rows[j], service));
      && Entries(rows[..j + 1], service) == Success(entries + [entry])
      && base + EntryLines(entries, platform) + [EntryLine(entry, platform)] == base + EntryLines(entries + [entry], platform)
      && Sum(Salaries(entries)) + entry.salary == Sum(Salaries(entries + [entry]))
  {
    EntriesStep(rows, j, service);
    var entry := Entry(rows[j].name, CalculatedSalary(rows[j], service));
    EntryLinesAppend(entries, entry, platform);
    SumAppend(Salaries(entries), entry.salary);
    AppendAssociative(base, EntryLines(entries, platform), [EntryLine(entry, platform)]);
  }

  lemma EntriesStep(rows: seq<EmployeeRow>, j: nat, service: EmployeeServiceApi)
    requires j < |rows| && Entries(rows[..j], service).Success?
    ensures Entries(rows[..j + 1], service) ==
      match EmployeeEntry(rows[j], service)
      case Failure(e) => Failure(e)
      case Success(entry) => Success(Entries(rows[..j], service).value + [entry])
  {
    assert rows[..j + 1][..j] == rows[..j];
  }

  /** One more department: its block follows the blocks so far, and its
      total adds to the running company total. */
  lemma SectionsAdvance(repository: Repository, departments: seq<string>, i: nat, service: EmployeeServiceApi,
                        platform: Platform, head: seq<string>, done: seq<Section>, section: Section)
    requires i < |departments| && Sections(repository, departments[..i], service) == Success(done)
    requires DepartmentSection(repository, departments[i], service) == Success(section)
    ensures Sections(repository, departments[..i + 1], service) == Success(done + [section])
    ensures head + SectionsLines(done, platform) + SectionLines(section, platform)
         == head + SectionsLines(done + [section], platform)
    ensures Sum(SectionTotals(done)) + SectionTotal(section) == Sum(SectionTotals(done + [section]))
  {
    SectionsStep(repository, departments, i, service);
    SectionsLinesAppend(done, section, platform);
    SumAppend(SectionTotals(done), SectionTotal(section));
    AppendAssociative(head, SectionsLines(done, platform), SectionLines(section, platform));
  }

  lemma SectionsStep(repository: Repository, departments: seq<string>, i: nat, service: EmployeeServiceApi)
    requires i < |departments| && Sections(repository, departments[..i], service).Success?
    ensures Sections(repository, departments[..i + 1], service) ==
      match DepartmentSection(repository, departments[i], service)
      case Failure(e) => Failure(e)
      case Success(section) => Success(Sections(repository, departments[..i], service).value + [section])
  {
    assert departments[..i + 1][..i] == departments[..i];
  }

  /** Once an employee has failed, the whole department fails with it. */
  lemma {:induction false} EntriesStopAtFailure(rows: seq<EmployeeRow>, j: nat, service: EmployeeServiceApi)
    requires j <= |rows| && Entries(rows[..j], service).Failure?
    ensures Entries(rows, service) == Entries(rows[..j], service)
  {
    if j < |rows| {
      var n := |rows|;
      assert rows[..n - 1][..j] == rows[..j];
      EntriesStopAtFailure(rows[..n - 1], j, service);
    } else {
      assert rows[..j] == rows;
    }
  }

  /** Once a department has failed, the whole report fails with it. */
  lemma {:induction false} SectionsStopAtFailure(repository: Repository, departments: seq<string>, i: nat, service: EmployeeServiceApi)
    requires i <= |departments| && Sections(repository, departments[..i], service).Failure?
    ensures Sections(repository, departments, service) == Sections(repository, departments[..i], service)
  {
    if i < |departments| {
      var n := |departments|;
      assert departments[..n - 1][..i] == departments[..i];
      SectionsStopAtFailure(repository, departments[..n - 1], i, service);
    } else {
      assert departments[..i] == departments;
    }
  }

  lemma AppendAssociative<T>(a: seq<T>, b: seq<T>, c: seq<T>)
    ensures a + b + c == a + (b + c)
  {
  }

  /** Once every department is in, the report text is the builder's lines
      followed by the company total. */
  lemma ReportTextOfLines(year: int, month: int, repository: Repository, service: EmployeeServiceApi, platform: Platform,
                          departments: seq<string>, head: seq<string>, total: real)
    requires IsRepresentableMonth(year, month)
    requires GetActiveDepartments(repository) == Success(departments)
    requires Sections(repository, departments, service).Success?
    requires head == [PeriodLine(year, month, platform), ""]
    requires total == Sum(SectionTotals(Sections(repository, departments, service).value))
    ensures ReportText(year, month, repository, service, platform) ==
      Success(Join(head + SectionsLines(Sections(repository, departments, service).value, platform)
                   + ["### Company Total: **" + platform.currency(total) + "**"], platform.newLine))
  {
    var report := Report(year, month, Sections(repository, departments, service).value);
    assert Aggregate(year, month, repository, service) == Success(report);
    assert CompanyTotalPrefix + ": **" == "### Company Total: **";
    assert CompanyTotalLine(total, platform) == "### Company Total: **" + platform.currency(total) + "**";
    assert Render(report, platform) == head + SectionsLines(report.sections, platform) + [CompanyTotalLine(total, platform)];
  }

  /** The lines one department adds, in the order the builder appends them. */
  lemma SectionBlock(before: seq<string>, header: string, entryLines: seq<string>, total: string)
    ensures before + [header] + [""] + entryLines + [""] + [total] + [""]
         == before + ([header, ""] + entryLines + ["", total, ""])
  {
    assert before + [header] + [""] == before + [header, ""];
    assert before + [header, ""] + entryLines + [""] + [total] + [""]
        == before + [header, ""] + entryLines + ["", total, ""];
  }

  lemma EntryLinesAppend(entries: seq<Entry>, entry: Entry, platform: Platform)
    ensures EntryLines(entries + [entry], platform) == EntryLines(entries, platform) + [EntryLine(entry, platform)]
    ensures Salaries(entries + [entry]) == Salaries(entries) + [entry.salary]
  {
    assert (entries + [entry])[..|entries|] == entries;
  }

  lemma SectionsLinesAppend(sections: seq<Section>, section: Section, platform: Platform)
    ensures SectionsLines(sections + [section], platform) == SectionsLines(sections, platform) + SectionLines(section, platform)
    ensures SectionTotals(sections + [section]) == SectionTotals(sections) + [SectionTotal(section)]
  {
    assert (sections + [section])[..|sections|] == sections;
  }

  // ---------------------------------------------------------------------
  // What the report says: order, content, totals
  // ---------------------------------------------------------------------

  /** A department's lines exist exactly when the service returned no
      negative salary for any of its employees; they stand for the listed
      employees one to one and in order, each with its name and the salary
      the service returned. The only error is UpdateSalary's. */
  lemma {:induction false} EntriesOrder(rows: seq<EmployeeRow>, service: EmployeeServiceApi)
    ensures Entries(rows, service).Success? <==>
      forall k :: 0 <= k < |rows| ==> 0.0 <= CalculatedSalary(rows[k], service)
    ensures Entries(rows, service).Success? ==>
      && |Entries(rows, service).value| == |rows|
      && forall k :: 0 <= k < |rows| ==>
           Entries(rows, service).value[k] == Entry(rows[k].name, CalculatedSalary(rows[k], service))
    ensures Entries(rows, service).Failure? ==> Entries(rows, service).error == ArgumentException(NegativeSalaryMessage)
  {
    if rows != [] {
      var n := |rows|;
      var front := rows[..n - 1];
      EntriesOrder(front, service);
      assert forall k :: 0 <= k < n - 1 ==> front[k] == rows[k];
      if Entries(front, service).Failure? {
        var k :| 0 <= k < n - 1 && CalculatedSalary(front[k], service) < 0.0;
        assert CalculatedSalary(rows[k], service) < 0.0;
      }
    }
  }

  /** The sections exist exactly when every department's section does; they
      stand for the departments one to one and in the order the repository
      listed them. Otherwise the error is that of the first department that
      fails, and every department before it succeeded. */
  lemma SectionsOrder(repository: Repository, departments: seq<string>, service: EmployeeServiceApi)
    ensures Sections(repository, departments, service).Success? <==>
      forall i :: 0 <= i < |departments| ==> DepartmentSection(repository, departments[i], service).Success?
    ensures Sections(repository, departments, service).Success? ==>
      && |Sections(repository, departments, service).value| == |departments|
      && forall i :: 0 <= i < |departments| ==>
           DepartmentSection(repository, departments[i], service) == Success(Sections(repository, departments, service).value[i])
    ensures Sections(repository, departments, service).Failure? ==>
      exists i :: 0 <= i < |departments|
        && (forall j :: 0 <= j < i ==> DepartmentSection(repository, departments[j], service).Success?)
        && DepartmentSection(repository, departments[i], service) == Failure(Sections(repository, departments, service).error)
  {
    if Sections(repository, departments, service).Success? {
      SectionsAt(repository, departments, service);
    } else {
      var i := SectionsFirstFailure(repository, departments, service);
    }
  }

  /** When the sections exist, section `i` is department `i`'s. */
  lemma {:induction false} SectionsAt(repository: Repository, departments: seq<string>, service: EmployeeServiceApi)
    requires Sections(repository, departments, service).Success?
    ensures |Sections(repository, departments, service).value| == |departments|
    ensures forall i :: 0 <= i < |departments| ==>
      DepartmentSection(repository, departments[i], service) == Success(Sections(repository, departments, service).value[i])
  {
    if departments != [] {
      var n := |departments|;
      var front := departments[..n - 1];
      var done := Sections(repository, front, service);
      var last := DepartmentSection(repository, departments[n - 1], service);
      SectionsAt(repository, front, service);
      var all := done.value + [last.value];
      assert Sections(repository, departments, service) == Success(all);
      assert forall i :: 0 <= i < n - 1 ==> front[i] == departments[i] && all[i] == done.value[i];
    }
  }

  /** When the sections fail, department `i` fails with that error and
      every department before it succeeds. */
  lemma {:induction false} SectionsFirstFailure(repository: Repository, departments: seq<string>, service: EmployeeServiceApi)
    returns (i: nat)
    requires Sections(repository, departments, service).Failure?
    ensures i < |departments|
    ensures forall j :: 0 <= j < i ==> DepartmentSection(repository, departments[j], service).Success?
    ensures DepartmentSection(repository, departments[i], service) == Failure(Sections(repository, departments, service).error)
  {
    var n := |departments|;
    var front := departments[..n - 1];
    var done := Sections(repository, front, service);
    assert forall j :: 0 <= j < n - 1 ==> front[j] == departments[j];
    if done.Failure? {
      i := SectionsFirstFailure(repository, front, service);
    } else {
      SectionsAt(repository, front, service);
      i := n - 1;
    }
  }

  /** A department's section carries its name and one line per listed
      employee; it fails with the data source's exception or with the
      negative-salary one. */
  lemma DepartmentSectionContent(repository: Repository, department: string, service: EmployeeServiceApi)
    ensures DepartmentSection(repository, department, service).Success? <==>
      && EmployeeRows(repository, department).Success?
      && forall k :: 0 <= k < |EmployeeRows(repository, department).value| ==>
           0.0 <= CalculatedSalary(EmployeeRows(repository, department).value[k], service)
    ensures DepartmentSection(repository, department, service).Success? ==>
      var rows := EmployeeRows(repository, department).value;
      var section := DepartmentSection(repository, department, service).value;
      && section.department == department
      && |section.entries| == |rows|
      && forall k :: 0 <= k < |rows| ==> section.entries[k] == Entry(rows[k].name, CalculatedSalary(rows[k], service))
  {
    if EmployeeRows(repository, department).Success? {
      EntriesOrder(EmployeeRows(repository, department).value, service);
    }
  }

  /** The salaries a department's lines show, in order. */
  lemma {:induction false} SalariesAt(entries: seq<Entry>)
    ensures |Salaries(entries)| == |entries|
    ensures forall k :: 0 <= k < |entries| ==> Salaries(entries)[k] == entries[k].salary
  {
    if entries != [] {
      SalariesAt(entries[..|entries| - 1]);
    }
  }

  /** The salaries the service returned for the listed employees, in order. */
  function ReturnedSalaries(rows: seq<EmployeeRow>, service: EmployeeServiceApi): (r: seq<real>)
    ensures |r| == |rows|
    ensures forall k :: 0 <= k < |rows| ==> r[k] == CalculatedSalary(rows[k], service)
  {
    seq(|rows|, k requires 0 <= k < |rows| => CalculatedSalary(rows[k], service))
  }

  /** A department total is the sum of the salaries the service returned
      for its employees, as returned: not the rounded values UpdateSalary
      stores on the employees. */
  lemma DepartmentTotalIsReturnedSum(rows: seq<EmployeeRow>, department: string, service: EmployeeServiceApi)
    requires Entries(rows, service).Success?
    ensures SectionTotal(Section(department, Entries(rows, service).value)) == Sum(ReturnedSalaries(rows, service))
  {
    EntriesOrder(rows, service);
    SalariesAt(Entries(rows, service).value);
    assert Salaries(Entries(rows, service).value) == ReturnedSalaries(rows, service);
  }

  /** Two employees for whom the service returns half a cent each: the
      department total shows one cent, while the salaries stored on the
      employees (rounded to even) are both zero. */
  lemma DepartmentTotalIsNotRounded()
    ensures var service := EmployeeServiceApi(_ => 0.005, _ => DefaultCode);
      var rows := [EmployeeRow("A", "1", "D"), EmployeeRow("B", "2", "D")];
      && Entries(rows, service).Success?
      && SectionTotal(Section("D", Entries(rows, service).value)) == 0.01
      && Round2(0.005) + Round2(0.005) == 0.0
  {
    var service := EmployeeServiceApi(_ => 0.005, _ => DefaultCode);
    var rows := [EmployeeRow("A", "1", "D"), EmployeeRow("B", "2", "D")];
    DepartmentTotalIsReturnedSum(rows, "D", service);
    var r := ReturnedSalaries(rows, service);
    assert r == [0.005, 0.005];
    assert r[..1] == [0.005];
    assert [0.005][..0] == [];
    assert RoundedCents(0.005) == 0;
  }

  /** Every employee line's salary, section by section, in report order. */
  function AllSalaries(sections: seq<Section>): seq<real> {
    if sections == [] then [] else AllSalaries(sections[..|sections| - 1]) + Salaries(sections[|sections| - 1].entries)
  }

  /** The company total is the sum of the department totals, and therefore
      the sum of every employee line in the report. */
  lemma {:induction false} CompanyTotalIsSumOfAllLines(report: Report)
    ensures CompanyTotal(report) == Sum(SectionTotals(report.sections))
    ensures CompanyTotal(report) == Sum(AllSalaries(report.sections))
  {
    SectionTotalsSum(report.sections);
  }

  lemma {:induction false} SectionTotalsSum(sections: seq<Section>)
    ensures Sum(SectionTotals(sections)) == Sum(AllSalaries(sections))
  {
    if sections != [] {
      var n := |sections|;
      SectionTotalsSum(sections[..n - 1]);
      SumAppend(SectionTotals(sections[..n - 1]), SectionTotal(sections[n - 1]));
      SumConcat(AllSalaries(sections[..n - 1]), Salaries(sections[n - 1].entries));
    }
  }

  // ---------------------------------------------------------------------
  // How the report is laid out
  // ---------------------------------------------------------------------

  /** One line per employee, in order. */
  lemma {:induction false} EntryLinesAt(entries: seq<Entry>, platform: Platform)
    ensures |EntryLines(entries, platform)| == |entries|
    ensures forall k :: 0 <= k < |entries| ==> EntryLines(entries, platform)[k] == EntryLine(entries[k], platform)
  {
    if entries != [] {
      EntryLinesAt(entries[..|entries| - 1], platform);
    }
  }

  /** Section `i`'s block comes right after the blocks of the sections
      before it. */
  lemma {:induction false} SectionsLinesPrefix(sections: seq<Section>, i: nat, platform: Platform)
    requires i < |sections|
    ensures SectionsLines(sections[..i], platform) + SectionLines(sections[i], platform) <= SectionsLines(sections, platform)
  {
    var n := |sections|;
    var front := SectionsLines(sections[..n - 1], platform);
    assert SectionsLines(sections, platform) == front + SectionLines(sections[n - 1], platform);
    if i == n - 1 {
      assert sections[..n - 1] == sections[..i];
    } else {
      SectionsLinesPrefix(sections[..n - 1], i, platform);
      assert sections[..n - 1][..i] == sections[..i];
      PrefixOfPrefix(SectionsLines(sections[..i], platform) + SectionLines(sections[i], platform),
                     front, SectionLines(sections[n - 1], platform));
    }
  }

  lemma PrefixOfPrefix<T>(a: seq<T>, b: seq<T>, c: seq<T>)
    requires a <= b
    ensures a <= b + c
  {
    assert (b + c)[..|a|] == b[..|a|];
  }

  /** The report opens with the period line and a blank line, ends with the
      company-total line, and in between holds each department's block (its
      header, a blank line, one line per employee, a blank line, its total
      and a blank line), in order, each right after the blocks before it. */
  lemma RenderLayout(report: Report, platform: Platform)
    ensures |Render(report, platform)| >= 3
    ensures Render(report, platform)[0] == PeriodLine(report.year, report.month, platform)
    ensures Render(report, platform)[1] == ""
    ensures Render(report, platform)[|Render(report, platform)| - 1] == CompanyTotalLine(CompanyTotal(report), platform)
    ensures forall i :: 0 <= i < |report.sections| ==>
      [PeriodLine(report.year, report.month, platform), ""]
        + SectionsLines(report.sections[..i], platform)
        + SectionLines(report.sections[i], platform)
      <= Render(report, platform)
  {
    forall i | 0 <= i < |report.sections|
      ensures [PeriodLine(report.year, report.month, platform), ""]
        + SectionsLines(report.sections[..i], platform)
        + SectionLines(report.sections[i], platform)
      <= Render(report, platform)
    {
      RenderSectionPrefix(report, platform, i);
    }
  }

  lemma RenderSectionPrefix(report: Report, platform: Platform, i: nat)
    requires i < |report.sections|
    ensures [PeriodLine(report.year, report.month, platform), ""]
        + SectionsLines(report.sections[..i], platform)
        + SectionLines(report.sections[i], platform)
      <= Render(report, platform)
  {
    SectionsLinesPrefix(report.sections, i, platform);
    PrefixExtend([PeriodLine(report.year, report.month, platform), ""],
                 SectionsLines(report.sections[..i], platform), SectionLines(report.sections[i], platform),
                 SectionsLines(report.sections, platform),
                 [CompanyTotalLine(CompanyTotal(report), platform)]);
  }

  /** A prefix of the middle part, after the same head, is a prefix of the
      whole. */
  lemma PrefixExtend<T>(head: seq<T>, front: seq<T>, block: seq<T>, all: seq<T>, tail: seq<T>)
    requires front + block <= all
    ensures head + front + block <= head + all + tail
  {
    assert head + front + block == head + (front + block);
    assert (head + all + tail)[..|head + front + block|] == head + (front + block);
  }

  predicate StartsWith(s: string, prefix: string) {
    |prefix| <= |s| && s[..|prefix|] == prefix
  }

  /** No line of a department's block starts like the company-total line,
      unless the department's own name starts with "Company Total". */
  lemma SectionLinesAreNotCompanyTotal(section: Section, platform: Platform)
    requires !StartsWith(section.department, "Company Total")
    ensures forall k :: 0 <= k < |SectionLines(section, platform)| ==>
      !StartsWith(SectionLines(section, platform)[k], CompanyTotalPrefix)
  {
    var lines := SectionLines(section, platform);
    EntryLinesAt(section.entries, platform);
    var header := DepartmentHeaderLine(section.department);
    if |CompanyTotalPrefix| <= |header| {
      assert header[..|CompanyTotalPrefix|][4..] == section.department[..13];
      assert CompanyTotalPrefix[4..] == "Company Total";
    }
    forall k | 0 <= k < |lines|
      ensures !StartsWith(lines[k], CompanyTotalPrefix)
    {
      var m := |section.entries|;
      if 2 <= k < 2 + m {
        assert lines[k] == EntryLine(section.entries[k - 2], platform);
        assert lines[k][0] == '|';
      } else if k == 3 + m {
        assert lines[k][0] == '*';
      }
    }
  }

  lemma {:induction false} SectionsLinesAreNotCompanyTotal(sections: seq<Section>, platform: Platform)
    requires forall i :: 0 <= i < |sections| ==> !StartsWith(sections[i].department, "Company Total")
    ensures forall k :: 0 <= k < |SectionsLines(sections, platform)| ==>
      !StartsWith(SectionsLines(sections, platform)[k], CompanyTotalPrefix)
  {
    if sections != [] {
      var n := |sections|;
      SectionsLinesAreNotCompanyTotal(sections[..n - 1], platform);
      SectionLinesAreNotCompanyTotal(sections[n - 1], platform);
    }
  }

  /** Exactly one line of the report, the last, starts with "### Company
      Total", as long as no department is itself named "Company Total..."
      and the month name does not start with "### Company Total". */
  lemma OnlyLastLineIsCompanyTotal(report: Report, platform: Platform)
    requires !StartsWith(PeriodLine(report.year, report.month, platform), CompanyTotalPrefix)
    requires forall i :: 0 <= i < |report.sections| ==> !StartsWith(report.sections[i].department, "Company Total")
    ensures StartsWith(Render(report, platform)[|Render(report, platform)| - 1], CompanyTotalPrefix)
    ensures forall k :: 0 <= k < |Render(report, platform)| - 1 ==> !StartsWith(Render(report, platform)[k], CompanyTotalPrefix)
  {
    SectionsLinesAreNotCompanyTotal(report.sections, platform);
    var body := SectionsLines(report.sections, platform);
    var last := CompanyTotalLine(CompanyTotal(report), platform);
    FramedAt(PeriodLine(report.year, report.month, platform), "", body, last);
    assert last[..|CompanyTotalPrefix|] == CompanyTotalPrefix;
  }

  /** Where the lines of `[a, b] + body + [c]` come from. */
  lemma FramedAt<T>(a: T, b: T, body: seq<T>, c: T)
    ensures |[a, b] + body + [c]| == |body| + 3
    ensures ([a, b] + body + [c])[0] == a && ([a, b] + body + [c])[1] == b
    ensures ([a, b] + body + [c])[|body| + 2] == c
    ensures forall k :: 2 <= k < |body| + 2 ==> ([a, b] + body + [c])[k] == body[k - 2]
  {
  }

  // ---------------------------------------------------------------------
  // Finding: the salary is asked for before the code is stored
  // ---------------------------------------------------------------------

  /** As written, the real EmployeeService is asked for each salary while
      the employee's code is still the empty string it was created with, so
      it answers 0 without asking the salary service: every employee line,
      every department total and the company total are 0, and a report
      never fails on a negative salary. */
  lemma AsWrittenSalariesAreZero(year: int, month: int, repository: Repository, ext: ExternalServices)
    requires Aggregate(year, month, repository, Service(ext)).Success?
    ensures var report := Aggregate(year, month, repository, Service(ext)).value;
      && (forall i, k :: 0 <= i < |report.sections| && 0 <= k < |report.sections[i].entries| ==>
            report.sections[i].entries[k].salary == 0.0)
      && (forall i :: 0 <= i < |report.sections| ==> SectionTotal(report.sections[i]) == 0.0)
      && CompanyTotal(report) == 0.0
  {
    var report := Aggregate(year, month, repository, Service(ext)).value;
    var departments := GetActiveDepartments(repository).value;
    SectionsOrder(repository, departments, Service(ext));
    forall i | 0 <= i < |report.sections|
      ensures forall k :: 0 <= k < |report.sections[i].entries| ==> report.sections[i].entries[k].salary == 0.0
      ensures SectionTotal(report.sections[i]) == 0.0
    {
      DepartmentSectionContent(repository, departments[i], Service(ext));
      var entries := report.sections[i].entries;
      SalariesAt(entries);
      SumOfZeros(Salaries(entries));
    }
    SalariesAtTotals(report.sections);
    SumOfZeros(SectionTotals(report.sections));
  }

  lemma {:induction false} SalariesAtTotals(sections: seq<Section>)
    ensures |SectionTotals(sections)| == |sections|
    ensures forall i :: 0 <= i < |sections| ==> SectionTotals(sections)[i] == SectionTotal(sections[i])
  {
    if sections != [] {
      SalariesAtTotals(sections[..|sections| - 1]);
    }
  }

  /** As written, a report built with the real EmployeeService fails only
      when the data source throws or the month is not a date. */
  lemma AsWrittenNeverRejectsSalary(repository: Repository, department: string, ext: ExternalServices)
    requires EmployeeRows(repository, department).Success?
    ensures DepartmentSection(repository, department, Service(ext)).Success?
  {
    DepartmentSectionContent(repository, department, Service(ext));
  }

  /** The code the corrected order stores before asking for the salary. */
  function StoredCode(row: EmployeeRow, service: EmployeeServiceApi): string {
    NormalizeCode(Some(service.getEmployeeCode(Some(row.inn))))
  }

  /** The salary obtained when the code is stored first, so that the
      service sees the employee with its code. */
  function CodeFirstSalary(row: EmployeeRow, service: EmployeeServiceApi): real {
    service.calculateSalary(Some(RowState(row).(employeeCode := StoredCode(row, service))))
  }

  /** The enrichment step in the evidently intended order: store the code,
      then ask for the salary of the employee as it now stands. */
  method EnrichEmployeeCodeFirst(employee: Employee, service: EmployeeServiceApi, ghost row: EmployeeRow)
    returns (salary: real, error: Option<Exception>)
    requires employee.Valid() && employee.State() == RowState(row)
    modifies employee
    ensures employee.Valid()
    ensures salary == CodeFirstSalary(row, service)
    ensures salary < 0.0 ==> error == Some(ArgumentException(NegativeSalaryMessage))
    ensures 0.0 <= salary ==>
      && error.None?
      && employee.State() == RowState(row).(employeeCode := StoredCode(row, service), salary := Round2(salary))
  {
    var employeeCode := service.getEmployeeCode(Some(employee.Inn));
    employee.UpdateEmployeeCode(Some(employeeCode));
    salary := service.calculateSalary(Some(employee.State()));
    error := employee.UpdateSalary(salary);
  }

  /** In the intended order the real EmployeeService does consult the salary
      service: for an employee with an inn whose HR lookup yields a
      non-blank code, the salary is the parsed answer for that inn (0 when
      the call fails or the answer does not parse). */
  lemma CodeFirstUsesSalaryService(row: EmployeeRow, ext: ExternalServices)
    requires row.inn != "" && StoredCode(row, Service(ext)) != ""
    ensures var outcome := ext.getString(LookupUrl(ext.salaryBaseUrl, row.inn));
      CodeFirstSalary(row, Service(ext)) ==
        if outcome.Responded? && outcome.body.Some? && ext.tryParseDecimal(outcome.body.value).Some?
        then ext.tryParseDecimal(outcome.body.value).value
        else 0.0
  {
  }

  /** Both orders on one employee: with services that answer "2500" to
      every request, the salary as written is 0 and in the intended order
      it is 2500. */
  lemma SalaryOrderCounterexample()
    ensures var ext := ExternalServices(Some("http://hr/"), Some("http://salary/"),
                                        _ => Responded(Some("2500")),
                                        s => if s == "2500" then Some(2500.0) else None);
      var row := EmployeeRow("Andrew Barnes", "123456789", "Finance Department");
      && CalculatedSalary(row, Service(ext)) == 0.0
      && CodeFirstSalary(row, Service(ext)) == 2500.0
  {
    var ext := ExternalServices(Some("http://hr/"), Some("http://salary/"),
                                _ => Responded(Some("2500")),
                                s => if s == "2500" then Some(2500.0) else None);
    var row := EmployeeRow("Andrew Barnes", "123456789", "Finance Department");
    TrimOfTrimmed("2500");
    assert GetEmployeeCode(Some(row.inn), ext) == "2500";
    ToUpperOfUpper("2500");
    assert StoredCode(row, Service(ext)) == "2500";
    CodeFirstUsesSalaryService(row, ext);
  }
}
