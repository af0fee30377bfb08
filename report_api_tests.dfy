/**
 * The end-to-end scenario of the API test: with mock data switched on, a
 * request for January 2017 is served as a file whose text names the
 * "Finance Department" and the "Company Total".
 */
module ReportApiTests {
  import opened Wrappers
  import opened Strings
  import opened EmployeeService
  import opened EmployeeRepository
  import opened ReportService
  import opened ReportController

  /** `GET api/report/2017/1` in mock mode, for any HR and salary service
      answers, any culture and any moment: the report is built, it
      contains "Finance Department" and "Company Total", and the endpoint
      serves it as the file. */
  lemma GetReportForJanuary2017(repository: Repository, ext: ExternalServices, platform: Platform, now: DateTime)
    requires ShouldUseMockData(repository.useMockData)
    ensures ReportText(2017, 1, repository, Service(ext), platform).Success?
    ensures Contains(ReportText(2017, 1, repository, Service(ext), platform).value, "Finance Department")
    ensures Contains(ReportText(2017, 1, repository, Service(ext), platform).value, "Company Total")
    ensures DownloadReport(2017, 1, repository, Service(ext), platform, now) ==
      File(FileContentResult(platform.utf8(ReportText(2017, 1, repository, Service(ext), platform).value),
                             "text/plain", FileName(2017, 1, now)))
  {
    var service := Service(ext);
    MockReportSections(repository, ext);
    var report := Aggregate(2017, 1, repository, service).value;
    var lines := Render(report, platform);
    var text := Join(lines, platform.newLine);
    RenderLayout(report, platform);
    assert [PeriodLine(2017, 1, platform), ""] + SectionsLines(report.sections[..0], platform)
      + SectionLines(report.sections[0], platform) <= lines;
    assert lines[2] == "### " + "Finance Department";
    JoinContainsLine(lines, 2, platform.newLine);
    FinanceHeaderNamesDepartment();
    ContainsTransitive(text, lines[2], "Finance Department");

    JoinContainsLine(lines, |lines| - 1, platform.newLine);
    CompanyTotalLineNamesIt(CompanyTotal(report), platform);
    ContainsTransitive(text, lines[|lines| - 1], "Company Total");
    DownloadReportOutcome(2017, 1, repository, service, platform, now);
  }

  /** In mock mode the report is built with the real service, whatever it
      answers, and its first section is the Finance Department's. */
  lemma MockReportSections(repository: Repository, ext: ExternalServices)
    requires ShouldUseMockData(repository.useMockData)
    ensures Aggregate(2017, 1, repository, Service(ext)).Success?
    ensures var report := Aggregate(2017, 1, repository, Service(ext)).value;
      |report.sections| == 3 && report.sections[0].department == "Finance Department"
  {
    var service := Service(ext);
    var departments := MockActiveDepartments();
    MockSectionsSucceed(repository, ext);
    SectionsAt(repository, departments, service);
    var sections := Sections(repository, departments, service).value;
    assert DepartmentSection(repository, departments[0], service) == Success(sections[0]);
    assert GetActiveDepartments(repository) == Success(departments);
    assert Aggregate(2017, 1, repository, service) == Success(Report(2017, 1, sections));
  }

  /** In mock mode every mock department's section is built, so the
      sections are. */
  lemma MockSectionsSucceed(repository: Repository, ext: ExternalServices)
    requires ShouldUseMockData(repository.useMockData)
    ensures Sections(repository, MockActiveDepartments(), Service(ext)).Success?
  {
    var departments := MockActiveDepartments();
    forall i | 0 <= i < |departments|
      ensures DepartmentSection(repository, departments[i], Service(ext)).Success?
    {
      MockDepartmentSucceeds(repository, departments[i], ext);
    }
    SectionsOrder(repository, departments, Service(ext));
  }

  /** In mock mode every department's section is built with the real
      service, whatever it answers. */
  lemma MockDepartmentSucceeds(repository: Repository, department: string, ext: ExternalServices)
    requires ShouldUseMockData(repository.useMockData)
    ensures DepartmentSection(repository, department, Service(ext)).Success?
  {
    AsWrittenNeverRejectsSalary(repository, department, ext);
  }

  lemma FinanceHeaderNamesDepartment()
    ensures Contains("### " + "Finance Department", "Finance Department")
  {
    ContainsInMiddle("### ", "Finance Department", "");
    assert "### " + "Finance Department" + "" == "### " + "Finance Department";
  }

  lemma CompanyTotalLineNamesIt(total: real, platform: Platform)
    ensures Contains(CompanyTotalLine(total, platform), "Company Total")
  {
    var tail := ": **" + platform.currency(total) + "**";
    ContainsInMiddle("### ", "Company Total", tail);
    assert CompanyTotalLine(total, platform) == "### " + "Company Total" + tail;
  }
}
