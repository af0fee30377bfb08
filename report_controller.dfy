/**
 * ReportController: the `GET api/report/{year}/{month}` endpoint. It checks
 * the year, then the month, and only then asks the report service for the
 * file; an exception from the service becomes a 500 response.
 */
module ReportController {
  import opened Wrappers
  import opened Exceptions
  import opened EmployeeService
  import opened EmployeeRepository
  import opened ReportService

  /** The responses `Download` produces: a 400 with an error message, a
      status code with an error message, or the service's file. */
  datatype ActionResult =
    | BadRequest(error: string)
    | StatusCode(statusCode: int, error: string)
    | File(file: FileContentResult)

  const YearRangeMessage := "Year must be between 1900 and 2100"
  const MonthRangeMessage := "Month must be between 1 and 12"
  const UnexpectedErrorMessage := "An unexpected error occurred while processing your request"

  predicate IsValidYear(year: int) {
    1900 <= year <= 2100
  }

  predicate IsValidMonth(month: int) {
    1 <= month <= 12
  }

  /** `Download`, for a report service given as what `GenerateReportAsync`
      returns or throws for a period. */
  function Download(year: int, month: int, generateReport: (int, int) -> Result<FileContentResult, Exception>): (r: ActionResult)
    ensures r == BadRequest(YearRangeMessage) <==> !IsValidYear(year)
    ensures r == BadRequest(MonthRangeMessage) <==> IsValidYear(year) && !IsValidMonth(month)
    ensures r.File? <==> IsValidYear(year) && IsValidMonth(month) && generateReport(year, month).Success?
    ensures r.File? ==> r.file == generateReport(year, month).value
    ensures r.StatusCode? <==> IsValidYear(year) && IsValidMonth(month) && generateReport(year, month).Failure?
    ensures r.StatusCode? ==> r.statusCode == 500 && r.error == UnexpectedErrorMessage
  {
    if year < 1900 || year > 2100 then
      BadRequest(YearRangeMessage)
    else if month < 1 || month > 12 then
      BadRequest(MonthRangeMessage)
    else
      match generateReport(year, month)
      case Success(file) => File(file)
      case Failure(_) => StatusCode(500, UnexpectedErrorMessage)
  }

  /** A rejected request never reaches the report service: the response is
      the same whatever the service would have done. */
  lemma InvalidRequestIgnoresService(year: int, month: int,
                                     generateReport: (int, int) -> Result<FileContentResult, Exception>,
                                     generateReport': (int, int) -> Result<FileContentResult, Exception>)
    requires !IsValidYear(year) || !IsValidMonth(month)
    ensures Download(year, month, generateReport) == Download(year, month, generateReport')
    ensures Download(year, month, generateReport).BadRequest?
  {
  }

  /** Every accepted period is one the report builder can name, so its
      out-of-range exception never reaches the controller. */
  lemma ValidRequestIsRepresentable(year: int, month: int)
    requires IsValidYear(year) && IsValidMonth(month)
    ensures IsRepresentableMonth(year, month)
  {
  }

  /** The endpoint over the real report service, at the moment `now`: a
      file exactly when the request is in range and the report could be
      built, and then the UTF-8 text/plain file named after the period. */
  function DownloadReport(year: int, month: int, repository: Repository, service: EmployeeServiceApi,
                          platform: Platform, now: DateTime): (r: ActionResult)
    ensures r.File? <==>
      IsValidYear(year) && IsValidMonth(month) && ReportText(year, month, repository, service, platform).Success?
    ensures r.File? ==>
      r.file == FileContentResult(platform.utf8(ReportText(year, month, repository, service, platform).value),
                                  "text/plain", FileName(year, month, now))
  {
    Download(year, month, (y, m) => ReportFile(y, m, repository, service, platform, now))
  }

  /** For an accepted period, the endpoint serves the report file exactly
      when the builder succeeds; every exception the builder throws (a
      data source failure, a negative salary) becomes the fixed 500. */
  lemma DownloadReportOutcome(year: int, month: int, repository: Repository, service: EmployeeServiceApi,
                              platform: Platform, now: DateTime)
    requires IsValidYear(year) && IsValidMonth(month)
    ensures ReportText(year, month, repository, service, platform).Success? ==>
      DownloadReport(year, month, repository, service, platform, now) ==
        File(FileContentResult(platform.utf8(ReportText(year, month, repository, service, platform).value),
                               "text/plain", FileName(year, month, now)))
    ensures ReportText(year, month, repository, service, platform).Failure? ==>
      DownloadReport(year, month, repository, service, platform, now) == StatusCode(500, UnexpectedErrorMessage)
  {
  }
}
