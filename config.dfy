/** The backend base address and the endpoint URL builders of `lib/config.ts`. */
module Config {

  import opened Wrappers

  const ApiBaseUrl: string := "http://localhost:8080"

  const ReportPrefix: string := ApiBaseUrl + "/report/"
  const PlotPrefix: string := ApiBaseUrl + "/plot/"
  const DownloadQuery: string := "?download=true"

  /** `API_ENDPOINTS.AUDIO`: where recordings are posted for analysis. */
  const Audio: string := ApiBaseUrl + "/audio"

  /** `API_ENDPOINTS.REPORT(reportPath)`. */
  function Report(reportPath: string): (url: string)
    ensures ReportPrefix <= url && url[|ReportPrefix|..] == reportPath
  {
    ApiBaseUrl + "/report/" + reportPath
  }

  /** `API_ENDPOINTS.REPORT_DOWNLOAD(reportPath)`: the report URL with the download query added. */
  function ReportDownload(reportPath: string): (url: string)
    ensures url == Report(reportPath) + DownloadQuery
  {
    ApiBaseUrl + "/report/" + reportPath + "?download=true"
  }

  /** `API_ENDPOINTS.PLOT(plotPath)`. */
  function Plot(plotPath: string): (url: string)
    ensures PlotPrefix <= url && url[|PlotPrefix|..] == plotPath
  {
    ApiBaseUrl + "/plot/" + plotPath
  }

  /** The report path a report URL was built from, if it is one. */
  function ReportPathOf(url: string): (p: Option<string>)
  {
    if ReportPrefix <= url then Some(url[|ReportPrefix|..]) else None
  }

  /** `ReportPathOf` inverts `Report` exactly: it recovers the path, and only report URLs have one. */
  lemma ReportRoundTrip(reportPath: string, url: string)
    ensures ReportPathOf(Report(reportPath)) == Some(reportPath)
    ensures ReportPathOf(url) == Some(reportPath) <==> url == Report(reportPath)
  {
    if ReportPathOf(url) == Some(reportPath) {
      assert url == url[..|ReportPrefix|] + url[|ReportPrefix|..];
    }
  }

  /** Different report paths give different report URLs. */
  lemma ReportInjective(p: string, q: string)
    requires Report(p) == Report(q)
    ensures p == q
  {
    ReportRoundTrip(p, Report(q));
  }

  /** A download link is the report link of the path followed by the download query. */
  lemma DownloadIsReportOfQueriedPath(reportPath: string)
    ensures ReportDownload(reportPath) == Report(reportPath + DownloadQuery)
    ensures ReportPathOf(ReportDownload(reportPath)) == Some(reportPath + DownloadQuery)
  {
    ReportRoundTrip(reportPath + DownloadQuery, ReportDownload(reportPath));
  }

  /** A plot URL is never a report URL, and neither is the audio endpoint. */
  lemma PlotNeverReport(plotPath: string, reportPath: string)
    ensures Plot(plotPath) != Report(reportPath)
    ensures ReportPathOf(Plot(plotPath)) == None
    ensures Audio != Report(reportPath)
  {
    var n := |ApiBaseUrl| + 1;
    assert Plot(plotPath)[n] == 'p' && Report(reportPath)[n] == 'r';
    assert ReportPrefix[n] == 'r';
    assert Audio[n] == 'a';
  }
}
