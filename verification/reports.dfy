/**
 * The report routes (`routes/reports.py`): detail, download, and the two
 * executive-analysis routes.
 *
 * The report store is an input: `get_report` and `get_report_md_path` give
 * `None` for an unknown id, and the markdown file's content otherwise. The
 * providers and the summariser's decoder are inputs as in `Summarizer`.
 */
module Reports {
  import opened Base
  import opened Text
  import opened Json
  import Summarizer
  import Export

  // ---------------------------------------------------------------------------
  // get_report_detail
  // ---------------------------------------------------------------------------

  /** `get_report_detail`: the stored record, or 404. */
  function ReportDetail<D>(data: Option<D>): (r: Result<D, nat>)
    ensures r.Ok? <==> data.Some?
    ensures r.Ok? ==> r.value == data.value
    ensures r.Error? ==> r.error == 404
  {
    match data
    case Some(d) => Ok(d)
    case None => Error(404)
  }

  // ---------------------------------------------------------------------------
  // download_report
  // ---------------------------------------------------------------------------

  /** The `format` query parameter's `Literal["md", "pdf", "docx"]`. */
  datatype ReportFormat = Md | Pdf | Docx

  /** The query parameter as FastAPI reads it: "md" when absent, `None` (a 422) for any other text. */
  function QueryFormat(format: Option<string>): (r: Option<ReportFormat>)
    ensures format.None? ==> r == Some(Md)
    ensures format.Some? ==> (r.Some? <==> format.value in {"md", "pdf", "docx"})
    ensures format.Some? && r.Some? ==> format.value == FormatName(r.value)
  {
    match format
    case None => Some(Md)
    case Some(f) =>
      if f == "md" then Some(Md) else if f == "pdf" then Some(Pdf) else if f == "docx" then Some(Docx) else None
  }

  function FormatName(f: ReportFormat): string {
    match f
    case Md => "md"
    case Pdf => "pdf"
    case Docx => "docx"
  }

  /** What a download streams: the markdown as stored, or a built document. */
  datatype Body = MarkdownText(text: string) | Built(document: Export.Document)

  datatype ReportDownload = ReportDownload(body: Body, mediaType: string, filename: string)

  const MarkdownMediaType: string := "text/markdown"

  /**
   * `download_report`: 404 for an unknown id; the markdown unchanged for "md";
   * the Word or PDF builder otherwise, with 500 when its library is missing.
   */
  function DownloadReport(reportId: string, format: ReportFormat, markdown: Option<string>,
                          wordInstalled: bool, pdfInstalled: bool): (r: Result<ReportDownload, nat>)
    ensures markdown.None? ==> r == Error(404)
    ensures r.Error? ==> r.error == 404 || r.error == 500
    ensures r.Error? && r.error == 500 <==> markdown.Some? && ((format == Docx && !wordInstalled) || (format == Pdf && !pdfInstalled))
    ensures r.Ok? ==> markdown.Some? && r.value.filename == reportId + "." + FormatName(format)
    ensures r.Ok? && format == Md ==> r.value.body == MarkdownText(markdown.value) && r.value.mediaType == MarkdownMediaType
    ensures r.Ok? && format == Docx ==> r.value.body == Built(Export.WordDocument(Export.WordBuild(markdown.value)))
    ensures r.Ok? && format == Pdf ==> r.value.body == Built(Export.PdfDocument(Export.PdfBuild(markdown.value)))
  {
    match markdown
    case None => Error(404)
    case Some(md) =>
      var filename := reportId + "." + FormatName(format);
      match format
      case Md => Ok(ReportDownload(MarkdownText(md), MarkdownMediaType, filename))
      case Docx =>
        if wordInstalled then Ok(ReportDownload(Built(Export.WordDocument(Export.WordBuild(md))), Export.WordMediaType, filename))
        else Error(500)
      case Pdf =>
        if pdfInstalled then Ok(ReportDownload(Built(Export.PdfDocument(Export.PdfBuild(md))), Export.PdfMediaType, filename))
        else Error(500)
  }

  /**
   * A stored report downloads as the same document, with the same media type
   * and the same errors, as the export route builds from its markdown; only
   * the file name differs.
   */
  lemma DownloadMatchesExport(reportId: string, format: ReportFormat, md: string,
                              wordInstalled: bool, pdfInstalled: bool, timestamp: string)
    requires format != Md
    ensures var d := DownloadReport(reportId, format, Some(md), wordInstalled, pdfInstalled);
            var e := Export.ExportReport(md, FormatName(format), timestamp, wordInstalled, pdfInstalled);
            d.Ok? == e.Ok?
            && (d.Ok? ==> d.value.body == Built(e.value.document) && d.value.mediaType == e.value.mediaType)
            && (d.Error? ==> d.error == e.error)
  {
    if format == Pdf {
      var p := Lower("pdf");
      assert p[0] == 'p' && p[1] == 'd' && p[2] == 'f';
      assert p == "pdf";
    } else {
      var w := Lower("docx");
      assert w[0] == 'd' && w[1] == 'o' && w[2] == 'c' && w[3] == 'x';
      assert w == "docx";
    }
  }

  /** A report downloaded as markdown is the stored text, byte for byte. */
  lemma MarkdownDownloadIsStoredText(reportId: string, md: string, wordInstalled: bool, pdfInstalled: bool)
    ensures DownloadReport(reportId, Md, Some(md), wordInstalled, pdfInstalled)
            == Ok(ReportDownload(MarkdownText(md), MarkdownMediaType, reportId + ".md"))
  {
    assert reportId + "." + "md" == reportId + ".md";
  }

  // ---------------------------------------------------------------------------
  // Executive analysis
  // ---------------------------------------------------------------------------

  /** The GET route's result: the analysis with `report_id` added. */
  datatype IdAnalysis = IdAnalysis(reportId: string, analysis: Summarizer.Analysis)

  /**
   * `get_executive_analysis`: 404 for an unknown id, otherwise the stored
   * markdown's analysis tagged with the id. There is no length check.
   */
  function ExecutiveAnalysisById(reportId: string, markdown: Option<string>,
                                 groq: Outcome, deepseek: Outcome, decode: Decoder,
                                 isWord: char -> bool, fallbackLatencyMs: nat)
    : (r: Result<IdAnalysis, nat>)
    ensures r.Error? <==> markdown.None?
    ensures r.Error? ==> r.error == 404
    ensures r.Ok? ==> r.value.reportId == reportId
    ensures r.Ok? ==> IsConfidenceLabel(r.value.analysis.confidence)
    ensures r.Ok? ==> r.value.analysis
                      == Summarizer.AnalyseExecutiveReport(markdown.value, groq, deepseek, decode, isWord, fallbackLatencyMs).result
  {
    match markdown
    case None => Error(404)
    case Some(md) =>
      var run := Summarizer.AnalyseExecutiveReport(md, groq, deepseek, decode, isWord, fallbackLatencyMs);
      Ok(IdAnalysis(reportId, run.result))
  }

  const MinimumReportLength: nat := 50

  /**
   * `analyse_report_text`: text shorter than 50 characters (the empty text
   * included) is refused with 400 before any provider is called. Returns the
   * result and the number of provider calls made.
   */
  function AnalyseReportText(reportText: string, groq: Outcome, deepseek: Outcome, decode: Decoder,
                             isWord: char -> bool, fallbackLatencyMs: nat)
    : (r: (Result<Summarizer.Analysis, nat>, nat))
    ensures r.0.Error? <==> |reportText| < MinimumReportLength
    ensures r.0.Error? ==> r.0.error == 400 && r.1 == 0
    ensures r.0.Ok? ==> 1 <= r.1 <= 2 && IsConfidenceLabel(r.0.value.confidence)
    ensures r.0.Ok? ==> r.0.value
                        == Summarizer.AnalyseExecutiveReport(reportText, groq, deepseek, decode, isWord, fallbackLatencyMs).result
  {
    if reportText == "" || |reportText| < MinimumReportLength then (Error(400), 0)
    else
      var run := Summarizer.AnalyseExecutiveReport(reportText, groq, deepseek, decode, isWord, fallbackLatencyMs);
      (Ok(run.result), run.called)
  }

  /**
   * The two routes agree on any report long enough for the text route; a
   * shorter stored report is still analysed by id.
   */
  lemma RoutesAgree(reportId: string, md: string, groq: Outcome, deepseek: Outcome, decode: Decoder,
                    isWord: char -> bool, fallbackLatencyMs: nat)
    ensures var byId := ExecutiveAnalysisById(reportId, Some(md), groq, deepseek, decode, isWord, fallbackLatencyMs);
            var byText := AnalyseReportText(md, groq, deepseek, decode, isWord, fallbackLatencyMs).0;
            byId.Ok? && (byText.Ok? ==> byText.value == byId.value.analysis)
            && (byText.Error? <==> |md| < MinimumReportLength)
  {
  }
}
