/** A resume from its fields to the lines a PDF reader shows. */
module ResumePdf {
  import opened Text
  import opened Latin1
  import opened PdfWriter
  import opened PdfReader
  import opened PdfFile
  import opened PdfRoundTrip
  import opened Html
  import R = Resume
  import opened ResumeText
  import opened ResumePlain
  import opened LineText
  import opened TextLines

  /** `_html_to_pdf` on its self-contained branch. */
  method RenderPdf(decode: string -> string, resume: R.JsonResume, css: string) returns (pdf: Bytes)
    requires Standard(decode) && '<' !in css
    ensures ReadPdf(pdf).Some? <==> Fits(Bodies(PagesOf(ResumeLines(resume))))
    ensures |pdf| < XREF_LIMIT ==> ReadPdf(pdf).Some?
    ensures ReadPdf(pdf).Some? ==> AllTexts(ReadPdf(pdf).value) == Images(WrapAll(ResumeLines(resume)))
  {
    hide R.Document, R.Body, R.PlainText, StripMarkup, Unescape, TidyLines, FileBytes, Bodies, ReadPdf, ShownPages,
        AllTexts, Images, WrapAll, PagesOf, Fields, Fits, PlainResume;
    var lines := HtmlToTextLines(decode, R.Document(resume, css));
    pdf := FallbackTextPdf(lines);
    DocumentText(decode, resume, css);
    PlainTextIs(resume);
    ResumeLinesClean(resume);
    FallbackRoundTrip(ResumeLines(resume));
    BodiesCount(PagesOf(ResumeLines(resume)));
    FitsWhen(Bodies(PagesOf(ResumeLines(resume))));
  }

  /** The lines of a resume: the tidy lines of its plain text, or one empty line. */
  function ResumeLines(resume: R.JsonResume): seq<string> {
    var lines := TidyLines(PlainResume(resume));
    if lines == [] then [""] else lines
  }

  lemma ResumeLinesClean(resume: R.JsonResume)
    ensures ResumeLines(resume) != [] && NoReturns(ResumeLines(resume))
  {
    hide PlainResume, TidyLines, Tidy;
    TidyLinesShape(PlainResume(resume));
  }

  /**
   * End to end: the lines are those of the plain resume, squeezed; wrapped for the page they hold every character of
   * it that is not white space, in order; and the user texts in it are exactly the non-empty fields.
   */
  lemma ResumeSurvives(resume: R.JsonResume)
    ensures Printed(PlainResume(resume), if ResumeLines(resume) == [""] then [] else ResumeLines(resume))
    ensures Ink(Flat(WrapAll(ResumeLines(resume)))) == Ink(PlainResume(resume))
    ensures Flat(Images(WrapAll(ResumeLines(resume)))) == Image(Flat(WrapAll(ResumeLines(resume))))
    ensures R.PlainText(R.Body(resume)) == PlainResume(resume) && Raws(R.Body(resume)) == Fields(resume)
  {
    hide R.Body, R.PlainText, PlainResume, TidyLines, WrapAll, Ink, Images, Image, Fields, Raws, Printed;
    var text := PlainResume(resume);
    TidyLinesInk(text);
    TidyLinesPrinted(text);
    TidyLinesShape(text);
    WrapAllKeepsText(ResumeLines(resume));
    ImagesFlat(WrapAll(ResumeLines(resume)));
    BodyCarriesFields(resume);
    PlainTextIs(resume);
    if TidyLines(text) == [] {
      OneEmptyLine();
    }
  }

  lemma OneEmptyLine()
    ensures Flat([""]) == "" == Flat<char>([])
  {
  }
}
