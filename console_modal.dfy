/**
 * The log console: each log line is classified by a fixed priority of
 * substring tests and given the colour class of its kind; an empty line is
 * drawn as a non-breaking space.
 */
module ConsoleModal {
  import opened Text

  datatype LineKind = Separator | Header | Success | Info | Warning | Error | Saved | Plain

  predicate IsSeparator(line: string) {
    StartsWith(Trim(line), "=") || Trim(line) == ""
  }

  predicate IsHeader(line: string) {
    Contains(line, "PROGRAMA") || Contains(line, "VISTA") || Contains(line, "RESUMEN")
  }

  predicate IsSuccess(line: string) {
    Contains(line, "EXITOSAMENTE") || Contains(line, "a tiempo")
  }

  /** The clipboard, stopwatch and factory markers. */
  predicate IsInfo(line: string) {
    Contains(line, "\U{1F4CB}") || Contains(line, "\U{23F1}\U{FE0F}") || Contains(line, "\U{1F3ED}")
  }

  /** The warning-sign marker or the extra-quantity total. */
  predicate IsWarning(line: string) {
    Contains(line, "\U{26A0}\U{FE0F}") || Contains(line, "Cantidad total extra")
  }

  /** The word ERROR or the cross-mark marker. */
  predicate IsError(line: string) {
    Contains(line, "ERROR") || Contains(line, "\U{274C}")
  }

  predicate IsSaved(line: string) {
    Contains(line, "guardado en:")
  }

  /** The first kind, in priority order, whose test the line passes. */
  function Classify(line: string): (k: LineKind)
    ensures k == Separator <==> IsSeparator(line)
    ensures k == Header <==> !IsSeparator(line) && IsHeader(line)
    ensures k == Success <==> !IsSeparator(line) && !IsHeader(line) && IsSuccess(line)
    ensures k == Info <==> !IsSeparator(line) && !IsHeader(line) && !IsSuccess(line) && IsInfo(line)
    ensures k == Warning <==> !IsSeparator(line) && !IsHeader(line) && !IsSuccess(line) && !IsInfo(line)
                              && IsWarning(line)
    ensures k == Error <==> !IsSeparator(line) && !IsHeader(line) && !IsSuccess(line) && !IsInfo(line)
                            && !IsWarning(line) && IsError(line)
    ensures k == Saved <==> !IsSeparator(line) && !IsHeader(line) && !IsSuccess(line) && !IsInfo(line)
                            && !IsWarning(line) && !IsError(line) && IsSaved(line)
  {
    if IsSeparator(line) then Separator
    else if IsHeader(line) then Header
    else if IsSuccess(line) then Success
    else if IsInfo(line) then Info
    else if IsWarning(line) then Warning
    else if IsError(line) then Error
    else if IsSaved(line) then Saved
    else Plain
  }

  function CssClass(k: LineKind): string {
    match k
    case Separator => "text-[#8b7355]"
    case Header => "text-[#ffbd2e] font-semibold"
    case Success => "text-[#27c93f]"
    case Info => "text-[#5dade2]"
    case Warning => "text-[#ffbd2e]"
    case Error => "text-[#ff5f56]"
    case Saved => "text-[#5dade2]"
    case Plain => "text-white"
  }

  /** A line is white exactly when it passes none of the tests. */
  lemma WhiteIffNoTest(line: string)
    ensures CssClass(Classify(line)) == "text-white"
        <==> !IsSeparator(line) && !IsHeader(line) && !IsSuccess(line) && !IsInfo(line)
             && !IsWarning(line) && !IsError(line) && !IsSaved(line)
  {
  }

  /** Blank lines, however many spaces they hold, are separators. */
  lemma BlankLineIsSeparator(line: string)
    requires forall i :: 0 <= i < |line| ==> IsJsSpace(line[i])
    ensures Classify(line) == Separator
  {
    TrimEmpty(line);
  }

  /** A header line that also reports an error is still coloured as a header. */
  lemma HeaderOutranksError()
    ensures Classify("RESUMEN ERROR") == Header
  {
    var line := "RESUMEN ERROR";
    assert !IsJsSpace(line[0]) && !IsJsSpace(line[|line| - 1]);
    assert Trim(line) == line;
    assert line[..7] == "RESUMEN";
    ContainsAt(line, "RESUMEN", 0);
  }

  /** The text drawn for a line: `line || ' '`. */
  function Display(line: string): (r: string)
    ensures r == "\U{00A0}" <==> line == "" || line == "\U{00A0}"
    ensures line != "" ==> r == line
  {
    if line == "" then "\U{00A0}" else line
  }

  datatype RenderedLine = RenderedLine(cssClass: string, text: string)

  /** What the dialog renders: nothing while closed, the placeholder, or the lines. */
  datatype ConsoleBody = Closed | Loading | Lines(lines: seq<RenderedLine>)

  /**
   * The console dialog: nothing when closed; otherwise the loading
   * placeholder for no logs, else one rendered line per log line.
   */
  function Body(isOpen: bool, logs: seq<string>): (r: ConsoleBody)
    ensures r.Closed? <==> !isOpen
    ensures r.Loading? <==> isOpen && logs == []
    ensures r.Lines? ==> |r.lines| == |logs|
    ensures r.Lines? ==> forall i :: 0 <= i < |logs| ==>
              r.lines[i] == RenderedLine(CssClass(Classify(logs[i])), Display(logs[i]))
  {
    if !isOpen then Closed
    else if logs == [] then Loading
    else Lines(seq(|logs|, i requires 0 <= i < |logs| => RenderedLine(CssClass(Classify(logs[i])), Display(logs[i]))))
  }
}
