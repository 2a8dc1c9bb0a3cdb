/** The licence header tool over files: checking, previewing and adding headers. */
module LicenseFiles {
  import opened Wrappers
  import opened Text
  import opened LicenseHeader

  /** The names and extensions are in lower case where the tool compares them so. */
  class SourceFile {
    const name: string
    const suffix: string
    const readable: bool
    var content: string

    constructor (name: string, suffix: string, readable: bool, content: string)
      ensures this.name == name && this.suffix == suffix && this.readable == readable && this.content == content
    {
      this.name, this.suffix, this.readable, this.content := name, suffix, readable, content;
    }
  }

  datatype Options = Options(styles: map<string, Style>, skipped: set<string>, year: string, holder: string,
                             checkOnly: bool, dryRun: bool)

  /** The extension that selects the comment style. */
  function Extension(file: SourceFile): string {
    if Lower(file.name) == "dockerfile" then ".dockerfile" else Lower(file.suffix)
  }

  predicate Supported(file: SourceFile, o: Options) {
    Extension(file) in o.styles && file.name !in o.skipped && file.readable
  }

  /** Whether the header is missing; nothing for a file that is passed over. */
  function Verdict(file: SourceFile, content: string, o: Options): Option<bool> {
    if Supported(file, o) then Some(!HasHeader(content)) else None
  }

  function HeaderFor(file: SourceFile, o: Options): string
    requires Supported(file, o)
  {
    GenerateHeader(o.styles[Extension(file)], o.year, o.holder)
  }

  /** Neither checking only nor previewing. */
  predicate Adding(o: Options) {
    !o.checkOnly && !o.dryRun
  }

  /** The content after a run with these options. */
  function Processed(file: SourceFile, content: string, o: Options): string {
    if Adding(o) && Verdict(file, content, o) == Some(true) then AddHeader(content, HeaderFor(file, o)) else content
  }

  method ProcessFile(file: SourceFile, o: Options) returns (r: Option<bool>)
    modifies file
    ensures r == Verdict(file, old(file.content), o)
    ensures file.content == Processed(file, old(file.content), o)
  {
    var ext := Lower(file.suffix);
    if Lower(file.name) == "dockerfile" {
      ext := ".dockerfile";
    }
    if ext !in o.styles {
      return None;
    }
    if file.name in o.skipped {
      return None;
    }
    if !file.readable {
      return None;
    }
    var content := file.content;
    if HasHeader(content) {
      return Some(false);
    }
    var header := GenerateHeader(o.styles[ext], o.year, o.holder);
    if o.checkOnly {
      return Some(true);
    }
    if o.dryRun {
      return Some(true);
    }
    file.content := AddHeader(content, header);
    return Some(true);
  }

  /** The comment style for a file, by its name or its suffix. */
  predicate HasStyle(file: SourceFile, o: Options, ext: string) {
    ext in o.styles && ext == if Lower(file.name) == "dockerfile" then ".dockerfile" else Lower(file.suffix)
  }

  /** A file is passed over if and only if it has no style, is listed to be skipped or cannot be
      read; otherwise the answer is whether the first twenty lines lack the words of a header. */
  lemma VerdictIff(file: SourceFile, content: string, o: Options)
    ensures var verdict, area := Verdict(file, content, o), Lower(UpTo(content, 20));
      && (verdict == None <==> !file.readable || file.name in o.skipped || forall ext :: !HasStyle(file, o, ext))
      && (verdict.Some? ==>
          (verdict.value <==> !Contains(area, "spdx-license-identifier") && !Contains(area, "apache-2.0")))
  {
    HeaderIsRecognisedIff(content);
    assert forall ext | HasStyle(file, o, ext) :: ext == Extension(file);
    assert HasStyle(file, o, Extension(file)) <==> Extension(file) in o.styles;
  }

  lemma HeaderIsLonger(content: string, header: string)
    ensures |AddHeader(content, header)| > |content|
  {
  }

  /** The content changes if and only if the header is missing and the run is neither a check nor
      a preview; then it gets the header of its style. */
  lemma ProcessedIff(file: SourceFile, content: string, o: Options)
    ensures var after := Processed(file, content, o);
      && (after != content <==> Verdict(file, content, o) == Some(true) && !o.checkOnly && !o.dryRun)
      && (after != content ==> exists ext | HasStyle(file, o, ext) ::
            after == AddHeader(content, GenerateHeader(o.styles[ext], o.year, o.holder)))
  {
    if Supported(file, o) {
      HeaderIsLonger(content, HeaderFor(file, o));
      assert HasStyle(file, o, Extension(file));
    }
  }

  /** The header that a run adds to the content is found by the next run. */
  predicate HeaderIsFound(file: SourceFile, content: string, o: Options)
    requires Supported(file, o)
  {
    var style := o.styles[Extension(file)];
    || Newlines(HeaderBefore(style, o.year, o.holder)) + (if HasShebang(content) then 1 else 0) < 20
    || HasHeader(BeforeKey(content, style, o.year, o.holder))
  }

  /** A second run changes nothing if and only if the first adds no header, or one whose SPDX
      line is among those that are searched. */
  lemma ProcessingIsIdempotentIff(file: SourceFile, content: string, o: Options)
    ensures Processed(file, Processed(file, content, o), o) == Processed(file, content, o) <==>
      (Adding(o) && Verdict(file, content, o) == Some(true) ==> HeaderIsFound(file, content, o))
  {
    if Adding(o) && Verdict(file, content, o) == Some(true) {
      AddedHeaderIsFoundIff(content, o.styles[Extension(file)], o.year, o.holder);
      HeaderIsLonger(Processed(file, content, o), HeaderFor(file, o));
    }
  }

  /** Year, holder and comment styles without a line end leave no file without a header. */
  lemma NoHeaderIsMissingAfterwards(file: SourceFile, content: string, o: Options)
    requires '\n' !in o.year && '\n' !in o.holder && forall ext | ext in o.styles :: '\n' !in o.styles[ext].start
    ensures Adding(o) ==> Verdict(file, Processed(file, content, o), o) != Some(true)
    ensures Processed(file, Processed(file, content, o), o) == Processed(file, content, o)
  {
    if Supported(file, o) {
      UsualHeadersFit(o.styles[Extension(file)], o.year, o.holder);
      AddedHeaderIsFoundIff(content, o.styles[Extension(file)], o.year, o.holder);
    }
  }
}
