/**
 * The download names in the web front end: `downloadMarkdown` and
 * `downloadZipPackage` drop one trailing `.pdf` (matched by `/\.pdf$/i`) from
 * the original file name, falling back to `converted` when there is none.
 * Without the `u` flag JavaScript folds case for ASCII letters only here, and
 * `$` without the `m` flag anchors at the very end of the string.
 */
module Filenames {
  import opened Text

  /** `/\.pdf$/i.test(name)`. */
  predicate HasPdfExtension(name: string)
  {
    && |name| >= 4
    && name[|name| - 4] == '.'
    && AsciiLower(name[|name| - 3]) == 'p'
    && AsciiLower(name[|name| - 2]) == 'd'
    && AsciiLower(name[|name| - 1]) == 'f'
  }

  /** `name.replace(/\.pdf$/i, "")`. */
  function StripPdf(name: string): (r: string)
    ensures StartsWith(name, r)
    ensures HasPdfExtension(name) ==> |r| == |name| - 4
    ensures !HasPdfExtension(name) ==> r == name
  {
    if HasPdfExtension(name) then name[..|name| - 4] else name
  }

  /** The base name both downloads share. */
  function DownloadBase(originalFilename: string): string
  {
    if originalFilename == "" then "converted" else StripPdf(originalFilename)
  }

  /** The Markdown download name of `downloadMarkdown`. */
  function MarkdownFilename(originalFilename: string): (r: string)
    ensures EndsWith(r, ".md")
  {
    DownloadBase(originalFilename) + ".md"
  }

  /** The archive name of `downloadZipPackage`. */
  function ZipFilename(originalFilename: string): (r: string)
    ensures EndsWith(r, "_package.zip")
  {
    DownloadBase(originalFilename) + "_package.zip"
  }
}

/** What the download names guarantee. */
module FilenameProperties {
  import opened Text
  import opened Filenames

  /** A spelling of `.pdf` in any mix of ASCII case. */
  predicate IsPdfSpelling(e: string)
  {
    && |e| == 4 && e[0] == '.'
    && (e[1] == 'p' || e[1] == 'P')
    && (e[2] == 'd' || e[2] == 'D')
    && (e[3] == 'f' || e[3] == 'F')
  }

  /** Stripping undoes appending any spelling of `.pdf`, and removes just one of them. */
  lemma StripPdfAppend(base: string, e: string)
    requires IsPdfSpelling(e)
    ensures StripPdf(base + e) == base
  {
    var n := base + e;
    assert n[|n| - 4..] == e;
    assert n[..|n| - 4] == base;
  }

  /** A name is left alone exactly when it does not end in a spelling of `.pdf`. */
  lemma StripPdfUnchangedIff(name: string)
    ensures StripPdf(name) == name <==> !(|name| >= 4 && IsPdfSpelling(name[|name| - 4..]))
  {
    if |name| >= 4 {
      var e := name[|name| - 4..];
      assert e[1] == name[|name| - 3] && e[2] == name[|name| - 2] && e[3] == name[|name| - 1];
    }
  }

  /** `report.PDF` downloads as `report.md` and `report_package.zip`. */
  lemma DownloadNamesOfPdf(base: string, e: string)
    requires IsPdfSpelling(e)
    ensures MarkdownFilename(base + e) == base + ".md"
    ensures ZipFilename(base + e) == base + "_package.zip"
  {
    StripPdfAppend(base, e);
  }

  /** Without an original name the downloads are `converted.md` and `converted_package.zip`. */
  lemma DownloadNamesFallback()
    ensures MarkdownFilename("") == "converted.md"
    ensures ZipFilename("") == "converted_package.zip"
  {
  }

  /** The two downloads always share their base name. */
  lemma DownloadNamesAgree(originalFilename: string)
    ensures var md := MarkdownFilename(originalFilename);
      var zip := ZipFilename(originalFilename);
      md[..|md| - 3] == zip[..|zip| - 12] == DownloadBase(originalFilename)
  {
    var b := DownloadBase(originalFilename);
    assert (b + ".md")[..|b|] == b;
    assert (b + "_package.zip")[..|b|] == b;
  }

  /** Names of non-PDF files keep their whole text before the new extension. */
  lemma DownloadNamesOfOther(name: string)
    requires name != "" && !HasPdfExtension(name)
    ensures MarkdownFilename(name) == name + ".md"
    ensures ZipFilename(name) == name + "_package.zip"
  {
  }
}
