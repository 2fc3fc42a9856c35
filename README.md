# pdf2md in Dafny

A verified model of the conversion core of pdf2md, a small web application.
Its Python back end turns a PDF into Markdown, into a Word document, or into
a zip of 3:4 page images. Its Vue front end uploads the file and post-processes
what comes back. The model keeps each piece in the form the source gives it:

- **Pure computations become Dafny functions.** These are the role
  classifier, the Markdown post-processor, the XML sanitiser, the crop
  geometry, the link rewriter and the download names.
- **Loops become methods with loop invariants.** Each method is proved equal
  to a specification function. These are the image record builder, the
  Markdown assembler, the Word page loop and the crop page loop.
- **Objects whose fields change become classes.** The Word document being
  built is `Word.WordDocument`, an appended sequence of blocks. The front-end
  component is `Component.AppState`, with the fields of its `data()`.

The PDF library, python-docx, PIL and the browser do not appear. The values
they would deliver are inputs to the model:

- PDF text spans, as fragments with text, size, flags, y position and page;
- raw image descriptors (channel count, alpha, size, whether saving raises);
- page sizes and the rendered pixel size of each crop;
- which image paths exist on disk, and which of them python-docx fails to embed;
- how each fetch in `downloadImage` ended.

Layout of the files:

| file | what it holds |
|---|---|
| `wrappers.dfy` | `Option` and `Result` |
| `text.dfy` | Python's whitespace set, `strip`, `re.sub(r'\s+', ' ', …)`, `str.join`, `str(n)`, `f"{n:03d}"` |
| `fragments.dfy` | text fragments, flag bits, sum, maximum and average of font sizes |
| `classifier.dfy` | `format_text_element` |
| `images.dfy` | `extract_images_from_page` |
| `postprocess.dfy` | `post_process_markdown` |
| `assembler.dfy` | `convert_elements_to_markdown` |
| `xmltext.dfy` | `clean_text_for_xml` |
| `word.dfy` | `add_text_to_word_doc`, over an abstract Word document |
| `pdfword.dfy` | the page loop and results of `pdf_to_word` |
| `crop.dfy` | the crop geometry, naming and page loop of `pdf_to_cropped_images` |
| `links.dfy` | `processImageLinksForLocal` |
| `filenames.dfy` | the download names of `downloadMarkdown` and `downloadZipPackage` |
| `appstate.dfy` | the component state and its updates |

Numbers:

- Font sizes, y coordinates and page sizes are exact `real`s. Comparisons such
  as `size >= avg * 1.2` are therefore exact; float rounding is not modelled.
- Flag bits are read as `(flags / 16) % 2 == 1`. This agrees with Python's
  `flags & 16` for every integer.
- Pixel sizes are `nat`s. Python's `//` floors, and Dafny's `/` by a positive
  divisor floors too.

## Behaviour worth noting

- **Crop ratio.** The pixel step trims only the width, to `⌊3h/4⌋` pixels, so
  the saved image is exactly 3:4 only when the rendered height is a multiple
  of 4 (`CropProperties.TargetWidthExactIff`).
- **Image indices.** An image record's index is the image's position in the
  page's full image list, so a CMYK or failing image leaves a gap in the
  numbering (`Images.PageImagesExact`).
- **Missing images in Word.** A missing image file gives an empty centred
  paragraph. `[图片: name]` is written only when embedding an existing file
  raises (`PdfWord.AddPageImages`).

## Model

| member | source | states |
|---|---|---|
| `Classifier.Classify` | backend/app/converter.py:298-325 | every heading the ladder picks has a level from 1 to 4; a numbered, bullet or markup list role is given only to text that has that list shape |
| `Classifier.ClassifyLadder` | backend/app/converter.py:298-325 | the first-match ladder as an if-and-only-if per role: `#` iff size ≥ t×1.3, `##` iff t×1.1 ≤ size < t×1.3, `###` iff t ≤ size < t×1.1, `####` iff subtitle ≤ size < t; otherwise bold for bit 16, italic for bit 2, then numbered, bullet and markup list items, each only when every earlier test failed |
| `Classifier.FormatTokenShape` | backend/app/converter.py:291-325 | the token for each role: `#`×level + space + collapsed text, `**x**`, `*x*`, a bullet glyph and its following whitespace replaced by `- `, and the collapsed text unchanged for numbered, markup and plain text |
| `Classifier.HeadingTokenIff` | backend/app/converter.py:260-307 | a token starts with `#` exactly when the fragment is a heading, or is plain text that itself starts with `#` |
| `Classifier.FormatNonBlank` | backend/app/converter.py:296-325 | a non-blank fragment never becomes a blank token |
| `Classifier.RankMonotone` | backend/app/converter.py:298-307 | a larger font never gets a lower heading rank |
| `Classifier.AverageSizeIsNotHeading` | backend/app/converter.py:298-307 | text at the average size is never a heading |
| `Text.Strip` | backend/app/converter.py:296 | `str.strip()` yields `""` exactly for all-whitespace text, and otherwise text that neither starts nor ends with whitespace, cut from the input's ends |
| `Text.CollapseSpaces` | backend/app/converter.py:296 | the collapsed text is empty iff the input is, and starts with a space iff the input starts with whitespace |
| `Text.ZeroPad` | backend/app/converter.py:693 | `f"{n:03d}"` has at least the width, is all digits, ends in `str(n)` and is padded with `0` only |
| `Text.NatToString` | backend/app/converter.py:137 | `str(n)` is a non-empty string of digits |
| `Text.NatToStringInjective` | backend/app/converter.py:137 | distinct numbers have distinct decimal forms |
| `Text.CollapseSpacesNoDoubleSpace` | backend/app/converter.py:296 | after `re.sub(r'\s+', ' ', …)` no two blanks are adjacent |
| `Text.CollapseSpacesOnlyAsciiSpace` | backend/app/converter.py:296 | the only whitespace left after collapsing is the ASCII space |
| `Text.ZeroPadValue` | backend/app/converter.py:693 | the zero-padded numeral still denotes its number, so padding is injective |
| `Text.NatToStringRoundTrip` | backend/app/converter.py:137 | reading back `str(n)` gives `n` |
| `Fragments.Max` | backend/app/converter.py:188 | `max(font_sizes)` is one of the sizes and no size exceeds it |
| `Fragments.AverageAtMostMax` | backend/app/converter.py:187-188 | the average font size never exceeds the maximum |
| `Images.ExtractImagesFromPage` | backend/app/converter.py:125-162 | the loop returns exactly the records of the page's image list in order |
| `Images.PageImagesExact` | backend/app/converter.py:128-160 | a record exists for image i exactly when n − alpha < 4 and nothing raised; it has index i+1 in the full list (so skipped images leave gaps), the name `{base}_page{p+1}_img{i+1}.png` and the path under the images directory, and indices increase |
| `Images.PageImagesPage` | backend/app/converter.py:150 | every record of page p carries page number p+1 |
| `Images.ImageFilenameInjective` | backend/app/converter.py:137 | two images get the same file name only if they have the same page and index |
| `Assembler.ConvertElementsToMarkdown` | backend/app/converter.py:164-289 | the method returns exactly `MarkdownOf`: `""` with no input, the images-only text with no fragments, otherwise the post-processed `"\n\n"` join of the assembled lines |
| `Assembler.ImagesOnlyMarkdown` | backend/app/converter.py:179-184 | the images-only branch joins the images' lines with `"\n\n"` |
| `Assembler.ImagesOnlyLines` | backend/app/converter.py:179-184 | with no fragments there are exactly two lines per image, link then caption, in input order |
| `Assembler.GroupImagesByPage` | backend/app/converter.py:200-206 | each page's list holds that page's images in extraction order, and only pages with images have a list |
| `Assembler.WalkFragments` | backend/app/converter.py:208-271 | the loop's lines, pending paragraph, `last_y` and `current_page` are the specification state after all fragments |
| `Assembler.FormatToken` | backend/app/converter.py:255-257 | the token computed inside the loop is the one the specification assigns to that fragment |
| `Assembler.FinalTokens` | backend/app/converter.py:215-277 | the tokens of the non-blank fragments appear once each, in order, across paragraphs and heading lines; every paragraph line is non-blank |
| `Assembler.FinalPictures` | backend/app/converter.py:201-284 | the pictures in the assembled lines are, in order, the images of each page the walk leaves, and then those of the last page |
| `Assembler.NodeLinesKept` | backend/app/converter.py:220-283 | every line a paragraph, heading or picture writes is non-blank, and a spacer writes one blank line |
| `Assembler.ContentLines` | backend/app/converter.py:185-287 | the non-blank assembled lines are exactly the lines of the nodes other than spacers, in order |
| `Assembler.MarkdownContent` | backend/app/converter.py:185-289 | after `post_process_markdown` the non-blank lines are still exactly the lines of the non-spacer nodes, and those nodes hold every non-blank fragment's token once, in order, and the images of the pages the walk stands on, page by page |
| `Assembler.StepNewPage` | backend/app/converter.py:219-237 | a change of page closes the current stay: its pending paragraph and then its page's image block go after everything written before, and the new page starts with an empty paragraph and no `last_y` |
| `Assembler.RunStays` | backend/app/converter.py:208-269 | after any prefix of the fragments the loop state is the current page's own state placed behind the finished pages, each finished page's text followed by its image block |
| `Assembler.FinalLayout` | backend/app/converter.py:208-283 | the assembled nodes are, page stay by page stay, that stay's text and then its page's image block, the last block without a trailing empty line |
| `Assembler.StaysTrail` | backend/app/converter.py:208-237 | the stays stand, one each, on the pages of the walk's trail, in order |
| `Assembler.StaysHoldText` | backend/app/converter.py:238-275 | the text of a stay consists of paragraphs and heading lines only; images are written only where the page changes or at the end |
| `Assembler.PageByPage` | backend/app/converter.py:208-283 | the assembled document is, for each page of the trail in turn, the text written while on it and then that page's images |
| `Assembler.TrailMembers` | backend/app/converter.py:198-235 | the pages whose images are emitted are page 1 and the pages that carry a non-blank fragment |
| `Assembler.TrailIncreasing` | backend/app/converter.py:219-235 | when fragments come in page order, the emitted page sequence strictly increases, so no page's images are emitted twice |
| `Assembler.JoinsParagraph` | backend/app/converter.py:238-269 | a token joins the pending paragraph iff it is on the same page, the vertical gap is not above 0.8 × its font size, and it is not a heading, and the emitted nodes are then unchanged; otherwise the emitted nodes become the flushed paragraph, then the left page's spacer–images–spacer block on a page change, then a heading line if the token is a heading, and the new pending paragraph is `[token]` or empty for a heading |
| `Assembler.RunSound` | backend/app/converter.py:221-266 | every paragraph emitted during the walk is a non-empty list of non-heading, non-blank tokens |
| `Assembler.UniformSizeHasNoHeadings` | backend/app/converter.py:187-193 | when all fragments share one positive size, none is classified as a heading |
| `PostProcess.PostProcessMarkdown` | backend/app/converter.py:327-354 | the two loops return exactly `PostProcessed(lines)` |
| `PostProcess.PostProcessShape` | backend/app/converter.py:331-354 | each output line is non-blank or `''`; the first line is never `''`; `''` appears only right before a list line whose predecessor starts with neither a list prefix nor `#`; and every such list line gets one |
| `PostProcess.PostProcessKeepsText` | backend/app/converter.py:333-345 | the non-blank lines come out unchanged and in order, and no whitespace-only line survives |
| `PostProcess.PostProcessIdempotent` | backend/app/converter.py:327-354 | applying the post-processor twice equals applying it once |
| `PostProcess.SqueezedIdentity` | backend/app/converter.py:347-352 | the squeeze pass leaves a list without consecutive `''` unchanged |
| `XmlText.CleanTextForXml` | backend/app/converter.py:520-534 | the result is no longer than the input and holds none of U+0000–U+0008, U+000B, U+000C, U+000E–U+001F, U+007F |
| `XmlText.CleanChar` | backend/app/converter.py:526 | a single character is dropped iff it is one of those controls; tab, LF and CR are kept |
| `XmlText.CleanIdentityIff` | backend/app/converter.py:526 | text without those controls comes back unchanged, and only such text does |
| `XmlText.CleanIdempotent` | backend/app/converter.py:520-534 | cleaning twice equals cleaning once |
| `XmlText.CleanSplitsText` | backend/app/converter.py:526 | together, the kept and the removed characters are exactly the input's characters |
| `XmlText.CleanAppend` | backend/app/converter.py:526 | cleaning a concatenation cleans each part, so order is kept |
| `Word.WordDocument.AddHeading` | backend/app/converter.py:569-573 | `add_heading` appends one heading block |
| `Word.WordDocument.AddRun` | backend/app/converter.py:580 | `add_run` appends a run to the last paragraph and changes nothing else |
| `Word.WordDocument.AddPicture` | backend/app/converter.py:460-463 | `add_picture` puts the image into the last image paragraph |
| `Word.WordDocument.constructor` | backend/app/converter.py:398 | `Document()` starts with no blocks |
| `Word.WordDocument.AddParagraph` | backend/app/converter.py:578 | `add_paragraph()` appends one empty paragraph |
| `Word.WordDocument.AddPageBreak` | backend/app/converter.py:419 | `add_page_break()` appends one page break |
| `Word.WordDocument.AddImageParagraph` | backend/app/converter.py:455-456 | the centred image paragraph is appended with no picture yet |
| `Word.WordDocument.AddCaption` | backend/app/converter.py:466-467 | the caption paragraph is appended with its text |
| `Word.WordDocument.AddCenteredText` | backend/app/converter.py:475-476 | the centred fallback paragraph is appended with its text |
| `Word.AddBodyRun` | backend/app/converter.py:577-580 | a run goes into the open paragraph, or into a new paragraph when none is open; blocks before those of this page are not touched |
| `Word.ClampSize` | backend/app/converter.py:589 | run sizes are `max(9, min(size, 16))`: always in [9, 16], unchanged inside, 9 below and 16 above |
| `Word.RoleOf` | backend/app/converter.py:567-575 | level 2 iff size ≥ avg×1.2 and size equals the page maximum; otherwise level 3 iff size ≥ avg×1.1; otherwise body text |
| `Word.FragmentAction` | backend/app/converter.py:559-589 | the branch ladder of one fragment yields its specified action: skip blank text, a heading of level 2 or 3, or a run with bits 16/2 as bold/italic and the clamped size |
| `Word.ActionsOfLevels` | backend/app/converter.py:567-575 | every heading a page adds has level 2 or 3 |
| `Word.WalkPage` | backend/app/converter.py:556-600 | the loop appends exactly the blocks that replaying the page's actions gives |
| `Word.AddTextToWordDoc` | backend/app/converter.py:536-600 | the document becomes its old blocks followed by `TextBlocks(frs)`, with statistics taken over this page's fragments only; nothing is added for no fragments |
| `Word.ReplayOpen` | backend/app/converter.py:556-600 | whenever a paragraph is open, it is the last block of the document |
| `WordProperties.TextBlocksItems` | backend/app/converter.py:544-600 | read in order, the page's headings and runs are exactly one item per non-blank fragment, from an independent definition made directly from the source's conditions |
| `WordProperties.TextBlocksNoEmptyParagraph` | backend/app/converter.py:577-580 | a paragraph is only created with the run that needed it |
| `WordProperties.RunJoinsIff` | backend/app/converter.py:591-600 | two consecutive runs share a paragraph iff the second fragment's y0 is within 0.5 × the first's size; otherwise the second opens a new paragraph |
| `WordProperties.HeadingThenRunOpensParagraph` | backend/app/converter.py:567-578 | a run right after a heading opens a new paragraph |
| `WordProperties.UniformPageHasNoHeadings` | backend/app/converter.py:548-575 | a page whose fragments share one positive size becomes paragraphs only |
| `PdfWord.CollectPageFragments` | backend/app/converter.py:433-446 | a page keeps the spans whose XML-cleaned text is non-blank, carrying the cleaned text and the 1-based page number |
| `PdfWord.AddPageImages` | backend/app/converter.py:451-476 | per image: an empty image paragraph if the file is missing; the picture and the caption `图片 i (wxh)` if it embeds; the empty paragraph plus `[图片: name]` if embedding raises |
| `PdfWord.AddImage` | backend/app/converter.py:453-476 | one image adds its centred paragraph, then the picture and its caption `图片 i (wxh)` when the file exists and embeds, the placeholder `[图片: name]` when embedding raises, and nothing more when the file is missing |
| `PdfWord.AddPage` | backend/app/converter.py:414-476 | one page appends a page break (except page 1), the heading `第 n 页`, the text blocks and the image blocks, and returns that page's image records |
| `PdfWord.PdfToWord` | backend/app/converter.py:356-509 | the whole function returns exactly `WordConversionOf`: the three early errors in the source's order, else success with the default `.docx` path, the image count and the page count |
| `PdfWordProperties.PageBlocksShape` | backend/app/converter.py:414-476 | each page contributes exactly one page heading, one page break unless it is the first, and the embedded pictures of its own images |
| `PdfWordProperties.DocumentShape` | backend/app/converter.py:400-476 | the document opens with the title heading, has page headings `第 1 页` … `第 n 页` in order, n − 1 page breaks, and embeds exactly the embeddable images of all pages in order |
| `PdfWordProperties.ImagesBlocksShape` | backend/app/converter.py:452-476 | the image blocks carry no page heading or break and embed exactly the images that exist and do not fail |
| `PdfWordProperties.PageTitleInjective` | backend/app/converter.py:422 | distinct pages get distinct headings |
| `PdfWordProperties.ConversionErrors` | backend/app/converter.py:367-395 | the conversion succeeds iff python-docx is present, the file exists and has pages; the failures carry the source's three messages in its order of checks |
| `PdfWordProperties.ConversionSuccess` | backend/app/converter.py:398-491 | a success reports the page count and the image count, uses `{base}.docx` beside the input unless a path is given, opens with the title heading, has page headings `第 1 页` … `第 n 页` in order, n − 1 page breaks, and embeds exactly the embeddable extracted images |
| `Crop.CropRect` | backend/app/converter.py:659-671 | a crop rectangle exists exactly when the page height is non-zero (the ratio divides by it) |
| `Crop.CropPage` | backend/app/converter.py:654-702 | one page yields its clip, the left edge of the fine trim ⌊(w − ⌊3h/4⌋)/2⌋, the trimmed size (⌊3h/4⌋, h) and the name `page_NNN.png` under the temporary directory, or nothing when the division raises |
| `Crop.PdfToCroppedImages` | backend/app/converter.py:602-740 | the whole function returns exactly `CropResultOf`: the missing-file and empty-PDF errors, the caught division error, or success with the zip path, the message and the counts |
| `Crop.CroppedPagesFailure` | backend/app/converter.py:650-671 | once one page raises, the whole job fails |
| `CropProperties.CropRectGeometry` | backend/app/converter.py:659-671 | for a page with positive sides, the clip lies inside the page, is centred on both axes, has width:height exactly 3:4, and spans the full page on one axis |
| `CropProperties.CropRectLargest` | backend/app/converter.py:662-671 | no 3:4 rectangle that fits on the page is larger than the clip |
| `CropProperties.CropRectWholePageIff` | backend/app/converter.py:662-671 | the clip is the whole page iff the page already is 3:4 |
| `CropProperties.TargetWidthFloor` | backend/app/converter.py:684-685 | the trimmed width is the largest whole number not above three quarters of the height |
| `CropProperties.TargetWidthExactIff` | backend/app/converter.py:683-690 | the saved image is exactly 3:4 iff the rendered height is a multiple of 4 |
| `CropProperties.TrimCentred` | backend/app/converter.py:686-690 | when the rendering is wide enough, the trim's left margin is non-negative and the right margin equals it or is one column wider |
| `CropProperties.CroppedNameInjective` | backend/app/converter.py:693 | distinct pages are saved under distinct names |
| `CropProperties.CroppedPagesDefinedIff` | backend/app/converter.py:650-671 | the page loop succeeds iff no page has zero height |
| `CropProperties.CroppedPagesContents` | backend/app/converter.py:650-702 | on success there is one record per page in page order, with page number k+1, its name and path, its own clip, the trim's left edge ⌊(w − ⌊3h/4⌋)/2⌋ from its rendering, the width ⌊3h/4⌋ and the unchanged height |
| `CropProperties.CroppedPagesDistinctNames` | backend/app/converter.py:693-709 | the zip never holds two entries with the same name |
| `CropProperties.CropOutcome` | backend/app/converter.py:619-740 | the job succeeds iff the file exists, has pages and no page has zero height; the failures carry the source's messages in its order of checks; success reports one image per page |
| `Links.MatchAt` | frontend/app.js:500-502 | a match of `!\[([^\]]*)\]\(([^)]+)\)` at the start of the text is the literal `![alt](target)` with no `]` in alt and a non-empty target without `)` |
| `Links.LastSegment` | frontend/app.js:505 | `split("/").pop()` is the suffix after the last `/`: it holds no `/`, and the character before it is `/` whenever it is shorter than the target |
| `LinkProperties.MatchAtComplete` | frontend/app.js:500-502 | every text of the pattern's shape is matched, with its own alt text and target |
| `LinkProperties.RewriteLink` | frontend/app.js:500-510 | each link is rewritten on its own: a target containing `/api/images/` becomes its last segment with the alt text kept; any other link is kept unchanged |
| `LinkProperties.RewritePlainPrefix` | frontend/app.js:500-511 | text outside links is copied unchanged |
| `LinkProperties.RewriteWithoutMarker` | frontend/app.js:503-510 | Markdown that never mentions `/api/images/` comes back unchanged |
| `LinkProperties.RewriteIdempotent` | frontend/app.js:498-512 | rewriting twice equals rewriting once |
| `LinkProperties.ReplacementStable` | frontend/app.js:500-510 | a link the rewrite produced is reproduced unchanged by a second rewrite, whatever text follows it |
| `LinkProperties.NoMatchPreserved` | frontend/app.js:500-502 | where the pattern fails at a position, it still fails there after the rewrite |
| `Filenames.StripPdf` | frontend/app.js:350 | the result is a prefix of the name; exactly four characters go when the name ends in `.pdf` in any ASCII case, and none otherwise |
| `Filenames.MarkdownFilename` | frontend/app.js:347-352 | the Markdown download name always ends in `.md` |
| `Filenames.ZipFilename` | frontend/app.js:437-440 | the archive name always ends in `_package.zip` |
| `FilenameProperties.StripPdfAppend` | frontend/app.js:350 | stripping undoes appending any case spelling of `.pdf`, and removes only one of them |
| `FilenameProperties.StripPdfUnchangedIff` | frontend/app.js:350 | a name is left alone iff it does not end in a spelling of `.pdf` |
| `FilenameProperties.DownloadNamesOfPdf` | frontend/app.js:348-352 | `x.PDF` downloads as `x.md` and `x_package.zip` |
| `FilenameProperties.DownloadNamesFallback` | frontend/app.js:348 | without an original name the downloads are `converted.md` and `converted_package.zip` |
| `FilenameProperties.DownloadNamesAgree` | frontend/app.js:348-352 | the two downloads always share their base name |
| `FilenameProperties.DownloadNamesOfOther` | frontend/app.js:350-351 | any other non-empty name keeps all its text before the new extension |
| `Component.AppState.constructor` | frontend/app.js:4-17 | the fields start as `data()` gives them |
| `Component.AppState.ValidateAndSetFile` | frontend/app.js:50-73 | the new state is `Validated(old state, file)`, and the no-duplicates invariant holds |
| `Component.AppState.ClearFile` | frontend/app.js:76-81 | the selection and original name are cleared, then the output |
| `Component.AppState.ClearOutput` | frontend/app.js:84-90 | Markdown, images, count and downloads are emptied and the copy label is reset; nothing else changes |
| `Component.AppState.HandleDrop` | frontend/app.js:41-47 | the drag flag is cleared and the first dropped file, if any, is validated |
| `Component.AppState.ShowError` | frontend/app.js:480-482 | only the error message changes |
| `Component.AppState.ClearError` | frontend/app.js:493-495 | only the error message changes, to `""` |
| `Component.AppState.DownloadImage` | frontend/app.js:264-297 | the result is true iff the fetch succeeded; a success adds the file name only if absent; a failure sets the message `下载图片 {name} 失败: {reason}`; the list stays duplicate-free |
| `ComponentProperties.ValidateOutcome` | frontend/app.js:51-72 | no file: nothing changes; a file that fails the type test: only the error `请选择PDF文件。` is set, and that test comes first; an oversize file: only `文件大小超过50MB限制。` is set; otherwise the file is selected, its name recorded, the error cleared and the whole output cleared |
| `ComponentProperties.ValidateSelectsIff` | frontend/app.js:51-72 | a new file becomes the selection iff it passes both tests |
| `ComponentProperties.ValidateTwice` | frontend/app.js:50-73 | validating the same file twice equals validating it once |
| `ComponentProperties.PdfNamePassesTypeTest` | frontend/app.js:54-57 | a name ending in `.pdf` in any case passes the type test whatever the MIME type |
| `ComponentProperties.ClearOutputIdempotent` | frontend/app.js:84-90 | clearing the output twice equals once, and the selection survives it |
| `ComponentProperties.ClearFileResets` | frontend/app.js:76-90 | after `clearFile` the state is the initial one, except for the error message and the two flags |
| `ComponentProperties.DownloadKeepsNoDuplicates` | frontend/app.js:286-289 | downloads never list a file twice, record a successful one, forget none and add nothing else |
| `ComponentProperties.DownloadTwice` | frontend/app.js:286-289 | downloading the same image twice leaves the list as downloading it once |
| `ComponentProperties.DownloadFailure` | frontend/app.js:268-295 | a failed download changes only the error message, which names the file and the HTTP status or the thrown message |

## Left out

- PyMuPDF (`fitz.open`, `get_text("dict")`, `get_images`, `Pixmap`, `get_pixmap`), python-docx, PIL and `zipfile` are foreign libraries. Their outputs are inputs here: spans, image descriptors, page and rendered pixel sizes, and the sets of existing and failing image paths. Saving files, zip packaging and the removal of the temporary files are not modelled.
- The text model flattens PyMuPDF's block, line and span nesting into one ordered sequence of spans per page. Image blocks without `lines` carry no text and are dropped.
- `pdf_to_markdown` (the orchestration that opens the PDF and feeds the assembler) is outside the modelled core. The assembler takes its fragments and image records as inputs.
- The generic `except Exception` paths of `pdf_to_word` (`转换过程中出错: …`) and `pdf_to_cropped_images` depend on library exceptions. The one exception the crop arithmetic itself can raise, division by a zero page height, is modelled. A zero-width page gives an empty clip, which the renderer might reject; that is not modelled.
- Images whose pixmap creation or saving raises are modelled as a `fails` flag on the descriptor. The Word path's `os.path.exists` test and the `add_picture` failure become the sets `onDisk` and `failing`.
- `print` logging, `os.makedirs`, and the closing of the PDF in `finally` are I/O.
- `os.path.join` is modelled as `directory + "/" + name`, which is what it gives for a non-empty directory without a trailing `/`; the model assumes such a directory. `os.path.splitext(os.path.basename(…))` is not modelled: the base name is an input.
- Python's `\d` and `\s` are Unicode-aware. `\s` is modelled as `str.isspace`'s set. `\d` is modelled as the ASCII digits, so a numbered item written in non-ASCII digits is outside the model.
- Classifier.Classify: float rounding of `avg * 1.2 * 1.3` and similar is not modelled; the thresholds are exact reals.
- `max_font_size` in `convert_elements_to_markdown` is computed but never used, so the model has nothing for it.
- Crop.CropPage: the rendered pixel size is an input, so the model does not relate the pixel size to the clip (the 2× rendering matrix is PyMuPDF's business).
- In the front end, everything that does `fetch`, Blob/URL, DOM, `alert`, clipboard or `setTimeout` is network and UI. That covers `convertToMarkdown`, `convertToImages`, `convertToWord`, `downloadAllImages`, `copyToClipboard`, `downloadCompletePackage` and the network half of `downloadImage`. `formatFileSize` uses `Math.log` and float formatting.
- Component.AppState.ClearFile: resetting the file input element's value is part of the page, not of the component state.
- Component.LooksLikePdf: JavaScript's `toLowerCase` is Unicode-aware, but no non-ASCII character lower-cases to `.`, `p`, `d` or `f`. The `.pdf` suffix test is therefore the ASCII one.
- Filenames.StripPdf: `/\.pdf$/i` has neither the `u` nor the `m` flag, so case folding is ASCII-only and `$` anchors at the very end; the model follows that.
- The backend routes (`routes.py`), the debugging scripts and the page's HTML are not part of this model.
