/**
 * `pdf_to_cropped_images`: each page is clipped to a centred 3:4 rectangle,
 * rendered, trimmed to an exact pixel width and saved as `page_NNN.png`; the
 * files are then zipped.  Page sizes are exact reals; the rendered pixel size
 * of each clip is an input, since the renderer is not modelled.
 */
module Crop {
  import opened Wrappers
  import opened Text
  import opened Images

  /** A rectangle `fitz.Rect(x0, y0, x1, y1)`. */
  datatype Rect = Rect(x0: real, y0: real, x1: real, y1: real)

  /** One page: its size in points and the pixel size the renderer returns for the clip. */
  datatype PageGeometry = PageGeometry(width: real, height: real, renderedWidth: nat, renderedHeight: nat)

  /**
   * One saved image: 1-based page, file name, path, the clip used, the
   * column of the rendering where the fine trim starts (negative when the
   * rendering is narrower than the target and the trim pads it), and the
   * final pixel size.
   */
  datatype CroppedImage = CroppedImage(page: nat, filename: string, path: string, clip: Rect,
                                       trimLeft: int, width: nat, height: nat)

  /** The success dictionary, with the (path, archive name) pairs written to the zip. */
  datatype CropResult = CropResult(message: string, zipPath: string, imagesCount: nat, pagesCount: nat,
                                   images: seq<CroppedImage>)

  /** `target_ratio = 3.0 / 4.0`. */
  const TargetRatio: real := 0.75

  /**
   * The crop rectangle for a page of the given size; `None` when the height is
   * zero, where `page_width / page_height` raises.
   */
  function CropRect(width: real, height: real): (r: Option<Rect>)
    ensures r.Some? <==> height != 0.0
  {
    if height == 0.0 then None
    else if width / height > TargetRatio then
      var newWidth := height * TargetRatio;
      var xOffset := (width - newWidth) / 2.0;
      Some(Rect(xOffset, 0.0, xOffset + newWidth, height))
    else
      var newHeight := width / TargetRatio;
      var yOffset := (height - newHeight) / 2.0;
      Some(Rect(0.0, yOffset, width, yOffset + newHeight))
  }

  /** The width of a rendered image after the fine trim: `int(img_height * 0.75)`. */
  function TargetWidth(h: nat): nat
  {
    (3 * h) / 4
  }

  /** The left edge of the fine trim, `(img_width - target_width) // 2`; Python's `//` floors. */
  function TrimLeft(w: nat, h: nat): int
  {
    (w - TargetWidth(h)) / 2
  }

  /** `f"page_{page_num + 1:03d}.png"`. */
  function CroppedName(pageNum: nat): string
  {
    "page_" + ZeroPad(pageNum + 1, 3) + ".png"
  }

  /** The record for page `k` (0-based), or `None` when its crop raises. */
  function CroppedPage(g: PageGeometry, k: nat, tempDir: string): Option<CroppedImage>
  {
    match CropRect(g.width, g.height)
    case None => None
    case Some(clip) =>
      var name := CroppedName(k);
      Some(CroppedImage(k + 1, name, JoinPath(tempDir, name), clip, TrimLeft(g.renderedWidth, g.renderedHeight),
                        TargetWidth(g.renderedHeight), g.renderedHeight))
  }

  /** The records of the first pages, or `None` as soon as one page raises. */
  function CroppedPages(pages: seq<PageGeometry>, tempDir: string): Option<seq<CroppedImage>>
  {
    if pages == [] then Some([])
    else
      var k := |pages| - 1;
      match CroppedPages(pages[..k], tempDir)
      case None => None
      case Some(done) =>
        match CroppedPage(pages[k], k, tempDir)
        case None => None
        case Some(img) => Some(done + [img])
  }

  /** The message of the caught `ZeroDivisionError`. */
  const DivisionError: string := "裁剪过程中出错: float division by zero"

  /** What `pdf_to_cropped_images(pdf_path, output_dir)` returns. */
  function CropResultOf(pdfExists: bool, pdfPath: string, directory: string, base: string,
                        outputDir: Option<string>, pages: seq<PageGeometry>): Result<CropResult>
  {
    if !pdfExists then Failure("文件不存在: " + pdfPath)
    else if pages == [] then Failure("PDF文件为空")
    else
      var out := if outputDir.Some? then outputDir.value else directory;
      var tempDir := JoinPath(out, base + "_cropped_images");
      match CroppedPages(pages, tempDir)
      case None => Failure(DivisionError)
      case Some(imgs) =>
        Success(CropResult("PDF成功裁剪为" + NatToString(|imgs|) + "张3:4比例图片",
                           JoinPath(out, base + "_cropped_images.zip"), |imgs|, |pages|, imgs))
  }

  /** The geometry of one page: the clip, and the trimmed pixel size of its rendering. */
  method CropPage(g: PageGeometry, k: nat, tempDir: string) returns (r: Option<CroppedImage>)
    ensures r == CroppedPage(g, k, tempDir)
  {
    if g.height == 0.0 {
      return None;
    }
    var targetRatio := 3.0 / 4.0;
    var currentRatio := g.width / g.height;
    var clip;
    if currentRatio > targetRatio {
      var newWidth := g.height * targetRatio;
      var xOffset := (g.width - newWidth) / 2.0;
      clip := Rect(xOffset, 0.0, xOffset + newWidth, g.height);
    } else {
      var newHeight := g.width / targetRatio;
      var yOffset := (g.height - newHeight) / 2.0;
      clip := Rect(0.0, yOffset, g.width, yOffset + newHeight);
    }
    var imgWidth: int, imgHeight := g.renderedWidth, g.renderedHeight;
    var targetWidth := (3 * imgHeight) / 4;
    var left := 0;
    if imgWidth != targetWidth {
      left := (imgWidth - targetWidth) / 2;
      var right := left + targetWidth;
      imgWidth := right - left;
    }
    var name := "page_" + ZeroPad(k + 1, 3) + ".png";
    r := Some(CroppedImage(k + 1, name, JoinPath(tempDir, name), clip, left, imgWidth, imgHeight));
  }

  /** `pdf_to_cropped_images(pdf_path, output_dir)`. */
  method PdfToCroppedImages(pdfExists: bool, pdfPath: string, directory: string, base: string,
                            outputDir: Option<string>, pages: seq<PageGeometry>) returns (r: Result<CropResult>)
    ensures r == CropResultOf(pdfExists, pdfPath, directory, base, outputDir, pages)
  {
    if !pdfExists {
      return Failure("文件不存在: " + pdfPath);
    }
    if |pages| == 0 {
      return Failure("PDF文件为空");
    }
    var out := if outputDir.Some? then outputDir.value else directory;
    var tempDir := JoinPath(out, base + "_cropped_images");
    var zipPath := JoinPath(out, base + "_cropped_images.zip");
    var cropped: seq<CroppedImage> := [];
    var k := 0;
    while k < |pages|
      invariant 0 <= k <= |pages|
      invariant CroppedPages(pages[..k], tempDir) == Some(cropped)
    {
      assert pages[..k + 1][..k] == pages[..k];
      var img := CropPage(pages[k], k, tempDir);
      if img.None? {
        CroppedPagesFailure(pages, k + 1, tempDir);
        return Failure("裁剪过程中出错: float division by zero");
      }
      cropped := cropped + [img.value];
      k := k + 1;
    }
    assert pages[..k] == pages;
    r := Success(CropResult("PDF成功裁剪为" + NatToString(|cropped|) + "张3:4比例图片", zipPath,
                            |cropped|, |pages|, cropped));
  }

  /** Once a prefix of the pages fails, the whole job fails. */
  lemma {:induction false} CroppedPagesFailure(pages: seq<PageGeometry>, k: nat, tempDir: string)
    requires k <= |pages| && CroppedPages(pages[..k], tempDir).None?
    ensures CroppedPages(pages, tempDir).None?
    decreases |pages| - k
  {
    if k < |pages| {
      var p := pages[..k + 1];
      assert p[..k] == pages[..k];
      CroppedPagesFailure(pages, k + 1, tempDir);
    } else {
      assert pages[..k] == pages;
    }
  }
}

/** What the crop geometry and the page loop guarantee. */
module CropProperties {
  import opened Wrappers
  import opened Text
  import opened Images
  import opened Crop

  /**
   * For a real page the clip lies inside the page, is centred on both axes,
   * has exactly the 3:4 aspect ratio, and spans the whole page on one axis.
   */
  lemma CropRectGeometry(width: real, height: real)
    requires width > 0.0 && height > 0.0
    ensures CropRect(width, height).Some?
    ensures var c := CropRect(width, height).value;
      && 0.0 <= c.x0 <= c.x1 <= width && 0.0 <= c.y0 <= c.y1 <= height
      && c.x0 == width - c.x1 && c.y0 == height - c.y1
      && 4.0 * (c.x1 - c.x0) == 3.0 * (c.y1 - c.y0)
      && ((c.y0 == 0.0 && c.y1 == height) || (c.x0 == 0.0 && c.x1 == width))
  {
    RatioCompare(width, height);
  }

  /** `width / height > 3/4` is `4 * width > 3 * height` for a positive height. */
  lemma RatioCompare(width: real, height: real)
    requires height > 0.0
    ensures width / height > TargetRatio <==> 4.0 * width > 3.0 * height
  {
    var q := width / height;
    assert width == q * height;
    if q > TargetRatio {
      assert q * height > TargetRatio * height;
    } else {
      assert q * height <= TargetRatio * height;
    }
  }

  /** No 3:4 rectangle that fits on the page is larger than the clip. */
  lemma CropRectLargest(width: real, height: real, w: real, h: real)
    requires width > 0.0 && height > 0.0
    requires 0.0 <= w <= width && 0.0 <= h <= height && 4.0 * w == 3.0 * h
    ensures var c := CropRect(width, height).value; w <= c.x1 - c.x0 && h <= c.y1 - c.y0
  {
    RatioCompare(width, height);
  }

  /** The clip is the whole page exactly when the page already is 3:4. */
  lemma CropRectWholePageIff(width: real, height: real)
    requires width > 0.0 && height > 0.0
    ensures CropRect(width, height) == Some(Rect(0.0, 0.0, width, height)) <==> 4.0 * width == 3.0 * height
  {
    RatioCompare(width, height);
  }

  /** The trimmed width is the largest whole width not above three quarters of the height. */
  lemma TargetWidthFloor(h: nat)
    ensures 4 * TargetWidth(h) <= 3 * h < 4 * TargetWidth(h) + 4
  {
  }

  /** The saved image is exactly 3:4 only when the rendered height is a multiple of four. */
  lemma TargetWidthExactIff(h: nat)
    ensures 4 * TargetWidth(h) == 3 * h <==> h % 4 == 0
  {
    var t := TargetWidth(h);
    if h % 4 == 0 {
      assert h == 4 * (h / 4);
      assert 3 * h == 4 * (3 * (h / 4));
    }
    if 4 * t == 3 * h {
      assert h == 4 * (h - t);
    }
  }

  /**
   * When the rendering is wide enough, the trim removes columns from both
   * sides, with the right margin at most one column wider than the left.
   */
  lemma TrimCentred(w: nat, h: nat)
    requires w >= TargetWidth(h)
    ensures var left := TrimLeft(w, h); var rightMargin := w - (left + TargetWidth(h));
      0 <= left && (rightMargin == left || rightMargin == left + 1)
  {
  }

  /** Distinct pages are saved under distinct names. */
  lemma CroppedNameInjective(p: nat, q: nat)
    requires CroppedName(p) == CroppedName(q)
    ensures p == q
  {
    var a, b := ZeroPad(p + 1, 3), ZeroPad(q + 1, 3);
    Unwrap("page_", a, b, ".png");
    PadInjective(p + 1, q + 1, a, b);
  }

  lemma PadInjective(m: nat, n: nat, a: string, b: string)
    requires a == ZeroPad(m, 3) && b == ZeroPad(n, 3) && a == b
    ensures m == n
  {
    ZeroPadValue(m, 3);
    ZeroPadValue(n, 3);
  }

  /** A common prefix and suffix of equal length can be cancelled. */
  lemma Unwrap(x: string, a: string, b: string, y: string)
    requires x + a + y == x + b + y
    ensures a == b
  {
    var s, t := x + a + y, x + b + y;
    assert |a| == |b|;
    assert a == s[|x|..|x| + |a|];
    assert b == t[|x|..|x| + |b|];
  }

  /** The page loop succeeds exactly when no page has zero height. */
  lemma {:induction false} CroppedPagesDefinedIff(pages: seq<PageGeometry>, tempDir: string)
    ensures CroppedPages(pages, tempDir).Some? <==> forall i :: 0 <= i < |pages| ==> pages[i].height != 0.0
  {
    if pages != [] {
      var k := |pages| - 1;
      CroppedPagesDefinedIff(pages[..k], tempDir);
      assert forall i :: 0 <= i < k ==> pages[..k][i] == pages[i];
    }
  }

  /** On success there is one record per page, in page order, built from that page's own geometry. */
  lemma {:induction false} CroppedPagesContents(pages: seq<PageGeometry>, tempDir: string)
    requires CroppedPages(pages, tempDir).Some?
    ensures var imgs := CroppedPages(pages, tempDir).value;
      && |imgs| == |pages|
      && forall i :: 0 <= i < |pages| ==>
           && imgs[i].page == i + 1
           && imgs[i].filename == CroppedName(i)
           && imgs[i].path == JoinPath(tempDir, CroppedName(i))
           && Some(imgs[i].clip) == CropRect(pages[i].width, pages[i].height)
           && imgs[i].trimLeft == TrimLeft(pages[i].renderedWidth, pages[i].renderedHeight)
           && imgs[i].width == TargetWidth(pages[i].renderedHeight)
           && imgs[i].height == pages[i].renderedHeight
  {
    if pages != [] {
      var k := |pages| - 1;
      CroppedPagesContents(pages[..k], tempDir);
    }
  }

  /** The zip never holds two entries under the same name. */
  lemma CroppedPagesDistinctNames(pages: seq<PageGeometry>, tempDir: string)
    requires CroppedPages(pages, tempDir).Some?
    ensures var imgs := CroppedPages(pages, tempDir).value;
      forall i, j :: 0 <= i < j < |imgs| ==> imgs[i].filename != imgs[j].filename
  {
    CroppedPagesContents(pages, tempDir);
    var imgs := CroppedPages(pages, tempDir).value;
    forall i, j | 0 <= i < j < |imgs|
      ensures imgs[i].filename != imgs[j].filename
    {
      if imgs[i].filename == imgs[j].filename {
        CroppedNameInjective(i, j);
      }
    }
  }

  /**
   * The job succeeds exactly when the file exists, has pages and none of them
   * has zero height; it then reports one image per page, and the failures
   * carry the source's messages in its order of checks.
   */
  lemma CropOutcome(pdfExists: bool, pdfPath: string, directory: string, base: string,
                    outputDir: Option<string>, pages: seq<PageGeometry>)
    ensures var r := CropResultOf(pdfExists, pdfPath, directory, base, outputDir, pages);
      && (r.Success? <==> pdfExists && pages != [] && forall i :: 0 <= i < |pages| ==> pages[i].height != 0.0)
      && (!pdfExists ==> r == Failure("文件不存在: " + pdfPath))
      && (pdfExists && pages == [] ==> r == Failure("PDF文件为空"))
      && (pdfExists && pages != [] && r.Failure? ==> r.message == DivisionError)
      && (r.Success? ==>
            && r.value.imagesCount == |pages| && r.value.pagesCount == |pages|
            && r.value.message == "PDF成功裁剪为" + NatToString(|pages|) + "张3:4比例图片"
            && |r.value.images| == |pages|)
  {
    var out := if outputDir.Some? then outputDir.value else directory;
    var tempDir := JoinPath(out, base + "_cropped_images");
    CroppedPagesDefinedIff(pages, tempDir);
    if CroppedPages(pages, tempDir).Some? {
      CroppedPagesContents(pages, tempDir);
    }
  }
}
