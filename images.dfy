/**
 * The image extractor (`extract_images_from_page`).  The PDF library's
 * pixmaps are replaced by descriptors: channel count `n`, alpha channel count,
 * pixel size, and whether creating or saving the pixmap raises.
 */
module Images {
  import opened Text

  /** One embedded image as the PDF library reports it. */
  datatype RawImage = RawImage(n: int, alpha: int, width: nat, height: nat, fails: bool)

  /** The record kept for a saved image. `page` and `index` are 1-based. */
  datatype ImageRecord = ImageRecord(filename: string, path: string, page: nat, index: nat, width: nat, height: nat)

  /** `f"{base_filename}_page{page}_img{index}.png"`. */
  function ImageFilename(base: string, page: nat, index: nat): string
  {
    base + "_page" + NatToString(page) + "_img" + NatToString(index) + ".png"
  }

  /** `os.path.join(directory, name)` for a non-empty directory without a trailing `/`. */
  function JoinPath(directory: string, name: string): string
  {
    directory + "/" + name
  }

  /** The image is kept: it is not CMYK (`pix.n - pix.alpha < 4`) and nothing raised. */
  predicate Produces(raw: RawImage)
  {
    raw.n - raw.alpha < 4 && !raw.fails
  }

  /** The record for the `i`-th (0-based) image of page `pageNum` (0-based). */
  function RecordFor(raw: RawImage, pageNum: nat, i: nat, directory: string, base: string): ImageRecord
  {
    var name := ImageFilename(base, pageNum + 1, i + 1);
    ImageRecord(name, JoinPath(directory, name), pageNum + 1, i + 1, raw.width, raw.height)
  }

  /** The records produced for a page's image list, in extraction order. */
  function PageImages(raws: seq<RawImage>, pageNum: nat, directory: string, base: string): seq<ImageRecord>
  {
    if raws == [] then []
    else
      var k := |raws| - 1;
      PageImages(raws[..k], pageNum, directory, base) +
        (if Produces(raws[k]) then [RecordFor(raws[k], pageNum, k, directory, base)] else [])
  }

  /** `extract_images_from_page(page, page_num, images_dir, base_filename)`. */
  method ExtractImagesFromPage(raws: seq<RawImage>, pageNum: nat, directory: string, base: string)
    returns (images: seq<ImageRecord>)
    ensures images == PageImages(raws, pageNum, directory, base)
  {
    images := [];
    var i := 0;
    while i < |raws|
      invariant 0 <= i <= |raws|
      invariant images == PageImages(raws[..i], pageNum, directory, base)
    {
      var raw := raws[i];
      if raw.n - raw.alpha < 4 && !raw.fails {
        var name := ImageFilename(base, pageNum + 1, i + 1);
        images := images + [ImageRecord(name, JoinPath(directory, name), pageNum + 1, i + 1, raw.width, raw.height)];
      }
      assert raws[..i + 1][..i] == raws[..i];
      i := i + 1;
    }
    assert raws[..i] == raws;
  }

  /** Every record comes from a kept image at the position its index names. */
  predicate RecordsFromKept(imgs: seq<ImageRecord>, raws: seq<RawImage>, pageNum: nat, directory: string, base: string)
  {
    forall j :: 0 <= j < |imgs| ==>
      1 <= imgs[j].index <= |raws| && Produces(raws[imgs[j].index - 1]) &&
      imgs[j] == RecordFor(raws[imgs[j].index - 1], pageNum, imgs[j].index - 1, directory, base)
  }

  /** Every kept image has a record. */
  predicate KeptAreRecorded(imgs: seq<ImageRecord>, raws: seq<RawImage>)
  {
    forall k :: 0 <= k < |raws| && Produces(raws[k]) ==> exists j :: 0 <= j < |imgs| && imgs[j].index == k + 1
  }

  predicate IndicesIncrease(imgs: seq<ImageRecord>)
  {
    forall j1, j2 :: 0 <= j1 < j2 < |imgs| ==> imgs[j1].index < imgs[j2].index
  }

  /**
   * A CMYK or failing image never yields a record, every kept one does, with
   * the index of its position in the page's full image list, so indices
   * strictly increase and skipped images leave gaps.
   */
  lemma PageImagesExact(raws: seq<RawImage>, pageNum: nat, directory: string, base: string)
    ensures var imgs := PageImages(raws, pageNum, directory, base);
      RecordsFromKept(imgs, raws, pageNum, directory, base) && KeptAreRecorded(imgs, raws) && IndicesIncrease(imgs)
  {
    PageImagesFromKept(raws, pageNum, directory, base);
    PageImagesComplete(raws, pageNum, directory, base);
  }

  lemma {:induction false} PageImagesFromKept(raws: seq<RawImage>, pageNum: nat, directory: string, base: string)
    ensures RecordsFromKept(PageImages(raws, pageNum, directory, base), raws, pageNum, directory, base)
    ensures IndicesIncrease(PageImages(raws, pageNum, directory, base))
  {
    if raws != [] {
      var k := |raws| - 1;
      var pre := raws[..k];
      PageImagesFromKept(pre, pageNum, directory, base);
      var before := PageImages(pre, pageNum, directory, base);
      var imgs := PageImages(raws, pageNum, directory, base);
      forall j | 0 <= j < |before|
        ensures imgs[j] == before[j] && before[j].index <= k && raws[before[j].index - 1] == pre[before[j].index - 1]
      {
      }
    }
  }

  lemma {:induction false} PageImagesComplete(raws: seq<RawImage>, pageNum: nat, directory: string, base: string)
    ensures KeptAreRecorded(PageImages(raws, pageNum, directory, base), raws)
  {
    if raws != [] {
      var k := |raws| - 1;
      var pre := raws[..k];
      PageImagesComplete(pre, pageNum, directory, base);
      var before := PageImages(pre, pageNum, directory, base);
      var imgs := PageImages(raws, pageNum, directory, base);
      forall q | 0 <= q < |raws| && Produces(raws[q])
        ensures exists j :: 0 <= j < |imgs| && imgs[j].index == q + 1
      {
        if q < k {
          assert pre[q] == raws[q];
          var j :| 0 <= j < |before| && before[j].index == q + 1;
          assert imgs[j] == before[j];
        } else {
          assert imgs[|imgs| - 1].index == q + 1;
        }
      }
    }
  }

  /** All records of a page belong to that page. */
  lemma {:induction false} PageImagesPage(raws: seq<RawImage>, pageNum: nat, directory: string, base: string)
    ensures forall j :: 0 <= j < |PageImages(raws, pageNum, directory, base)| ==>
      PageImages(raws, pageNum, directory, base)[j].page == pageNum + 1
  {
    if raws != [] {
      PageImagesPage(raws[..|raws| - 1], pageNum, directory, base);
    }
  }

  /** Splitting at the first non-digit separator: digit strings before it agree. */
  lemma DigitsThenSeparator(a: string, x: string, b: string, y: string, sep: char)
    requires AllDigits(a) && AllDigits(b) && !IsDigit(sep)
    requires a + [sep] + x == b + [sep] + y
    ensures a == b && x == y
  {
    var l, l' := a + [sep] + x, b + [sep] + y;
    var m := if |a| < |b| then |a| else |b|;
    assert l[m] == l'[m];
    assert a == l[..|a|] == b;
    assert x == l[|a| + 1..] == y;
  }

  /** Distinct (page, index) pairs give distinct file names for one base name. */
  lemma ImageFilenameInjective(base: string, p1: nat, i1: nat, p2: nat, i2: nat)
    requires ImageFilename(base, p1, i1) == ImageFilename(base, p2, i2)
    ensures p1 == p2 && i1 == i2
  {
    var a1, a2 := NatToString(p1), NatToString(p2);
    var b1, b2 := NatToString(i1), NatToString(i2);
    FilenameTail(base, p1, i1);
    FilenameTail(base, p2, i2);
    DigitsThenSeparator(a1, "img" + b1 + ".png", a2, "img" + b2 + ".png", '_');
    ImgTail(b1);
    ImgTail(b2);
    DigitsThenSeparator(b1, "png", b2, "png", '.');
    NatToStringInjective(p1, p2);
    NatToStringInjective(i1, i2);
  }

  /** What follows `<base>_page` in an image file name. */
  lemma FilenameTail(base: string, page: nat, index: nat)
    ensures ImageFilename(base, page, index)[|base| + 5..]
      == NatToString(page) + ['_'] + ("img" + NatToString(index) + ".png")
  {
    var tail := NatToString(page) + ['_'] + ("img" + NatToString(index) + ".png");
    assert ImageFilename(base, page, index) == (base + "_page") + tail;
  }

  /** What follows `img` in the last part of an image file name. */
  lemma ImgTail(b: string)
    ensures ("img" + b + ".png")[3..] == b + ['.'] + "png"
  {
  }
}
