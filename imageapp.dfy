/**
 * The image application's choice of content type when it serves an image's
 * raw bytes: the filename's last dot-separated segment, lower-cased, names
 * the type; `jpg`/`jpeg` and `tif`/`tiff` are recognised, anything else is
 * served as PNG.
 */
module ImageApp {
  import opened Text

  const Jpeg := "image/jpeg"
  const Tiff := "image/tiff"
  const Png := "image/png"

  /**
   * `filename.split('.')[-1]`: the longest suffix of the name with no dot,
   * which follows the last dot, or is the whole name when there is none.
   */
  function Extension(filename: string): (ext: string)
    ensures |ext| <= |filename| && filename[|filename| - |ext|..] == ext && '.' !in ext
    ensures '.' !in filename ==> ext == filename
    ensures '.' in filename ==> |ext| < |filename| && filename[|filename| - |ext| - 1] == '.'
  {
    LastPieceSuffix(filename, '.');
    LastPiece(filename, '.')
  }

  /** The content type `image_raw` sets for an image of this name: JPEG, then TIFF, then the PNG default. */
  function ContentType(filename: string): (mime: string)
    ensures mime == Jpeg || mime == Tiff || mime == Png
  {
    var ext := Lower(Extension(filename));
    if ext in ["jpg", "jpeg"] then Jpeg
    else if ext in ["tif", "tiff"] then Tiff
    else Png
  }

  /** A stored image: its filename and its bytes. */
  datatype Image = Image(name: string, data: seq<bv8>)

  /** What `image_raw` answers: the content type it set and the body it returned. */
  datatype Reply = Reply(contentType: string, body: seq<bv8>)

  /** `image_raw` on the image it looked up: the bytes go out unchanged, typed by the name. */
  function ImageRaw(img: Image): (r: Reply)
    ensures r.body == img.data
    ensures r.contentType == ContentType(img.name)
  {
    Reply(ContentType(img.name), img.data)
  }

  /** `s` spells the lower-case `word` in any mixture of letter cases. */
  predicate SpellsIgnoringCase(s: string, word: string) {
    |s| == |word| && forall i :: 0 <= i < |s| ==> LowerChar(s[i]) == word[i]
  }

  lemma LowerIsWord(s: string, word: string)
    ensures Lower(s) == word <==> SpellsIgnoringCase(s, word)
  {
    if SpellsIgnoringCase(s, word) {
      assert Lower(s) == word;
    }
  }

  /** JPEG is chosen exactly for an extension reading `jpg` or `jpeg` in any case. */
  lemma JpegIff(filename: string)
    ensures var ext := Extension(filename);
      ContentType(filename) == Jpeg <==> SpellsIgnoringCase(ext, "jpg") || SpellsIgnoringCase(ext, "jpeg")
  {
    var ext := Extension(filename);
    LowerIsWord(ext, "jpg");
    LowerIsWord(ext, "jpeg");
  }

  /** TIFF is chosen exactly for an extension reading `tif` or `tiff` in any case. */
  lemma TiffIff(filename: string)
    ensures var ext := Extension(filename);
      ContentType(filename) == Tiff <==> SpellsIgnoringCase(ext, "tif") || SpellsIgnoringCase(ext, "tiff")
  {
    var ext := Extension(filename);
    LowerIsWord(ext, "tif");
    LowerIsWord(ext, "tiff");
  }

  /** PNG is chosen exactly for every other extension, the empty one included. */
  lemma PngIff(filename: string)
    ensures var ext := Extension(filename);
      ContentType(filename) == Png <==>
        !SpellsIgnoringCase(ext, "jpg") && !SpellsIgnoringCase(ext, "jpeg")
        && !SpellsIgnoringCase(ext, "tif") && !SpellsIgnoringCase(ext, "tiff")
  {
    JpegIff(filename);
    TiffIff(filename);
  }

  /** Only the segment after the last dot counts. */
  lemma LastSegmentDecides(prefix: string, ext: string)
    requires '.' !in ext
    ensures Extension(prefix + "." + ext) == ext && Extension(ext) == ext
    ensures ContentType(prefix + "." + ext) == ContentType(ext)
  {
    var name := prefix + "." + ext;
    assert name == prefix + ['.'] + ext;
    SplitLast(prefix, '.', ext);
    assert Extension(name) == ext;
    assert Extension(ext) == ext;
    SameLoweredExtension(name, ext);
  }

  /** Two dot-free suffixes that each follow a dot or fill the name have the same length. */
  lemma ExtensionLengthUnique(s: string, n: nat, m: nat)
    requires n <= |s| && m <= |s|
    requires forall k :: |s| - n <= k < |s| ==> s[k] != '.'
    requires forall k :: |s| - m <= k < |s| ==> s[k] != '.'
    requires n == |s| || s[|s| - n - 1] == '.'
    requires m == |s| || s[|s| - m - 1] == '.'
    ensures n == m
  {
  }

  /** Lower-casing commutes with taking a suffix. */
  lemma LowerSuffix(s: string, n: nat)
    requires n <= |s|
    ensures Lower(s)[|s| - n..] == Lower(s[|s| - n..])
  {
    var m := |s| - n;
    assert s == s[..m] + s[m..];
    LowerAppend(s[..m], s[m..]);
    assert |Lower(s[..m])| == m;
  }

  /** No character of the name's last `|Extension(s)|` is a dot. */
  lemma ExtensionDotFree(s: string)
    ensures forall k :: |s| - |Extension(s)| <= k < |s| ==> s[k] != '.'
  {
    var e := Extension(s);
    forall k | |s| - |e| <= k < |s|
      ensures s[k] != '.'
    {
      assert s[k] == s[|s| - |e|..][k - (|s| - |e|)];
    }
  }

  /** The extension's length is the one dot-free suffix length that follows a dot or fills the name. */
  lemma ExtensionLength(s: string, n: nat)
    requires n <= |s|
    requires forall k :: |s| - n <= k < |s| ==> s[k] != '.'
    requires n == |s| || s[|s| - n - 1] == '.'
    ensures |Extension(s)| == n
  {
    ExtensionDotFree(s);
    ExtensionLengthUnique(s, n, |Extension(s)|);
  }

  /** Lower-casing the name lower-cases its extension. */
  lemma ExtensionOfLower(filename: string)
    ensures Extension(Lower(filename)) == Lower(Extension(filename))
  {
    var f, e := Lower(filename), Extension(filename);
    var n := |e|;
    ExtensionDotFree(filename);
    assert forall k :: |f| - n <= k < |f| ==> f[k] != '.';
    assert n == |f| || f[|f| - n - 1] == '.';
    ExtensionLength(f, n);
    LowerSuffix(filename, n);
  }

  lemma LowerIdempotent(s: string)
    ensures Lower(Lower(s)) == Lower(s)
  {
  }

  /** The choice ignores letter case throughout the name. */
  lemma ContentTypeIgnoresCase(filename: string)
    ensures ContentType(Lower(filename)) == ContentType(filename)
  {
    var e := Extension(filename);
    ExtensionOfLower(filename);
    LowerIdempotent(e);
    assert Lower(Extension(Lower(filename))) == Lower(e);
    SameLoweredExtension(Lower(filename), filename);
  }

  /** Names whose extensions agree once lower-cased get the same type. */
  lemma SameLoweredExtension(f: string, g: string)
    requires Lower(Extension(f)) == Lower(Extension(g))
    ensures ContentType(f) == ContentType(g)
  {
  }

  /** `a.jpg.png` is typed by its last segment, `png`. */
  lemma ExampleDoubleExtension(name: string)
    requires name == "a.jpg.png"
    ensures ContentType(name) == Png
  {
    DoubleExtensionName();
    LastSegmentDecides("a.jpg", "png");
    PngWord();
  }

  // `DoubleExtensionName`, `PngWord`, `UpperCaseJpegName` and `UpperCaseJpegWord` state
  // facts about the example names, only so that the solver need not work them out
  // inside the examples' proofs; they state nothing about the content-type rule.
  lemma DoubleExtensionName()
    ensures "a.jpg.png" == "a.jpg" + "." + "png" && '.' !in "png"
  {
  }

  lemma PngWord()
    ensures Lower("png") == "png" && "png" !in ["jpg", "jpeg"] && "png" !in ["tif", "tiff"]
  {
  }

  /** `x.tar.JPEG` is JPEG: the last segment decides, in any case. */
  lemma ExampleUpperCaseJpeg(name: string)
    requires name == "x.tar.JPEG"
    ensures ContentType(name) == Jpeg
  {
    UpperCaseJpegName();
    LastSegmentDecides("x.tar", "JPEG");
    UpperCaseJpegWord();
  }

  lemma UpperCaseJpegName()
    ensures "x.tar.JPEG" == "x.tar" + "." + "JPEG" && '.' !in "JPEG"
  {
  }

  lemma UpperCaseJpegWord()
    ensures Lower("JPEG") == "jpeg" && "jpeg" in ["jpg", "jpeg"]
  {
  }

  /** A name ending in a dot has an empty extension and is served as PNG. */
  lemma ExampleTrailingDot(name: string)
    requires name == "photo."
    ensures Extension(name) == "" && ContentType(name) == Png
  {
    assert name == "photo" + "." + "";
    LastSegmentDecides("photo", "");
  }

  /** A name with no dot is its own extension: `jpg` alone is JPEG, `TIFF` alone is TIFF. */
  lemma ExampleNoDot(a: string, b: string)
    requires a == "jpg" && b == "TIFF"
    ensures ContentType(a) == Jpeg && ContentType(b) == Tiff
  {
    assert '.' !in a && '.' !in b;
    assert Extension(a) == a && Extension(b) == b;
    assert Lower(a) == "jpg" && Lower(b) == "tiff";
  }
}
