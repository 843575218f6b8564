/**
 * The media-type rule applied to every uploaded media URL: a URL that ends in `.jpeg`, `.jpg`,
 * `.png` or `.gif`, in any letter case, is an image; everything else is a video. The rule is the
 * regular expression `/\.(jpeg|jpg|png|gif)$/i` (the update routes list the alternatives in the
 * order `jpg|jpeg`, which matches the same strings). Without the `u` flag JavaScript folds case
 * for ASCII letters only, which is what `Lower` does.
 */
module Media {

  datatype MediaType = Image | Video

  /** The value stored in the `mediaType` column. */
  function ColumnValue(t: MediaType): string {
    match t
    case Image => "image"
    case Video => "video"
  }

  function Lower(c: char): char {
    if 'A' <= c <= 'Z' then (c as int + 32) as char else c
  }

  function LowerAll(s: string): (r: string)
    ensures |r| == |s|
    ensures forall i :: 0 <= i < |s| ==> r[i] == Lower(s[i])
  {
    if s == [] then [] else [Lower(s[0])] + LowerAll(s[1..])
  }

  predicate EndsWith(s: string, suffix: string) {
    |suffix| <= |s| && s[|s| - |suffix|..] == suffix
  }

  const ImageExtensions: seq<string> := [".jpeg", ".jpg", ".png", ".gif"]

  /** One alternative of the regular expression, matched case-insensitively at the end of `url`. */
  predicate MatchesAtEnd(url: string, ext: string) {
    |ext| <= |url| && forall i :: 0 <= i < |ext| ==> Lower(url[|url| - |ext| + i]) == ext[i]
  }

  /** The type `url` is stored with. */
  function MediaTypeOf(url: string): (t: MediaType)
    ensures t == Image <==> exists e :: e in ImageExtensions && EndsWith(LowerAll(url), e)
  {
    var image := MatchesAtEnd(url, ".jpeg") || MatchesAtEnd(url, ".jpg")
      || MatchesAtEnd(url, ".png") || MatchesAtEnd(url, ".gif");
    MatchesIffEndsWith(url, ".jpeg");
    MatchesIffEndsWith(url, ".jpg");
    MatchesIffEndsWith(url, ".png");
    MatchesIffEndsWith(url, ".gif");
    SomeImageSuffix(LowerAll(url));
    if image then Image else Video
  }

  /** Ending with one of the image extensions is ending with one of the four alternatives. */
  lemma SomeImageSuffix(l: string)
    ensures (exists e :: e in ImageExtensions && EndsWith(l, e))
            <==> EndsWith(l, ".jpeg") || EndsWith(l, ".jpg") || EndsWith(l, ".png") || EndsWith(l, ".gif")
  {
    if EndsWith(l, ".jpeg") { assert ".jpeg" in ImageExtensions; }
    if EndsWith(l, ".jpg") { assert ".jpg" in ImageExtensions; }
    if EndsWith(l, ".png") { assert ".png" in ImageExtensions; }
    if EndsWith(l, ".gif") { assert ".gif" in ImageExtensions; }
  }

  lemma MatchesIffEndsWith(url: string, ext: string)
    ensures MatchesAtEnd(url, ext) <==> EndsWith(LowerAll(url), ext)
  {
    var l := LowerAll(url);
    if |ext| <= |url| {
      var tail := l[|l| - |ext|..];
      assert |tail| == |ext|;
      assert forall i :: 0 <= i < |ext| ==> tail[i] == Lower(url[|url| - |ext| + i]);
      if MatchesAtEnd(url, ext) {
        assert forall i :: 0 <= i < |ext| ==> tail[i] == ext[i];
        assert tail == ext;
        assert EndsWith(l, ext);
      } else {
        var i :| 0 <= i < |ext| && Lower(url[|url| - |ext| + i]) != ext[i];
        assert tail[i] != ext[i];
        assert !EndsWith(l, ext);
      }
    } else {
      assert !MatchesAtEnd(url, ext) && !EndsWith(l, ext);
    }
  }

  /** Only the lower-cased spelling matters: letter case never changes the stored type. */
  lemma CaseInsensitive(a: string, b: string)
    requires LowerAll(a) == LowerAll(b)
    ensures MediaTypeOf(a) == MediaTypeOf(b)
  {
  }

  lemma LowerIdempotent(s: string)
    ensures LowerAll(LowerAll(s)) == LowerAll(s)
  {
    var l := LowerAll(s);
    assert forall i :: 0 <= i < |s| ==> Lower(l[i]) == l[i];
  }

  /** Upper-casing any letters of a URL keeps its type: `MediaTypeOf(u) == MediaTypeOf(LowerAll(u))`. */
  lemma LowerKeepsType(url: string)
    ensures MediaTypeOf(LowerAll(url)) == MediaTypeOf(url)
  {
    LowerIdempotent(url);
    CaseInsensitive(LowerAll(url), url);
  }

  lemma LowerAppend(a: string, b: string)
    ensures LowerAll(a + b) == LowerAll(a) + LowerAll(b)
  {
    var l := LowerAll(a + b);
    var r := LowerAll(a) + LowerAll(b);
    assert |l| == |r|;
    forall i | 0 <= i < |l| ensures l[i] == r[i] {
      if i < |a| {
        assert (a + b)[i] == a[i];
      } else {
        assert (a + b)[i] == b[i - |a|];
      }
    }
  }

  /** Any URL whose last characters are one of the four extensions is an image. */
  lemma ImageSuffix(prefix: string, ext: string)
    requires ext in ImageExtensions
    ensures MediaTypeOf(prefix + ext) == Image
  {
    LowerAppend(prefix, ext);
    LowerCaseExtension(ext);
    var l := LowerAll(prefix + ext);
    assert l[|l| - |ext|..] == ext;
    assert EndsWith(l, ext);
  }

  /** No character of `s` is an upper-case ASCII letter. */
  predicate NoUpper(s: string) {
    forall i :: 0 <= i < |s| ==> !('A' <= s[i] <= 'Z')
  }

  lemma LowerAllNoUpper(s: string)
    requires NoUpper(s)
    ensures LowerAll(s) == s
  {
    assert forall i :: 0 <= i < |s| ==> LowerAll(s)[i] == s[i];
  }

  lemma LowerCaseExtension(ext: string)
    requires ext in ImageExtensions
    ensures LowerAll(ext) == ext
  {
    assert ext == ".jpeg" || ext == ".jpg" || ext == ".png" || ext == ".gif";
    assert NoUpper(ext);
    LowerAllNoUpper(ext);
  }

  lemma LastCharMismatch(url: string, ext: string)
    requires 0 < |ext| && 0 < |url|
    requires Lower(url[|url| - 1]) != ext[|ext| - 1]
    ensures !MatchesAtEnd(url, ext)
  {
    if |ext| <= |url| {
      var i := |ext| - 1;
      assert Lower(url[|url| - |ext| + i]) != ext[i];
    }
  }

  /** `"clip.mp4"` is stored as a video. */
  lemma VideoExample()
    ensures MediaTypeOf("clip.mp4") == Video
  {
    LastCharMismatch("clip.mp4", ".jpeg");
    LastCharMismatch("clip.mp4", ".jpg");
    LastCharMismatch("clip.mp4", ".png");
    LastCharMismatch("clip.mp4", ".gif");
  }

  /** The extension must be the very end of the URL: `"a.gif.mov"` is a video. */
  lemma InnerExtensionExample()
    ensures MediaTypeOf("a.gif.mov") == Video
  {
    LastCharMismatch("a.gif.mov", ".jpeg");
    LastCharMismatch("a.gif.mov", ".jpg");
    LastCharMismatch("a.gif.mov", ".png");
    LastCharMismatch("a.gif.mov", ".gif");
  }

  /** Upper-case extensions match: `"PHOTO.JPG"` is an image. */
  lemma UpperCaseExample()
    ensures MediaTypeOf("PHOTO.JPG") == Image
  {
    assert MatchesAtEnd("PHOTO.JPG", ".jpg") by {
      assert Lower("PHOTO.JPG"[5]) == '.';
      assert Lower("PHOTO.JPG"[6]) == 'j';
      assert Lower("PHOTO.JPG"[7]) == 'p';
      assert Lower("PHOTO.JPG"[8]) == 'g';
    }
  }
}
