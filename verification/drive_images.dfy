/** `buildImageUrlsFromFileId` and `ImageWithFallback`, shared by the board-member and
    gallery widgets: an image is tried at three Drive URLs in turn, and after the last one
    fails the widget shows "Image unavailable" instead. */
module DriveImages {
  import opened Text

  /** The thumbnail width asked for: `w400` on the board-member cards, `w800` in the gallery. */
  datatype ThumbnailSize = W400 | W800

  function SizeText(size: ThumbnailSize): string {
    match size
    case W400 => "w400"
    case W800 => "w800"
  }

  const DriveRoot := "https://drive.google.com/"
  const ViewPrefix := DriveRoot + "uc?id="
  const ThumbnailPrefix := DriveRoot + "thumbnail?id="
  const PreviewPrefix := DriveRoot + "file/d/"

  /** `buildImageUrlsFromFileId`: the export link, the thumbnail and the preview page, in the
      order they are tried. Each is its Drive prefix, the file id, and its own suffix. */
  function ImageUrls(fileId: string, size: ThumbnailSize): (urls: seq<string>)
    ensures |urls| == 3
    ensures StartsWithAt(urls[0], 0, ViewPrefix) && StartsWithAt(urls[0], |ViewPrefix|, fileId)
    ensures urls[0][|ViewPrefix| + |fileId|..] == "&export=view"
    ensures StartsWithAt(urls[1], 0, ThumbnailPrefix) && StartsWithAt(urls[1], |ThumbnailPrefix|, fileId)
    ensures urls[1][|ThumbnailPrefix| + |fileId|..] == "&sz=" + SizeText(size)
    ensures StartsWithAt(urls[2], 0, PreviewPrefix) && StartsWithAt(urls[2], |PreviewPrefix|, fileId)
    ensures urls[2][|PreviewPrefix| + |fileId|..] == "/preview"
  {
    var view := ViewPrefix + fileId + "&export=view";
    var thumbnail := ThumbnailPrefix + fileId + ("&sz=" + SizeText(size));
    var preview := PreviewPrefix + fileId + "/preview";
    UrlParts(ViewPrefix, fileId, "&export=view");
    UrlParts(ThumbnailPrefix, fileId, "&sz=" + SizeText(size));
    UrlParts(PreviewPrefix, fileId, "/preview");
    [view, thumbnail, preview]
  }

  /** A URL made of a prefix, an id and a suffix holds each of them where it belongs. */
  lemma UrlParts(prefix: string, id: string, suffix: string)
    ensures var url := prefix + id + suffix;
      && StartsWithAt(url, 0, prefix) && StartsWithAt(url, |prefix|, id)
      && url[|prefix| + |id|..] == suffix
  {
    var url := prefix + id + suffix;
    assert url[..|prefix|] == prefix;
    LiteralInside(prefix, id, suffix);
  }

  /** Each URL leads to one file only: different ids give different URLs, in every place. */
  lemma ImageUrlsInjective(a: string, b: string, size: ThumbnailSize, k: nat)
    requires k < 3 && ImageUrls(a, size)[k] == ImageUrls(b, size)[k]
    ensures a == b
  {
    var ua := ImageUrls(a, size)[k];
    var prefix := if k == 0 then ViewPrefix else if k == 1 then ThumbnailPrefix else PreviewPrefix;
    var suffix := if k == 0 then "&export=view" else if k == 1 then "&sz=" + SizeText(size) else "/preview";
    assert |ua| == |prefix| + |a| + |suffix|;
    assert |ua| == |prefix| + |b| + |suffix|;
    assert a == ua[|prefix|..|prefix| + |a|] == b;
  }

  /** The three candidates are different addresses whatever the id: they part right after
      `https://drive.google.com/`. */
  lemma ImageUrlsDistinct(fileId: string, size: ThumbnailSize)
    ensures var urls := ImageUrls(fileId, size);
      urls[0] != urls[1] && urls[1] != urls[2] && urls[0] != urls[2]
  {
    var urls := ImageUrls(fileId, size);
    assert urls[0][25] == 'u' && urls[1][25] == 't' && urls[2][25] == 'f';
  }

  /** The two widgets' lists differ only in the thumbnail width. */
  lemma SizesDifferOnlyInThumbnail(fileId: string)
    ensures ImageUrls(fileId, W400)[0] == ImageUrls(fileId, W800)[0]
    ensures ImageUrls(fileId, W400)[2] == ImageUrls(fileId, W800)[2]
    ensures ImageUrls(fileId, W400)[1] != ImageUrls(fileId, W800)[1]
  {
    var a := ImageUrls(fileId, W400)[1];
    var b := ImageUrls(fileId, W800)[1];
    var n := |ThumbnailPrefix + fileId + "&sz="|;
    assert a[n + 1] == '4' && b[n + 1] == '8';
  }

  /** The component's state: `currentUrlIndex` and `imageError`. */
  datatype Fallback = Fallback(index: nat, failed: bool)

  const Start := Fallback(0, false)

  /** `handleError` with `count` candidate URLs: move to the next one while there is one,
      and give up on the last. */
  function OnError(s: Fallback, count: nat): (t: Fallback)
    ensures s.index < count - 1 ==> t.index == s.index + 1 && t.failed == s.failed
    ensures s.index >= count - 1 ==> t.index == s.index && t.failed
  {
    if s.index < count - 1 then Fallback(s.index + 1, s.failed) else Fallback(s.index, true)
  }

  /** The state after `n` load errors of a freshly mounted image with three candidates. */
  function AfterErrors(n: nat): Fallback {
    if n == 0 then Start else OnError(AfterErrors(n - 1), 3)
  }

  /** Every error moves one URL on, never past the third; the third error marks the image
      failed, and it stays failed. */
  lemma {:induction false} AfterErrorsClosedForm(n: nat)
    ensures AfterErrors(n) == Fallback(if n < 2 then n else 2, n >= 3)
  {
    if n > 0 {
      AfterErrorsClosedForm(n - 1);
    }
  }

  /** A failed image stays failed on its own URL. */
  lemma FailedIsTerminal(s: Fallback, count: nat)
    requires s.failed
    ensures OnError(s, count).failed && OnError(s, count).index >= s.index
  {
  }

  /** What the component renders. */
  datatype ImageView = Img(src: string) | Unavailable

  function ViewOf(urls: seq<string>, s: Fallback): ImageView
    requires s.index < |urls|
  {
    if s.failed then Unavailable else Img(urls[s.index])
  }

  /** After `n` errors the image shows the `n`-th URL; after three it shows "Image
      unavailable". */
  lemma ViewsInOrder(fileId: string, size: ThumbnailSize, n: nat)
    ensures AfterErrors(n).index < 3
    ensures ViewOf(ImageUrls(fileId, size), AfterErrors(n)) ==
      (if n < 3 then Img(ImageUrls(fileId, size)[n]) else Unavailable)
  {
    AfterErrorsClosedForm(n);
  }

  class ImageWithFallback {
    const urls: seq<string>
    var currentUrlIndex: nat
    var imageError: bool

    ghost predicate Valid()
      reads this
    {
      |urls| == 3 && currentUrlIndex < |urls|
    }

    function State(): Fallback
      reads this
    {
      Fallback(currentUrlIndex, imageError)
    }

    constructor(fileId: string, size: ThumbnailSize)
      ensures Valid() && urls == ImageUrls(fileId, size) && State() == Start
    {
      urls := ImageUrls(fileId, size);
      currentUrlIndex := 0;
      imageError := false;
    }

    /** The `onError` handler of the `<img>`. */
    method HandleError()
      requires Valid()
      modifies this
      ensures Valid() && State() == OnError(old(State()), |urls|)
    {
      if currentUrlIndex < |urls| - 1 {
        currentUrlIndex := currentUrlIndex + 1;
      } else {
        imageError := true;
      }
    }

    function View(): (v: ImageView)
      requires Valid()
      reads this
      ensures v == ViewOf(urls, State())
    {
      if imageError then Unavailable else Img(urls[currentUrlIndex])
    }
  }
}
