/** The photo gallery widget: after one test request against the folder it lists the
    folder's image files, at most `maxImages` of them (200 unless given), and shows each
    through `ImageWithFallback`. */
module Gallery {
  import opened Text
  import opened DriveFolder
  import opened DrivePaging

  const DefaultMaxImages := 200

  const FolderVariables := "REACT_APP_GDRIVE_FOLDER_URL/ID"

  /** An image entry copies the listed file's `id`, `name` and `mimeType` unchanged. */
  function AsImage(file: DriveFile): DriveFile {
    file
  }

  lemma MapAsImage(files: seq<DriveFile>)
    ensures MapFiles(files, AsImage) == files
  {
  }

  /** The message of a failed test request. */
  function TestErrorMessage(test: Reply): (msg: string)
    requires !test.Page?
    ensures test.Thrown? ==> msg == test.message
    ensures test.HttpError? ==>
      && StartsWithAt(msg, 0, "API test failed (")
      && |msg| >= |test.body| && msg[|msg| - |test.body|..] == test.body
  {
    match test
    case HttpError(status, body) =>
      var head := "API test failed (" + NatText(status) + "): ";
      assert (head + body)[..17] == "API test failed (";
      assert (head + body)[|head|..] == body;
      head + body
    case Thrown(message) => message
  }

  /** The message of a failed test names the status, readable back, and ends with the body. */
  lemma TestErrorReportsStatus(status: nat, body: string)
    ensures var msg := TestErrorMessage(HttpError(status, body));
      && StartsWithAt(msg, 0, "API test failed (")
      && DigitsValue(msg[17..17 + |NatText(status)|]) == status
      && msg[17 + |NatText(status)|] == ')'
      && msg[|msg| - |body|..] == body
  {
    var msg := TestErrorMessage(HttpError(status, body));
    var digits := NatText(status);
    assert msg == "API test failed (" + digits + ("): " + body);
    LiteralInside("API test failed (", digits, "): " + body);
    assert msg[..17] == "API test failed (";
    NatTextRoundTrip(status);
  }

  /** The images loaded are, in listing order, the first image files listed, unchanged,
      never more than `maxImages`. */
  lemma ImagesArePrefixOfListing(feed: seq<Reply>, maxImages: nat)
    requires Ends(feed)
    ensures 1 <= Collect(feed, Limit(maxImages), AsImage).requests <= |feed|
    ensures var res := Collect(feed, Limit(maxImages), AsImage);
      res.Loaded? ==>
        var listed := Files(feed[..res.requests]);
        && |res.items| <= maxImages
        && res.items <= listed
        && (|res.items| < maxImages ==> res.items == listed)
  {
    var res := Collect(feed, Limit(maxImages), AsImage);
    CollectOutcome(feed, Limit(maxImages), AsImage);
    if res.Loaded? {
      MapAsImage(Files(feed[..res.requests]));
    }
  }

  /** What the gallery renders: the loading line, the error line, and, when neither is
      shown, the grid or the "No images found" line. */
  datatype Body = Grid(images: seq<DriveFile>) | NoImagesFound
  datatype GalleryView = GalleryView(loading: bool, error: Option<string>, body: Option<Body>)

  function ViewOf(isLoading: bool, errorMessage: string, images: seq<DriveFile>): (v: GalleryView)
    ensures v.body == Some(NoImagesFound) <==> !isLoading && errorMessage == [] && images == []
    ensures v.body.Some? && v.body.value.Grid? ==> v.body.value.images == images && images != []
  {
    GalleryView(isLoading, if errorMessage != [] then Some(errorMessage) else None,
      if !isLoading && errorMessage == [] then Some(if images != [] then Grid(images) else NoImagesFound)
      else None)
  }

  class DriveGallery {
    var images: seq<DriveFile>
    var isLoading: bool
    var errorMessage: string

    constructor()
      ensures images == [] && !isLoading && errorMessage == []
    {
      images := [];
      isLoading := false;
      errorMessage := [];
    }

    function View(): GalleryView
      reads this
    {
      ViewOf(isLoading, errorMessage, images)
    }

    /** `fetchAllImages`, given the reply to the test request and the replies of the image
        listing. It returns the number of requests made, the test included. */
    method FetchAllImages(apiKey: string, folderUrlOrId: string, fallbackFolder: string,
                          maxImages: nat, test: Reply, feed: seq<Reply>) returns (requests: nat)
      requires Ends(feed)
      modifies this
      ensures var check := CheckSettings(apiKey, ResolveFolderId(folderUrlOrId, fallbackFolder));
        && (check != Ready ==>
              && requests == 0
              && images == old(images) && isLoading == old(isLoading)
              && errorMessage == (if check == MissingKey then MissingKeyMessage
                                  else MissingFolderMessage(FolderVariables)))
        && (check == Ready && !test.Page? ==>
              && requests == 1 && !isLoading && images == old(images)
              && errorMessage == TestErrorMessage(test))
        && (check == Ready && test.Page? ==>
              var res := Collect(feed, Limit(maxImages), AsImage);
              && requests == 1 + res.requests && !isLoading
              && (res.Loaded? ==> images == res.items && errorMessage == [])
              && (res.Aborted? ==>
                    images == old(images) &&
                    errorMessage == ListingErrorMessage(res.failure, "images")))
    {
      var folderId := ResolveFolderId(folderUrlOrId, fallbackFolder);
      if apiKey == [] {
        errorMessage := MissingKeyMessage;
        return 0;
      }
      if folderId == [] {
        errorMessage := MissingFolderMessage(FolderVariables);
        return 0;
      }
      isLoading := true;
      errorMessage := [];
      if !test.Page? {
        errorMessage := TestErrorMessage(test);
        isLoading := false;
        return 1;
      }
      var res := CollectPages(feed, Limit(maxImages), AsImage);
      match res {
        case Loaded(items, _) =>
          images := items;
        case Aborted(failure, _) =>
          errorMessage := ListingErrorMessage(failure, "images");
      }
      isLoading := false;
      requests := 1 + res.requests;
    }
  }

  /** A freshly mounted gallery whose listing succeeds without any image file ends on
      "No images found". */
  method EmptyFolderShowsNoImages(apiKey: string, folderId: string, test: Reply, feed: seq<Reply>)
    returns (view: GalleryView)
    requires LooksLikeId(folderId) && apiKey != [] && test.Page? && Ends(feed)
    requires Collect(feed, Limit(DefaultMaxImages), AsImage).Loaded?
    requires Collect(feed, Limit(DefaultMaxImages), AsImage).items == []
    ensures view == GalleryView(false, None, Some(NoImagesFound))
  {
    var gallery := new DriveGallery();
    BareIdUnchanged(folderId);
    var _ := gallery.FetchAllImages(apiKey, folderId, [], DefaultMaxImages, test, feed);
    view := gallery.View();
  }
}
