/** The financial-documents widget: it lists every file of a Drive folder, titles each by
    its name without the extension, and links it to its Drive viewer page. `maxFiles`
    (3 unless given) caps the list only when it is truthy; the Financials page passes
    `null`, so there every file is listed. */
module Financials {
  import opened Text
  import opened DriveFolder
  import opened DrivePaging
  import opened FileNames

  datatype FinancialFile = FinancialFile(id: string, name: string, originalName: string,
                                         mimeType: string, viewUrl: string)

  /** The `maxFiles` prop: a number, or `null` (`None`). */
  const DefaultMaxFiles: Option<nat> := Some(3)

  /** What the Financials page passes. */
  const PageMaxFiles: Option<nat> := None

  const FolderVariables := "REACT_APP_FINANCIALS_FOLDER_URL/ID"

  /** A falsy `maxFiles`, `null` or 0, sets no cap. */
  function FinancialCap(maxFiles: Option<nat>): (cap: Cap)
    ensures cap.Unlimited? <==> maxFiles.None? || maxFiles.value == 0
    ensures cap.Limit? ==> cap.max == maxFiles.value
  {
    if maxFiles.None? || maxFiles.value == 0 then Unlimited else Limit(maxFiles.value)
  }

  /** The loop's two tests, `maxFiles && collected.length >= maxFiles` to stop pushing and
      `!maxFiles || collected.length < maxFiles` to go on, are the two sides of `Room`. */
  lemma CapMatchesTruthiness(maxFiles: Option<nat>, n: nat)
    ensures !Room(FinancialCap(maxFiles), n) <==>
      (maxFiles.Some? && maxFiles.value != 0 && n >= maxFiles.value)
    ensures Room(FinancialCap(maxFiles), n) <==>
      (maxFiles.None? || maxFiles.value == 0 || n < maxFiles.value)
  {
  }

  const ViewPrefix := "https://drive.google.com/file/d/"

  /** `getFileViewUrl` */
  function FileViewUrl(fileId: string): (url: string)
    ensures StartsWithAt(url, 0, ViewPrefix) && StartsWithAt(url, |ViewPrefix|, fileId)
    ensures |url| == |ViewPrefix| + |fileId| + 5 && url[|ViewPrefix| + |fileId|..] == "/view"
  {
    LiteralInside(ViewPrefix, fileId, "/view");
    LiteralInside([], ViewPrefix, fileId + "/view");
    assert [] + ViewPrefix + (fileId + "/view") == ViewPrefix + fileId + "/view";
    ViewPrefix + fileId + "/view"
  }

  /** Different files get different viewer links. */
  lemma FileViewUrlInjective(a: string, b: string)
    requires FileViewUrl(a) == FileViewUrl(b)
    ensures a == b
  {
    assert a == FileViewUrl(a)[|ViewPrefix|..|ViewPrefix| + |a|];
  }

  /** The entry of one listed file. */
  function ToFinancialFile(file: DriveFile): (entry: FinancialFile)
    ensures entry.id == file.id && entry.originalName == file.name && entry.mimeType == file.mimeType
    ensures entry.name <= file.name
    ensures entry.viewUrl == FileViewUrl(file.id)
  {
    FinancialFile(file.id, StripExtension(file.name), file.name, file.mimeType, FileViewUrl(file.id))
  }

  /** The title is the file name with the `\.[^/.]+$` match removed, and the file name
      itself when there is none. */
  lemma TitleDropsExtension(file: DriveFile)
    ensures forall p: nat :: ExtensionAt(file.name, p) ==> ToFinancialFile(file).name == file.name[..p]
    ensures (forall p: nat :: !ExtensionAt(file.name, p)) <==> ToFinancialFile(file).name == file.name
  {
    StripExtensionMatchesRegex(file.name);
  }

  /** With a truthy `maxFiles` the list holds at most that many entries, in listing order. */
  lemma CappedListKeepsOrder(feed: seq<Reply>, maxFiles: nat)
    requires Ends(feed) && maxFiles > 0
    ensures 1 <= Collect(feed, FinancialCap(Some(maxFiles)), ToFinancialFile).requests <= |feed|
    ensures var res := Collect(feed, FinancialCap(Some(maxFiles)), ToFinancialFile);
      res.Loaded? ==>
        && |res.items| <= maxFiles
        && res.items <= MapFiles(Files(feed[..res.requests]), ToFinancialFile)
  {
    CollectBounded(feed, FinancialCap(Some(maxFiles)), ToFinancialFile);
  }

  /** On the Financials page (`maxFiles={null}`) every page is requested while a token
      comes back, and every listed file gets an entry. */
  lemma PageListsEveryFile(feed: seq<Reply>)
    requires Ends(feed)
    requires forall j :: 0 <= j < |feed| - 1 ==> HasMore(feed[j])
    ensures Collect(feed, FinancialCap(PageMaxFiles), ToFinancialFile) ==
      (if feed[|feed| - 1].Page? then Loaded(MapFiles(Files(feed), ToFinancialFile), |feed|)
       else Aborted(feed[|feed| - 1], |feed|))
  {
    CollectUnlimitedFollowsAll(feed, ToFinancialFile);
  }

  class Financial {
    var financialFiles: seq<FinancialFile>
    var isLoading: bool
    var errorMessage: string

    constructor()
      ensures financialFiles == [] && !isLoading && errorMessage == []
    {
      financialFiles := [];
      isLoading := false;
      errorMessage := [];
    }

    /** `fetchFinancialFiles`; it returns the number of listing requests made. */
    method FetchFinancialFiles(apiKey: string, folderUrlOrId: string, fallbackFolder: string,
                               maxFiles: Option<nat>, feed: seq<Reply>) returns (requests: nat)
      requires Ends(feed)
      modifies this
      ensures var check := CheckSettings(apiKey, ResolveFolderId(folderUrlOrId, fallbackFolder));
        && (check != Ready ==>
              && requests == 0
              && financialFiles == old(financialFiles) && isLoading == old(isLoading)
              && errorMessage == (if check == MissingKey then MissingKeyMessage
                                  else MissingFolderMessage(FolderVariables)))
        && (check == Ready ==>
              var res := Collect(feed, FinancialCap(maxFiles), ToFinancialFile);
              && requests == res.requests && !isLoading
              && (res.Loaded? ==> financialFiles == res.items && errorMessage == [])
              && (res.Aborted? ==>
                    financialFiles == old(financialFiles) &&
                    errorMessage == ListingErrorMessage(res.failure, "files")))
    {
      var folderId := ResolveFolderId(folderUrlOrId, fallbackFolder);
      if apiKey == [] {
        errorMessage := MissingKeyMessage;
        return 0;
      }
      if folderId == [] {
        errorMessage := MissingFolderMessage(FolderVariables);
        return 0;
      }
      isLoading := true;
      errorMessage := [];
      var res := CollectPages(feed, FinancialCap(maxFiles), ToFinancialFile);
      match res {
        case Loaded(items, _) =>
          financialFiles := items;
        case Aborted(failure, _) =>
          errorMessage := ListingErrorMessage(failure, "files");
      }
      isLoading := false;
      requests := res.requests;
    }
  }
}
