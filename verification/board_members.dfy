/** The board-member widget: it lists the image files of a Drive folder, reads each
    member's name and role from the photo's file name, and keeps at most `maxMembers` of
    them (50 unless given). */
module BoardMembers {
  import opened Text
  import opened DriveFolder
  import opened DrivePaging
  import opened FileNames

  datatype Member = Member(id: string, name: string, role: string, mimeType: string)

  const DefaultMaxMembers := 50

  const FolderVariables := "REACT_APP_BOARD_MEMBERS_FOLDER_URL/ID"

  /** The member a photo file describes. */
  function ToMember(file: DriveFile): (m: Member)
    ensures m.id == file.id && m.mimeType == file.mimeType
    ensures NameRole(m.name, m.role) == ExtractNameAndRole(file.name)
  {
    var nr := ExtractNameAndRole(file.name);
    Member(file.id, nr.name, nr.role, file.mimeType)
  }

  /** The members loaded are, in listing order, the members of the first photos listed,
      never more than `maxMembers`; the loop stopped on the first reply without a
      continuation or once `maxMembers` photos were listed. */
  lemma MembersFollowPhotos(feed: seq<Reply>, maxMembers: nat)
    requires Ends(feed)
    ensures 1 <= Collect(feed, Limit(maxMembers), ToMember).requests <= |feed|
    ensures var res := Collect(feed, Limit(maxMembers), ToMember);
      res.Loaded? ==>
        var photos := Files(feed[..res.requests]);
        && |res.items| == (if |photos| < maxMembers then |photos| else maxMembers)
        && (forall i :: 0 <= i < |res.items| ==> res.items[i] == ToMember(photos[i]))
        && (!HasMore(feed[res.requests - 1]) || |photos| >= maxMembers)
  {
    CollectOutcome(feed, Limit(maxMembers), ToMember);
  }

  class BoardMemberCard {
    var boardMembers: seq<Member>
    var isLoading: bool
    var errorMessage: string

    constructor()
      ensures boardMembers == [] && !isLoading && errorMessage == []
    {
      boardMembers := [];
      isLoading := false;
      errorMessage := [];
    }

    /** `fetchBoardMembers`, with the folder taken from the prop or else from the environment
        (`fallbackFolder`) and the listing given as its replies. It returns the number of
        listing requests made. */
    method FetchBoardMembers(apiKey: string, folderUrlOrId: string, fallbackFolder: string,
                             maxMembers: nat, feed: seq<Reply>) returns (requests: nat)
      requires Ends(feed)
      modifies this
      ensures var check := CheckSettings(apiKey, ResolveFolderId(folderUrlOrId, fallbackFolder));
        && (check != Ready ==>
              && requests == 0
              && boardMembers == old(boardMembers) && isLoading == old(isLoading)
              && errorMessage == (if check == MissingKey then MissingKeyMessage
                                  else MissingFolderMessage(FolderVariables)))
        && (check == Ready ==>
              var res := Collect(feed, Limit(maxMembers), ToMember);
              && requests == res.requests && !isLoading
              && (res.Loaded? ==> boardMembers == res.items && errorMessage == [])
              && (res.Aborted? ==>
                    boardMembers == old(boardMembers) &&
                    errorMessage == ListingErrorMessage(res.failure, "images")))
    {
      var folderId := ResolveFolderId(folderUrlOrId, fallbackFolder);
      if apiKey == [] {
        errorMessage := MissingKeyMessage;
        return 0;
      }
      if folderId == [] {
        errorMessage := MissingFolderMessage(FolderVariables);
        return 0;
      }
      isLoading := true;
      errorMessage := [];
      var res := CollectPages(feed, Limit(maxMembers), ToMember);
      match res {
        case Loaded(items, _) =>
          boardMembers := items;
        case Aborted(failure, _) =>
          errorMessage := ListingErrorMessage(failure, "images");
      }
      isLoading := false;
      requests := res.requests;
    }
  }
}
