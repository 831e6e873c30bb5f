/** `extractFolderIdFromInput`: turns a Drive folder reference given as a bare identifier
    or as one of the known Drive URL shapes into the folder identifier, or '' when the
    reference is not recognised. The board-member, gallery and financial widgets carry
    textually identical copies of it; this module is the single definition all three use. */
module DriveFolder {
  import opened Text

  /** The longest identifier run starting at `j`, if it is non-empty: the capture
      `([A-Za-z0-9_-]+)` at that point (greedy and not followed by anything). */
  function CaptureIdAt(s: string, j: nat): (r: Option<string>)
    requires j <= |s|
    ensures r.Some? ==> |r.value| > 0 && AllIdChars(r.value) && StartsWithAt(s, j, r.value)
    ensures r.Some? ==> j + |r.value| == |s| || !IsIdChar(s[j + |r.value|])
  {
    var n := SpanLen(s, j, IsIdChar);
    if n > 0 then Some(s[j..j + n]) else None
  }

  /** The literal `lit` at `k`, then an identifier capture. */
  function LiteralThenId(s: string, k: nat, lit: string): Option<string> {
    if StartsWithAt(s, k, lit) then CaptureIdAt(s, k + |lit|) else None
  }

  /** `drive/u/\d+/folders/` at `k`, then the capture. `\d+` may only end right before
      a `/`, so of all the digit counts the backtracking engine could try, the maximal
      one is the only candidate. */
  function UserFoldersAt(s: string, k: nat): Option<string> {
    if StartsWithAt(s, k, "drive/u/") then
      var d := SpanLen(s, k + 8, IsDigit);
      if d > 0 then LiteralThenId(s, k + 8 + d, "/folders/") else None
    else None
  }

  /** The regex `drive\.google\.com\/(?:drive\/(?:u\/\d+\/)?folders|folder)\/([A-Za-z0-9_-]+)`
      attempted at position `i`, its alternatives in the order the engine tries them. */
  function FolderUrlAt(s: string, i: nat): (r: Option<string>)
    ensures r.Some? ==> |r.value| > 0 && AllIdChars(r.value)
  {
    if !StartsWithAt(s, i, "drive.google.com/") then None
    else
      var k := i + 17;
      var withUser := UserFoldersAt(s, k);
      if withUser.Some? then withUser
      else
        var direct := LiteralThenId(s, k, "drive/folders/");
        if direct.Some? then direct else LiteralThenId(s, k, "folder/")
  }

  /** The regex `[?&]id=([A-Za-z0-9_-]+)` attempted at position `i`. */
  function IdParamAt(s: string, i: nat): (r: Option<string>)
    ensures r.Some? ==> |r.value| > 0 && AllIdChars(r.value)
  {
    if i < |s| && (s[i] == '?' || s[i] == '&') then LiteralThenId(s, i + 1, "id=") else None
  }

  /** The bare-identifier test: `/^[A-Za-z0-9_-]{10,}$/` and no slash. */
  predicate LooksLikeId(t: string) {
    |t| >= 10 && AllIdChars(t) && '/' !in t
  }

  /** `extractFolderIdFromInput(input)`, '' standing for every falsy input. */
  function ExtractFolderIdFromInput(input: string): (r: string)
    ensures r == [] || (|r| > 0 && AllIdChars(r))
    ensures input == [] ==> r == []
  {
    if input == [] then []
    else
      var trimmed := Trim(input);
      FirstMatchIsId(trimmed, FolderUrlAt);
      FirstMatchIsId(trimmed, IdParamAt);
      if LooksLikeId(trimmed) then trimmed
      else
        match FirstMatch(trimmed, 0, FolderUrlAt)
        case Some(id) => id
        case None =>
          match FirstMatch(trimmed, 0, IdParamAt)
          case Some(id) => id
          case None => []
  }

  /** Each widget resolves the folder from its prop, falling back to its environment value
      when the prop is empty (`folderUrlOrId || fallbackFolder`). */
  function ResolveFolderId(prop: string, fallback: string): (r: string)
    ensures prop != [] ==> r == ExtractFolderIdFromInput(prop)
    ensures prop == [] ==> r == ExtractFolderIdFromInput(fallback)
  {
    ExtractFolderIdFromInput(if prop != [] then prop else fallback)
  }

  // ---------------------------------------------------------------------------
  // Properties

  /** Every match the matchers report is a non-empty identifier. */
  lemma FirstMatchIsId(s: string, m: (string, nat) -> Option<string>)
    requires m == FolderUrlAt || m == IdParamAt
    ensures FirstMatch(s, 0, m).Some? ==> |FirstMatch(s, 0, m).value| > 0 && AllIdChars(FirstMatch(s, 0, m).value)
  {
    if FirstMatch(s, 0, m).Some? {
      FirstMatchFound(s, 0, m);
    }
  }

  /** A trimmed input of at least ten identifier characters is returned as trimmed. */
  lemma BareIdAccepted(input: string)
    requires |Trim(input)| >= 10 && AllIdChars(Trim(input))
    ensures ExtractFolderIdFromInput(input) == Trim(input)
  {
    assert input != [];
    IdCharsHaveNoSlash(Trim(input));
    assert LooksLikeId(Trim(input));
  }

  /** A valid bare identifier comes back unchanged. */
  lemma BareIdUnchanged(id: string)
    requires |id| >= 10 && AllIdChars(id)
    ensures ExtractFolderIdFromInput(id) == id
  {
    TrimKeepsIds(id);
  }

  /** When the input is not a bare identifier and a folder URL occurs in it, the capture
      of the leftmost folder URL is the result, whatever `?id=` parameters follow. */
  lemma {:induction false} FolderUrlWins(input: string, i: nat)
    requires !LooksLikeId(Trim(input))
    requires i <= |Trim(input)| && FolderUrlAt(Trim(input), i).Some?
    requires forall j :: 0 <= j < i ==> FolderUrlAt(Trim(input), j).None?
    ensures ExtractFolderIdFromInput(input) == FolderUrlAt(Trim(input), i).value
  {
    assert |Trim(input)| >= 17;
    FirstMatchAt(Trim(input), 0, FolderUrlAt, i);
  }

  /** Without a bare identifier or a folder URL, the leftmost `?id=`/`&id=` capture is the
      result; with none of the three the result is ''. */
  lemma {:induction false} IdParamFallback(input: string)
    requires input != [] && !LooksLikeId(Trim(input))
    requires forall j :: 0 <= j <= |Trim(input)| ==> FolderUrlAt(Trim(input), j).None?
    ensures ExtractFolderIdFromInput(input) ==
      (match FirstMatch(Trim(input), 0, IdParamAt) case Some(id) => id case None => [])
    ensures ExtractFolderIdFromInput(input) == [] <==>
      forall j :: 0 <= j <= |Trim(input)| ==> IdParamAt(Trim(input), j).None?
  {
    FirstMatchNone(Trim(input), 0, FolderUrlAt);
    FirstMatchNone(Trim(input), 0, IdParamAt);
    FirstMatchIsId(Trim(input), IdParamAt);
  }

  // ---------------------------------------------------------------------------
  // The URL shapes the widgets document

  const DriveHost := "drive.google.com/"
  const SharePrefix := "https://" + DriveHost + "drive/folders/"
  const OpenPrefix := "https://" + DriveHost + "open?id="

  /** A folder URL only starts at the `d` of `drive.google.com/`, with its `.` five places on. */
  lemma FolderUrlNeedsHost(s: string, i: nat)
    ensures FolderUrlAt(s, i).Some? ==> i + 5 < |s| && s[i] == 'd' && s[i + 5] == '.'
  {
    if FolderUrlAt(s, i).Some? {
      assert s[i..i + 17] == DriveHost;
      assert s[i] == s[i..i + 17][0] && s[i + 5] == s[i..i + 17][5];
    }
  }

  /** The identifier run starting where `id` starts in `prefix + id + rest` is exactly `id`. */
  lemma IdRunEnds(s: string, at: nat, id: string, rest: string)
    requires at <= |s| && s[at..] == id + rest
    requires |id| > 0 && AllIdChars(id)
    requires rest == [] || !IsIdChar(rest[0])
    ensures CaptureIdAt(s, at) == Some(id)
  {
    assert forall k :: 0 <= k < |id| ==> s[at + k] == s[at..][k] == id[k];
    assert at + |id| == |s| || s[at + |id|] == s[at..][|id|] == rest[0];
    assert s[at..at + |id|] == id;
  }

  /** A link that starts with `https:` and ends in a non-space is its own `trim`, and is no bare identifier. */
  lemma LinkIsTrimmedNotBare(s: string)
    requires |s| > 6 && s[0] == 'h' && s[5] == ':' && !IsSpace(s[|s| - 1])
    ensures Trim(s) == s && !LooksLikeId(s)
  {
    assert !IsIdChar(s[5]);
  }

  lemma ShareLinkHost(s: string, id: string, rest: string)
    requires s == SharePrefix + id + rest
    ensures StartsWithAt(s, 8, DriveHost)
  {
    assert s == "https://" + DriveHost + ("drive/folders/" + id + rest);
    LiteralInside("https://", DriveHost, "drive/folders/" + id + rest);
  }

  lemma ShareLinkPath(s: string, id: string, rest: string)
    requires s == SharePrefix + id + rest
    ensures StartsWithAt(s, 25, "drive/folders/")
    ensures !StartsWithAt(s, 25, "drive/u/")
  {
    assert s == ("https://" + DriveHost) + "drive/folders/" + (id + rest);
    LiteralInside("https://" + DriveHost, "drive/folders/", id + rest);
    assert s[31] == 'f';
  }

  lemma ShareLinkCapture(s: string, id: string, rest: string)
    requires s == SharePrefix + id + rest
    requires |id| > 0 && AllIdChars(id)
    requires rest == [] || !IsIdChar(rest[0])
    ensures FolderUrlAt(s, 8) == Some(id)
  {
    ShareLinkHost(s, id, rest);
    ShareLinkPath(s, id, rest);
    assert s[39..] == id + rest;
    IdRunEnds(s, 39, id, rest);
  }

  lemma ShareLinkNoEarlierFolderUrl(s: string, id: string, rest: string)
    requires s == SharePrefix + id + rest
    ensures forall j :: 0 <= j < 8 ==> FolderUrlAt(s, j).None?
  {
    forall j | 0 <= j < 8 ensures FolderUrlAt(s, j).None? {
      assert s[j] == SharePrefix[j] != 'd';
      FolderUrlNeedsHost(s, j);
    }
  }

  /** A link (it starts like `https:` and ends in a non-space) yields the capture of its
      leftmost folder URL. */
  lemma LinkYieldsFolderUrl(s: string, id: string)
    requires |s| > 6 && s[0] == 'h' && s[5] == ':' && !IsSpace(s[|s| - 1])
    requires FirstMatch(s, 0, FolderUrlAt) == Some(id)
    ensures ExtractFolderIdFromInput(s) == id
  {
    LinkIsTrimmedNotBare(s);
  }

  /** A link without any folder URL yields the capture of its leftmost `?id=`/`&id=`. */
  lemma LinkYieldsIdParam(s: string, id: string)
    requires |s| > 6 && s[0] == 'h' && s[5] == ':' && !IsSpace(s[|s| - 1])
    requires FirstMatch(s, 0, FolderUrlAt).None? && FirstMatch(s, 0, IdParamAt) == Some(id)
    ensures ExtractFolderIdFromInput(s) == id
  {
    LinkIsTrimmedNotBare(s);
  }

  lemma ShareLinkMatch(s: string, id: string, rest: string)
    requires s == SharePrefix + id + rest
    requires |id| > 0 && AllIdChars(id)
    requires rest == [] || !IsIdChar(rest[0])
    ensures FirstMatch(s, 0, FolderUrlAt) == Some(id)
  {
    ShareLinkCapture(s, id, rest);
    ShareLinkNoEarlierFolderUrl(s, id, rest);
    FirstMatchAt(s, 0, FolderUrlAt, 8);
  }

  /** `https://drive.google.com/drive/folders/<id><rest>`, with `rest` empty or starting
      with a non-identifier character such as `?usp=sharing`, yields `<id>`. */
  lemma ShareLinkYieldsId(s: string, id: string, rest: string)
    requires s == SharePrefix + id + rest
    requires |id| > 0 && AllIdChars(id)
    requires rest == [] || (!IsIdChar(rest[0]) && !IsSpace(rest[|rest| - 1]))
    ensures ExtractFolderIdFromInput(s) == id
  {
    assert s[0] == 'h' && s[5] == ':';
    ShareLinkMatch(s, id, rest);
    LinkYieldsFolderUrl(s, id);
  }

  lemma OpenLinkNoFolderUrlAt(s: string, id: string, rest: string, j: nat)
    requires s == OpenPrefix + id + rest
    requires AllIdChars(id) && '.' !in rest
    ensures FolderUrlAt(s, j).None?
  {
    FolderUrlNeedsHost(s, j);
    if j == 8 {
      assert s[25] == 'o';
      CharMismatch(s, 25, "drive/u/", 0);
      CharMismatch(s, 25, "drive/folders/", 0);
      CharMismatch(s, 25, "folder/", 0);
    } else if j < 31 {
      assert j < |s| ==> s[j] == OpenPrefix[j] != 'd';
    } else if j + 5 < |s| {
      assert j + 5 < 33 + |id| ==> s[j + 5] == id[j + 5 - 33];
      assert j + 5 >= 33 + |id| ==> s[j + 5] == rest[j + 5 - 33 - |id|];
    }
  }

  /** No folder URL occurs in `https://drive.google.com/open?id=<id><rest>` when `rest`
      holds no `.`: the one `drive.google.com/` in it is followed by `open`. */
  lemma OpenLinkHasNoFolderUrl(s: string, id: string, rest: string)
    requires s == OpenPrefix + id + rest
    requires AllIdChars(id) && '.' !in rest
    ensures FirstMatch(s, 0, FolderUrlAt).None?
  {
    forall j | 0 <= j <= |s| ensures FolderUrlAt(s, j).None? {
      OpenLinkNoFolderUrlAt(s, id, rest, j);
    }
    FirstMatchNone(s, 0, FolderUrlAt);
  }

  lemma OpenLinkParam(s: string, id: string, rest: string)
    requires s == OpenPrefix + id + rest
    requires |id| > 0 && AllIdChars(id)
    requires rest == [] || !IsIdChar(rest[0])
    ensures IdParamAt(s, 29) == Some(id)
  {
    assert s == ("https://" + DriveHost + "open?") + "id=" + (id + rest);
    LiteralInside("https://" + DriveHost + "open?", "id=", id + rest);
    assert s[29] == '?';
    assert s[33..] == id + rest;
    IdRunEnds(s, 33, id, rest);
  }

  /** The first 29 characters of the open link, `https://drive.google.com/open`, hold no
      `?` and no `&`. */
  lemma OpenPrefixHead()
    ensures forall j :: 0 <= j < 29 ==> OpenPrefix[j] != '?' && OpenPrefix[j] != '&'
  {
    assert OpenPrefix[..29] == "https://drive.google.com/open";
  }

  lemma OpenLinkNoEarlierParam(s: string, id: string, rest: string)
    requires s == OpenPrefix + id + rest
    ensures forall j :: 0 <= j < 29 ==> IdParamAt(s, j).None?
  {
    OpenPrefixHead();
    forall j | 0 <= j < 29 ensures IdParamAt(s, j).None? {
      assert s[j] == OpenPrefix[j];
    }
  }

  lemma OpenLinkMatch(s: string, id: string, rest: string)
    requires s == OpenPrefix + id + rest
    requires |id| > 0 && AllIdChars(id)
    requires rest == [] || !IsIdChar(rest[0])
    ensures FirstMatch(s, 0, IdParamAt) == Some(id)
  {
    OpenLinkParam(s, id, rest);
    OpenLinkNoEarlierParam(s, id, rest);
    FirstMatchAt(s, 0, IdParamAt, 29);
  }

  /** `https://drive.google.com/open?id=<id><rest>`, with `rest` empty or starting with a
      non-identifier character and holding no `.`, yields `<id>`. */
  lemma OpenLinkYieldsId(s: string, id: string, rest: string)
    requires s == OpenPrefix + id + rest
    requires |id| > 0 && AllIdChars(id)
    requires rest == [] || (!IsIdChar(rest[0]) && !IsSpace(rest[|rest| - 1]))
    requires '.' !in rest
    ensures ExtractFolderIdFromInput(s) == id
  {
    assert s[0] == 'h' && s[5] == ':';
    OpenLinkHasNoFolderUrl(s, id, rest);
    OpenLinkMatch(s, id, rest);
    LinkYieldsIdParam(s, id);
  }

  /** The example the site's documentation gives for a share link,
      `https://drive.google.com/drive/folders/ABC123?usp=sharing`. */
  lemma ShareLinkExample()
    ensures ExtractFolderIdFromInput(SharePrefix + "ABC123" + "?usp=sharing") == "ABC123"
  {
    ShareLinkYieldsId(SharePrefix + "ABC123" + "?usp=sharing", "ABC123", "?usp=sharing");
  }

  /** The example the site's documentation gives for an open link,
      `https://drive.google.com/open?id=XYZ789`. */
  lemma OpenLinkExample()
    ensures ExtractFolderIdFromInput(OpenPrefix + "XYZ789") == "XYZ789"
  {
    assert OpenPrefix + "XYZ789" == OpenPrefix + "XYZ789" + "";
    OpenLinkYieldsId(OpenPrefix + "XYZ789", "XYZ789", "");
  }
}
