/** The Events page: its own folder-reference parser, the past-events loader with its
    sample fallback, the folder-name convention `<event>-<month>/<day>/<year>`, and what a
    click on a past event does. */
module Events {
  import opened Text
  import opened DriveFolder
  import opened DrivePaging

  // ---------------------------------------------------------------------------
  // extractFolderId, the page's own variant

  /** The regex `\/folders\/([a-zA-Z0-9_-]+)` attempted at `i`. */
  function FoldersPathAt(s: string, i: nat): Option<string> {
    LiteralThenId(s, i, "/folders/")
  }

  /** The regex `id=([a-zA-Z0-9_-]+)` attempted at `i`. */
  function IdAssignAt(s: string, i: nat): Option<string> {
    LiteralThenId(s, i, "id=")
  }

  lemma CaptureIsId(s: string, m: (string, nat) -> Option<string>)
    requires m == FoldersPathAt || m == IdAssignAt
    ensures FirstMatch(s, 0, m).Some? ==> |FirstMatch(s, 0, m).value| > 0 && AllIdChars(FirstMatch(s, 0, m).value)
  {
    if FirstMatch(s, 0, m).Some? {
      FirstMatchFound(s, 0, m);
    }
  }

  /** `extractFolderId(input)`: a short text without `http` is taken as the identifier
      itself; otherwise the leftmost `/folders/` capture wins, else the leftmost `id=`
      capture, else the input is returned unchanged. The result is empty only for an empty
      input, and is either the input or a run of identifier characters. */
  function ExtractFolderId(input: string): (r: string)
    ensures input == [] <==> r == []
    ensures |input| < 50 && !Contains(input, "http") ==> r == input
    ensures r == input || (|r| > 0 && AllIdChars(r))
    ensures input != [] && !(|input| < 50 && !Contains(input, "http")) ==>
      && (FirstMatch(input, 0, FoldersPathAt).Some? ==> r == FirstMatch(input, 0, FoldersPathAt).value)
      && (FirstMatch(input, 0, FoldersPathAt).None? && FirstMatch(input, 0, IdAssignAt).Some? ==>
            r == FirstMatch(input, 0, IdAssignAt).value)
      && (FirstMatch(input, 0, FoldersPathAt).None? && FirstMatch(input, 0, IdAssignAt).None? ==> r == input)
  {
    if input == [] then []
    else if |input| < 50 && !Contains(input, "http") then input
    else
      CaptureIsId(input, FoldersPathAt);
      CaptureIsId(input, IdAssignAt);
      match FirstMatch(input, 0, FoldersPathAt)
      case Some(id) => id
      case None =>
        match FirstMatch(input, 0, IdAssignAt)
        case Some(id) => id
        case None => input
  }

  /** The two parsers part on short references: a short word with no `http`, `?` or `&` is
      an identifier to this page and no reference at all to the shared parser. */
  lemma VariantsDifferOnShortWords(input: string)
    requires 0 < |input| < 10 && !IsSpace(input[0]) && !IsSpace(input[|input| - 1])
    requires '?' !in input && '&' !in input && !Contains(input, "http")
    ensures ExtractFolderId(input) == input
    ensures ExtractFolderIdFromInput(input) == []
  {
    assert Trim(input) == input;
    forall j | 0 <= j <= |input| ensures FolderUrlAt(input, j).None? && IdParamAt(input, j).None? {
    }
    FirstMatchNone(input, 0, FolderUrlAt);
    FirstMatchNone(input, 0, IdParamAt);
  }

  lemma ShareLinkNoEarlierFoldersPath(s: string, id: string, rest: string)
    requires s == SharePrefix + id + rest
    ensures forall j :: 0 <= j < 30 ==> FoldersPathAt(s, j).None?
  {
    forall j | 0 <= j < 30 ensures FoldersPathAt(s, j).None? {
      assert s[j] == SharePrefix[j] && s[j + 1] == SharePrefix[j + 1];
      if s[j] != '/' {
        CharMismatch(s, j, "/folders/", 0);
      } else {
        CharMismatch(s, j, "/folders/", 1);
      }
    }
  }

  lemma ShareLinkHasHttp(s: string, id: string, rest: string)
    requires s == SharePrefix + id + rest
    ensures Contains(s, "http")
  {
    assert s[..4] == SharePrefix[..4] == "http";
    assert StartsWithAt(s, 0, "http");
  }

  lemma ShareLinkFoldersPath(s: string, id: string, rest: string)
    requires s == SharePrefix + id + rest
    requires |id| > 0 && AllIdChars(id)
    requires rest == [] || !IsIdChar(rest[0])
    ensures FoldersPathAt(s, 30) == Some(id)
  {
    assert s == ("https://" + DriveHost + "drive") + "/folders/" + (id + rest);
    LiteralInside("https://" + DriveHost + "drive", "/folders/", id + rest);
    assert s[39..] == id + rest;
    IdRunEnds(s, 39, id, rest);
  }

  /** A text holding `http` yields its first `/folders/` capture. */
  lemma LinkYieldsFoldersPath(s: string, id: string)
    requires Contains(s, "http")
    requires FirstMatch(s, 0, FoldersPathAt) == Some(id)
    ensures ExtractFolderId(s) == id
  {
  }

  /** The events page's parser reads the folder identifier from a folder share link. */
  lemma ShareLinkGivesEventsFolder(s: string, id: string, rest: string)
    requires s == SharePrefix + id + rest
    requires |id| > 0 && AllIdChars(id)
    requires rest == [] || !IsIdChar(rest[0])
    ensures ExtractFolderId(s) == id
  {
    ShareLinkHasHttp(s, id, rest);
    ShareLinkFoldersPath(s, id, rest);
    ShareLinkNoEarlierFoldersPath(s, id, rest);
    FirstMatchAt(s, 0, FoldersPathAt, 30);
    LinkYieldsFoldersPath(s, id);
  }

  /** On a folder share link the two parsers agree: both give the folder identifier. */
  lemma VariantsAgreeOnShareLinks(s: string, id: string, rest: string)
    requires s == SharePrefix + id + rest
    requires |id| > 0 && AllIdChars(id)
    requires rest == [] || (!IsIdChar(rest[0]) && !IsSpace(rest[|rest| - 1]))
    ensures ExtractFolderId(s) == id
    ensures ExtractFolderIdFromInput(s) == id
  {
    ShareLinkYieldsId(s, id, rest);
    ShareLinkGivesEventsFolder(s, id, rest);
  }

  // ---------------------------------------------------------------------------
  // parseFolderName

  /** Length of a `\d{1,2}` group at `j` that a `/` follows, or 0 when there is none. Two
      digits are tried first, as the greedy quantifier does; the two cases exclude each
      other, so backtracking has no other choice to make. */
  function DigitGroupAt(s: string, j: nat): (g: nat)
    ensures g <= 2
    ensures g > 0 ==> j + g < |s| && s[j + g] == '/' && forall k :: j <= k < j + g ==> IsDigit(s[k])
  {
    if j + 2 < |s| && IsDigit(s[j]) && IsDigit(s[j + 1]) && s[j + 2] == '/' then 2
    else if j + 1 < |s| && IsDigit(s[j]) && s[j + 1] == '/' then 1
    else 0
  }

  /** The three captures of `(\d{1,2})\/(\d{1,2})\/(\d{2,4})`. */
  datatype DateText = DateText(month: string, day: string, year: string)

  /** The date regex attempted at `i`; the year takes up to four digits and needs two. */
  function DateAt(s: string, i: nat): (r: Option<DateText>)
    ensures r.Some? ==> 1 <= |r.value.month| <= 2 && 1 <= |r.value.day| <= 2 && 2 <= |r.value.year| <= 4
  {
    if i > |s| then None
    else
      var m := DigitGroupAt(s, i);
      if m == 0 then None
      else
        var j := i + m + 1;
        var d := DigitGroupAt(s, j);
        if d == 0 then None
        else
          var k := j + d + 1;
          var y := SpanLen(s, k, IsDigit);
          if y < 2 then None
          else Some(DateText(s[i..i + m], s[j..j + d], s[k..k + (if y < 4 then y else 4)]))
  }

  /** The arguments given to `new Date(year, month, day)`: the month made 0-based and a
      two-digit year read as 20xx. */
  datatype EventDate = EventDate(year: nat, monthIndex: int, day: nat)

  function ToEventDate(t: DateText): EventDate {
    var year := DigitsValue(t.year);
    EventDate(if year < 100 then year + 2000 else year, DigitsValue(t.month) - 1, DigitsValue(t.day))
  }

  /** The date found in a date part, `None` standing for 'Date TBD'. */
  function DateOf(datePart: string): (r: Option<EventDate>)
    ensures r.None? <==> forall i :: 0 <= i <= |datePart| ==> DateAt(datePart, i).None?
    ensures r.Some? ==> 100 <= r.value.year < 10000 && -1 <= r.value.monthIndex < 99 && r.value.day < 100
  {
    FirstMatchNone(datePart, 0, DateAt);
    match FirstMatch(datePart, 0, DateAt)
    case Some(t) =>
      FirstMatchFound(datePart, 0, DateAt);
      DigitsValueBelow(t.month);
      DigitsValueBelow(t.day);
      DigitsValueBelow(t.year);
      Some(ToEventDate(t))
    case None => None
  }

  datatype ParsedFolder = ParsedFolder(eventName: string, date: Option<EventDate>)

  /** `parseFolderName`: the text before the first hyphen, trimmed, is the event name, and
      the date is looked for only between the first and the second hyphen. A name without a
      hyphen is the event name as it stands, with no date. */
  function ParseFolderName(folderName: string): (p: ParsedFolder)
    ensures var h := IndexOf(folderName, '-');
      && (h == |folderName| ==> p == ParsedFolder(folderName, None))
      && (h < |folderName| ==>
            p == ParsedFolder(Trim(folderName[..h]), DateOf(Trim(DatePart(folderName, h)))))
  {
    var parts := Split(folderName, '-');
    SplitAtFirst(folderName, '-');
    var h := IndexOf(folderName, '-');
    if |parts| >= 2 then
      var rest := folderName[h + 1..];
      SplitAtFirst(rest, '-');
      assert parts[1] == parts[1..][0] == Split(rest, '-')[0];
      ParsedFolder(Trim(parts[0]), DateOf(Trim(parts[1])))
    else
      ParsedFolder(folderName, None)
  }

  /** The text between the first hyphen, at `h`, and the next one (or the end). */
  function DatePart(folderName: string, h: nat): string
    requires h < |folderName|
  {
    var rest := folderName[h + 1..];
    rest[..IndexOf(rest, '-')]
  }

  /** `m/d/y` written out in decimal. */
  function DateLabel(m: nat, d: nat, y: nat): string {
    NatText(m) + "/" + NatText(d) + "/" + NatText(y)
  }

  lemma DigitGroupIs(s: string, j: nat, g: nat)
    requires 1 <= g <= 2 && j + g < |s|
    requires forall k :: j <= k < j + g ==> IsDigit(s[k])
    requires s[j + g] == '/'
    ensures DigitGroupAt(s, j) == g
  {
  }

  /** In `a/b/c`, the groups the date regex measures are `a`, `b` and `c`. */
  lemma {:induction false} DatePieces(s: string, a: string, b: string, c: string)
    requires s == a + "/" + b + "/" + c
    requires 1 <= |a| <= 2 && 1 <= |b| <= 2 && 2 <= |c| <= 4
    requires AllDigits(a) && AllDigits(b) && AllDigits(c)
    ensures var j := |a| + 1; var k := j + |b| + 1;
      && k + |c| == |s|
      && DigitGroupAt(s, 0) == |a| && DigitGroupAt(s, j) == |b| && SpanLen(s, k, IsDigit) == |c|
      && s[0..|a|] == a && s[j..j + |b|] == b && s[k..k + |c|] == c
  {
    var j := |a| + 1;
    var k := j + |b| + 1;
    assert s[0..|a|] == a;
    assert s[j..j + |b|] == b;
    assert s[k..] == c;
    assert s[|a|] == '/' && s[j + |b|] == '/';
    DigitGroupIs(s, 0, |a|);
    DigitGroupIs(s, j, |b|);
    DigitRun(s, k, |c|);
  }

  /** `a/b/c` with groups of the lengths the regex accepts is matched at its start, each
      capture being the group written. */
  lemma {:induction false} DateAtWritten(s: string, a: string, b: string, c: string)
    requires s == a + "/" + b + "/" + c
    requires 1 <= |a| <= 2 && 1 <= |b| <= 2 && 2 <= |c| <= 4
    requires AllDigits(a) && AllDigits(b) && AllDigits(c)
    ensures DateAt(s, 0) == Some(DateText(a, b, c))
  {
    DatePieces(s, a, b, c);
    assert (if |c| < 4 then |c| else 4) == |c|;
  }

  /** A date written `m/d/y`, with a month and day of one or two digits and a year of two to
      four, is read back as the date it was written from. */
  lemma DateLabelRoundTrip(m: nat, d: nat, y: nat)
    requires m < 100 && d < 100 && 10 <= y < 10000
    ensures DateOf(DateLabel(m, d, y)) ==
      Some(EventDate(if y < 100 then y + 2000 else y, m - 1, d))
  {
    var s := DateLabel(m, d, y);
    NatTextLength(m);
    NatTextLength(d);
    NatTextLength(y);
    DateAtWritten(s, NatText(m), NatText(d), NatText(y));
    FirstMatchAt(s, 0, DateAt, 0);
    NatTextRoundTrip(m);
    NatTextRoundTrip(d);
    NatTextRoundTrip(y);
  }

  /** The text after the first hyphen of `<event>-<rest>` when the event has none. */
  lemma FirstHyphenAfterEvent(s: string, event: string, rest: string)
    requires s == event + "-" + rest && '-' !in event
    ensures IndexOf(s, '-') == |event|
    ensures s[..|event|] == event && s[|event| + 1..] == rest
  {
    assert s[|event|] == '-';
    assert forall i :: 0 <= i < |event| ==> s[i] == event[i];
  }

  lemma DigitsHaveNoHyphen(x: string)
    requires AllDigits(x)
    ensures '-' !in x
  {
    assert forall i :: 0 <= i < |x| ==> x[i] != '-';
  }

  /** A written date starts with its month and ends with its year. */
  lemma DateEnds(t: string, a: string, b: string, c: string)
    requires t == a + "/" + b + "/" + c && a != [] && c != []
    ensures t[0] == a[0] && t[|t| - 1] == c[|c| - 1]
  {
  }

  /** A written date has no hyphen and no surrounding space. */
  lemma WrittenDateShape(t: string, a: string, b: string, c: string)
    requires t == a + "/" + b + "/" + c
    requires AllDigits(a) && AllDigits(b) && AllDigits(c) && a != [] && c != []
    ensures '-' !in t && Trim(t) == t
  {
    DigitsHaveNoHyphen(a);
    DigitsHaveNoHyphen(b);
    DigitsHaveNoHyphen(c);
    assert '-' !in a + "/" + b + "/" + c;
    DateEnds(t, a, b, c);
    assert IsDigit(a[0]) && IsDigit(c[|c| - 1]);
  }

  /** A folder named `<event>-<m>/<d>/<y>` shows the trimmed event name and that date. */
  lemma FolderNameRoundTrip(event: string, m: nat, d: nat, y: nat)
    requires '-' !in event
    requires m < 100 && d < 100 && 10 <= y < 10000
    ensures ParseFolderName(event + "-" + DateLabel(m, d, y)) ==
      ParsedFolder(Trim(event), Some(EventDate(if y < 100 then y + 2000 else y, m - 1, d)))
  {
    var written := DateLabel(m, d, y);
    var s := event + "-" + written;
    FirstHyphenAfterEvent(s, event, written);
    WrittenDateShape(written, NatText(m), NatText(d), NatText(y));
    IndexOfAbsent(written, '-');
    assert DatePart(s, |event|) == written;
    DateLabelRoundTrip(m, d, y);
  }

  /** A date part without a `/` holds no date. */
  lemma NoSlashNoDate(datePart: string)
    requires '/' !in datePart
    ensures DateOf(datePart).None?
  {
    forall i | 0 <= i <= |datePart| ensures DateAt(datePart, i).None? {
    }
    FirstMatchNone(datePart, 0, DateAt);
  }

  /** A folder name without a `/` shows 'Date TBD', whatever digits it holds. */
  lemma NoSlashShowsDateTbd(folderName: string)
    requires '/' !in folderName
    ensures ParseFolderName(folderName).date.None?
  {
    var h := IndexOf(folderName, '-');
    if h < |folderName| {
      var part := DatePart(folderName, h);
      assert forall k :: 0 <= k < |part| ==> part[k] == folderName[h + 1 + k];
      TrimKeepsOut(part, '/');
      NoSlashNoDate(Trim(part));
    }
  }

  // ---------------------------------------------------------------------------
  // past events

  /** One card of the past-events grid. Sample events carry no photo count; the card shows
      `photoCount || 0`, so they are given 0 here. */
  datatype PastEvent = PastEvent(id: string, name: string, imageId: Option<string>,
                                 imageName: Option<string>, photoCount: nat)

  /** The events shown when Drive cannot be used. */
  const SampleEvents: seq<PastEvent> := [
    PastEvent("sample-1", "Navaratri-10-14-2024", None, None, 0),
    PastEvent("sample-2", "Diwali-11-12-2024", None, None, 0),
    PastEvent("sample-3", "Fundraiser-09-28-2024", None, None, 0)
  ]

  /** The samples write their dates with hyphens, without a `/`, so by `NoSlashShowsDateTbd`
      each of them shows 'Date TBD'. */
  lemma SampleNamesHaveNoSlash()
    ensures forall i :: 0 <= i < |SampleEvents| ==> '/' !in SampleEvents[i].name
  {
    forall i | 0 <= i < |SampleEvents| ensures '/' !in SampleEvents[i].name {
      var name := SampleEvents[i].name;
      assert name == ["Navaratri-10-14-2024", "Diwali-11-12-2024", "Fundraiser-09-28-2024"][i];
      assert forall k :: 0 <= k < |name| ==> name[k] != '/';
    }
  }

  /** The card of one subfolder, given the reply to its image listing: the first image as the
      thumbnail and the number of images, or neither when the listing failed. */
  function EventFor(folder: DriveFile, reply: Reply): (e: PastEvent)
    ensures e.id == folder.id && e.name == folder.name
    ensures e.imageId.Some? <==> e.photoCount > 0
    ensures e.imageName.Some? <==> e.photoCount > 0
  {
    match reply
    case Page(files, _) =>
      if files == [] then PastEvent(folder.id, folder.name, None, None, 0)
      else PastEvent(folder.id, folder.name, Some(files[0].id), Some(files[0].name), |files|)
    case _ => PastEvent(folder.id, folder.name, None, None, 0)
  }

  /** What `fetchPastEvents` leaves in `pastEvents`, given the configured folder reference,
      the API key, the reply to the subfolder listing and, for each subfolder, the reply to
      its image listing. */
  function PastEventsFor(folderSetting: string, apiKey: string, listing: Reply,
                         imagesFor: DriveFile -> Reply): (events: seq<PastEvent>)
    ensures ExtractFolderId(folderSetting) == [] || apiKey == [] || !listing.Page? || listing.files == [] ==>
      events == SampleEvents
    ensures ExtractFolderId(folderSetting) != [] && apiKey != [] && listing.Page? && listing.files != [] ==>
      |events| == |listing.files| &&
      forall i :: 0 <= i < |events| ==> events[i] == EventFor(listing.files[i], imagesFor(listing.files[i]))
  {
    if ExtractFolderId(folderSetting) == [] || apiKey == [] then SampleEvents
    else
      match listing
      case Page(folders, _) =>
        if folders == [] then SampleEvents
        else seq(|folders|, i requires 0 <= i < |folders| => EventFor(folders[i], imagesFor(folders[i])))
      case _ => SampleEvents
  }

  /** The page always ends up with events to show: the samples, or one card per subfolder in
      the order listed. So the "No past events found" message never appears once loaded. */
  lemma PastEventsNeverEmpty(folderSetting: string, apiKey: string, listing: Reply,
                             imagesFor: DriveFile -> Reply)
    ensures var events := PastEventsFor(folderSetting, apiKey, listing, imagesFor);
      && |events| > 0
      && (events == SampleEvents ||
          (listing.Page? && |events| == |listing.files| &&
           forall i :: 0 <= i < |events| ==> events[i].id == listing.files[i].id && events[i].name == listing.files[i].name))
  {
  }

  /** Without a folder or a key, or when the listing fails or is empty, the samples are
      shown; each listed subfolder otherwise. */
  lemma SamplesExactlyOnFallback(folderSetting: string, apiKey: string, listing: Reply,
                                 imagesFor: DriveFile -> Reply)
    ensures PastEventsFor(folderSetting, apiKey, listing, imagesFor) == SampleEvents <==>
      (ExtractFolderId(folderSetting) == [] || apiKey == [] || !listing.Page? || listing.files == [] ||
       SampleEvents == seq(|listing.files|, i requires 0 <= i < |listing.files| => EventFor(listing.files[i], imagesFor(listing.files[i]))))
  {
  }

  /** What a click on a past event card does. */
  datatype ClickAction = SampleNotice | OpenFolder(url: string)

  /** `handlePastEventClick(folderId)`: a sample event only tells the visitor it is a
      sample; any other opens the folder's share link. */
  function PastEventClick(folderId: string): (a: ClickAction)
    ensures a.SampleNotice? <==> StartsWithAt(folderId, 0, "sample-")
    ensures a.OpenFolder? ==>
      && StartsWithAt(a.url, 0, SharePrefix) && StartsWithAt(a.url, |SharePrefix|, folderId)
      && |a.url| == |SharePrefix| + |folderId|
  {
    if StartsWithAt(folderId, 0, "sample-") then SampleNotice
    else
      var url := SharePrefix + folderId;
      LiteralInside(SharePrefix, folderId, []);
      assert SharePrefix + folderId + [] == url;
      assert url[..|SharePrefix|] == SharePrefix;
      OpenFolder(url)
  }

  /** The link opened for a real folder leads back to it: both folder parsers read the
      folder identifier out of it again. */
  lemma ClickOpensSameFolder(folderId: string)
    requires |folderId| > 0 && AllIdChars(folderId) && !StartsWithAt(folderId, 0, "sample-")
    ensures PastEventClick(folderId).OpenFolder?
    ensures ExtractFolderIdFromInput(PastEventClick(folderId).url) == folderId
    ensures ExtractFolderId(PastEventClick(folderId).url) == folderId
  {
    var url := SharePrefix + folderId;
    assert url == SharePrefix + folderId + [];
    VariantsAgreeOnShareLinks(url, folderId, []);
  }

  /** Every sample card answers a click with the sample notice. */
  lemma SampleClicksShowNotice()
    ensures forall i :: 0 <= i < |SampleEvents| ==> PastEventClick(SampleEvents[i].id) == SampleNotice
  {
    assert forall i :: 0 <= i < |SampleEvents| ==> SampleEvents[i].id[..7] == "sample-";
  }

  /** The past-events section as rendered. */
  datatype Section = SetupInstructions | NoEvents | Grid(cards: seq<PastEvent>)

  function SectionFor(folderSetting: string, pastEvents: seq<PastEvent>): (s: Section)
    ensures s == SetupInstructions <==> ExtractFolderId(folderSetting) == []
    ensures s == NoEvents <==> ExtractFolderId(folderSetting) != [] && pastEvents == []
    ensures s.Grid? ==> s.cards == pastEvents && pastEvents != []
  {
    if ExtractFolderId(folderSetting) == [] then SetupInstructions
    else if pastEvents == [] then NoEvents
    else Grid(pastEvents)
  }

  class EventsPage {
    var pastEvents: seq<PastEvent>

    constructor()
      ensures pastEvents == []
    {
      pastEvents := [];
    }

    /** `fetchPastEvents`, returning the number of requests it made: none without a folder
        or a key, the subfolder listing, and one image listing per subfolder. */
    method FetchPastEvents(folderSetting: string, apiKey: string, listing: Reply,
                           imagesFor: DriveFile -> Reply) returns (requests: nat)
      modifies this
      ensures pastEvents == PastEventsFor(folderSetting, apiKey, listing, imagesFor)
      ensures requests ==
        if ExtractFolderId(folderSetting) == [] || apiKey == [] then 0
        else if listing.Page? then 1 + |listing.files|
        else 1
    {
      var folderId := ExtractFolderId(folderSetting);
      if folderId == [] || apiKey == [] {
        pastEvents := SampleEvents;
        return 0;
      }
      if !listing.Page? {
        pastEvents := SampleEvents;
        return 1;
      }
      var folders := listing.files;
      if folders == [] {
        pastEvents := SampleEvents;
        return 1;
      }
      var events: seq<PastEvent> := [];
      var i := 0;
      while i < |folders|
        invariant i <= |folders|
        invariant |events| == i
        invariant forall k :: 0 <= k < i ==> events[k] == EventFor(folders[k], imagesFor(folders[k]))
      {
        events := events + [EventFor(folders[i], imagesFor(folders[i]))];
        i := i + 1;
      }
      pastEvents := events;
      return 1 + |folders|;
    }

    /** After loading, a configured page shows a grid of cards, never the empty message. */
    method LoadedSection(folderSetting: string, apiKey: string, listing: Reply,
                         imagesFor: DriveFile -> Reply) returns (section: Section)
      modifies this
      ensures ExtractFolderId(folderSetting) == [] ==> section == SetupInstructions
      ensures ExtractFolderId(folderSetting) != [] ==> section == Grid(pastEvents) && pastEvents != []
    {
      var _ := FetchPastEvents(folderSetting, apiKey, listing, imagesFor);
      PastEventsNeverEmpty(folderSetting, apiKey, listing, imagesFor);
      section := SectionFor(folderSetting, pastEvents);
    }
  }
}
