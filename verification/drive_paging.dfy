/** The page loop the board-member, gallery and financial widgets share: request a page of
    the Drive `files.list` listing, push the page's files into `collected` until the cap is
    reached, and go on while the response carries a `nextPageToken` and the cap has room.
    A failed response ends the loop with an error. The listing is given as the sequence of
    replies it produces, one per request, in order. */
module DrivePaging {
  import opened Text

  /** One entry of the `files` array of a listing response: the fields the widgets request. */
  datatype DriveFile = DriveFile(id: string, name: string, mimeType: string)

  /** What one request gives the page loop. */
  datatype Reply =
      /** `response.ok`, decoded; `files` is `[]` when the field is not an array */
    | Page(files: seq<DriveFile>, nextPageToken: Option<string>)
      /** not `response.ok`: the status and `response.text()` */
    | HttpError(status: nat, body: string)
      /** `fetch` or `response.json()` threw an error with this message */
    | Thrown(message: string)

  /** `pageToken` is truthy after this reply: present and non-empty. */
  predicate HasMore(r: Reply) {
    r.Page? && r.nextPageToken.Some? && r.nextPageToken.value != []
  }

  /** The listing answers at least once and its last answer carries no continuation, so the
      loop cannot run past the end of the replies. */
  predicate Ends(feed: seq<Reply>) {
    |feed| > 0 && !HasMore(feed[|feed| - 1])
  }

  /** The cap on `collected.length`. */
  datatype Cap = Limit(max: nat) | Unlimited

  /** The cap still lets one more entry in. */
  predicate Room(cap: Cap, n: nat) {
    cap.Unlimited? || n < cap.max
  }

  /** How many of `n` candidate entries the cap admits. */
  function Bound(cap: Cap, n: nat): (b: nat)
    ensures b <= n
    ensures cap.Limit? ==> b <= cap.max
    ensures cap.Unlimited? || n <= cap.max ==> b == n
  {
    if cap.Limit? && cap.max < n then cap.max else n
  }

  /** Result of the loop: the collected entries and the number of requests made, or the
      reply that aborted it and the number of requests made up to and including it. */
  datatype Paged<E> = Loaded(items: seq<E>, requests: nat) | Aborted(failure: Reply, requests: nat)

  function MapFiles<E>(files: seq<DriveFile>, f: DriveFile -> E): (r: seq<E>)
    ensures |r| == |files| && forall i :: 0 <= i < |files| ==> r[i] == f(files[i])
  {
    seq(|files|, i requires 0 <= i < |files| => f(files[i]))
  }

  /** The files of all successful pages among `replies`, in order. */
  function Files(replies: seq<Reply>): seq<DriveFile> {
    if replies == [] then []
    else
      var last := replies[|replies| - 1];
      Files(replies[..|replies| - 1]) + (if last.Page? then last.files else [])
  }

  /** The inner `for (const file of files)` loop: it stops pushing as soon as the cap is
      reached. */
  function Fill<E>(acc: seq<E>, files: seq<DriveFile>, cap: Cap, f: DriveFile -> E): seq<E>
    decreases |files|
  {
    if files == [] || !Room(cap, |acc|) then acc
    else Fill(acc + [f(files[0])], files[1..], cap, f)
  }

  /** The `do … while (pageToken && collected.length < max)` loop from request `k` on. */
  function Run<E>(feed: seq<Reply>, k: nat, acc: seq<E>, cap: Cap, f: DriveFile -> E): (res: Paged<E>)
    requires Ends(feed) && k < |feed|
    ensures res.Aborted? ==> !res.failure.Page?
    decreases |feed| - k
  {
    match feed[k]
    case Page(files, _) =>
      var next := Fill(acc, files, cap, f);
      if HasMore(feed[k]) && Room(cap, |next|) then Run(feed, k + 1, next, cap, f)
      else Loaded(next, k + 1)
    case _ => Aborted(feed[k], k + 1)
  }

  function Collect<E>(feed: seq<Reply>, cap: Cap, f: DriveFile -> E): (res: Paged<E>)
    requires Ends(feed)
    ensures res.Aborted? ==> !res.failure.Page?
  {
    Run(feed, 0, [], cap, f)
  }

  /** After reply `j` the loop goes on: it was a page with a token, and the files listed so
      far leave the cap room. */
  predicate Continues(feed: seq<Reply>, cap: Cap, j: nat)
    requires j < |feed|
  {
    HasMore(feed[j]) && Room(cap, |Files(feed[..j + 1])|)
  }

  /** What the loop is meant to do, stated without running it: it makes `r` requests, went on
      after each reply before the last and not after the last, and then either stopped on a
      page holding the first `Bound` of all the files listed so far, in order, or stopped on
      the failed reply. */
  ghost predicate Outcome<E>(feed: seq<Reply>, cap: Cap, f: DriveFile -> E, res: Paged<E>) {
    && 1 <= res.requests <= |feed|
    && (forall j :: 0 <= j < res.requests - 1 ==> Continues(feed, cap, j))
    && !Continues(feed, cap, res.requests - 1)
    && match res
       case Loaded(items, r) =>
         && feed[r - 1].Page?
         && items == MapFiles(Files(feed[..r]), f)[..Bound(cap, |Files(feed[..r])|)]
       case Aborted(failure, r) =>
         failure == feed[r - 1] && !failure.Page?
  }

  lemma MapFilesAppend<E>(a: seq<DriveFile>, b: seq<DriveFile>, f: DriveFile -> E)
    ensures MapFiles(a + b, f) == MapFiles(a, f) + MapFiles(b, f)
  {
  }

  lemma FilesSnoc(feed: seq<Reply>, k: nat)
    requires k < |feed|
    ensures Files(feed[..k + 1]) == Files(feed[..k]) + (if feed[k].Page? then feed[k].files else [])
  {
    assert feed[..k + 1][..k] == feed[..k];
  }

  /** The inner loop pushes the mapped files in order until the cap is reached. */
  lemma {:induction false} FillTakes<E>(acc: seq<E>, files: seq<DriveFile>, cap: Cap, f: DriveFile -> E)
    requires cap.Limit? ==> |acc| <= cap.max
    ensures Fill(acc, files, cap, f) == (acc + MapFiles(files, f))[..Bound(cap, |acc| + |files|)]
    decreases |files|
  {
    var whole := acc + MapFiles(files, f);
    if files == [] {
      assert whole == acc;
    } else if !Room(cap, |acc|) {
      assert Bound(cap, |acc| + |files|) == |acc|;
      assert whole[..|acc|] == acc;
    } else {
      var acc' := acc + [f(files[0])];
      FillTakes(acc', files[1..], cap, f);
      assert acc' + MapFiles(files[1..], f) == whole;
    }
  }

  /** The loop from request `k`, entered with every earlier file collected. */
  lemma {:induction false} RunOutcome<E>(feed: seq<Reply>, k: nat, acc: seq<E>, cap: Cap, f: DriveFile -> E)
    requires Ends(feed) && k < |feed|
    requires forall j :: 0 <= j < k ==> Continues(feed, cap, j)
    requires acc == MapFiles(Files(feed[..k]), f)
    ensures Outcome(feed, cap, f, Run(feed, k, acc, cap, f))
    decreases |feed| - k
  {
    FilesSnoc(feed, k);
    if feed[k].Page? {
      var files := feed[k].files;
      assert cap.Limit? ==> |acc| <= cap.max by {
        assert |acc| == |Files(feed[..k])|;
        assert k > 0 ==> Continues(feed, cap, k - 1);
      }
      FillTakes(acc, files, cap, f);
      MapFilesAppend(Files(feed[..k]), files, f);
      var next := Fill(acc, files, cap, f);
      assert next == MapFiles(Files(feed[..k + 1]), f)[..Bound(cap, |Files(feed[..k + 1])|)];
      assert Room(cap, |next|) <==> Room(cap, |Files(feed[..k + 1])|);
      if HasMore(feed[k]) && Room(cap, |next|) {
        assert next == MapFiles(Files(feed[..k + 1]), f);
        RunOutcome(feed, k + 1, next, cap, f);
      }
    }
  }

  /** The loop does what `Outcome` describes. */
  lemma CollectOutcome<E>(feed: seq<Reply>, cap: Cap, f: DriveFile -> E)
    requires Ends(feed)
    ensures Outcome(feed, cap, f, Collect(feed, cap, f))
  {
    assert feed[..0] == [];
    RunOutcome(feed, 0, [], cap, f);
  }

  /** The collected entries never exceed the cap, and are, in order, the mapped files of the
      pages read, cut at the cap. Without a cap they are all of them. */
  lemma CollectBounded<E>(feed: seq<Reply>, cap: Cap, f: DriveFile -> E)
    requires Ends(feed)
    ensures 1 <= Collect(feed, cap, f).requests <= |feed|
    ensures var res := Collect(feed, cap, f);
      res.Loaded? ==>
        && (cap.Limit? ==> |res.items| <= cap.max)
        && (cap.Unlimited? ==> res.items == MapFiles(Files(feed[..res.requests]), f))
        && res.items <= MapFiles(Files(feed[..res.requests]), f)
  {
    CollectOutcome(feed, cap, f);
  }

  /** Without a cap every page is followed until a reply carries no token. */
  lemma {:induction false} CollectUnlimitedFollowsAll<E>(feed: seq<Reply>, f: DriveFile -> E)
    requires Ends(feed)
    requires forall j :: 0 <= j < |feed| - 1 ==> HasMore(feed[j])
    ensures Collect(feed, Unlimited, f) ==
      (if feed[|feed| - 1].Page? then Loaded(MapFiles(Files(feed), f), |feed|)
       else Aborted(feed[|feed| - 1], |feed|))
  {
    CollectOutcome(feed, Unlimited, f);
    var res := Collect(feed, Unlimited, f);
    assert !HasMore(feed[res.requests - 1]);
    assert res.requests == |feed|;
    assert feed[..|feed|] == feed;
    assert Bound(Unlimited, |Files(feed)|) == |Files(feed)|;
  }

  /** `Outcome` determines the result: two results that both satisfy it are equal, so it is a
      complete description of the loop. */
  lemma OutcomeUnique<E>(feed: seq<Reply>, cap: Cap, f: DriveFile -> E, a: Paged<E>, b: Paged<E>)
    requires Outcome(feed, cap, f, a) && Outcome(feed, cap, f, b)
    ensures a == b
  {
  }

  /** The loop as the widgets run it: `collected` grows in place, page after page. */
  method CollectPages<E>(feed: seq<Reply>, cap: Cap, f: DriveFile -> E) returns (res: Paged<E>)
    requires Ends(feed)
    ensures res == Collect(feed, cap, f)
    ensures Outcome(feed, cap, f, res)
  {
    CollectOutcome(feed, cap, f);
    var collected: seq<E> := [];
    var k := 0;
    while true
      invariant k < |feed|
      invariant Run(feed, k, collected, cap, f) == Collect(feed, cap, f)
      decreases |feed| - k
    {
      var reply := feed[k];
      if !reply.Page? {
        return Aborted(reply, k + 1);
      }
      var files := reply.files;
      ghost var before := collected;
      var i := 0;
      while i < |files|
        invariant i <= |files|
        invariant Fill(collected, files[i..], cap, f) == Fill(before, files, cap, f)
      {
        if !Room(cap, |collected|) {
          break;
        }
        assert files[i..][1..] == files[i + 1..];
        collected := collected + [f(files[i])];
        i := i + 1;
      }
      assert Fill(collected, files[i..], cap, f) == collected;
      if !(HasMore(reply) && Room(cap, |collected|)) {
        return Loaded(collected, k + 1);
      }
      k := k + 1;
    }
  }
  // ---------------------------------------------------------------------------
  // What the widgets report

  /** The checks every widget makes before its first request: the API key first, then the
      folder identifier. */
  datatype Precheck = MissingKey | MissingFolder | Ready

  function CheckSettings(apiKey: string, folderId: string): (c: Precheck)
    ensures c == Ready <==> apiKey != [] && folderId != []
    ensures c == MissingFolder ==> apiKey != []
  {
    if apiKey == [] then MissingKey else if folderId == [] then MissingFolder else Ready
  }

  const MissingKeyMessage := "Missing Google API key. Set REACT_APP_GOOGLE_API_KEY in .env"

  /** The missing-folder message, naming the widget's own environment variables. */
  function MissingFolderMessage(variables: string): string {
    "Missing Google Drive folder ID or URL. Provide via prop or " + variables
  }

  const ErrorHead := "Drive API error ("

  /** What follows the status in the message of a failed listing. */
  function ErrorTail(what: string, body: string): (t: string)
    ensures |t| > |body| && t[0] == ')' && t[|t| - |body|..] == body
  {
    var lead := "). Ensure the folder and its " + what +
      " are shared as \"Anyone with the link\". Details: ";
    assert (lead + body)[|lead|..] == body;
    lead + body
  }

  /** The message of the error a failed listing reply raises; `what` is what the folder is
      expected to share ("images" or "files"). */
  function ListingErrorMessage(failure: Reply, what: string): (msg: string)
    requires !failure.Page?
    ensures failure.Thrown? ==> msg == failure.message
    ensures failure.HttpError? ==>
      && StartsWithAt(msg, 0, ErrorHead)
      && |msg| >= |failure.body| && msg[|msg| - |failure.body|..] == failure.body
  {
    match failure
    case HttpError(status, body) =>
      var head := ErrorHead + NatText(status);
      var tail := ErrorTail(what, body);
      assert (head + tail)[..|ErrorHead|] == ErrorHead;
      assert (head + tail)[|head + tail| - |body|..] == tail[|tail| - |body|..];
      head + tail
    case Thrown(message) => message
  }

  /** The message of a non-ok reply starts with the status, in decimal and readable back, and
      ends with the body of the response. */
  lemma ListingErrorReportsStatus(status: nat, body: string, what: string)
    ensures var msg := ListingErrorMessage(HttpError(status, body), what);
      && StartsWithAt(msg, 0, ErrorHead)
      && SpanLen(msg, |ErrorHead|, IsDigit) == |NatText(status)|
      && DigitsValue(msg[|ErrorHead|..|ErrorHead| + |NatText(status)|]) == status
      && msg[|msg| - |body|..] == body
  {
    var tail := ErrorTail(what, body);
    assert tail[0] == ')';
    NumberBetween(ErrorHead, status, tail);
    assert ListingErrorMessage(HttpError(status, body), what) == ErrorHead + NatText(status) + tail;
  }
}
