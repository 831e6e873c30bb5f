# Vasavi Seattle website — a Dafny model of its data-handling core

The Vasavi Seattle website is a React single-page site. Its pages show content kept in Google
Drive folders: board-member photos, a photo gallery, financial documents and past events. The
site also has a three-step donation wizard and a testimonials carousel. This project models
that logic in Dafny and proves what it promises:

- turning a folder setting (a bare identifier or a share link) into a Drive folder identifier,
  in the two variants the site uses;
- reading a board member's name and role from a photo's file name, and a document's title
  from its file name;
- reading an event's name and date from a folder name such as `Diwali-11/12/2024`;
- the three image URLs of a Drive file, and the component that falls back from one URL to the
  next when an image fails to load;
- the capped, paged Drive listing loop shared by the board-member, gallery and financial
  widgets, with the order in which its errors are reported;
- the events page: its fallback to sample events, and what a click on an event card does;
- the donation wizard as a class whose methods are the form's event handlers;
- the testimonial carousel's `nextSlide`/`prevSlide` step handlers and its dot navigation.

Modules, one per file:

| module | file | models |
|---|---|---|
| `Text` | text.dfy | `trim`, `indexOf`, `split`/`join`, digit runs, leftmost regex search |
| `Amounts` | amounts.dfy | the decimal amounts of the donation form, `parseFloat` and `toString` |
| `FileNames` | file_names.dfy | the `\.[^/.]+$` extension strip and `extractNameAndRole` |
| `DriveFolder` | drive_folder.dfy | `extractFolderIdFromInput` (the same function in three components) |
| `DrivePaging` | drive_paging.dfy | the `do … while (pageToken && …)` listing loop and its error messages |
| `DriveImages` | drive_images.dfy | `buildImageUrls…` and `ImageWithFallback` |
| `BoardMembers` | board_members.dfy | `BoardMemberCard` |
| `Gallery` | drive_gallery.dfy | `DriveGallery` |
| `Financials` | financial.dfy | `Financial` |
| `Events` | events_page.dfy | `EventsPage` |
| `Donation` | donation.dfy | `DonationForm` |
| `Carousel` | testimonials.dfy | `Testimonials` |

The model has no network. A listing is given as the sequence of replies Drive would send, one
per request (`DrivePaging.Reply`: a page of files with an optional continuation token, an HTTP
error with its status and body, or a thrown error). Environment variables are parameters, and
so is the reply of each image listing of the events page.

## Model

| member | source | states |
|---|---|---|
| Text.Trim | src/components/BoardMemberCard.jsx:6 | the trimmed text occurs in the input, has no space at either end, and text with no space at either end is its own trim |
| Text.TrimAround | src/components/BoardMemberCard.jsx:6 | spaces around a core with non-space ends are removed and nothing else is |
| Text.IndexOf | src/components/BoardMemberCard.jsx:36 | the position of the first occurrence of the separator, or the length when there is none |
| Text.LastIndexOf | src/components/BoardMemberCard.jsx:33 | the last occurrence of a character, or none exactly when it does not occur |
| Text.JoinSplit | src/components/BoardMemberCard.jsx:36-40 | joining the parts of a split with the same separator gives the text back |
| Text.SplitHeadRest | src/components/BoardMemberCard.jsx:36-40 | a split has two or more parts exactly when the separator occurs; the first part is the text before it and the rest, re-joined, is the text after it |
| Text.NatTextRoundTrip | src/components/DriveGallery.jsx:124 | a status number written in decimal reads back as that number |
| Text.NumberBetween | src/components/Financial.jsx:87 | a number written between a prefix and a non-digit is read back whole, and the text after it is the suffix |
| Text.FirstMatchAt | src/components/BoardMemberCard.jsx:18 | `String.match` finds the leftmost position where the pattern matches |
| Text.FirstMatchNone | src/components/BoardMemberCard.jsx:23 | `String.match` finds nothing exactly when the pattern matches at no position |
| Amounts.Normalize | src/components/DonationCard.jsx:33 | an amount is kept in lowest terms, and a value already in lowest terms is unchanged |
| Amounts.NormalizeSameValue | src/components/DonationCard.jsx:33 | lowest terms denote the same number |
| Amounts.ParseFloat | src/components/DonationCard.jsx:32-33 | a number read from text is in lowest terms |
| Amounts.AmountText | src/components/DonationCard.jsx:94 | `toString` of an amount: a leading `-` exactly for a negative amount, no point for a whole amount, and otherwise a point followed by as many digits as the scale |
| Amounts.AmountTextRoundTrip | src/components/DonationCard.jsx:94 | an amount written with `toString`, then any text that cannot continue a number, reads back with `parseFloat` as the same amount |
| FileNames.StripExtension | src/components/BoardMemberCard.jsx:33 | the result is a prefix of the name, and anything removed is an extension |
| FileNames.ExtensionIsLastDot | src/components/BoardMemberCard.jsx:33 | an extension starts at the last dot of the name |
| FileNames.StripExtensionMatchesRegex | src/components/BoardMemberCard.jsx:33 | the name is cut at its extension when it has one, and is unchanged exactly when it has none |
| FileNames.ExtractNameAndRole | src/components/BoardMemberCard.jsx:31-46 | with a hyphen in the stripped name: the trimmed text before the first hyphen and the trimmed rest; without one: the whole file name and 'Board Member' |
| FileNames.PhotoNameParts | src/components/BoardMemberCard.jsx:31-46 | a photo named `name-role.ext` gives the trimmed name and role, even when the role itself holds hyphens |
| DriveFolder.CaptureIdAt | src/components/BoardMemberCard.jsx:18 | the capture `([A-Za-z0-9_-]+)` is a non-empty run of identifier characters, maximal |
| DriveFolder.FolderUrlAt | src/components/BoardMemberCard.jsx:18 | a folder URL match captures an identifier |
| DriveFolder.IdParamAt | src/components/BoardMemberCard.jsx:23 | an `id=` parameter match captures an identifier |
| DriveFolder.ExtractFolderIdFromInput | src/components/BoardMemberCard.jsx:4-29 | the result is empty or an identifier, and an empty input gives the empty result |
| DriveFolder.ResolveFolderId | src/components/BoardMemberCard.jsx:105-108 | the prop wins when it is non-empty, and the environment setting is used otherwise |
| DriveFolder.FirstMatchIsId | src/components/BoardMemberCard.jsx:18-26 | both patterns only ever return identifiers |
| DriveFolder.BareIdAccepted | src/components/BoardMemberCard.jsx:6-12 | an input that trims to ten or more identifier characters is returned trimmed |
| DriveFolder.BareIdUnchanged | src/components/BoardMemberCard.jsx:8-12 | a bare identifier is its own folder identifier (idempotence on results of ten or more characters) |
| DriveFolder.FolderUrlWins | src/components/BoardMemberCard.jsx:18-21 | when the input is not a bare identifier, the leftmost folder URL match decides |
| DriveFolder.IdParamFallback | src/components/BoardMemberCard.jsx:23-28 | without a folder URL, the leftmost `id=` parameter decides, and the result is empty exactly when there is none |
| DriveFolder.FolderUrlNeedsHost | src/components/BoardMemberCard.jsx:18 | a folder URL match starts at `drive.` |
| DriveFolder.LinkIsTrimmedNotBare | src/components/BoardMemberCard.jsx:6-10 | an `http…:` link is already trimmed and never taken for a bare identifier |
| DriveFolder.ShareLinkYieldsId | src/components/BoardMemberCard.jsx:15-21 | a `https://drive.google.com/drive/folders/<id>` link, with or without a query, gives `<id>` |
| DriveFolder.OpenLinkYieldsId | src/components/BoardMemberCard.jsx:23-26 | a `https://drive.google.com/open?id=<id>` link gives `<id>` |
| DriveFolder.ShareLinkExample | src/components/BoardMemberCard.jsx:16 | the share link with `?usp=sharing` of folder `ABC123` gives `ABC123` |
| DriveFolder.OpenLinkExample | src/components/BoardMemberCard.jsx:23-26 | the open link of folder `XYZ789` gives `XYZ789` |
| DrivePaging.Bound | src/components/BoardMemberCard.jsx:151 | how many entries a capped list keeps: never more than the cap, all of them when under it |
| DrivePaging.MapFiles | src/components/BoardMemberCard.jsx:148-160 | one entry per listed file, in order |
| DrivePaging.Collect | src/components/BoardMemberCard.jsx:129-164 | a listing aborts only on a failed reply |
| DrivePaging.FillTakes | src/components/BoardMemberCard.jsx:148-160 | the inner loop appends the entries of a page until the cap is reached |
| DrivePaging.CollectOutcome | src/components/BoardMemberCard.jsx:129-168 | the loop stops at the first failed reply, or at the first reply without a continuation token or once the cap is reached; what it keeps is the capped prefix of the entries of the files listed until then |
| DrivePaging.CollectBounded | src/components/BoardMemberCard.jsx:129-164 | at least one and at most as many requests as there are replies; never more entries than the cap |
| DrivePaging.CollectUnlimitedFollowsAll | src/components/Financial.jsx:111 | without a cap, every page is requested and every file is kept |
| DrivePaging.OutcomeUnique | src/components/BoardMemberCard.jsx:129-168 | the outcome is determined by the replies |
| DrivePaging.CollectPages | src/components/BoardMemberCard.jsx:129-164 | the loop computes `Collect`, and so its outcome |
| DrivePaging.CheckSettings | src/components/BoardMemberCard.jsx:112-118 | the listing starts only with both a key and a folder; a missing key is reported before a missing folder |
| DrivePaging.ListingErrorMessage | src/components/BoardMemberCard.jsx:141-145 | a thrown error keeps its message; a failed reply gives a message that starts with "Drive API error (" and ends with the response body |
| DrivePaging.ListingErrorReportsStatus | src/components/BoardMemberCard.jsx:144 | the error message of a failed page gives the status, readable back, and ends with the response body |
| DriveImages.ImageUrls | src/components/BoardMemberCard.jsx:48-54 | three URLs in the order tried: `https://drive.google.com/uc?id=<id>&export=view`, `https://drive.google.com/thumbnail?id=<id>&sz=<size>` and `https://drive.google.com/file/d/<id>/preview`, each stated as its prefix, the id and its suffix |
| DriveImages.ImageUrlsInjective | src/components/BoardMemberCard.jsx:48-54 | each URL names one file: two ids with the same URL in any place are the same id |
| DriveImages.ImageUrlsDistinct | src/components/BoardMemberCard.jsx:48-54 | the three URLs differ from each other |
| DriveImages.SizesDifferOnlyInThumbnail | src/components/DriveGallery.jsx:26-33 | the gallery's URLs differ from the board-member card's only in the thumbnail |
| DriveImages.OnError | src/components/BoardMemberCard.jsx:63-69 | a load error moves on to the next URL, or marks the image failed after the last |
| DriveImages.AfterErrorsClosedForm | src/components/BoardMemberCard.jsx:63-69 | after n errors the image shows URL min(n, 2), and it is failed from the third error on |
| DriveImages.FailedIsTerminal | src/components/BoardMemberCard.jsx:63-69 | a failed image stays failed |
| DriveImages.ViewsInOrder | src/components/BoardMemberCard.jsx:71-94 | the image tries the view URL, the thumbnail and the preview in that order, then shows the unavailable placeholder |
| DriveImages.ImageWithFallback.HandleError | src/components/DriveGallery.jsx:43-51 | `handleError` performs one `OnError` step on the component's state |
| DriveImages.ImageWithFallback.View | src/components/DriveGallery.jsx:53-76 | the component renders the view of its state |
| BoardMembers.ToMember | src/components/BoardMemberCard.jsx:148-160 | a member keeps its photo's id and type and takes name and role from its file name |
| BoardMembers.MembersFollowPhotos | src/components/BoardMemberCard.jsx:129-164 | the members loaded are those of the first photos listed, in order, at most `maxMembers`, and loading stopped at the end of the listing or at the cap |
| BoardMembers.BoardMemberCard.FetchBoardMembers | src/components/BoardMemberCard.jsx:111-172 | missing key, then missing folder, reported before any request; otherwise the members of the listing, or the listing's error with the old members kept |
| Gallery.TestErrorMessage | src/components/DriveGallery.jsx:122-125 | a thrown error keeps its message; a failed test gives a message that starts with "API test failed (" and ends with the response body |
| Gallery.TestErrorReportsStatus | src/components/DriveGallery.jsx:122-125 | the message of a failed test request gives the status, readable back, and ends with the body |
| Gallery.ImagesArePrefixOfListing | src/components/DriveGallery.jsx:130-161 | the images loaded are a prefix of the files listed, at most `maxImages`, and all of them when fewer |
| Gallery.ViewOf | src/components/DriveGallery.jsx:174-197 | "No images found" shows exactly when loading is done without error and without images |
| Gallery.DriveGallery.FetchAllImages | src/components/DriveGallery.jsx:93-169 | the prechecks, then the test request, then the capped listing; a failure at each stage is reported and stops the rest |
| Gallery.EmptyFolderShowsNoImages | src/components/DriveGallery.jsx:174-197 | an empty folder ends on "No images found" |
| Financials.FinancialCap | src/components/Financial.jsx:96 | `maxFiles` caps the list exactly when it is truthy |
| Financials.CapMatchesTruthiness | src/components/Financial.jsx:96-111 | the model's room test agrees with `maxFiles && collected.length >= maxFiles` and with `!maxFiles \|\| collected.length < maxFiles` |
| Financials.FileViewUrl | src/components/Financial.jsx:41-43 | the view URL starts with `https://drive.google.com/file/d/`, then holds the file identifier, and ends with `/view` right after it |
| Financials.FileViewUrlInjective | src/components/Financial.jsx:41-43 | different files get different view URLs |
| Financials.ToFinancialFile | src/components/Financial.jsx:99-107 | an entry keeps the file's id, name and type, takes a title that is a prefix of the name, and links to the file's view URL |
| Financials.TitleDropsExtension | src/components/Financial.jsx:99 | the title is the name cut at its extension, or the whole name when it has none |
| Financials.CappedListKeepsOrder | src/components/Financial.jsx:68-111 | a capped list holds the entries of the first files listed, in order |
| Financials.PageListsEveryFile | src/pages/FinancialsPage.jsx:23 | the financials page (`maxFiles={null}`) follows every continuation and lists every file |
| Financials.Financial.FetchFinancialFiles | src/components/Financial.jsx:45-122 | prechecks, then the listing capped by `maxFiles` when truthy; the listing's error keeps the old files |
| Events.ExtractFolderId | src/pages/EventsPage.jsx:17-38 | empty exactly for the empty input; a short input without `http` is returned as it is; otherwise the leftmost `/folders/` capture wins, else the leftmost `id=` capture, else the input is returned unchanged |
| Events.VariantsDifferOnShortWords | src/pages/EventsPage.jsx:17-38 | a short word is a folder for the events page and no folder for the other components |
| Events.LinkYieldsFoldersPath | src/pages/EventsPage.jsx:25-29 | in a link, the leftmost `/folders/<id>` decides |
| Events.ShareLinkGivesEventsFolder | src/pages/EventsPage.jsx:17-38 | a folder share link gives its identifier |
| Events.VariantsAgreeOnShareLinks | src/pages/EventsPage.jsx:17-38 | on a folder share link both variants give the same identifier |
| Events.DigitGroupAt | src/pages/EventsPage.jsx:156 | a `\d{1,2}` group followed by `/`, greedy |
| Events.DateAt | src/pages/EventsPage.jsx:156 | the three captures have one or two, one or two, and two to four digits |
| Events.ParseFolderName | src/pages/EventsPage.jsx:147-189 | the trimmed text before the first hyphen and the date found between the first and the second hyphen; a name without a hyphen is kept whole with no date |
| Events.DateOf | src/pages/EventsPage.jsx:156-176 | 'Date TBD' exactly when the date regex matches at no position of the date part; otherwise a year from 100 to 9999, a month index from -1 to 98 and a day below 100 |
| Events.DateAtWritten | src/pages/EventsPage.jsx:156-157 | the regex captures exactly the three numbers of a date written `a/b/c` |
| Events.DateLabelRoundTrip | src/pages/EventsPage.jsx:156-170 | a date written `m/d/y` gives `new Date` the year (20xx for two digits), the month minus one and the day |
| Events.FolderNameRoundTrip | src/pages/EventsPage.jsx:147-181 | a folder named `<event>-<m>/<d>/<y>` shows the trimmed event name and that date |
| Events.NoSlashNoDate | src/pages/EventsPage.jsx:156-159 | a date part without `/` shows 'Date TBD' |
| Events.NoSlashShowsDateTbd | src/pages/EventsPage.jsx:147-189 | a folder name without `/` shows 'Date TBD' |
| Events.SampleNamesHaveNoSlash | src/pages/EventsPage.jsx:44-63 | the sample names write their dates with hyphens, so every sample shows 'Date TBD' |
| Events.EventFor | src/pages/EventsPage.jsx:97-129 | a card keeps its folder's id and name, and has a thumbnail exactly when it counts a photo |
| Events.PastEventsNeverEmpty | src/pages/EventsPage.jsx:66-141 | the events are the samples, or one card per listed subfolder in order; never none |
| Events.PastEventsFor | src/pages/EventsPage.jsx:66-141 | the samples without a folder or a key, or when the listing fails or is empty; otherwise one card per listed subfolder, in order, built from its own image listing |
| Events.SamplesExactlyOnFallback | src/pages/EventsPage.jsx:66-141 | the events equal the samples exactly when folder or key is missing, the listing fails or is empty, or the cards of a real listing happen to equal the samples |
| Events.PastEventClick | src/pages/EventsPage.jsx:192-201 | a `sample-` card shows a notice, and any other opens exactly `https://drive.google.com/drive/folders/<id>`: that prefix followed by the identifier and nothing else |
| Events.ClickOpensSameFolder | src/pages/EventsPage.jsx:192-201 | the URL opened for a folder leads back to it under both folder parsers |
| Events.SampleClicksShowNotice | src/pages/EventsPage.jsx:44-63 | every sample card answers a click with the notice |
| Events.EventsPage.FetchPastEvents | src/pages/EventsPage.jsx:66-141 | the events loaded, and the number of requests: none without folder or key, the listing, then one per subfolder |
| Events.SectionFor | src/pages/EventsPage.jsx:264-300 | the setup instructions exactly without a folder, "No past events found" exactly with a folder and no events, and otherwise the grid of the events |
| Events.EventsPage.LoadedSection | src/pages/EventsPage.jsx:264-300 | a configured page shows a grid of cards, never the "No past events found" message |
| Donation.OfferedMethods | src/components/DonationCard.jsx:318-383 | step 3 always offers PayPal first |
| Donation.OfferedMethodsByType | src/components/DonationCard.jsx:318-383 | a monthly gift is offered PayPal alone, a one-time gift all five methods |
| Donation.WithField | src/components/DonationCard.jsx:39-45 | the named field takes the value, the others are unchanged |
| Donation.CustomAmount | src/components/DonationCard.jsx:29-37 | the amount of the custom field: the number `parseFloat` reads from it whenever it reads one, and 0 otherwise |
| Donation.TypedAmountIsKept | src/components/DonationCard.jsx:29-37 | typing an amount's text sets that amount |
| Donation.ContinueEnabled | src/components/DonationCard.jsx:230-305 | Continue is enabled on step 1 exactly for a positive amount, and on step 2 exactly when name and e-mail trim to something |
| Donation.BlankDetailsBlockStep2 | src/components/DonationCard.jsx:302 | a name or e-mail made of spaces keeps step 2 closed |
| Donation.OnePresetActive | src/components/DonationCard.jsx:185 | at most one preset button is highlighted |
| Donation.DonorName | src/components/DonationCard.jsx:96 | the order always names someone, 'Anonymous' without a name |
| Donation.PayPalOrder | src/components/DonationCard.jsx:87-99 | the order's description starts with "Donation to Vasavi Seattle - " and ends with 'Monthly' or 'One-time' as chosen |
| Donation.PayPalOrderCarriesAmount | src/components/DonationCard.jsx:91-98 | the PayPal order's value reads back as the amount |
| Donation.PayPalOrderNamesDonor | src/components/DonationCard.jsx:96 | the order's description names the donor right after its head |
| Donation.VenmoUrl | src/components/DonationCard.jsx:125-133 | no link while the Venmo username is missing or the placeholder |
| Donation.VenmoUrlNamesRecipient | src/components/DonationCard.jsx:131 | the Venmo link names the recipient after the host |
| Donation.VenmoUrlCarriesAmount | src/components/DonationCard.jsx:131 | the Venmo link is the head (host, recipient, `?txn=pay&recipients=`…`&amount=`), then the amount, which reads back, then `&note=Donation to Vasavi Seattle` |
| Donation.CashAppUrl | src/components/DonationCard.jsx:135-143 | no link while the Cash App username is missing or the placeholder |
| Donation.CashAppUrlCarriesAmount | src/components/DonationCard.jsx:141 | the Cash App link starts with `https://cash.app/$`, names the recipient right after it, then `/`, and ends with the amount, readable back |
| Donation.DonationForm.constructor | src/components/DonationCard.jsx:8-19 | the initial state: step 1, one-time, 100, nothing else chosen |
| Donation.DonationForm.NextStep | src/components/DonationCard.jsx:47-51 | one step on, except at step 3; nothing else changes |
| Donation.DonationForm.PrevStep | src/components/DonationCard.jsx:53-57 | one step back, except at step 1; nothing else changes |
| Donation.DonationForm.ClickContinue | src/components/DonationCard.jsx:230-237 | an enabled Continue moves one step on, a disabled one does nothing |
| Donation.DonationForm.HandleAmountChange | src/components/DonationCard.jsx:24-27 | the preset becomes the amount, the custom field empties, and only that preset is highlighted |
| Donation.DonationForm.HandleCustomAmountChange | src/components/DonationCard.jsx:29-37 | the field keeps the text, and the amount is what it reads as, or 0 |
| Donation.DonationForm.OpenCustomAmount | src/components/DonationCard.jsx:191-198 | "Other Amount" opens the field and no preset is highlighted |
| Donation.DonationForm.ClearCustomAmount | src/components/DonationCard.jsx:214-221 | the clear button closes the field and keeps the amount |
| Donation.DonationForm.SetDonationTypeAsWritten | src/components/DonationCard.jsx:160-173 | the toggle as written changes the type alone |
| Donation.DonationForm.SetDonationType | src/components/DonationCard.jsx:160-173 | the toggle as intended keeps the chosen method only when the new type offers it |
| Donation.DonationForm.HandleDonorInfoChange | src/components/DonationCard.jsx:39-45 | exactly the named field takes the new text |
| Donation.DonationForm.HandlePaymentMethodSelect | src/components/DonationCard.jsx:59-68 | the method is chosen, and the bank details show exactly for a bank transfer |
| Donation.DonationForm.PayPalApproved | src/components/DonationCard.jsx:100-102 | an approved PayPal payment sets the success status |
| Donation.DonationForm.PayPalFailed | src/components/DonationCard.jsx:114-117 | a PayPal error sets the error status |
| Donation.DonationForm.ResetAfterSuccess | src/components/DonationCard.jsx:104-111 | after a success the form returns to its defaults but keeps the donation type |
| Donation.PickVenmo | src/components/DonationCard.jsx:338-354 | a one-time donor who fills in the details reaches step 3 and can pick Venmo |
| Donation.MonthlyKeepsVenmo | src/components/DonationCard.jsx:318-420 | with the toggle as written, a monthly gift reaches step 3 with Venmo still chosen, a method monthly gifts do not offer |
| Donation.MonthlyDropsVenmo | src/components/DonationCard.jsx:318-420 | with the toggle as intended, the same clicks end with no method chosen |
| Carousel.NextIndex | src/components/Testimonials.jsx:32-34 | the next slide, wrapping from the last to the first |
| Carousel.PrevIndex | src/components/Testimonials.jsx:36-38 | the previous slide, wrapping from the first to the last |
| Carousel.PrevUndoesNext | src/components/Testimonials.jsx:32-38 | `prevSlide` undoes `nextSlide` and `nextSlide` undoes `prevSlide` |
| Carousel.AdvanceMoves | src/components/Testimonials.jsx:32-34 | k calls of `nextSlide` move k places on, wrapping once |
| Carousel.AdvanceAdds | src/components/Testimonials.jsx:32-34 | a calls of `nextSlide` then b more are a + b calls |
| Carousel.FullCycle | src/components/Testimonials.jsx:32-34 | as many `nextSlide` calls as testimonials come back to the same slide, so the slide shown has that period |
| Carousel.ThreeClicksComeBack | src/components/Testimonials.jsx:11-34 | with the page's three testimonials, three `nextSlide` calls come back |
| Carousel.Dots | src/components/Testimonials.jsx:66-72 | one dot per testimonial, the dot at `index` active exactly when `index === currentSlide` |
| Carousel.OneActiveDot | src/components/Testimonials.jsx:66-72 | exactly one dot is active, the one of the slide shown |
| Carousel.Testimonials.NextSlide | src/components/Testimonials.jsx:32-34 | `nextSlide` moves to `NextIndex` and keeps the slide in range |
| Carousel.Testimonials.PrevSlide | src/components/Testimonials.jsx:36-38 | `prevSlide` moves to `PrevIndex` and keeps the slide in range |
| Carousel.Testimonials.GoToSlide | src/components/Testimonials.jsx:40-42 | a dot shows its own slide |

## Left out

- `server.js` and the pages with no logic (navigation, footer, contact, login, home layout) are not part of this model.
- Network, `fetch`, JSON decoding and `URLSearchParams` are left out: each request is stood for by its reply, given as a parameter. The query strings sent to Drive are not modelled.
- A reply whose `files` is missing or is not an array is modelled as a page with no files, as `Array.isArray(data.files) ? data.files : []` makes it.
- Page tokens are not sent back: the reply sequence already stands for the successive requests. A page token is truthy when it is present and non-empty.
- DrivePaging.Collect: the listing is assumed to end (the last reply carries no continuation token). A Drive folder that hands out continuation tokens forever is not modelled.
- The `'Unknown error while fetching …'` branch of the board-member, gallery and financial widgets is left out: every thrown value is modelled as an `Error` with a message, which is what `fetch` and the code itself throw.
- Concurrency: a response arriving after the component has unmounted, or after its inputs changed, is not modelled. Effects re-running when their dependencies change are not modelled either; each fetch method is one run of its effect.
- Console logging, `alert`, `window.open` and the PayPal SDK script are left out. The Venmo and Cash App links are modelled, and so are the PayPal order, `onApprove` and `onError`, without the SDK.
- Donation.DonationForm.ResetAfterSuccess: the three-second `setTimeout` is modelled as one step taken later, and its state updates as atomic.
- The `Date` object and `toLocaleDateString`: the model stops at the arguments given to `new Date(year, month, day)` and does not model the formatted text or JavaScript's date rollover.
- Events.ExtractFolderId: its `input.length < 50` test counts characters (Unicode scalar values), where JavaScript counts UTF-16 code units, so a character outside the Basic Multilingual Plane counts once in the model and twice in the page.
- `trim` removes ASCII white space only; the other Unicode spaces JavaScript also removes are not modelled.
- Amounts.ParseFloat: reads an optional sign, digits and an optional fraction after leading spaces; exponents, `Infinity` and double-precision rounding are not modelled.
- Amounts.AmountText: always writes positional notation, where JavaScript switches to exponent form below 1e-6 and from 1e21.
- The thumbnail URL of the event cards (`sz=w300`) and their SVG placeholder are presentation and are left out.
- Carousel: `nextSlide` and `prevSlide` are defined in the component but no control calls them (only the dots are wired); they are modelled as the handlers they are, and no arrow control is claimed.
- Presentation and CSS, the icons, the texts of the testimonial quotes, the bank-transfer details, the calendar embed, and the rendering of `donationStatus` and `showBankDetails` are left out.
- The Apple Pay button only shows a "coming soon" message and is left out.
- Sample events have no `photoCount`; the card shows `photoCount || 0`, so the model gives them 0.

## Findings

| source | as written | input that shows it | evidently intended | confidence | as-written member | corrected member |
|---|---|---|---|---|---|---|
| src/components/DonationCard.jsx:160-173 | the GIVE ONCE / MONTHLY toggle only sets `donationType` and keeps `paymentMethod` | pick Venmo on a one-time gift, go Back twice, switch to MONTHLY, continue twice: step 3 shows the monthly notice "PayPal only" and, under it, the Venmo payment form (lines 405-420) | switching to monthly drops a method that monthly gifts do not offer, so only PayPal can be used | not executed | Donation.MonthlyKeepsVenmo | Donation.MonthlyDropsVenmo |
