# MRTZ portfolio site: the page logic, in Dafny

This project models the logic of a sculptor's portfolio website. The site is a
React single-page application. Most of it is animation and layout; the parts
modelled here are the ones that decide something:

- **Admin panel.** A password gate sits in front of an editor for two
  collections: portfolio items and timed drops. Records are saved by id: an
  existing id is updated in place, and a new record is appended under a fresh
  id. Records are deleted by id. The panel keeps an editor draft state, and
  small form rules govern the drop's `remaining` field and the Save button.
  The panel also holds the site settings.
- **Media list editor.** This is the uploader used by both admin forms.
  Dropped, selected or pasted files are cut to the free capacity. Each file is
  classified by its MIME type, failed reads are skipped, and the surviving
  files are appended in order. A URL is classified as an image or a video by a
  string rule. Items are removed by id and reordered by dragging.
- **Gallery page.** A category filter feeds a lightbox whose previous and next
  arrows step through the filtered list.
- **Drops page.** Drops are split into sections by status. Each upcoming drop
  has a countdown that breaks a millisecond distance into days, hours, minutes
  and seconds, each shown with two digits. A notify box requires an email.
- **Commission page.** The request form has three required fields and an
  optional pricing tier.
- **Data model.** The record types and the content the admin panel is seeded
  with.

Each source file is one module:

| Module | File | Source file |
|---|---|---|
| `AdminTypes` | `admin_types.dfy` | `src/types/admin.ts` |
| `ImageUploader` | `image_uploader.dfy` | `src/components/admin/ImageUploader.tsx` |
| `Admin` | `admin.dfy` | `src/pages/Admin.tsx` |
| `Gallery` | `gallery.dfy` | `src/pages/Gallery.tsx` |
| `Drops` | `drops.dfy` | `src/pages/Drops.tsx` |
| `Commission` | `commission.dfy` | `src/pages/Commission.tsx` |

Three helper modules model the JavaScript built-ins the components rely on:

- `Seqs` (`seqs.dfy`): `Array.filter`, `findIndex`, `map` by key, and `splice`.
- `Text` (`text.dfy`): `trim`, `startsWith`, `endsWith`, `includes`, `String(n)` and `padStart`.
- `Wrappers` (`wrappers.dfy`): an `Option` type.

The components become classes:

- Their `useState` fields become fields.
- Each handler becomes a method that assigns the new state.
- The callback `onChange` of the media editor becomes an assignment to its `images` field.
- Expressions recomputed on every render become functions: the filtered list,
  the current index, the badge text and the countdown parts.

Values the program takes from the environment are parameters:

- the clock (`Date.now()`, `new Date()`)
- the random ids (`Math.random()`)
- the outcome of reading a file as a data URI

Numbers are Dafny integers. The only division is by positive constants, so
floor division matches `Math.floor(a / b)`. JavaScript's `slice(0, end)` is
modelled with its reading of a negative `end`, which counts from the back.

## Model

| member | source | states |
|---|---|---|
| AdminTypes.ParseMediaType | src/types/admin.ts:4 | a media type tag is accepted exactly when it is "image" or "video" |
| AdminTypes.MediaTypeTagRoundTrip | src/types/admin.ts:4 | each of the two media types is stored as a tag that reads back as itself |
| AdminTypes.ParseStatus | src/types/admin.ts:22 | a status tag is accepted exactly when it is "upcoming", "available" or "sold_out" |
| AdminTypes.StatusTagRoundTrip | src/types/admin.ts:22 | each of the three statuses is stored as a tag that reads back as itself |
| AdminTypes.DefaultPortfolioIds | src/types/admin.ts:52-85 | the seeded portfolio has four items with the distinct ids "1" to "4" |
| AdminTypes.DefaultsHaveMedia | src/types/admin.ts:52-109 | every seeded portfolio item and drop has at least one media item |
| AdminTypes.DefaultDropsShape | src/types/admin.ts:87-108 | the seeded drops have distinct ids; the available one has 23 of 50 left; the upcoming one has no `remaining` |
| Seqs.Filter | src/pages/Admin.tsx:67 | the result holds only elements that pass, holds every element that passes, and is no longer than the input |
| Seqs.FilterAppend | src/pages/Gallery.tsx:32 | filtering distributes over concatenation, so relative order is kept |
| Seqs.FilterSplit | src/pages/Drops.tsx:117-119 | a filter and its negation split the multiset of elements and their count |
| Seqs.FindKey | src/pages/Gallery.tsx:34 | `findIndex` is the first index carrying the key, and it is -1 exactly when no element carries it |
| Seqs.FindKeyOfUnique | src/pages/Gallery.tsx:34 | in a list with unique keys, looking up an element's key finds that element's own index |
| Seqs.WithoutKey | src/pages/Admin.tsx:66-74 | removal by key leaves no element with the key and keeps every element with another key; unique keys stay unique |
| Seqs.WithoutAbsentKey | src/pages/Admin.tsx:67 | deleting an id no element carries leaves the list unchanged |
| Seqs.WithoutKeyAppend | src/pages/Admin.tsx:72 | removal by key distributes over concatenation, so the survivors keep their relative order |
| Seqs.WithoutAppendedKey | src/pages/Admin.tsx:79-80 | removing the key of an appended element that carries a fresh key gives back the old list |
| Seqs.ReplaceKey | src/pages/Admin.tsx:78 | `map` by key keeps length and keys, puts the record at every matching position and leaves the other positions unchanged |
| Seqs.ReplaceUniqueKey | src/pages/Admin.tsx:89 | with unique keys, replacing by the key at index i changes index i only |
| Seqs.WithoutReplaced | src/pages/Admin.tsx:77-78 | deleting key k after replacing the records with key k equals deleting key k |
| Seqs.RemoveUniqueKey | src/pages/Admin.tsx:71-72 | with unique keys, deleting the key at index i equals `splice(i, 1)` |
| Seqs.RemoveAt | src/components/admin/ImageUploader.tsx:160 | `splice(i, 1)` shortens the list by one and removes exactly one occurrence of the element at i |
| Seqs.InsertAt | src/components/admin/ImageUploader.tsx:161 | `splice(i, 0, x)` puts x at index i, adds one occurrence of x, and is undone by `splice(i, 1)` |
| Seqs.Move | src/components/admin/ImageUploader.tsx:158-161 | the drag reorder is a permutation of the same length with the dragged element at the target index |
| Seqs.MoveInPlace | src/components/admin/ImageUploader.tsx:156 | a move onto the element's own index changes nothing |
| Seqs.MoveBack | src/components/admin/ImageUploader.tsx:158-161 | moving the element back to where it came from undoes a move |
| Text.LeadingSpace | src/components/admin/ImageUploader.tsx:131 | the count of leading characters `trim` removes: all of them are white space, and the next character is not |
| Text.TrailingSpace | src/components/admin/ImageUploader.tsx:131 | the count of trailing characters `trim` removes: all of them are white space, and the character before them is not |
| Text.Trim | src/components/admin/ImageUploader.tsx:131 | `trim` is empty exactly when the input is all white space; the result occurs in the input with only white space before and after it, and a non-empty result neither starts nor ends with white space |
| Text.TrimIdempotent | src/components/admin/ImageUploader.tsx:137 | trimming the trimmed url again changes nothing |
| Text.NatToDecimal | src/pages/Drops.tsx:87 | `String(n)` is a non-empty run of digits without a leading zero, one digit long exactly when n < 10 |
| Text.DecimalRoundTrip | src/pages/Drops.tsx:87 | the decimal rendering of n reads back as n |
| Text.IntToString | src/pages/Admin.tsx:268 | `String(i)` starts with '-' exactly when i is negative, and its digits read back as the absolute value |
| Text.PadStart | src/pages/Drops.tsx:87 | `padStart` reaches the width, ends with the original text, and pads only with the fill character |
| Text.LeadingZerosValue | src/pages/Drops.tsx:87 | zeros put in front of a digit string do not change its value |
| Text.LowerAscii | src/components/admin/ImageUploader.tsx:133 | an ASCII capital becomes its own lower-case letter (code + 32); every other character is kept |
| Text.LowerAsciiString | src/components/admin/ImageUploader.tsx:133 | the case folding of the `/i` flag keeps the length and folds each character on its own |
| Text.LowerAsciiIdempotent | src/components/admin/ImageUploader.tsx:133 | folding a folded string changes nothing |
| Text.LowerEndsWith | src/components/admin/ImageUploader.tsx:133 | folding keeps a suffix: the folded string ends with the folded suffix |
| ImageUploader.MediaPrefixesExclusive | src/components/admin/ImageUploader.tsx:37-48 | no MIME type starts with both "image/" and "video/" |
| ImageUploader.ProcessFile | src/components/admin/ImageUploader.tsx:35-54 | a file yields an item exactly when its type starts with "image/" or "video/" and its read succeeds; the item is a video exactly when the type starts with "video/", and its url is the data URI |
| ImageUploader.Accepted | src/components/admin/ImageUploader.tsx:70-73 | processing a batch yields at most one item per file |
| ImageUploader.AcceptedMembers | src/components/admin/ImageUploader.tsx:70-73 | an item is collected exactly when some file of the batch yields it |
| ImageUploader.AcceptedAppend | src/components/admin/ImageUploader.tsx:70-73 | processing two batches one after the other yields the first batch's items followed by the second's |
| ImageUploader.AcceptedEmpty | src/components/admin/ImageUploader.tsx:75-78 | a batch yields nothing, so `onChange` is not called, exactly when every file fails |
| ImageUploader.AllAccepted | src/components/admin/ImageUploader.tsx:70-73 | a batch in which every file succeeds yields one item per file |
| ImageUploader.ProcessFiles | src/components/admin/ImageUploader.tsx:68-73 | the `for ... of` loop collects exactly the batch's items, in order |
| ImageUploader.SliceFront | src/components/admin/ImageUploader.tsx:67 | `slice(0, end)` is a prefix of the length JavaScript gives, with a negative end counted from the back |
| ImageUploader.IngestWithinCapacity | src/components/admin/ImageUploader.tsx:61-78 | from within capacity, ingestion keeps the old list as a prefix, adds at most the free slots, and stays within `maxItems` |
| ImageUploader.IngestOverCapacity | src/components/admin/ImageUploader.tsx:61-67 | one item over capacity, a batch of good files still gets in, all but the last, so the list grows further past `maxItems` |
| ImageUploader.PastedFiles | src/components/admin/ImageUploader.tsx:104-111 | a file is collected exactly when some entry whose type starts with "image/" or "video/" yields it |
| ImageUploader.PastedFilesAppend | src/components/admin/ImageUploader.tsx:104-111 | collecting two runs of entries yields the first run's files followed by the second's, so the clipboard order is kept |
| ImageUploader.CollectPastedFiles | src/components/admin/ImageUploader.tsx:104-111 | the indexed loop gathers exactly the media entries' files, in order |
| ImageUploader.UrlMedia | src/components/admin/ImageUploader.tsx:130-139 | a blank input yields no item; otherwise the item's url is the trimmed input, and it is a video exactly when the untrimmed input matches the video rule |
| ImageUploader.ExtensionIgnoresCase | src/components/admin/ImageUploader.tsx:133 | the extension test gives the same answer on any URL and on its lower-case form |
| ImageUploader.UpperCaseExtensionIsVideo | src/components/admin/ImageUploader.tsx:133 | every URL ending in ".MP4", in capitals, is a video |
| ImageUploader.Mp4IsVideo | src/components/admin/ImageUploader.tsx:133 | every url ending in ".mp4" is a video |
| ImageUploader.SpacedMp4IsNotVideo | src/components/admin/ImageUploader.tsx:133 | the input "a.mp4 ", with a space after ".mp4", matches no video rule |
| ImageUploader.TrimSpacedMp4 | src/components/admin/ImageUploader.tsx:137 | trimming "a.mp4 " removes exactly its final space |
| ImageUploader.TrailingSpaceHidesVideo | src/components/admin/ImageUploader.tsx:131-138 | "a.mp4" becomes a video item, but "a.mp4 " becomes an image item whose stored url is still "a.mp4" |
| ImageUploader.MediaListEditor.constructor | src/components/admin/ImageUploader.tsx:21-24 | the editor starts on the host's list with an empty URL box, no drag in progress and no highlight |
| ImageUploader.MediaListEditor.HandleDragOver | src/components/admin/ImageUploader.tsx:26-29 | a drag over the drop zone highlights it |
| ImageUploader.MediaListEditor.HandleDragLeave | src/components/admin/ImageUploader.tsx:31-33 | leaving the drop zone clears the highlight |
| ImageUploader.MediaListEditor.IngestFiles | src/components/admin/ImageUploader.tsx:61-78 | the new list is the old one plus the items of the files cut to the free slots; the count added is the count those files yield |
| ImageUploader.MediaListEditor.HandleDrop | src/components/admin/ImageUploader.tsx:56-79 | a drop clears the highlight and ingests the dropped files |
| ImageUploader.MediaListEditor.HandleFileSelect | src/components/admin/ImageUploader.tsx:81-100 | no file list changes nothing; otherwise the selected files are ingested |
| ImageUploader.MediaListEditor.HandlePaste | src/components/admin/ImageUploader.tsx:102-128 | a paste ingests the clipboard's media files and changes nothing when there are none |
| ImageUploader.MediaListEditor.SetUrlInput | src/components/admin/ImageUploader.tsx:212 | typing sets the URL box |
| ImageUploader.MediaListEditor.AddFromUrl | src/components/admin/ImageUploader.tsx:130-144 | a blank box changes nothing; otherwise exactly one item is appended, with no capacity check, and the box is cleared |
| ImageUploader.MediaListEditor.RemoveImage | src/components/admin/ImageUploader.tsx:146-148 | removal keeps exactly the items whose id differs, in order |
| ImageUploader.MediaListEditor.HandleItemDragStart | src/components/admin/ImageUploader.tsx:150-152 | starting a drag records the dragged index |
| ImageUploader.MediaListEditor.HandleItemDragOver | src/components/admin/ImageUploader.tsx:154-164 | nothing happens with no drag or over the item itself; otherwise the dragged item moves to the target, which becomes the dragged index |
| ImageUploader.MediaListEditor.HandleItemDragEnd | src/components/admin/ImageUploader.tsx:166-168 | ending a drag clears the dragged index |
| Admin.Upsert | src/pages/Admin.tsx:76-96 | a save over an existing id keeps the length, puts the record at every index carrying the id and leaves records with other ids alone; a save of a new id appends exactly the stamped record after the old list |
| Admin.UpsertKeepsUnique | src/pages/Admin.tsx:77-80 | a save keeps ids unique, given an unused fresh id |
| Admin.SaveExistingAt | src/pages/Admin.tsx:77-78 | with unique ids, saving a record whose id is at index i overwrites index i only |
| Admin.SaveNewThenDelete | src/pages/Admin.tsx:79-80 | deleting the fresh id a new record got undoes its creation |
| Admin.SaveExistingThenDelete | src/pages/Admin.tsx:88-89 | deleting an id after updating its record equals deleting it without the update |
| Admin.SaveExistingTwice | src/pages/Admin.tsx:88-89 | saving the same existing record twice equals saving it once |
| Admin.DeleteUnique | src/pages/Admin.tsx:66-74 | with unique ids, deleting the id at index i removes exactly that one record |
| Admin.Badge | src/pages/Admin.tsx:268-269 | the badge ends in " left" exactly for an available drop, reads "Coming Soon" exactly for an upcoming one and "Sold Out" exactly for a sold-out one |
| Admin.BadgeShowsRemaining | src/pages/Admin.tsx:268 | an available drop's badge text before " left" reads back as its `remaining` |
| Admin.BadgeOfMissingRemaining | src/pages/Admin.tsx:268 | an available drop without `remaining` shows "undefined left" |
| Admin.SaveEnabled | src/pages/Admin.tsx:423 | Save is enabled exactly when the draft has media |
| Admin.NewPortfolioDraft | src/pages/Admin.tsx:351-358 | a new portfolio draft has no id, no media, the current year and the category "Abstract", so Save starts disabled |
| Admin.NewDropDraft | src/pages/Admin.tsx:442-452 | a new drop draft is upcoming, edition 25 at 1000 with all 25 remaining, and has no media, so Save starts disabled |
| Admin.RemainingFieldValue | src/pages/Admin.tsx:526 | the Remaining input shows `remaining`, but the edition when `remaining` is 0 or absent |
| Admin.ApplyPortfolioEdit | src/pages/Admin.tsx:360-416 | each input of the portfolio form sets its own field and no other, and never the id |
| Admin.ApplyDropEdit | src/pages/Admin.tsx:454-541 | each input of the drop form sets its own field and no other, never the id; the edition input also resets `remaining` to the edition |
| Admin.ApplyDropEdits | src/pages/Admin.tsx:454-541 | no sequence of form inputs changes the drop's id |
| Admin.EditionSyncsRemaining | src/pages/Admin.tsx:485 | after the edition is set to n, `remaining` is n, and edits other than edition and remaining keep it so |
| Admin.EditedDropSavesInPlace | src/pages/Admin.tsx:87-89 | with unique ids, a drop edited in the form is saved over itself in place |
| Admin.WithSetting | src/pages/Admin.tsx:584-681 | each settings input sets its own field and no other |
| Admin.WithSameSetting | src/pages/Admin.tsx:584-681 | writing back the value a field already holds changes nothing |
| Admin.PortfolioForm.constructor | src/pages/Admin.tsx:351-358 | the form starts from the item being edited, or from a new draft |
| Admin.PortfolioForm.Edit | src/pages/Admin.tsx:360-416 | an input replaces the draft by the edited draft |
| Admin.PortfolioForm.Submit | src/pages/Admin.tsx:423 | the draft is handed over exactly when it has media |
| Admin.DropForm.constructor | src/pages/Admin.tsx:442-452 | the form starts from the drop being edited, or from a new draft |
| Admin.DropForm.Edit | src/pages/Admin.tsx:454-541 | an input replaces the draft by the edited draft |
| Admin.DropForm.Submit | src/pages/Admin.tsx:548 | the draft is handed over exactly when it has media |
| Admin.SettingsForm.constructor | src/pages/Admin.tsx:565 | the settings form starts from the stored settings |
| Admin.SettingsForm.Edit | src/pages/Admin.tsx:584-681 | an input sets one field of the settings draft |
| Admin.AdminPanel.constructor | src/pages/Admin.tsx:39-48 | the panel starts logged out on the portfolio tab with the seeded content, no draft, and unique ids |
| Admin.AdminPanel.SetPassword | src/pages/Admin.tsx:124 | typing in the login screen, which only a logged-out visitor sees, sets the password box |
| Admin.AdminPanel.HandleLogin | src/pages/Admin.tsx:50-59 | from the login screen, the session starts exactly when the password is the fixed secret, and the box is cleared either way |
| Admin.AdminPanel.HandleLogout | src/pages/Admin.tsx:61-64 | logout, offered only inside the dashboard, ends the session and changes nothing else |
| Admin.AdminPanel.SelectTab | src/pages/Admin.tsx:174 | a tab click, while logged in, selects that tab |
| Admin.AdminPanel.OpenCreate | src/pages/Admin.tsx:201 | "Add New" opens a blank draft in place of any open record |
| Admin.AdminPanel.OpenEdit | src/pages/Admin.tsx:238 | "Edit" opens that record and leaves the creating flag as it was |
| Admin.AdminPanel.CloseEditor | src/pages/Admin.tsx:315 | close and cancel clear the draft, so the editor is closed |
| Admin.AdminPanel.DeletePortfolioItem | src/pages/Admin.tsx:66-69 | only while logged in: the portfolio loses exactly the items with that id, and ids stay unique |
| Admin.AdminPanel.DeleteDrop | src/pages/Admin.tsx:71-74 | only while logged in: the drops lose exactly the drops with that id, and ids stay unique |
| Admin.AdminPanel.SavePortfolioItem | src/pages/Admin.tsx:76-85 | only while logged in: the portfolio becomes the save of the item, the editor closes, and ids stay unique |
| Admin.AdminPanel.SaveDrop | src/pages/Admin.tsx:87-96 | only while logged in: the drops become the save of the drop, the editor closes, and ids stay unique |
| Admin.AdminPanel.SaveSettings | src/pages/Admin.tsx:98-101 | only while logged in: the settings are replaced whole |
| Gallery.FilteredItems | src/pages/Gallery.tsx:30-32 | "All" lists every artwork; any other category lists only and all the artworks of that category |
| Gallery.FilteredAppend | src/pages/Gallery.tsx:32 | the filter keeps the artworks in their order |
| Gallery.FilteredIdsUnique | src/pages/Gallery.tsx:13-22 | artwork ids are unique, under every filter |
| Gallery.NoEmptyCategory | src/pages/Gallery.tsx:13-24 | "All" is the first button, and every other category matches at least one artwork |
| Gallery.CurrentIndex | src/pages/Gallery.tsx:34 | the current index is the first index with the selection's id, or -1 when nothing is selected or it is not listed |
| Gallery.NextAdvances | src/pages/Gallery.tsx:36-40 | with unique ids, next moves the current index up by one, and leaves it at the last item |
| Gallery.PrevRetreats | src/pages/Gallery.tsx:42-46 | with unique ids, prev moves the current index down by one, and leaves it at the first item |
| Gallery.NextArrowMoves | src/pages/Gallery.tsx:162 | the next arrow is shown exactly when next changes the selection |
| Gallery.PrevArrowMoves | src/pages/Gallery.tsx:154 | the previous arrow is shown exactly when prev changes the selection |
| Gallery.NextThenPrev | src/pages/Gallery.tsx:36-46 | next and then prev return to the starting artwork |
| Gallery.GalleryPage.constructor | src/pages/Gallery.tsx:27-28 | the page starts on "All", listing every artwork, with the lightbox closed |
| Gallery.GalleryPage.SelectCategory | src/pages/Gallery.tsx:77 | a category button selects that category |
| Gallery.GalleryPage.Open | src/pages/Gallery.tsx:104 | a click on an artwork opens the lightbox on it |
| Gallery.GalleryPage.Close | src/pages/Gallery.tsx:143-148 | the close button and the backdrop close the lightbox |
| Gallery.GalleryPage.GoToNext | src/pages/Gallery.tsx:36-40 | the selection becomes the next selection |
| Gallery.GalleryPage.GoToPrev | src/pages/Gallery.tsx:42-46 | the selection becomes the previous selection |
| Drops.WithStatus | src/pages/Drops.tsx:117-119 | a section holds only and all the drops with its status |
| Drops.WithStatusAppend | src/pages/Drops.tsx:117-119 | a section keeps the page order |
| Drops.SectionStatus | src/pages/Drops.tsx:117-119 | every drop of a section has the section's status |
| Drops.SectionsDisjoint | src/pages/Drops.tsx:117-119 | no drop is listed in two sections |
| Drops.SectionsCount | src/pages/Drops.tsx:117-119 | the three sections and the drops with any other status count every drop once |
| Drops.SectionsCover | src/pages/Drops.tsx:117-119 | when every status is one of the three, the sections hold every drop and their sizes add up to the total |
| Drops.PageSections | src/pages/Drops.tsx:16-59 | every drop of the page is in a section, and no section is empty |
| Drops.DivModUnique | src/pages/Drops.tsx:71-74 | a quotient and a remainder in range are the floor division and the remainder |
| Drops.ModOfMod | src/pages/Drops.tsx:72-74 | the remainder by a day or an hour, taken first, leaves the remainder by the next smaller unit unchanged |
| Drops.Decompose | src/pages/Drops.tsx:69-75 | for a positive distance, hours < 24, minutes < 60, seconds < 60, and the parts plus the leftover milliseconds add up to the distance |
| Drops.DecomposeUnique | src/pages/Drops.tsx:71-74 | any split of the distance with parts in range is the computed split |
| Drops.PadTwoValue | src/pages/Drops.tsx:87 | a padded part is at least two digits and reads back as the part |
| Drops.PadTwoShape | src/pages/Drops.tsx:87 | parts of two or more digits are shown unchanged; a one-digit part gets one leading zero |
| Drops.DisplayReadsBack | src/pages/Drops.tsx:84-93 | days, hours, minutes and seconds are shown in that order, each with at least two digits that read back as the part |
| Drops.Countdown.constructor | src/pages/Drops.tsx:62 | the countdown starts at all zeros |
| Drops.Countdown.Tick | src/pages/Drops.tsx:65-77 | while the target is ahead the parts become the split of the distance; after it has passed they are left as they were |
| Drops.DropsPage.constructor | src/pages/Drops.tsx:99 | the email box starts empty |
| Drops.DropsPage.SetEmail | src/pages/Drops.tsx:159 | typing sets the email box |
| Drops.DropsPage.HandleNotify | src/pages/Drops.tsx:101-115 | an empty email is refused and the box kept; otherwise the drop's notice is confirmed and the box cleared |
| Commission.TiersAscending | src/pages/Commission.tsx:14-37 | the tiers are listed cheapest first, and only the middle one is featured |
| Commission.TierOptions | src/pages/Commission.tsx:251-256 | the dropdown offers the empty choice, then each tier's name in declaration order |
| Commission.TierOptionsDistinct | src/pages/Commission.tsx:251-256 | every tier name is offered, and no value is offered twice |
| Commission.WithField | src/pages/Commission.tsx:223-266 | each input sets its own field and no other |
| Commission.CompleteIffRequiredFilled | src/pages/Commission.tsx:79 | the submit check passes exactly when every required field (name, email, description) is non-empty |
| Commission.TierIsOptional | src/pages/Commission.tsx:79 | the tier never decides the check |
| Commission.BlankNamePasses | src/pages/Commission.tsx:79 | the check does not trim: a name of one space passes |
| Commission.CommissionPage.constructor | src/pages/Commission.tsx:68-74 | the form starts empty and not submitted |
| Commission.CommissionPage.HandleSubmit | src/pages/Commission.tsx:76-93 | a complete form sets the submitted flag; an incomplete one leaves it as it was; the form is kept |
| Commission.CommissionPage.SelectTier | src/pages/Commission.tsx:184-187 | a tier's Select button sets the tier field to its name, which the dropdown offers, and changes nothing else |
| Commission.CommissionPage.Update | src/pages/Commission.tsx:223-266 | an input sets its own field of the form |

## Left out

- Persistence: the admin collections and settings pass through a `useLocalStorage` hook. Its source (`src/hooks/useLocalStorage`) is not part of this model, so the collections are in-memory sequences, and JSON storage and reloading are not modelled.
- Toast notifications are left out. They do not change state. The text of the drops page's notify confirmation is kept, as `Drops.Notice`.
- Timers: the one-second `setInterval` of the countdown is modelled as calls to `Countdown.Tick` with the current time. Clearing the interval is not modelled.
- Clock and randomness: `Date.now()`, `new Date()` and `Math.random()` are parameters. These are the fresh id of a saved record, the id of a media item, the current year, a new drop's date and the drops page's load time.
- Admin.AdminPanel.SavePortfolioItem, Admin.AdminPanel.SaveDrop: both require the fresh id to be unused. The source relies on `Date.now()` for this and does not check it.
- `FileReader`: reading a file as a data URI is asynchronous browser I/O. Its outcome (success with a URI, or failure) and the id stamped on the item are part of the input `PendingFile`. The asynchrony and the order in which reads finish are not modelled; the loop awaits each file in turn.
- `toLocaleString` price formatting, `toISOString().split("T")[0]` date formatting and `scrollIntoView` are left out. They are locale formatting and scrolling.
- HTML `required`, `min`, `max` and `type="email"` attributes are left out. The browser enforces them, not the code. The model accepts any integer in the number inputs and any text in the email box.
- Admin.DropEdit: `Number(e.target.value)` can give a fraction or NaN. The model takes integers only.
- `allowVideo` of the media editor only changes the file picker's `accept` attribute. It does not take part in any check, so it is not modelled.
- Text.Trim: strings are sequences of code points, not UTF-16 code units. Whitespace is the ECMAScript set.
- ImageUploader.MediaListEditor.HandleFileSelect: resetting the file input's value after a selection is DOM state and is not modelled.
- ImageUploader.MediaListEditor.HandleItemDragOver: requires both indices to be in range. The source only calls it with the index of a rendered item and a dragged index set from one.
- The drop form shows a date input or a remaining input depending on the status. Only the values are modelled, not which input is shown.
- The admin cards' thumbnails, "+n more" and "Video" labels, the header text and all animation are left out. They are presentation.
- The Gallery and Drops pages' hard-coded lists are modelled as data. Their images are named by asset file.
- Navigation, routing, the landing page and the visual effect components are left out. They are not part of this model.
