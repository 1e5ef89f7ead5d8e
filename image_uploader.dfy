/**
 * The media list editor: ingestion of dropped, selected and pasted files under
 * a capacity, adding a media item from a URL, removal by id and drag reorder.
 *
 * The list itself belongs to the form that hosts the editor; every change is
 * handed back through `onChange`, which is modelled as assigning the new list
 * to `images`.  Reading a file into a data URI is a browser call: its outcome,
 * and the id stamped on the item when the read completes, are part of the
 * input (`PendingFile`).
 */
module ImageUploader {
  import opened Wrappers
  import opened Seqs
  import opened Text
  import opened AdminTypes

  /** The capacity when the host passes none (both admin forms pass this value). */
  const DefaultMaxItems := 10

  /** What reading a file as a data URI produced. */
  datatype ReadResult = Loaded(dataUri: string, stampId: string) | ReadFailed

  /** A file offered for ingestion: its declared MIME type and what reading it produced. */
  datatype PendingFile = PendingFile(mimeType: string, read: ReadResult)

  /** A clipboard entry: its declared type and the file it yields, if any. */
  datatype ClipboardEntry = ClipboardEntry(kind: string, file: Option<PendingFile>)

  /** A MIME type the editor accepts. */
  predicate IsMediaMime(t: string) {
    StartsWith(t, "image/") || StartsWith(t, "video/")
  }

  /** No MIME type has both accepted prefixes. */
  lemma MediaPrefixesExclusive(t: string)
    ensures !(StartsWith(t, "image/") && StartsWith(t, "video/"))
  {
    if StartsWith(t, "image/") {
      assert t[..6][0] == t[0] == 'i';
    }
  }

  /**
   * `processFile`: a file of another type, or one whose read fails, yields no
   * item; an accepted file becomes an item with the data URI as its url.
   */
  function ProcessFile(f: PendingFile): (r: Option<MediaItem>)
    ensures r.Some? <==> IsMediaMime(f.mimeType) && f.read.Loaded?
    ensures r.Some? ==> r.value.url == f.read.dataUri && r.value.id == f.read.stampId
    ensures r.Some? ==> (r.value.kind == Video <==> StartsWith(f.mimeType, "video/"))
    ensures r.Some? ==> (r.value.kind == Image <==> StartsWith(f.mimeType, "image/"))
  {
    MediaPrefixesExclusive(f.mimeType);
    if !IsMediaMime(f.mimeType) then None
    else match f.read
      case ReadFailed => None
      case Loaded(uri, id) => Some(MediaItem(id, uri, if StartsWith(f.mimeType, "video/") then Video else Image))
  }

  /** The items that processing `files` one after another yields, failed files skipped. */
  function Accepted(files: seq<PendingFile>): (r: seq<MediaItem>)
    ensures |r| <= |files|
  {
    if files == [] then [] else Accepted(files[..|files| - 1]) + Yield(files[|files| - 1])
  }

  /** Every accepted item comes from a file of the batch, and every file that succeeds contributes its item. */
  lemma {:induction false} AcceptedMembers(files: seq<PendingFile>)
    ensures forall m :: m in Accepted(files) ==> exists i :: 0 <= i < |files| && ProcessFile(files[i]) == Some(m)
    ensures forall i :: 0 <= i < |files| && ProcessFile(files[i]).Some? ==> ProcessFile(files[i]).value in Accepted(files)
  {
    if files != [] {
      var init := files[..|files| - 1];
      AcceptedMembers(init);
      assert forall i :: 0 <= i < |init| ==> init[i] == files[i];
    }
  }

  /** The items one file contributes: its item, or nothing when it is refused or fails. */
  function Yield(f: PendingFile): (r: seq<MediaItem>)
    ensures |r| <= 1
    ensures r == [] <==> ProcessFile(f).None?
    ensures r != [] ==> r[0] == ProcessFile(f).value
  {
    match ProcessFile(f)
    case Some(m) => [m]
    case None => []
  }

  /** Processing one more file appends what that file yields. */
  lemma AcceptedSnoc(s: seq<PendingFile>, f: PendingFile)
    ensures Accepted(s + [f]) == Accepted(s) + Yield(f)
  {
    assert (s + [f])[..|s|] == s;
  }

  /** Processing two batches in a row yields the items of the first followed by those of the second. */
  lemma {:induction false} AcceptedAppend(a: seq<PendingFile>, b: seq<PendingFile>)
    ensures Accepted(a + b) == Accepted(a) + Accepted(b)
  {
    if b == [] {
      assert a + b == a;
    } else {
      var b', last := b[..|b| - 1], b[|b| - 1];
      assert b == b' + [last];
      assert a + b == (a + b') + [last];
      AcceptedAppend(a, b');
      AcceptedSnoc(a + b', last);
      AcceptedSnoc(b', last);
    }
  }

  /** A batch yields nothing exactly when every one of its files fails. */
  lemma AcceptedEmpty(files: seq<PendingFile>)
    ensures Accepted(files) == [] <==> forall i :: 0 <= i < |files| ==> ProcessFile(files[i]).None?
  {
    AcceptedMembers(files);
  }

  /** The `for ... of` loop that awaits each file and collects the items that succeed. */
  method ProcessFiles(files: seq<PendingFile>) returns (newMedia: seq<MediaItem>)
    ensures newMedia == Accepted(files)
  {
    newMedia := [];
    var i := 0;
    while i < |files|
      invariant 0 <= i <= |files|
      invariant newMedia == Accepted(files[..i])
    {
      var media := ProcessFile(files[i]);
      assert files[..i + 1][..i] == files[..i];
      if media.Some? {
        newMedia := newMedia + [media.value];
      }
      i := i + 1;
    }
    assert files[..i] == files;
  }

  /** `s.slice(0, end)`, with JavaScript's reading of a negative `end` as counted from the back. */
  function SliceFront<T>(s: seq<T>, end: int): (r: seq<T>)
    ensures end >= 0 ==> |r| == if end <= |s| then end else |s|
    ensures end < 0 ==> |r| == if |s| + end >= 0 then |s| + end else 0
    ensures r == s[..|r|]
  {
    var n := if end >= 0 then (if end <= |s| then end else |s|)
             else (if |s| + end >= 0 then |s| + end else 0);
    s[..n]
  }

  /**
   * The list after ingesting `files`: the files cut to the free slots
   * (`maxItems - images.length`) are processed and what succeeds is appended.
   */
  function Ingest(images: seq<MediaItem>, maxItems: int, files: seq<PendingFile>): seq<MediaItem> {
    images + Accepted(SliceFront(files, maxItems - |images|))
  }

  /**
   * Ingestion keeps the old list as a prefix, adds no more items than there
   * were free slots, and so keeps a list that was within capacity within it.
   */
  lemma IngestWithinCapacity(images: seq<MediaItem>, maxItems: int, files: seq<PendingFile>)
    requires |images| <= maxItems
    ensures Ingest(images, maxItems, files)[..|images|] == images
    ensures |Ingest(images, maxItems, files)| - |images| <= maxItems - |images|
    ensures |Ingest(images, maxItems, files)| <= maxItems
  {
    var r := Ingest(images, maxItems, files);
    assert r[..|images|] == images;
  }

  /**
   * When the list is already over capacity (possible after adding from a URL),
   * the negative slot count makes `slice` drop files from the END only, so
   * files are still ingested: with one item too many, all files but the last
   * get in.
   */
  lemma IngestOverCapacity(images: seq<MediaItem>, maxItems: int, files: seq<PendingFile>)
    requires |images| == maxItems + 1 && |files| >= 1
    requires forall i :: 0 <= i < |files| ==> ProcessFile(files[i]).Some?
    ensures |Ingest(images, maxItems, files)| == |images| + |files| - 1
    ensures |files| >= 2 ==> |Ingest(images, maxItems, files)| > maxItems + 1
  {
    var toProcess := SliceFront(files, maxItems - |images|);
    assert |toProcess| == |files| - 1;
    AllAccepted(toProcess);
  }

  /** A batch in which every file succeeds yields one item per file. */
  lemma {:induction false} AllAccepted(files: seq<PendingFile>)
    requires forall i :: 0 <= i < |files| ==> ProcessFile(files[i]).Some?
    ensures |Accepted(files)| == |files|
  {
    if files != [] {
      var init := files[..|files| - 1];
      assert forall i :: 0 <= i < |init| ==> init[i] == files[i];
      AllAccepted(init);
    }
  }

  /** The clipboard entries, in order, that declare a media type and yield a file. */
  function PastedFiles(items: seq<ClipboardEntry>): (r: seq<PendingFile>)
    ensures |r| <= |items|
    ensures forall f :: f in r ==> exists i :: 0 <= i < |items| && IsMediaMime(items[i].kind) && items[i].file == Some(f)
    ensures forall i :: 0 <= i < |items| && IsMediaMime(items[i].kind) && items[i].file.Some? ==>
      items[i].file.value in r
  {
    if items == [] then []
    else
      var init := items[..|items| - 1];
      var last := items[|items| - 1];
      assert forall i :: 0 <= i < |init| ==> init[i] == items[i];
      PastedFiles(init) + if IsMediaMime(last.kind) && last.file.Some? then [last.file.value] else []
  }

  /** Collecting two runs of entries yields the first run's files followed by the second's. */
  lemma {:induction false} PastedFilesAppend(a: seq<ClipboardEntry>, b: seq<ClipboardEntry>)
    ensures PastedFiles(a + b) == PastedFiles(a) + PastedFiles(b)
    decreases |b|
  {
    if b == [] {
      assert a + b == a;
    } else {
      var init := b[..|b| - 1];
      assert (a + b)[..|a + b| - 1] == a + init;
      assert (a + b)[|a + b| - 1] == b[|b| - 1];
      PastedFilesAppend(a, init);
    }
  }

  /** The indexed loop of `handlePaste` that gathers the clipboard's media files. */
  method CollectPastedFiles(items: seq<ClipboardEntry>) returns (files: seq<PendingFile>)
    ensures files == PastedFiles(items)
  {
    files := [];
    var i := 0;
    while i < |items|
      invariant 0 <= i <= |items|
      invariant files == PastedFiles(items[..i])
    {
      assert items[..i + 1][..i] == items[..i];
      if IsMediaMime(items[i].kind) {
        var file := items[i].file;
        if file.Some? {
          files := files + [file.value];
        }
      }
      i := i + 1;
    }
    assert items[..i] == items;
  }

  /** A URL names a video file when it ends in .mp4, .webm, .mov or .avi, in any letter case. */
  predicate HasVideoExtension(url: string) {
    var lower := LowerAsciiString(url);
    EndsWith(lower, ".mp4") || EndsWith(lower, ".webm") || EndsWith(lower, ".mov") || EndsWith(lower, ".avi")
  }

  /** The rule of `addFromUrl`, applied to the input as typed (not trimmed). */
  predicate IsVideoUrl(input: string) {
    HasVideoExtension(input) || Contains(input, "youtube") || Contains(input, "vimeo")
  }

  /** The item `addFromUrl` creates from the input, or none when the input is blank. */
  function UrlMedia(input: string, id: string): (r: Option<MediaItem>)
    ensures r.None? <==> forall k :: 0 <= k < |input| ==> IsTrimmable(input[k])
    ensures r.Some? ==> r.value.id == id && r.value.url == Trim(input) && r.value.url != ""
    ensures r.Some? ==> (r.value.kind == Video <==> IsVideoUrl(input))
  {
    var url := Trim(input);
    if url == "" then None else Some(MediaItem(id, url, if IsVideoUrl(input) then Video else Image))
  }

  /** The extension test ignores letter case: a URL and its lower-case form agree on it. */
  lemma ExtensionIgnoresCase(url: string)
    ensures HasVideoExtension(url) <==> HasVideoExtension(LowerAsciiString(url))
  {
    LowerAsciiIdempotent(url);
  }

  /** Every URL ending in ".MP4", in capitals, is a video URL. */
  lemma UpperCaseExtensionIsVideo(url: string)
    requires EndsWith(url, ".MP4")
    ensures IsVideoUrl(url)
  {
    LowerEndsWith(url, ".MP4");
    assert LowerAsciiString(".MP4") == ".mp4";
    assert HasVideoExtension(url);
  }

  /** Every URL ending in ".mp4" is a video URL. */
  lemma Mp4IsVideo(url: string)
    requires EndsWith(url, ".mp4")
    ensures IsVideoUrl(url)
  {
    LowerEndsWith(url, ".mp4");
    assert LowerAsciiString(".mp4") == ".mp4";
    assert HasVideoExtension(url);
  }

  /** With a space after ".mp4" the input matches none of the video rules. */
  lemma SpacedMp4IsNotVideo()
    ensures !IsVideoUrl("a.mp4 ")
  {
    var spaced := "a.mp4 ";
    assert !Contains(spaced, "youtube");
    assert !Contains(spaced, "vimeo") by {
      forall i | 0 <= i <= |spaced| ensures !OccursAt(spaced, "vimeo", i) {
        if i <= 1 {
          assert spaced[i..i + 5][0] != 'v';
        }
      }
    }
    assert LowerAsciiString(spaced)[5] == ' ';
  }

  /** Trimming "a.mp4 " removes exactly the final space. */
  lemma TrimSpacedMp4()
    ensures Trim("a.mp4") == "a.mp4" && Trim("a.mp4 ") == "a.mp4"
  {
    assert LeadingSpace("a.mp4") == 0 && TrailingSpace("a.mp4") == 0;
    assert LeadingSpace("a.mp4 ") == 0;
    assert "a.mp4 "[..5] == "a.mp4";
    assert TrailingSpace("a.mp4 ") == 1;
  }

  /**
   * The video test runs on the untrimmed input while the stored url is
   * trimmed: a trailing space turns a video URL into an image item whose url
   * still ends in ".mp4".
   */
  lemma TrailingSpaceHidesVideo(id: string)
    ensures UrlMedia("a.mp4", id) == Some(MediaItem(id, "a.mp4", Video))
    ensures UrlMedia("a.mp4 ", id) == Some(MediaItem(id, "a.mp4", Image))
  {
    Mp4IsVideo("a.mp4");
    SpacedMp4IsNotVideo();
    TrimSpacedMp4();
  }

  /**
   * The editor of one media list.  `images` is the host's list; each handler
   * that calls `onChange` replaces it.
   */
  class MediaListEditor {
    var images: seq<MediaItem>
    const maxItems: int
    var urlInput: string
    var draggedIndex: Option<int>
    var isDragOver: bool

    constructor (images: seq<MediaItem>, maxItems: int)
      ensures this.images == images && this.maxItems == maxItems
      ensures urlInput == "" && draggedIndex == None && !isDragOver
    {
      this.images := images;
      this.maxItems := maxItems;
      urlInput := "";
      draggedIndex := None;
      isDragOver := false;
    }

    /** A drag entering the drop zone highlights it. */
    method HandleDragOver()
      modifies this`isDragOver
      ensures isDragOver
    {
      isDragOver := true;
    }

    /** A drag leaving the drop zone clears the highlight. */
    method HandleDragLeave()
      modifies this`isDragOver
      ensures !isDragOver
    {
      isDragOver := false;
    }

    /** Processes the files cut to the free slots and appends what succeeds; `added > 0` exactly when `onChange` is called. */
    method IngestFiles(files: seq<PendingFile>) returns (added: nat)
      modifies this`images
      ensures images == Ingest(old(images), maxItems, files)
      ensures added == |images| - |old(images)|
      ensures added == |Accepted(SliceFront(files, maxItems - |old(images)|))|
    {
      var availableSlots := maxItems - |images|;
      var filesToProcess := SliceFront(files, availableSlots);
      var newMedia := ProcessFiles(filesToProcess);
      if |newMedia| > 0 {
        images := images + newMedia;
      }
      added := |newMedia|;
    }

    /** `handleDrop`: clears the highlight and ingests the dropped files. */
    method HandleDrop(files: seq<PendingFile>) returns (added: nat)
      modifies this`images, this`isDragOver
      ensures !isDragOver
      ensures images == Ingest(old(images), maxItems, files)
      ensures added == |images| - |old(images)|
    {
      isDragOver := false;
      added := IngestFiles(files);
    }

    /** `handleFileSelect`: nothing when the input reports no file list, otherwise ingestion. */
    method HandleFileSelect(files: Option<seq<PendingFile>>) returns (added: nat)
      modifies this`images
      ensures files.None? ==> images == old(images) && added == 0
      ensures files.Some? ==> images == Ingest(old(images), maxItems, files.value)
      ensures added == |images| - |old(images)|
    {
      if files.None? {
        return 0;
      }
      added := IngestFiles(files.value);
    }

    /** `handlePaste`: ingests the clipboard's media files; nothing when it holds none. */
    method HandlePaste(items: seq<ClipboardEntry>) returns (added: nat)
      modifies this`images
      ensures PastedFiles(items) == [] ==> images == old(images) && added == 0
      ensures images == Ingest(old(images), maxItems, PastedFiles(items))
      ensures added == |images| - |old(images)|
    {
      var files := CollectPastedFiles(items);
      if |files| == 0 {
        assert Ingest(images, maxItems, files) == images;
        return 0;
      }
      added := IngestFiles(files);
    }

    /** Typing in the URL box. */
    method SetUrlInput(text: string)
      modifies this`urlInput
      ensures urlInput == text
    {
      urlInput := text;
    }

    /**
     * `addFromUrl`: a blank input does nothing; otherwise one item with the
     * trimmed url is appended, with no capacity check, and the box is cleared.
     */
    method AddFromUrl(freshId: string) returns (added: bool)
      modifies this`images, this`urlInput
      ensures added <==> UrlMedia(old(urlInput), freshId).Some?
      ensures added ==> images == old(images) + [UrlMedia(old(urlInput), freshId).value] && urlInput == ""
      ensures !added ==> images == old(images) && urlInput == old(urlInput)
    {
      var media := UrlMedia(urlInput, freshId);
      if media.None? {
        return false;
      }
      images := images + [media.value];
      urlInput := "";
      added := true;
    }

    /** `removeImage`: keeps exactly the items whose id differs, in order. */
    method RemoveImage(id: string)
      modifies this`images
      ensures images == WithoutKey(old(images), MediaId, id)
    {
      images := WithoutKey(images, MediaId, id);
    }

    /** Starting to drag the item at `index`. */
    method HandleItemDragStart(index: int)
      modifies this`draggedIndex
      ensures draggedIndex == Some(index)
    {
      draggedIndex := Some(index);
    }

    /**
     * Dragging over the item at `index`: unless nothing is being dragged or it
     * is over itself, the dragged item is moved to `index`, which becomes the
     * dragged index.
     */
    method HandleItemDragOver(index: int)
      requires 0 <= index < |images|
      requires draggedIndex.Some? ==> 0 <= draggedIndex.value < |images|
      modifies this`images, this`draggedIndex
      ensures old(draggedIndex) == None || old(draggedIndex) == Some(index) ==>
        images == old(images) && draggedIndex == old(draggedIndex)
      ensures old(draggedIndex).Some? && old(draggedIndex) != Some(index) ==>
        images == Move(old(images), old(draggedIndex).value, index) && draggedIndex == Some(index)
    {
      if draggedIndex.None? || draggedIndex == Some(index) {
        return;
      }
      images := Move(images, draggedIndex.value, index);
      draggedIndex := Some(index);
    }

    /** Dropping ends the drag. */
    method HandleItemDragEnd()
      modifies this`draggedIndex
      ensures draggedIndex == None
    {
      draggedIndex := None;
    }
  }
}
