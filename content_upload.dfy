/** The upload form: file and category choice, the simulated upload driven by
    an interval timer, and the item it hands to the content page. The timer's
    callback sees the form as it was when the upload started, so the form's
    name, category and uploaded list are captured at that moment. The random
    progress step and the clock are parameters. */
module ContentUpload {
  import opened Collections
  import opened Strings
  import opened ContentPage

  const MissingInput := "Please select a file and category"

  /** The content type guessed from the file name's extension, case-sensitively. */
  function InferType(fileName: string): (t: ContentType)
    ensures t == Video <==> EndsWith(fileName, ".mp4")
    ensures t == Document <==> !EndsWith(fileName, ".mp4") && EndsWith(fileName, ".pdf")
    ensures t == Image <==> !EndsWith(fileName, ".mp4") && !EndsWith(fileName, ".pdf")
  {
    if EndsWith(fileName, ".mp4") then Video
    else if EndsWith(fileName, ".pdf") then Document
    else Image
  }

  /** Upper-case extensions are not recognised. */
  lemma InferTypeIsCaseSensitive()
    ensures InferType("clip.mp4") == Video
    ensures InferType("CLIP.MP4") == Image
    ensures InferType("Company Info.pdf") == Document
  {
    assert "CLIP.MP4"[4..] != ".mp4" by { assert "CLIP.MP4"[5] != ".mp4"[1]; }
    assert "CLIP.MP4"[4..] != ".pdf" by { assert "CLIP.MP4"[5] != ".pdf"[1]; }
  }

  /** The upload needs both a file name and a category. */
  predicate CanUpload(fileName: string, category: string) {
    fileName != "" && category != ""
  }

  /** The item created when the simulated upload completes at time `now`. */
  function UploadedItem(fileName: string, category: string, now: int): (c: ContentItem)
    ensures c.id == now && c.name == fileName && c.category == category
    ensures c.kind == InferType(fileName)
    ensures c.size == "2.5 MB" && c.uploadDate == "just now"
    ensures c.thumbnail == Some("/abstract-uploaded-content.png")
  {
    ContentItem(now, fileName, InferType(fileName), "2.5 MB", "just now", category,
                Some("/abstract-uploaded-content.png"))
  }

  class UploadForm {
    var fileName: string
    var category: string
    var progress: real
    var isUploading: bool
    var uploadedFiles: seq<ContentItem>
    /** Whether the interval timer is running. */
    var ticking: bool
    /** What the timer's callback captured when the upload started. */
    var capturedName: string
    var capturedCategory: string
    var capturedFiles: seq<ContentItem>
    /** The items handed to the page's `onUpload`, in order. */
    var delivered: seq<ContentItem>

    /** The form is uploading exactly while its timer runs, and progress never
        goes below zero. */
    predicate Valid()
      reads this
    {
      isUploading == ticking && progress >= 0.0
    }

    constructor()
      ensures Valid() && !isUploading && fileName == "" && category == ""
      ensures progress == 0.0 && uploadedFiles == [] && delivered == []
    {
      fileName := "";
      category := "";
      progress := 0.0;
      isUploading := false;
      uploadedFiles := [];
      ticking := false;
      capturedName := "";
      capturedCategory := "";
      capturedFiles := [];
      delivered := [];
    }

    /** `handleFileSelect` with a chosen file: only the file name changes. */
    method SelectFile(name: string)
      modifies this`fileName
      ensures fileName == name
      ensures Valid() == old(Valid())
    {
      fileName := name;
    }

    /** The category select: only the category changes. */
    method SelectCategory(c: string)
      modifies this`category
      ensures category == c
      ensures Valid() == old(Valid())
    {
      category := c;
    }

    /** `handleUpload`. The button is disabled while uploading, so a click
        then does nothing. A missing file name or category only alerts. */
    method HandleUpload() returns (alert: Option<string>)
      requires Valid()
      modifies this
      ensures Valid()
      ensures old(isUploading) ==> alert.None? && unchanged(this)
      ensures !old(isUploading) && !CanUpload(old(fileName), old(category)) ==>
                alert == Some(MissingInput) && unchanged(this)
      ensures !old(isUploading) && CanUpload(old(fileName), old(category)) ==>
                alert.None? && isUploading && progress == 0.0 &&
                capturedName == old(fileName) && capturedCategory == old(category) &&
                capturedFiles == old(uploadedFiles) &&
                fileName == old(fileName) && category == old(category) &&
                uploadedFiles == old(uploadedFiles) && delivered == old(delivered)
    {
      if isUploading {
        return None;
      }
      if !CanUpload(fileName, category) {
        return Some(MissingInput);
      }
      isUploading := true;
      progress := 0.0;
      capturedName := fileName;
      capturedCategory := category;
      capturedFiles := uploadedFiles;
      ticking := true;
      alert := None;
    }

    /** One firing of the interval timer, with random step `step` at time `now`.
        Below 100 the progress grows; at or past 100 the upload completes. */
    method Tick(step: real, now: int)
      requires Valid() && 0.0 <= step < 30.0
      modifies this
      ensures Valid()
      ensures !old(ticking) ==> unchanged(this)
      ensures old(ticking) && old(progress) < 100.0 ==>
                progress == old(progress) + step && isUploading && ticking &&
                fileName == old(fileName) && category == old(category) &&
                uploadedFiles == old(uploadedFiles) && delivered == old(delivered) &&
                capturedName == old(capturedName) && capturedCategory == old(capturedCategory) &&
                capturedFiles == old(capturedFiles)
      ensures old(ticking) && old(progress) >= 100.0 ==>
                var item := UploadedItem(old(capturedName), old(capturedCategory), now);
                !isUploading && progress == 100.0 &&
                uploadedFiles == old(capturedFiles) + [item] &&
                delivered == old(delivered) + [item] &&
                fileName == "" && category == "" &&
                capturedName == old(capturedName) && capturedCategory == old(capturedCategory) &&
                capturedFiles == old(capturedFiles)
    {
      if !ticking {
        return;
      }
      if progress >= 100.0 {
        ticking := false;
        isUploading := false;
        var item := UploadedItem(capturedName, capturedCategory, now);
        uploadedFiles := capturedFiles + [item];
        delivered := delivered + [item];
        fileName := "";
        category := "";
        progress := 100.0;
      } else {
        progress := progress + step;
      }
    }

    /** Cancel: disabled while uploading; otherwise it clears the file name
        and the category, and nothing else changes. */
    method Cancel()
      modifies this`fileName, this`category
      ensures old(isUploading) ==> fileName == old(fileName) && category == old(category)
      ensures !old(isUploading) ==> fileName == "" && category == ""
      ensures Valid() == old(Valid())
    {
      if !isUploading {
        fileName := "";
        category := "";
      }
    }
  }

  /** A full upload run: the item handed to the page carries the file name and
      category chosen before the click, even when another file is picked while
      the timer runs, and the form ends up cleared. */
  method UploadDeliversClickedFile(now: int) returns (item: ContentItem, form: UploadForm)
    ensures form.delivered == [item] && form.uploadedFiles == [item]
    ensures item == UploadedItem("promo.mp4", "Promotions", now) && item.kind == Video
    ensures !form.isUploading && form.fileName == "" && form.category == ""
  {
    form := new UploadForm();
    form.SelectFile("promo.mp4");
    form.SelectCategory("Promotions");
    var alert := form.HandleUpload();
    form.SelectFile("menu.pdf");
    var ticks := 0;
    while form.progress < 100.0
      invariant form.Valid() && form.isUploading && form.delivered == [] && form.uploadedFiles == []
      invariant form.capturedName == "promo.mp4" && form.capturedCategory == "Promotions"
      invariant form.capturedFiles == [] && form.progress == 25.0 * ticks as real
      decreases 4 - ticks
    {
      form.Tick(25.0, now);
      ticks := ticks + 1;
    }
    form.Tick(25.0, now);
    item := form.delivered[0];
  }
}
