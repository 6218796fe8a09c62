/** The image picker of src/components/ImageUploader.tsx: which files it takes, the
    alerts it raises, and how its own copy of the image and the parent's stay in step.
    `FileReader` is not modelled: the data URL it would produce is a parameter, and the
    asynchronous read is taken to finish at once. */
module ImageUploader {
  import opened Wrappers
  import opened Types

  /** 5 MiB, the largest accepted file. */
  const MaxImageBytes := 5 * 1024 * 1024

  const ImageTypePrefix := "image/"
  const NotAnImageAlert := "请选择图片文件"
  const TooLargeAlert := "图片大小不能超过 5MB"

  /** `file.type.startsWith('image/')`. */
  predicate IsImageType(mimeType: string) {
    |ImageTypePrefix| <= |mimeType| && mimeType[..|ImageTypePrefix|] == ImageTypePrefix
  }

  /** The uploader's own image and the image the parent was last told about
      (`None` for `null`). */
  datatype UploaderState = UploaderState(current: Option<UploadedImage>, parent: Option<UploadedImage>)

  /** The state after an event, and the alert shown, if any. */
  datatype Step = Step(state: UploaderState, alert: Option<string>)

  /** The uploader and its parent agree on the image. */
  predicate InSync(st: UploaderState) {
    st.current == st.parent
  }

  /** `processFile`: the type check first, then the size check; an accepted file
      becomes `{file, preview}`, kept and handed to the parent. A rejected file
      changes nothing and the parent is not told. */
  function ProcessFile(st: UploaderState, file: FileInfo, dataUrl: string): (r: Step)
    ensures !IsImageType(file.mimeType) ==> r == Step(st, Some(NotAnImageAlert))
    ensures IsImageType(file.mimeType) && file.size > MaxImageBytes ==> r == Step(st, Some(TooLargeAlert))
    ensures r.alert.None? <==> IsImageType(file.mimeType) && file.size <= MaxImageBytes
    ensures r.alert.None? ==>
              r.state.current == Some(UploadedImage(file, dataUrl)) && r.state.parent == r.state.current
  {
    if !IsImageType(file.mimeType) then Step(st, Some(NotAnImageAlert))
    else if file.size > MaxImageBytes then Step(st, Some(TooLargeAlert))
    else
      var image := Some(UploadedImage(file, dataUrl));
      Step(UploaderState(image, image), None)
  }

  /** The size limit is inclusive: an image of exactly 5 MiB is taken, one byte more
      is refused. */
  lemma SizeLimitIsInclusive(st: UploaderState, name: string, mimeType: string, dataUrl: string)
    requires IsImageType(mimeType)
    ensures ProcessFile(st, FileInfo(name, mimeType, MaxImageBytes), dataUrl).alert.None?
    ensures ProcessFile(st, FileInfo(name, mimeType, MaxImageBytes + 1), dataUrl).alert == Some(TooLargeAlert)
  {
  }

  /** The file input's change event: the first chosen file, if any, is processed. */
  function OnInputChange(st: UploaderState, files: seq<FileInfo>, dataUrl: string): (r: Step)
    ensures |files| == 0 ==> r == Step(st, None)
    ensures |files| > 0 ==> r == ProcessFile(st, files[0], dataUrl)
  {
    if |files| > 0 then ProcessFile(st, files[0], dataUrl) else Step(st, None)
  }

  /** `handleDrop`: only the first dropped file is looked at, and one that is not an
      image is passed over without an alert. */
  function OnDrop(st: UploaderState, files: seq<FileInfo>, dataUrl: string): (r: Step)
    ensures r.alert != Some(NotAnImageAlert)
    ensures |files| == 0 || !IsImageType(files[0].mimeType) ==> r == Step(st, None)
    ensures |files| > 0 && IsImageType(files[0].mimeType) ==> r == ProcessFile(st, files[0], dataUrl)
  {
    if |files| > 0 && IsImageType(files[0].mimeType) then ProcessFile(st, files[0], dataUrl)
    else Step(st, None)
  }

  /** Files after the first make no difference to a drop. */
  lemma DropReadsFirstFileOnly(st: UploaderState, files: seq<FileInfo>, dataUrl: string)
    requires |files| > 0
    ensures OnDrop(st, files, dataUrl) == OnDrop(st, files[..1], dataUrl)
  {
  }

  /** `handleRemoveImage`: the uploader drops its image and tells the parent `null`. */
  function RemoveImage(st: UploaderState): (r: UploaderState)
    ensures r.current.None? && r.parent.None?
  {
    UploaderState(None, None)
  }

  /** Every event keeps the uploader and its parent in agreement. */
  lemma EventsKeepInSync(st: UploaderState, file: FileInfo, files: seq<FileInfo>, dataUrl: string)
    requires InSync(st)
    ensures InSync(ProcessFile(st, file, dataUrl).state)
    ensures InSync(OnInputChange(st, files, dataUrl).state)
    ensures InSync(OnDrop(st, files, dataUrl).state)
    ensures InSync(RemoveImage(st))
  {
  }
}
