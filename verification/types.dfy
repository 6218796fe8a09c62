/** The records of src/types/index.ts. */
module Types {
  import Json

  /** A browser `File`: only the name, the MIME type and the byte size matter here. */
  datatype FileInfo = FileInfo(name: string, mimeType: string, size: nat)

  /** `UploadedImage`: the file and its data-URL preview. */
  datatype UploadedImage = UploadedImage(file: FileInfo, preview: string)

  /** `HistoryRecord`: one saved generation; `image` is base64 without the data-URL prefix. */
  datatype HistoryRecord = HistoryRecord(
    id: string,
    image: string,
    prompt: string,
    schema: Json.Value,
    createdAt: int,
    success: bool)

  /** `Omit<HistoryRecord, 'id' | 'createdAt'>`: what a caller hands to `addHistory`. */
  datatype NewRecord = NewRecord(image: string, prompt: string, schema: Json.Value, success: bool)
}
