/** A browser `File` as the editor sees it: a name and a MIME type. The
    front end sorts files into video and audio by the type's prefix. */
module Media {
  import opened Strings

  datatype MediaFile = MediaFile(name: string, mimeType: string)

  /** `file.type.startsWith("video/")`. */
  predicate IsVideo(f: MediaFile) {
    StartsWith(f.mimeType, "video/")
  }

  /** `file.type.startsWith("audio/")`. */
  predicate IsAudio(f: MediaFile) {
    StartsWith(f.mimeType, "audio/")
  }

  /** A file the editor accepts: video or audio. */
  predicate IsMedia(f: MediaFile) {
    IsVideo(f) || IsAudio(f)
  }

  /** No MIME type is both a video and an audio type. */
  lemma VideoIsNotAudio(f: MediaFile)
    ensures !(IsVideo(f) && IsAudio(f))
  {
    if IsVideo(f) {
      assert f.mimeType[0] == 'v';
    }
  }
}
