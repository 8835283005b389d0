/** The project's file list (`useFileManagement`): adding a batch of files
    keeps only video and audio files whose name is not yet listed and whose
    upload returns a URL; removing drops every file of a name; a drop passes
    its media files on to adding. Every add and remove bumps the key that
    resets the file input. */
module FileManagement {
  import opened Common
  import opened Media

  /** `files.some(f => f.name === name)`. */
  predicate NameTaken(files: seq<MediaFile>, name: string) {
    exists k :: 0 <= k < |files| && files[k].name == name
  }

  /** Whether `addFiles` keeps file `f`, given the list before the call and
      the URL the upload returns for `f` (`""` for a failed upload). */
  predicate Admitted(existing: seq<MediaFile>, upload: MediaFile -> string, f: MediaFile) {
    IsMedia(f) && !NameTaken(existing, f.name) && upload(f) != ""
  }

  /** The files of a batch that `addFiles` keeps, in the batch's order. */
  function Accepted(existing: seq<MediaFile>, batch: seq<MediaFile>, upload: MediaFile -> string): (r: seq<MediaFile>)
    ensures |r| <= |batch|
  {
    Filter(batch, f => Admitted(existing, upload, f))
  }

  predicate NamedOtherwise(name: string, f: MediaFile) {
    f.name != name
  }

  /** `files.filter(file => file.name !== fileName)`. */
  function WithoutName(files: seq<MediaFile>, name: string): (r: seq<MediaFile>)
    ensures |r| <= |files|
  {
    Filter(files, f => NamedOtherwise(name, f))
  }

  /** The video and audio files of a drop, in their order. */
  function MediaOnly(dropped: seq<MediaFile>): (r: seq<MediaFile>)
    ensures |r| <= |dropped|
  {
    Filter(dropped, IsMedia)
  }

  class FileManager {
    var files: seq<MediaFile>
    var inputKey: int
    var uploading: bool

    constructor(files: seq<MediaFile>)
      ensures this.files == files && inputKey == 0 && !uploading
    {
      this.files := files;
      inputKey := 0;
      uploading := false;
    }

    /** `addFiles(newFiles)`. `upload` gives the URL the backend returns for
        each file it is asked to store. */
    method AddFiles(newFiles: seq<MediaFile>, upload: MediaFile -> string)
      modifies this
      ensures files == old(files) + Accepted(old(files), newFiles, upload)
      ensures inputKey == old(inputKey) + 1 && !uploading
    {
      uploading := true;
      var existing := files;
      var uploadedFiles: seq<MediaFile> := [];
      for i := 0 to |newFiles|
        invariant files == existing == old(files) && inputKey == old(inputKey)
        invariant uploadedFiles == Accepted(existing, newFiles[..i], upload)
      {
        var file := newFiles[i];
        assert newFiles[..i + 1] == newFiles[..i] + [file];
        FilterSnoc(newFiles[..i], file, f => Admitted(existing, upload, f));
        if !IsVideo(file) && !IsAudio(file) {
          continue;
        }
        var fileExists := NameTaken(existing, file.name);
        if !fileExists {
          var fileUrl := upload(file);
          if fileUrl != "" {
            uploadedFiles := uploadedFiles + [file];
          }
        }
      }
      assert newFiles[..|newFiles|] == newFiles;
      files := files + uploadedFiles;
      uploading := false;
      inputKey := inputKey + 1;
    }

    /** `removeFile(fileName)`. */
    method RemoveFile(fileName: string)
      modifies this
      ensures files == WithoutName(old(files), fileName)
      ensures inputKey == old(inputKey) + 1 && uploading == old(uploading)
    {
      files := WithoutName(files, fileName);
      inputKey := inputKey + 1;
    }

    /** `handleDrop`: a non-empty drop passes its media files to `addFiles`;
        an empty drop changes nothing. */
    method HandleDrop(dropped: seq<MediaFile>, upload: MediaFile -> string)
      modifies this
      ensures |dropped| > 0 ==>
        files == old(files) + Accepted(old(files), dropped, upload) && inputKey == old(inputKey) + 1 && !uploading
      ensures |dropped| == 0 ==>
        files == old(files) && inputKey == old(inputKey) && uploading == old(uploading)
    {
      if |dropped| > 0 {
        var filesArray := MediaOnly(dropped);
        DropFilterChangesNothing(files, dropped, upload);
        AddFiles(filesArray, upload);
      }
    }
  }

  /** A batch file is added exactly when it is a media file, its name is not
      in the list before the call, and its upload returns a URL. */
  lemma AcceptedMembership(existing: seq<MediaFile>, batch: seq<MediaFile>, upload: MediaFile -> string)
    ensures forall f :: f in Accepted(existing, batch, upload) <==>
      f in batch && IsMedia(f) && !NameTaken(existing, f.name) && upload(f) != ""
  {
    FilterMembership(batch, f => Admitted(existing, upload, f));
  }

  /** Adding two batches one after the other within a call keeps their order. */
  lemma AcceptedInOrder(existing: seq<MediaFile>, a: seq<MediaFile>, b: seq<MediaFile>, upload: MediaFile -> string)
    ensures Accepted(existing, a + b, upload) == Accepted(existing, a, upload) + Accepted(existing, b, upload)
  {
    FilterConcat(a, b, f => Admitted(existing, upload, f));
  }

  /** The name check looks only at the list before the call: two new media
      files of the same, unlisted name that both upload are both added. */
  lemma SameNameInBatchBothAdded(existing: seq<MediaFile>, a: MediaFile, b: MediaFile, upload: MediaFile -> string)
    requires a.name == b.name && !NameTaken(existing, a.name)
    requires IsMedia(a) && IsMedia(b) && upload(a) != "" && upload(b) != ""
    ensures Accepted(existing, [a, b], upload) == [a, b]
  {
    FilterAllPass([a, b], f => Admitted(existing, upload, f));
  }

  /** Passing only the media files of a drop admits the same files as
      passing the whole drop. */
  lemma {:induction false} DropFilterChangesNothing(existing: seq<MediaFile>, dropped: seq<MediaFile>, upload: MediaFile -> string)
    ensures Accepted(existing, MediaOnly(dropped), upload) == Accepted(existing, dropped, upload)
  {
    if dropped != [] {
      var head := if IsMedia(dropped[0]) then [dropped[0]] else [];
      assert MediaOnly(dropped) == head + MediaOnly(dropped[1..]);
      FilterConcat(head, MediaOnly(dropped[1..]), f => Admitted(existing, upload, f));
      assert Accepted(existing, head, upload) == Accepted(existing, [dropped[0]], upload);
      DropFilterChangesNothing(existing, dropped[1..], upload);
    }
  }

  /** The drop filter keeps exactly the media files. */
  lemma MediaOnlyMembership(dropped: seq<MediaFile>)
    ensures forall f :: f in MediaOnly(dropped) <==> f in dropped && (IsVideo(f) || IsAudio(f))
  {
    FilterMembership(dropped, IsMedia);
  }

  /** Removing keeps exactly the files of other names, in order, and a name
      that is not listed leaves the list as it is. */
  lemma RemoveKeepsOthers(files: seq<MediaFile>, more: seq<MediaFile>, name: string)
    ensures forall f :: f in WithoutName(files, name) <==> f in files && f.name != name
    ensures !NameTaken(WithoutName(files, name), name)
    ensures WithoutName(files + more, name) == WithoutName(files, name) + WithoutName(more, name)
    ensures !NameTaken(files, name) ==> WithoutName(files, name) == files
  {
    FilterMembership(files, f => NamedOtherwise(name, f));
    FilterConcat(files, more, f => NamedOtherwise(name, f));
    var r := WithoutName(files, name);
    assert forall k :: 0 <= k < |r| ==> r[k] in r;
    if !NameTaken(files, name) {
      FilterAllPass(files, f => NamedOtherwise(name, f));
    }
  }
}
