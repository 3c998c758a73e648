/**
 * The admin media library, used as a page of its own ("manage" mode) and
 * inside the product and category editors as a picker ("select" mode):
 * the query for one page of files, uploads into a folder, deleting a file
 * and making one public.
 */
module MediaManager {
  import opened Wrappers
  import opened Http
  import opened Text
  import opened Toasts
  import opened QueryParams

  /** A stored file as the media API lists it. Its public path is `url`. */
  datatype MediaFile = MediaFile(id: int, url: string, originalFilename: string, isPublic: bool)

  /** The value a media file yields for the property name `imageUrl`: a
      media file has no such property (its path is `url`), so it is
      undefined. */
  function ImageUrlProperty(file: MediaFile): Option<string> {
    None
  }

  /** The JavaScript text of an optional value in a template literal. */
  function TemplateText(x: Option<string>): string {
    if x.Some? then x.value else "undefined"
  }

  /** A file the browser hands over for upload. */
  datatype FileRef = FileRef(name: string)

  datatype Mode = Manage | Select

  /** One page of `GET /api/admin/media`. */
  datatype MediaPage = MediaPage(content: seq<MediaFile>, number: int, totalPages: int)

  datatype State = State(
    media: seq<MediaFile>,
    selectedFolder: Option<string>,
    page: int,
    totalPages: int,
    isLoading: bool,
    isUploading: bool)

  const Initial := State([], None, 0, 1, true, false)

  /** A folder is only sent when one is selected and it is not empty. */
  predicate FolderSelected(folder: Option<string>) {
    folder.Some? && folder.value != ""
  }

  /** The pairs of a media query, in the order they are written. */
  function MediaParams(page: string, folders: seq<string>): Params {
    AppendAll(AppendAll(AppendAll(AppendAll([], "page", [page]), "size", ["20"]), "sort", ["uploadedAt,desc"]), "folder", folders)
  }

  lemma ReadMediaParams(page: string, folders: seq<string>, j: string)
    ensures GetAll(MediaParams(page, folders), j) ==
      Under(j, "page", [page]) + Under(j, "size", ["20"]) + Under(j, "sort", ["uploadedAt,desc"]) + Under(j, "folder", folders)
  {
    var p1 := AppendAll([], "page", [page]);
    var p2 := AppendAll(p1, "size", ["20"]);
    var p3 := AppendAll(p2, "sort", ["uploadedAt,desc"]);
    GetAllAppendAll([], "page", [page], j);
    GetAllAppendAll(p1, "size", ["20"], j);
    GetAllAppendAll(p2, "sort", ["uploadedAt,desc"], j);
    GetAllAppendAll(p3, "folder", folders, j);
  }

  /** Each key of a media query read back on its own. */
  lemma ReadPageKey(page: string, folders: seq<string>)
    ensures GetAll(MediaParams(page, folders), "page") == [page]
  {
    ReadMediaParams(page, folders, "page");
    assert Under("page", "size", ["20"]) == [] && Under("page", "sort", ["uploadedAt,desc"]) == [];
    assert Under("page", "folder", folders) == [];
  }

  lemma ReadSizeKey(page: string, folders: seq<string>)
    ensures GetAll(MediaParams(page, folders), "size") == ["20"]
  {
    ReadMediaParams(page, folders, "size");
    assert Under("size", "page", [page]) == [] && Under("size", "sort", ["uploadedAt,desc"]) == [];
    assert Under("size", "folder", folders) == [];
  }

  lemma ReadSortKey(page: string, folders: seq<string>)
    ensures GetAll(MediaParams(page, folders), "sort") == ["uploadedAt,desc"]
  {
    ReadMediaParams(page, folders, "sort");
    assert Under("sort", "page", [page]) == [] && Under("sort", "size", ["20"]) == [];
    assert Under("sort", "folder", folders) == [];
  }

  lemma ReadFolderKey(page: string, folders: seq<string>)
    ensures GetAll(MediaParams(page, folders), "folder") == folders
  {
    ReadMediaParams(page, folders, "folder");
    assert Under("folder", "page", [page]) == [] && Under("folder", "size", ["20"]) == [];
    assert Under("folder", "sort", ["uploadedAt,desc"]) == [];
  }

  /** The query of one page of files: always 20 files, newest upload first,
      restricted to the selected folder when there is one. */
  function MediaQuery(page: nat, selectedFolder: Option<string>): (p: Params)
    ensures GetAll(p, "page") == [NatToString(page)]
    ensures GetAll(p, "size") == ["20"]
    ensures GetAll(p, "sort") == ["uploadedAt,desc"]
    ensures GetAll(p, "folder") == if FolderSelected(selectedFolder) then [selectedFolder.value] else []
  {
    var folders := if FolderSelected(selectedFolder) then [selectedFolder.value] else [];
    ReadPageKey(NatToString(page), folders);
    ReadSizeKey(NatToString(page), folders);
    ReadSortKey(NatToString(page), folders);
    ReadFolderKey(NatToString(page), folders);
    MediaParams(NatToString(page), folders)
  }

  /** The answer to a page request. Loading ends either way. */
  function FetchMediaDone(st: State, resp: Response<MediaPage>): (r: (State, Option<Toast>))
    ensures !r.0.isLoading && r.0.selectedFolder == st.selectedFolder && r.0.isUploading == st.isUploading
    ensures resp.Ok? ==>
      r.0.media == resp.data.content && r.0.page == resp.data.number && r.0.totalPages == resp.data.totalPages && r.1.None?
    ensures resp.Err? ==>
      r.0.media == st.media && r.0.page == st.page && r.0.totalPages == st.totalPages &&
      r.1 == Some(ErrorToast("Could not fetch media files."))
  {
    match resp
    case Ok(pg) => (st.(media := pg.content, page := pg.number, totalPages := pg.totalPages, isLoading := false), None)
    case Err(_, _) => (st.(isLoading := false), Some(ErrorToast("Could not fetch media files.")))
  }

  /** The answer to `GET /api/admin/media/folders`: the folder list on
      success; on failure the list shown before stays, with a toast. */
  function FetchFoldersDone(folders: seq<string>, resp: Response<seq<string>>): (r: (seq<string>, Option<Toast>))
    ensures resp.Ok? ==> r.0 == resp.data && r.1.None?
    ensures resp.Err? ==> r.0 == folders && r.1 == Some(ErrorToast("Could not fetch media folders."))
  {
    match resp
    case Ok(fs) => (fs, None)
    case Err(_, _) => (folders, Some(ErrorToast("Could not fetch media folders.")))
  }

  /** The upload request: the files and the folder name as typed. */
  datatype UploadRequest = UploadRequest(files: seq<FileRef>, folder: string)

  /** The guards of `handleUpload`: nothing at all without files, an error
      without a (non-blank) folder name, otherwise the request. */
  function BeginUpload(st: State, files: seq<FileRef>, folder: Option<string>): (r: (State, Option<Toast>, Option<UploadRequest>))
    ensures files == [] ==> r == (st, None, None)
    ensures files != [] && (folder.None? || IsBlank(folder.value)) ==>
      r == (st, Some(ErrorToast("Please enter a folder name for the upload.")), None)
    ensures r.2.Some? <==> files != [] && folder.Some? && !IsBlank(folder.value)
    ensures r.2.Some? ==> r.2.value == UploadRequest(files, folder.value) && r.0 == st.(isUploading := true) && r.1.None?
  {
    if files == [] then (st, None, None)
    else if folder.None? || IsBlank(folder.value) then (st, Some(ErrorToast("Please enter a folder name for the upload.")), None)
    else (st.(isUploading := true), None, Some(UploadRequest(files, folder.value)))
  }

  /** The folder the server files an upload under, as the library names it. */
  function StoredFolderName(folder: string): (r: string)
    ensures |r| == |Trim(folder)| <= |folder|
    ensures forall i :: 0 <= i < |r| ==> r[i] == LowerChar(Trim(folder)[i])
    ensures forall i :: 0 <= i < |r| ==> !('A' <= r[i] <= 'Z')
  {
    ToLower(Trim(folder))
  }

  /** Whether the file list must be refetched after an upload into `folder`:
      when all files are shown, or the selected folder is the upload's. */
  predicate ShowsUploadFolder(selectedFolder: Option<string>, folder: string) {
    selectedFolder.None? || selectedFolder.value == StoredFolderName(folder)
  }

  /** What a settled upload does: the state, the toast, and which lists are
      fetched again. */
  datatype UploadOutcome = UploadOutcome(state: State, toast: Toast, refreshFolders: bool, refreshMedia: Option<Params>)

  function UploadDone(st: State, folder: string, resp: Response<()>): (r: UploadOutcome)
    ensures !r.state.isUploading && r.state.media == st.media
    ensures r.refreshFolders <==> resp.Ok?
    ensures r.refreshMedia.Some? <==> resp.Ok? && ShowsUploadFolder(st.selectedFolder, folder)
    ensures r.refreshMedia.Some? ==> r.refreshMedia.value == MediaQuery(0, st.selectedFolder)
    ensures resp.Ok? ==> r.toast == SuccessToast("Files uploaded successfully!")
    ensures resp.Err? ==> r.toast == ErrorToast(ErrorText(resp, "Failed to upload files."))
  {
    var st' := st.(isUploading := false);
    match resp
    case Ok(_) =>
      UploadOutcome(st', SuccessToast("Files uploaded successfully!"), true,
        if ShowsUploadFolder(st.selectedFolder, folder) then Some(MediaQuery(0, st.selectedFolder)) else None)
    case Err(_, _) =>
      UploadOutcome(st', ErrorToast(ErrorText(resp, "Failed to upload files.")), false, None)
  }

  /** An upload typed with spaces around a folder name lands in the
      lower-cased name, so the view of that folder is refreshed ... */
  lemma UploadRefreshesStoredFolder(name: string)
    requires name != [] && !IsSpace(name[0]) && !IsSpace(name[|name| - 1])
    ensures ShowsUploadFolder(Some(ToLower(name)), [' '] + name + [' '])
  {
    StoredPadded(name);
  }

  /** ... while a view of the name as typed is not refreshed when the name
      has a capital letter: an upload as " Shoes " refreshes "shoes" but
      not "Shoes". */
  lemma UploadSkipsTypedFolder(name: string)
    requires name != [] && !IsSpace(name[0]) && !IsSpace(name[|name| - 1])
    requires HasCapital(name)
    ensures !ShowsUploadFolder(Some(name), [' '] + name + [' '])
  {
    LowerChanges(name);
    StoredPadded(name);
  }

  predicate HasCapital(name: string) {
    exists i :: 0 <= i < |name| && 'A' <= name[i] <= 'Z'
  }

  lemma LowerChanges(name: string)
    requires HasCapital(name)
    ensures ToLower(name) != name
  {
    var i :| 0 <= i < |name| && 'A' <= name[i] <= 'Z';
    assert ToLower(name)[i] != name[i];
  }

  lemma StoredPadded(name: string)
    requires name != [] && !IsSpace(name[0]) && !IsSpace(name[|name| - 1])
    ensures StoredFolderName([' '] + name + [' ']) == ToLower(name)
  {
    TrimPadded(name);
  }

  /** A file click selects the file only in select mode with a receiver. */
  function FileClick(mode: Mode, hasOnSelect: bool, file: MediaFile): (selected: Option<MediaFile>)
    ensures selected.Some? <==> mode == Select && hasOnSelect
    ensures selected.Some? ==> selected.value == file
  {
    if mode == Select && hasOnSelect then Some(file) else None
  }

  /** Which file actions the gallery offers: delete and make-public are
      handed to it only in manage mode. */
  datatype Actions = Actions(canDelete: bool, canMakePublic: bool)

  function GalleryActions(mode: Mode): (a: Actions)
    ensures a.canDelete <==> mode == Manage
    ensures a.canMakePublic <==> mode == Manage
  {
    Actions(mode == Manage, mode == Manage)
  }

  /** A picker never deletes, publishes nor anything but selects; the page
      of its own never selects. */
  lemma ModesAreExclusive(mode: Mode, hasOnSelect: bool, file: MediaFile)
    ensures FileClick(mode, hasOnSelect, file).Some? ==> !GalleryActions(mode).canDelete && !GalleryActions(mode).canMakePublic
    ensures GalleryActions(mode).canDelete ==> FileClick(mode, hasOnSelect, file).None?
  {
  }

  /** `prev.filter(f => f.id !== fileId)`. */
  function RemoveFile(media: seq<MediaFile>, fileId: int): (r: seq<MediaFile>)
    ensures forall f :: f in r <==> f in media && f.id != fileId
    ensures |r| <= |media|
  {
    if media == [] then []
    else if media[0].id == fileId then RemoveFile(media[1..], fileId)
    else [media[0]] + RemoveFile(media[1..], fileId)
  }

  /** `filter` keeps order: removing from two runs of files is removing from
      each and putting the results back together. */
  lemma {:induction false} RemoveFileConcat(a: seq<MediaFile>, b: seq<MediaFile>, fileId: int)
    ensures RemoveFile(a + b, fileId) == RemoveFile(a, fileId) + RemoveFile(b, fileId)
    decreases |a|
  {
    if a == [] {
      assert a + b == b;
    } else {
      assert (a + b)[1..] == a[1..] + b;
      RemoveFileConcat(a[1..], b, fileId);
    }
  }

  /** A single file is kept exactly when its id is not the one removed. */
  lemma RemoveFileOne(f: MediaFile, fileId: int)
    ensures RemoveFile([f], fileId) == if f.id == fileId then [] else [f]
  {
    assert [f][1..] == [];
  }

  /** `prev.map(f => f.id === fileId ? { ...f, isPublic: true } : f)`. */
  function MarkPublic(media: seq<MediaFile>, fileId: int): (r: seq<MediaFile>)
    ensures |r| == |media|
    ensures forall i :: 0 <= i < |media| ==>
      r[i].id == media[i].id && r[i].url == media[i].url && r[i].originalFilename == media[i].originalFilename
    ensures forall i :: 0 <= i < |media| ==> r[i].isPublic == (media[i].isPublic || media[i].id == fileId)
  {
    seq(|media|, i requires 0 <= i < |media| => if media[i].id == fileId then media[i].(isPublic := true) else media[i])
  }

  /** `handleDelete`: asks for confirmation first; on success the file
      leaves the list, on failure nothing changes. */
  datatype DeleteOutcome = DeleteOutcome(media: seq<MediaFile>, toast: Option<Toast>, requested: bool)

  function HandleDelete(media: seq<MediaFile>, fileId: int, confirmed: bool, resp: Response<()>): (r: DeleteOutcome)
    ensures !confirmed ==> r == DeleteOutcome(media, None, false)
    ensures confirmed ==> r.requested
    ensures confirmed && resp.Ok? ==> r.media == RemoveFile(media, fileId) && r.toast == Some(SuccessToast("File deleted successfully."))
    ensures confirmed && resp.Err? ==> r.media == media && r.toast == Some(ErrorToast("Could not delete file."))
  {
    if !confirmed then DeleteOutcome(media, None, false)
    else match resp
      case Ok(_) => DeleteOutcome(RemoveFile(media, fileId), Some(SuccessToast("File deleted successfully.")), true)
      case Err(_, _) => DeleteOutcome(media, Some(ErrorToast("Could not delete file.")), true)
  }

  /** `handleMakePublic`: on success the file is marked public. */
  function HandleMakePublic(media: seq<MediaFile>, fileId: int, resp: Response<()>): (r: (seq<MediaFile>, Toast))
    ensures resp.Ok? ==> r.0 == MarkPublic(media, fileId) && r.1 == SuccessToast("File is now public.")
    ensures resp.Err? ==> r.0 == media && r.1 == ErrorToast("Could not make file public.")
  {
    match resp
    case Ok(_) => (MarkPublic(media, fileId), SuccessToast("File is now public."))
    case Err(_, _) => (media, ErrorToast("Could not make file public."))
  }

  /** Deleting keeps every other file, in its order: removing one id from the
      list and then another is the same as the other way round. */
  lemma {:induction false} RemoveFileCommutes(media: seq<MediaFile>, a: int, b: int)
    ensures RemoveFile(RemoveFile(media, a), b) == RemoveFile(RemoveFile(media, b), a)
  {
    if media != [] {
      RemoveFileCommutes(media[1..], a, b);
      var t := media[1..];
      if media[0].id != a && media[0].id != b {
        assert RemoveFile([media[0]] + RemoveFile(t, a), b) == [media[0]] + RemoveFile(RemoveFile(t, a), b) by {
          assert ([media[0]] + RemoveFile(t, a))[1..] == RemoveFile(t, a);
        }
        assert RemoveFile([media[0]] + RemoveFile(t, b), a) == [media[0]] + RemoveFile(RemoveFile(t, b), a) by {
          assert ([media[0]] + RemoveFile(t, b))[1..] == RemoveFile(t, b);
        }
      } else if media[0].id == a && media[0].id != b {
        assert RemoveFile([media[0]] + RemoveFile(t, b), a) == RemoveFile(RemoveFile(t, b), a) by {
          assert ([media[0]] + RemoveFile(t, b))[1..] == RemoveFile(t, b);
        }
      } else if media[0].id == b && media[0].id != a {
        assert RemoveFile([media[0]] + RemoveFile(t, a), b) == RemoveFile(RemoveFile(t, a), b) by {
          assert ([media[0]] + RemoveFile(t, a))[1..] == RemoveFile(t, a);
        }
      }
    }
  }

  /** Deleting a file that is not listed leaves the list exactly as it was. */
  lemma {:induction false} RemoveAbsentFile(media: seq<MediaFile>, fileId: int)
    requires forall i :: 0 <= i < |media| ==> media[i].id != fileId
    ensures RemoveFile(media, fileId) == media
  {
    if media != [] {
      RemoveAbsentFile(media[1..], fileId);
    }
  }

  /** Making a file public twice is making it public once, and it changes
      no file but those with that id. */
  lemma MarkPublicIdempotent(media: seq<MediaFile>, fileId: int)
    ensures MarkPublic(MarkPublic(media, fileId), fileId) == MarkPublic(media, fileId)
    ensures forall i :: 0 <= i < |media| && media[i].id != fileId ==> MarkPublic(media, fileId)[i] == media[i]
  {
  }

  /** A failed page request leaves the gallery as it was, only not loading,
      and applying the same answer twice is applying it once. */
  lemma FetchMediaStable(st: State, resp: Response<MediaPage>)
    ensures resp.Err? ==> FetchMediaDone(st, resp).0 == st.(isLoading := false)
    ensures FetchMediaDone(FetchMediaDone(st, resp).0, resp).0 == FetchMediaDone(st, resp).0
  {
  }

  /** An upload's life: nothing changes unless a request goes out; when one
      does, the uploading flag that began it is cleared when it settles, the
      files shown are untouched until the refetch, and the list is refetched
      whenever it shows all folders. */
  lemma UploadLifecycle(st: State, files: seq<FileRef>, folder: Option<string>, resp: Response<()>)
    ensures var b := BeginUpload(st, files, folder);
      b.2.None? ==> b.0 == st
    ensures var b := BeginUpload(st, files, folder);
      b.2.Some? ==>
        b.0.isUploading && !UploadDone(b.0, b.2.value.folder, resp).state.isUploading &&
        UploadDone(b.0, b.2.value.folder, resp).state.media == st.media
    ensures var b := BeginUpload(st, files, folder);
      b.2.Some? && resp.Ok? && st.selectedFolder.None? ==> UploadDone(b.0, b.2.value.folder, resp).refreshMedia.Some?
  {
  }

  /** The folder list follows the last successful answer: a failure changes
      nothing but raises a toast, the same answer twice is the answer once,
      and a settled upload refetches the folders exactly when it
      succeeded. */
  lemma FoldersFollowLastAnswer(folders: seq<string>, resp: Response<seq<string>>,
                                st: State, folder: string, upload: Response<()>)
    ensures FetchFoldersDone(folders, resp).1.Some? <==> resp.Err?
    ensures FetchFoldersDone(FetchFoldersDone(folders, resp).0, resp) == FetchFoldersDone(folders, resp)
    ensures UploadDone(st, folder, upload).refreshFolders ==>
      upload.Ok? && (resp.Ok? ==> FetchFoldersDone(folders, resp).0 == resp.data)
  {
  }
}
