/**
 * The computed parts of src/components/FilePreview.tsx: which version is
 * shown, the previous and next file in the same folder, the numbering of
 * the version history, and which kind of preview `renderPreview` draws.
 */
module FilePreview {
  import opened Wrappers
  import opened Seqs
  import opened Types
  import Formatters
  import Store

  // ---------------------------------------------------------------------------
  // The version shown
  // ---------------------------------------------------------------------------

  /**
   * `file.versions.find(v => v.id === selectedVersion) || file.versions[0]`:
   * the first version with the selected id, else the first version, absent
   * only when there are no versions.
   */
  function CurrentVersion(versions: seq<FileVersion>, selected: string): (r: Option<FileVersion>)
    ensures r.None? <==> versions == []
    ensures r.Some? ==> r.value in versions
    ensures (exists i :: 0 <= i < |versions| && versions[i].id == selected) ==>
      r.Some? && r.value.id == selected
      && exists k :: 0 <= k < |versions| && versions[k] == r.value && forall j :: 0 <= j < k ==> versions[j].id != selected
    ensures versions != [] && (forall i :: 0 <= i < |versions| ==> versions[i].id != selected) ==>
      r == Some(versions[0])
  {
    match Find(versions, (v: FileVersion) => v.id == selected)
    case Some(v) => Some(v)
    case None => if versions == [] then None else Some(versions[0])
  }

  /**
   * After `addFileVersion` with a version id not used before, a preview
   * opened on the updated record (which selects its `currentVersionId`)
   * shows the new version.
   */
  lemma UploadedVersionIsCurrent(
    files: seq<FileItem>, fileId: string, v: FileVersion, content: Content, imageUrl: string, now: Timestamp, i: nat)
    requires i < |files| && files[i].id == fileId
    requires forall j | 0 <= j < |files[i].versions| :: files[i].versions[j].id != v.id
    ensures var f := Store.WithVersion(files, fileId, v, content, imageUrl, now)[i];
      CurrentVersion(f.versions, f.currentVersionId) == Some(v)
  {
    var f := Store.WithVersion(files, fileId, v, content, imageUrl, now)[i];
    var n := |files[i].versions|;
    assert f.versions[n] == v;
    assert forall j | 0 <= j < n :: f.versions[j] == files[i].versions[j];
  }

  /**
   * The preview that uploads keeps the version id it selected when it was
   * opened. That id is still among the versions after the upload, so that
   * preview goes on showing the same version as before.
   */
  lemma OpenPreviewKeepsVersion(
    files: seq<FileItem>, fileId: string, v: FileVersion, content: Content, imageUrl: string, now: Timestamp, i: nat,
    selected: string)
    requires i < |files| && files[i].id == fileId
    requires exists j :: 0 <= j < |files[i].versions| && files[i].versions[j].id == selected
    ensures CurrentVersion(Store.WithVersion(files, fileId, v, content, imageUrl, now)[i].versions, selected)
         == CurrentVersion(files[i].versions, selected)
  {
    assert Store.WithVersion(files, fileId, v, content, imageUrl, now)[i].versions == files[i].versions + [v];
    AppendKeepsSelection(files[i].versions, v, selected);
  }

  /** Appending a version does not change which version an id already present selects. */
  lemma AppendKeepsSelection(before: seq<FileVersion>, v: FileVersion, selected: string)
    requires exists j :: 0 <= j < |before| && before[j].id == selected
    ensures CurrentVersion(before + [v], selected) == CurrentVersion(before, selected)
  {
    var after := before + [v];
    var a, b := CurrentVersion(before, selected), CurrentVersion(after, selected);
    var k :| 0 <= k < |before| && before[k] == a.value && forall j :: 0 <= j < k ==> before[j].id != selected;
    assert after[k] == before[k];
    var k2 :| 0 <= k2 < |after| && after[k2] == b.value && forall j :: 0 <= j < k2 ==> after[j].id != selected;
    assert k2 <= k;
    assert before[k2] == after[k2];
  }

  // ---------------------------------------------------------------------------
  // Previous and next file
  // ---------------------------------------------------------------------------

  /** `currentFolderFiles`: the non-folder records with the file's parent, in list order. */
  function Siblings(files: seq<FileItem>, file: FileItem): (r: seq<FileItem>)
    ensures forall f :: f in r <==> f in files && f.parentId == file.parentId && !f.isFolder
    ensures forall f :: multiset(r)[f] == if f.parentId == file.parentId && !f.isFolder then multiset(files)[f] else 0
    ensures Sublist(r, files)
  {
    Filter(files, (f: FileItem) => f.parentId == file.parentId && !f.isFolder)
  }

  /** `prevFile` and `nextFile`. */
  datatype Neighbours = Neighbours(prev: Option<FileItem>, next: Option<FileItem>)

  /** `currentIndex`, then the elements either side of it in `currentFolderFiles`. */
  function NeighboursOf(files: seq<FileItem>, file: FileItem): (r: Neighbours)
    ensures var sibs := Siblings(files, file);
      var k := Store.FileIndex(sibs, file.id);
      && (r.prev.Some? <==> k > 0)
      && (r.prev.Some? ==> r.prev.value == sibs[k - 1])
      && (r.next.Some? <==> k < |sibs| - 1)
      && (r.next.Some? ==> r.next.value == sibs[k + 1])
  {
    var sibs := Siblings(files, file);
    var k := Store.FileIndex(sibs, file.id);
    Neighbours(if k > 0 then Some(sibs[k - 1]) else None, if k < |sibs| - 1 then Some(sibs[k + 1]) else None)
  }

  /** A file missing from its folder's list (index -1) has no previous file; its next file is the first sibling. */
  lemma NotListedNeighbours(files: seq<FileItem>, file: FileItem)
    requires forall f | f in Siblings(files, file) :: f.id != file.id
    ensures NeighboursOf(files, file).prev.None?
    ensures NeighboursOf(files, file).next == if Siblings(files, file) == [] then None else Some(Siblings(files, file)[0])
  {
    var sibs := Siblings(files, file);
    assert forall i | 0 <= i < |sibs| :: sibs[i] in sibs;
  }

  /** Navigation only ever offers another non-folder record of the same folder. */
  lemma NeighboursAreSiblings(files: seq<FileItem>, file: FileItem)
    ensures var r := NeighboursOf(files, file);
      && (r.prev.Some? ==> r.prev.value in files && r.prev.value.parentId == file.parentId && !r.prev.value.isFolder)
      && (r.next.Some? ==> r.next.value in files && r.next.value.parentId == file.parentId && !r.next.value.isFolder)
  {
    var sibs := Siblings(files, file);
    assert forall i | 0 <= i < |sibs| :: sibs[i] in sibs;
  }

  // ---------------------------------------------------------------------------
  // Version history labels
  // ---------------------------------------------------------------------------

  /** The number in `` `Version ${file.versions.length - index}` `` for each row of the history. */
  function VersionNumbers(versions: seq<FileVersion>): (r: seq<int>)
    ensures |r| == |versions|
    ensures forall i | 0 <= i < |r| :: 1 <= r[i] <= |versions|
    ensures forall i, j | 0 <= i < j < |r| :: r[i] > r[j]
    ensures versions != [] ==> r[0] == |versions| && r[|r| - 1] == 1
  {
    seq(|versions|, (index: int) => |versions| - index)
  }

  /** Versions are appended, so after an upload the new version is numbered 1 and every older one moves up by one. */
  lemma UploadedVersionNumberedOne(versions: seq<FileVersion>, v: FileVersion)
    ensures VersionNumbers(versions + [v])[|versions|] == 1
    ensures forall i | 0 <= i < |versions| :: VersionNumbers(versions + [v])[i] == VersionNumbers(versions)[i] + 1
  {
  }

  // ---------------------------------------------------------------------------
  // renderPreview
  // ---------------------------------------------------------------------------

  /** What `renderPreview` draws, with the source it draws from. */
  datatype Preview =
    | NoPreview                          // "No preview available"
    | ImagePreview(src: string)
    | VideoPreview(src: string)
    | AudioPreview(src: string)
    | PdfPreview(thumbnail: Option<string>)
    | IconPreview(icon: string)          // the fallback: an icon, the name and the size

  /** The `IconComponent` switch over `getFileIcon`'s answer. */
  function IconComponent(iconName: string): (r: string)
    ensures r in {"Image", "Video", "Music", "FileText", "File"}
    ensures iconName in {"Image", "Video", "Music", "FileText"} ==> r == iconName
    ensures iconName !in {"Image", "Video", "Music", "FileText"} ==> r == "File"
  {
    if iconName in {"Image", "Video", "Music", "FileText"} then iconName else "File"
  }

  /** `renderPreview`: the ordered tests on the version and on `file.type`. */
  function RenderPreview(file: FileItem, current: Option<FileVersion>): (r: Preview)
    ensures r == NoPreview <==> current.None?
    ensures r.VideoPreview? || r.AudioPreview? ==> r.src == current.value.url
    ensures r.ImagePreview? ==> (r.src != "" && file.previewUrl == Some(r.src)) || r.src == current.value.url
    ensures r.PdfPreview? && r.thumbnail.Some? ==> r.thumbnail == file.previewUrl && r.thumbnail.value != ""
    ensures r.IconPreview? ==> r.icon in {"FileText", "File"}
    ensures (current.Some? && !Formatters.StartsWith(file.mimeType, "image/")
             && !Formatters.StartsWith(file.mimeType, "video/") && !Formatters.StartsWith(file.mimeType, "audio/")) ==>
      (r.PdfPreview? <==> Formatters.Includes(file.mimeType, "pdf"))
    ensures r.PdfPreview? ==> (r.thumbnail.Some? <==> file.previewUrl.Some? && file.previewUrl.value != "")
    ensures r.IconPreview? ==> r.icon == IconComponent(Formatters.GetFileIcon(file.mimeType))
  {
    if current.None? then NoPreview
    else if Formatters.StartsWith(file.mimeType, "image/") then
      ImagePreview(if file.previewUrl.Some? && file.previewUrl.value != "" then file.previewUrl.value
                   else current.value.url)
    else if Formatters.StartsWith(file.mimeType, "video/") then VideoPreview(current.value.url)
    else if Formatters.StartsWith(file.mimeType, "audio/") then AudioPreview(current.value.url)
    else if Formatters.Includes(file.mimeType, "pdf") then
      PdfPreview(if file.previewUrl.Some? && file.previewUrl.value != "" then file.previewUrl else None)
    else IconPreview(IconComponent(Formatters.GetFileIcon(file.mimeType)))
  }

  /**
   * The preview kind follows the icon classifier: with a version to show,
   * an image, video or audio preview is drawn exactly when `getFileIcon`
   * says Image, Video or Music.
   */
  lemma MediaPreviewAgreesWithIcon(file: FileItem, v: FileVersion)
    ensures var p := RenderPreview(file, Some(v));
      var icon := Formatters.GetFileIcon(file.mimeType);
      && (p.ImagePreview? <==> icon == "Image")
      && (p.VideoPreview? <==> icon == "Video")
      && (p.AudioPreview? <==> icon == "Music")
  {
    if file.mimeType == "folder" {
      assert !Formatters.StartsWith(file.mimeType, "image/") by { assert file.mimeType[0] != "image/"[0]; }
      assert !Formatters.StartsWith(file.mimeType, "video/") by { assert file.mimeType[0] != "video/"[0]; }
      assert !Formatters.StartsWith(file.mimeType, "audio/") by { assert file.mimeType[0] != "audio/"[0]; }
    }
  }

  /** A PDF preview is drawn only for a type `getFileIcon` shows as FileText. */
  lemma PdfPreviewIsDocument(file: FileItem, v: FileVersion)
    requires RenderPreview(file, Some(v)).PdfPreview?
    ensures Formatters.GetFileIcon(file.mimeType) == "FileText"
  {
    Formatters.FolderIsNoDocument();
  }

  /**
   * The fallback is only reached past the media and PDF tests, so of the
   * `IconComponent` cases only FileText (a word-processing document) and
   * File remain.
   */
  lemma FallbackIcon(file: FileItem, current: Option<FileVersion>)
    requires RenderPreview(file, current).IconPreview?
    ensures var icon := RenderPreview(file, current).icon;
      && icon in {"FileText", "File"}
      && (icon == "FileText" <==> Formatters.Includes(file.mimeType, "word") || Formatters.Includes(file.mimeType, "document"))
  {
    Formatters.FolderIsNoDocument();
  }

  /** No version means no preview, whatever the type. */
  lemma NoVersionNoPreview(file: FileItem, current: Option<FileVersion>)
    ensures RenderPreview(file, current) == NoPreview <==> current.None?
  {
  }

  /** An image draws its preview URL when it has a non-empty one, and the shown version's URL otherwise. */
  lemma ImageSource(file: FileItem, v: FileVersion)
    requires Formatters.StartsWith(file.mimeType, "image/")
    ensures file.previewUrl.Some? && file.previewUrl.value != "" ==>
      RenderPreview(file, Some(v)) == ImagePreview(file.previewUrl.value)
    ensures !(file.previewUrl.Some? && file.previewUrl.value != "") ==> RenderPreview(file, Some(v)) == ImagePreview(v.url)
  {
  }
}
