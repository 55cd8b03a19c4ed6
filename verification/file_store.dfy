/**
 * The client-side file store of src/store/fileStore.ts: a flat list of file
 * and folder records linked by `parentId`, the selection, the notifications
 * and the usage counters. Each action of the store is a method of class
 * `FileStore`; the new values it assigns are built by the functions before
 * it, and the lemmas state what those functions promise.
 *
 * Fresh ids (`uuidv4()`), object URLs (`URL.createObjectURL`) and the clock
 * (`new Date()`) are parameters of the actions.
 */
module Store {
  import opened Wrappers
  import opened Seqs
  import opened Types
  import Formatters

  /** The signed-in user every action attributes its records to. */
  const CurrentUserId: string := "user-1"

  // ---------------------------------------------------------------------------
  // Lookups
  // ---------------------------------------------------------------------------

  /** `files.findIndex(f => f.id === id)`. */
  function FileIndex(files: seq<FileItem>, id: string): (k: int)
    ensures -1 <= k < |files|
    ensures k == -1 <==> forall i :: 0 <= i < |files| ==> files[i].id != id
    ensures 0 <= k ==> files[k].id == id && forall j :: 0 <= j < k ==> files[j].id != id
  {
    FindIndex(files, (f: FileItem) => f.id == id)
  }

  /** `files.find(f => f.id === id)`: the first record with that id. */
  function FindFile(files: seq<FileItem>, id: string): (r: Option<FileItem>)
    ensures r.None? <==> forall i :: 0 <= i < |files| ==> files[i].id != id
    ensures r.Some? ==> r.value in files && r.value.id == id
    ensures r.Some? ==> r.value == files[FileIndex(files, id)]
  {
    var k := FileIndex(files, id);
    if k < 0 then None else Some(files[k])
  }

  /** Two lists whose ids agree position by position find any id at the same position. */
  lemma SameIdsSameIndex(a: seq<FileItem>, b: seq<FileItem>, id: string)
    requires |a| == |b| && forall i :: 0 <= i < |a| ==> a[i].id == b[i].id
    ensures FileIndex(a, id) == FileIndex(b, id)
  {
  }

  /** `files.map(f => f.id === id ? g(f) : f)`: every record with that id is rewritten by `g`. */
  function UpdateWhere(files: seq<FileItem>, id: string, g: FileItem -> FileItem): (r: seq<FileItem>)
    ensures |r| == |files|
    ensures forall i :: 0 <= i < |files| ==> r[i] == if files[i].id == id then g(files[i]) else files[i]
  {
    Map(files, (f: FileItem) => if f.id == id then g(f) else f)
  }

  /** The ids of `fs`, in order. */
  function Ids(fs: seq<FileItem>): (r: seq<string>)
    ensures |r| == |fs|
    ensures forall i :: 0 <= i < |fs| ==> r[i] == fs[i].id
  {
    Map(fs, (f: FileItem) => f.id)
  }

  // ---------------------------------------------------------------------------
  // The folder graph and getAllChildrenIds
  // ---------------------------------------------------------------------------

  /**
   * `rank` witnesses that descending through folders from any ranked id
   * stops: a folder whose parent is ranked is ranked too, strictly lower.
   * Folders outside the ranked part, cycles among them included, are not
   * constrained.
   */
  ghost predicate Ranked(files: seq<FileItem>, rank: map<string, nat>) {
    forall f | f in files && f.isFolder && f.parentId.Some? && f.parentId.value in rank ::
      f.id in rank && rank[f.id] < rank[f.parentId.value]
  }

  /** Every folder is ranked. */
  ghost predicate RanksEveryFolder(files: seq<FileItem>, rank: map<string, nat>) {
    forall f | f in files && f.isFolder :: f.id in rank
  }

  /** The whole folder graph is acyclic: some rank covers every folder. */
  ghost predicate Acyclic(files: seq<FileItem>) {
    exists rank :: Ranked(files, rank) && RanksEveryFolder(files, rank)
  }

  /** No two records share an id. */
  predicate UniqueIds(files: seq<FileItem>) {
    Distinct(Ids(files))
  }

  /** Under unique ids, an id names one record. */
  lemma SameIdSameRecord(files: seq<FileItem>, g: FileItem, h: FileItem)
    requires UniqueIds(files) && g in files && h in files && g.id == h.id
    ensures g == h
  {
    var i :| 0 <= i < |files| && files[i] == g;
    var j :| 0 <= j < |files| && files[j] == h;
    assert Ids(files)[i] == Ids(files)[j];
  }

  /** `files.filter(f => f.parentId === p)`. */
  function ChildrenOf(files: seq<FileItem>, p: string): (r: seq<FileItem>)
    ensures forall f :: f in r <==> f in files && f.parentId == Some(p)
    ensures Sublist(r, files)
  {
    Filter(files, (f: FileItem) => f.parentId == Some(p))
  }

  /** The folders among `p`'s children. */
  function FolderChildrenOf(files: seq<FileItem>, p: string): (r: seq<FileItem>)
    ensures forall f :: f in r <==> f in files && f.parentId == Some(p) && f.isFolder
    ensures Sublist(r, ChildrenOf(files, p))
  {
    Filter(ChildrenOf(files, p), (c: FileItem) => c.isFolder)
  }

  /**
   * `getAllChildrenIds(p)`: the ids of `p`'s children, then, folder child by
   * folder child, everything below it. Terminates because `rank` descends.
   */
  function AllChildrenIds(files: seq<FileItem>, p: string, ghost rank: map<string, nat>): (r: seq<string>)
    requires Ranked(files, rank) && p in rank
    decreases rank[p], 1
  {
    var children := ChildrenOf(files, p);
    Ids(children) + NestedIds(files, FolderChildrenOf(files, p), p, rank)
  }

  /** `folders.flatMap(folder => getAllChildrenIds(folder.id))`. */
  function NestedIds(files: seq<FileItem>, folders: seq<FileItem>, ghost p: string, ghost rank: map<string, nat>)
    : (r: seq<string>)
    requires Ranked(files, rank) && p in rank
    requires forall c | c in folders :: c in files && c.isFolder && c.parentId == Some(p)
    decreases rank[p], 0, |folders|
  {
    if folders == [] then []
    else AllChildrenIds(files, folders[0].id, rank) + NestedIds(files, folders[1..], p, rank)
  }

  /**
   * Reference definition of the records below `p`: `x` is the id of a child
   * of `p`, or, within `n` steps, of something below a folder child of `p`.
   */
  ghost predicate Reaches(files: seq<FileItem>, p: string, x: string, n: nat)
    decreases n
  {
    (exists i :: 0 <= i < |files| && files[i].parentId == Some(p) && files[i].id == x)
    || (n > 0 && exists i :: 0 <= i < |files| && files[i].parentId == Some(p) && files[i].isFolder
                            && Reaches(files, files[i].id, x, n - 1))
  }

  /** A child of `p` lies below `p`, within any number of steps. */
  lemma ReachesChild(files: seq<FileItem>, p: string, c: FileItem, n: nat)
    requires c in files && c.parentId == Some(p)
    ensures Reaches(files, p, c.id, n)
  {
    var i :| 0 <= i < |files| && files[i] == c;
  }

  /** What lies below a folder child of `p` lies below `p`. */
  lemma ReachesThrough(files: seq<FileItem>, p: string, c: FileItem, x: string, n: nat)
    requires c in files && c.parentId == Some(p) && c.isFolder && Reaches(files, c.id, x, n)
    ensures Reaches(files, p, x, n + 1)
  {
    var i :| 0 <= i < |files| && files[i] == c;
  }

  /** Everything `getAllChildrenIds` lists lies below `p`. */
  lemma {:induction false} AllChildrenIdsSound(files: seq<FileItem>, p: string, rank: map<string, nat>, x: string)
    requires Ranked(files, rank) && p in rank
    requires x in AllChildrenIds(files, p, rank)
    ensures exists n :: Reaches(files, p, x, n)
    decreases rank[p], 1
  {
    var children := ChildrenOf(files, p);
    if x in Ids(children) {
      var j :| 0 <= j < |children| && Ids(children)[j] == x;
      assert children[j] in children;
      ReachesChild(files, p, children[j], 0);
    } else {
      NestedIdsSound(files, FolderChildrenOf(files, p), p, rank, x);
    }
  }

  lemma {:induction false} NestedIdsSound(
    files: seq<FileItem>, folders: seq<FileItem>, p: string, rank: map<string, nat>, x: string)
    requires Ranked(files, rank) && p in rank
    requires forall c | c in folders :: c in files && c.isFolder && c.parentId == Some(p)
    requires x in NestedIds(files, folders, p, rank)
    ensures exists n :: Reaches(files, p, x, n)
    decreases rank[p], 0, |folders|
  {
    var c := folders[0];
    assert c in folders;
    if x in AllChildrenIds(files, c.id, rank) {
      AllChildrenIdsSound(files, c.id, rank, x);
      var n :| Reaches(files, c.id, x, n);
      ReachesThrough(files, p, c, x, n);
    } else {
      NestedIdsSound(files, folders[1..], p, rank, x);
    }
  }

  /** A record below `p` is, at its first step, a child of `p` or below a folder child of `p`. */
  lemma ReachesStep(files: seq<FileItem>, p: string, x: string, n: nat) returns (c: FileItem)
    requires Reaches(files, p, x, n)
    ensures c in files && c.parentId == Some(p)
    ensures c.id == x || (n > 0 && c.isFolder && Reaches(files, c.id, x, n - 1))
  {
    if i :| 0 <= i < |files| && files[i].parentId == Some(p) && files[i].id == x {
      c := files[i];
    } else {
      var i :| 0 <= i < |files| && files[i].parentId == Some(p) && files[i].isFolder
               && Reaches(files, files[i].id, x, n - 1);
      c := files[i];
    }
  }

  /** A child of `p` is listed by `getAllChildrenIds(p)`. */
  lemma ChildListed(files: seq<FileItem>, p: string, rank: map<string, nat>, c: FileItem)
    requires Ranked(files, rank) && p in rank
    requires c in files && c.parentId == Some(p)
    ensures c.id in AllChildrenIds(files, p, rank)
  {
    var children := ChildrenOf(files, p);
    var j :| 0 <= j < |children| && children[j] == c;
    assert Ids(children)[j] == c.id;
  }

  /** What `getAllChildrenIds` lists for a folder child of `p`, it lists for `p`. */
  lemma NestedListed(files: seq<FileItem>, p: string, rank: map<string, nat>, c: FileItem, x: string)
    requires Ranked(files, rank) && p in rank
    requires c in files && c.parentId == Some(p) && c.isFolder
    requires c.id in rank && x in AllChildrenIds(files, c.id, rank)
    ensures x in AllChildrenIds(files, p, rank)
  {
    NestedIdsContain(files, FolderChildrenOf(files, p), p, rank, c, x);
  }

  /** Everything below `p` is listed by `getAllChildrenIds`. */
  lemma {:induction false} AllChildrenIdsComplete(
    files: seq<FileItem>, p: string, rank: map<string, nat>, x: string, n: nat)
    requires Ranked(files, rank) && p in rank
    requires Reaches(files, p, x, n)
    ensures x in AllChildrenIds(files, p, rank)
    decreases n
  {
    var c := ReachesStep(files, p, x, n);
    if c.id == x {
      ChildListed(files, p, rank, c);
    } else {
      AllChildrenIdsComplete(files, c.id, rank, x, n - 1);
      NestedListed(files, p, rank, c, x);
    }
  }

  lemma {:induction false} NestedIdsContain(
    files: seq<FileItem>, folders: seq<FileItem>, p: string, rank: map<string, nat>, c: FileItem, x: string)
    requires Ranked(files, rank) && p in rank
    requires forall d | d in folders :: d in files && d.isFolder && d.parentId == Some(p)
    requires c in folders && x in AllChildrenIds(files, c.id, rank)
    ensures x in NestedIds(files, folders, p, rank)
    decreases |folders|
  {
    if folders[0] != c {
      NestedIdsContain(files, folders[1..], p, rank, c, x);
    }
  }

  /**
   * Rewrites that keep every record's id, parent and folder flag, position
   * by position, keep any rank.
   */
  lemma SameShapeKeepsRanked(files: seq<FileItem>, r: seq<FileItem>, rank: map<string, nat>)
    requires Ranked(files, rank) && |r| == |files|
    requires forall i :: 0 <= i < |r| ==>
      r[i].id == files[i].id && r[i].parentId == files[i].parentId && r[i].isFolder == files[i].isFolder
    ensures Ranked(r, rank)
    ensures RanksEveryFolder(files, rank) ==> RanksEveryFolder(r, rank)
  {
    forall f | f in r && f.isFolder && f.parentId.Some? && f.parentId.value in rank
      ensures f.id in rank && rank[f.id] < rank[f.parentId.value]
    {
      var i :| 0 <= i < |r| && r[i] == f;
      assert files[i] in files;
    }
    forall f | RanksEveryFolder(files, rank) && f in r && f.isFolder ensures f.id in rank {
      var i :| 0 <= i < |r| && r[i] == f;
      assert files[i] in files;
    }
  }

  // ---------------------------------------------------------------------------
  // addFile
  // ---------------------------------------------------------------------------

  /** One field of a spread: the value supplied, or the record's own when the field is left out. */
  predicate Takes<T(==)>(supplied: Option<T>, own: T, result: T) {
    if supplied.Some? then result == supplied.value else result == own
  }

  /** The same for an optional field, where a supplied field is present in the patch. */
  predicate TakesOptional<T(==)>(supplied: Option<T>, own: Option<T>, result: Option<T>) {
    if supplied.Some? then result == supplied else result == own
  }

  /** `r` is `{ ...f, ...patch }`: every field of `r` is the one the patch supplies, or `f`'s own. */
  predicate Spread(f: FileItem, patch: FilePatch, r: FileItem) {
    && Takes(patch.id, f.id, r.id) && Takes(patch.name, f.name, r.name)
    && Takes(patch.mimeType, f.mimeType, r.mimeType) && Takes(patch.size, f.size, r.size)
    && Takes(patch.createdAt, f.createdAt, r.createdAt) && Takes(patch.updatedAt, f.updatedAt, r.updatedAt)
    && Takes(patch.createdBy, f.createdBy, r.createdBy) && Takes(patch.parentId, f.parentId, r.parentId)
    && Takes(patch.isFolder, f.isFolder, r.isFolder) && Takes(patch.starred, f.starred, r.starred)
    && Takes(patch.permissions, f.permissions, r.permissions) && Takes(patch.versions, f.versions, r.versions)
    && Takes(patch.currentVersionId, f.currentVersionId, r.currentVersionId)
    && TakesOptional(patch.shareLink, f.shareLink, r.shareLink)
    && TakesOptional(patch.shareExpiry, f.shareExpiry, r.shareExpiry)
    && TakesOptional(patch.sharePassword, f.sharePassword, r.sharePassword)
    && TakesOptional(patch.previewUrl, f.previewUrl, r.previewUrl)
  }

  /** The patch that supplies no field. */
  const NoChanges: FilePatch :=
    FilePatch(None, None, None, None, None, None, None, None, None, None, None, None, None, None, None, None, None)

  /** `{ ...f, ...patch }`: every field the patch supplies replaces the record's. */
  function ApplyPatch(f: FileItem, patch: FilePatch): (r: FileItem)
    ensures Spread(f, patch, r)
    ensures patch == NoChanges ==> r == f
  {
    FileItem(
      patch.id.GetOr(f.id), patch.name.GetOr(f.name), patch.mimeType.GetOr(f.mimeType), patch.size.GetOr(f.size),
      patch.createdAt.GetOr(f.createdAt), patch.updatedAt.GetOr(f.updatedAt), patch.createdBy.GetOr(f.createdBy),
      patch.parentId.GetOr(f.parentId), patch.isFolder.GetOr(f.isFolder), patch.starred.GetOr(f.starred),
      patch.permissions.GetOr(f.permissions), patch.versions.GetOr(f.versions),
      patch.currentVersionId.GetOr(f.currentVersionId),
      if patch.shareLink.Some? then patch.shareLink else f.shareLink,
      if patch.shareExpiry.Some? then patch.shareExpiry else f.shareExpiry,
      if patch.sharePassword.Some? then patch.sharePassword else f.sharePassword,
      if patch.previewUrl.Some? then patch.previewUrl else f.previewUrl)
  }

  /** The defaults `addFile` writes before spreading the caller's fields over them. */
  function UploadDefaults(content: Option<Content>, folder: Option<string>, newId: string, now: Timestamp): FileItem {
    FileItem(
      newId, "Untitled", "application/octet-stream", if content.Some? then content.value.size else 0,
      now, now, CurrentUserId, folder, false, false, [FilePermission(CurrentUserId, Owner)], [], "",
      None, None, None, None)
  }

  /**
   * The record `addFile` creates. A non-folder uploaded with content gets a
   * first version (and, for an image, a preview URL) after the spread.
   */
  function NewFile(
    patch: FilePatch, content: Option<Content>, folder: Option<string>,
    newId: string, versionId: string, versionUrl: string, imagePreviewUrl: string, now: Timestamp)
    : (r: FileItem)
    ensures r.id == patch.id.GetOr(newId) && r.name == patch.name.GetOr("Untitled")
    ensures r.parentId == patch.parentId.GetOr(folder) && r.isFolder == patch.isFolder.GetOr(false)
    ensures r.permissions == patch.permissions.GetOr([FilePermission(CurrentUserId, Owner)])
    ensures r.size == patch.size.GetOr(if content.Some? then content.value.size else 0)
    ensures !r.isFolder && content.Some? ==>
      && r.versions == [FileVersion(versionId, r.name, content.value.size, content.value.mimeType, now,
                                    CurrentUserId, versionUrl)]
      && r.currentVersionId == versionId
    ensures !(!r.isFolder && content.Some?) ==>
      r.versions == patch.versions.GetOr([]) && r.currentVersionId == patch.currentVersionId.GetOr("")
    ensures r.mimeType == patch.mimeType.GetOr("application/octet-stream")
    ensures r.starred == patch.starred.GetOr(false) && r.createdBy == patch.createdBy.GetOr(CurrentUserId)
    ensures r.createdAt == patch.createdAt.GetOr(now) && r.updatedAt == patch.updatedAt.GetOr(now)
    ensures r.shareLink == patch.shareLink && r.shareExpiry == patch.shareExpiry
    ensures r.sharePassword == patch.sharePassword
    ensures r.previewUrl ==
      if !r.isFolder && content.Some? && Formatters.StartsWith(content.value.mimeType, "image/")
      then Some(imagePreviewUrl) else patch.previewUrl
  {
    var base := ApplyPatch(UploadDefaults(content, folder, newId, now), patch);
    if !base.isFolder && content.Some? then
      var version := FileVersion(versionId, base.name, content.value.size, content.value.mimeType, now,
                                 CurrentUserId, versionUrl);
      base.(versions := [version], currentVersionId := versionId,
            previewUrl := if Formatters.StartsWith(content.value.mimeType, "image/") then Some(imagePreviewUrl)
                          else base.previewUrl)
    else base
  }

  /** `addFile`'s usage update: storage grows by the new size and exactly one counter by one. */
  function CountUpload(u: UsageStats, nf: FileItem, now: Timestamp): (r: UsageStats)
    ensures r.totalStorage == u.totalStorage
    ensures r.usedStorage == u.usedStorage + nf.size
    ensures r.fileCount + r.folderCount == u.fileCount + u.folderCount + 1
    ensures nf.isFolder <==> r.folderCount == u.folderCount + 1
    ensures !nf.isFolder <==> r.fileCount == u.fileCount + 1
    ensures r.recentActivity == [Activity(now, "uploaded", nf.id, nf.name)] + u.recentActivity
  {
    u.(usedStorage := u.usedStorage + nf.size,
       fileCount := if nf.isFolder then u.fileCount else u.fileCount + 1,
       folderCount := if nf.isFolder then u.folderCount + 1 else u.folderCount,
       recentActivity := [Activity(now, "uploaded", nf.id, nf.name)] + u.recentActivity)
  }

  /**
   * Appending a record keeps the folder graph acyclic when, should the new
   * record be a folder, its id is not already a folder's id or any folder's
   * parent and it is not its own parent (a fresh id is all of these).
   */
  lemma AppendKeepsAcyclic(files: seq<FileItem>, nf: FileItem, rank: map<string, nat>)
    requires Ranked(files, rank) && RanksEveryFolder(files, rank)
    requires nf.isFolder ==> nf.parentId != Some(nf.id)
    requires nf.isFolder ==> forall f | f in files && f.isFolder :: f.id != nf.id && f.parentId != Some(nf.id)
    ensures Acyclic(files + [nf])
  {
    if !nf.isFolder {
      assert Ranked(files + [nf], rank) && RanksEveryFolder(files + [nf], rank);
    } else {
      var shifted := map k | k in rank && k != nf.id :: rank[k] + 1;
      var rank' := shifted[nf.id := 0];
      assert Ranked(files + [nf], rank') && RanksEveryFolder(files + [nf], rank');
    }
  }

  // ---------------------------------------------------------------------------
  // updateFile, moveFile, starFile
  // ---------------------------------------------------------------------------

  /**
   * `updateFile`: only records with the id change, length and order stay,
   * and a matched record takes every field the patch supplies and keeps the
   * rest, except that the update time wins over any `updatedAt` supplied.
   */
  function Updated(files: seq<FileItem>, id: string, updates: FilePatch, now: Timestamp): (r: seq<FileItem>)
    ensures |r| == |files|
    ensures forall i :: 0 <= i < |files| && files[i].id != id ==> r[i] == files[i]
    ensures forall i :: 0 <= i < |files| && files[i].id == id ==> Spread(files[i], updates.(updatedAt := Some(now)), r[i])
  {
    UpdateWhere(files, id, (f: FileItem) => Stamped(f, updates, now))
  }

  /** `{ ...file, ...updates, updatedAt: new Date() }`. */
  function Stamped(f: FileItem, updates: FilePatch, now: Timestamp): (r: FileItem)
    ensures Spread(f, updates.(updatedAt := Some(now)), r)
  {
    ApplyPatch(f, updates).(updatedAt := now)
  }

  /** A patch that leaves id, parent and folder flag alone keeps every rank. */
  lemma UpdateKeepsRanked(files: seq<FileItem>, id: string, updates: FilePatch, now: Timestamp, rank: map<string, nat>)
    requires Ranked(files, rank)
    requires updates.id.None? && updates.parentId.None? && updates.isFolder.None?
    ensures Ranked(Updated(files, id, updates, now), rank)
    ensures RanksEveryFolder(files, rank) ==> RanksEveryFolder(Updated(files, id, updates, now), rank)
  {
    var r := Updated(files, id, updates, now);
    forall i | 0 <= i < |r|
      ensures r[i].id == files[i].id && r[i].parentId == files[i].parentId && r[i].isFolder == files[i].isFolder
    {
      if files[i].id == id {
        assert r[i] == Stamped(files[i], updates, now);
      }
    }
    SameShapeKeepsRanked(files, r, rank);
  }

  /** `moveFile`: every record with that id gets the new parent and update time. */
  function Moved(files: seq<FileItem>, id: string, newParent: Option<string>, now: Timestamp): (r: seq<FileItem>)
    ensures |r| == |files|
    ensures forall i :: 0 <= i < |files| && files[i].id != id ==> r[i] == files[i]
    ensures forall i :: 0 <= i < |files| && files[i].id == id ==>
      r[i].(parentId := files[i].parentId, updatedAt := files[i].updatedAt) == files[i]
      && r[i].parentId == newParent && r[i].updatedAt == now
  {
    UpdateWhere(files, id, (f: FileItem) => f.(parentId := newParent, updatedAt := now))
  }

  /** The `'moved'` activity: the first match's name, or `'Unknown'` when absent or empty. */
  function MoveActivity(files: seq<FileItem>, id: string, now: Timestamp): (a: Activity)
    ensures a.action == "moved" && a.fileId == id && a.date == now
    ensures FindFile(files, id).None? ==> a.fileName == "Unknown"
    ensures FindFile(files, id).Some? && FindFile(files, id).value.name != "" ==>
      a.fileName == FindFile(files, id).value.name
    ensures FindFile(files, id).Some? && FindFile(files, id).value.name == "" ==> a.fileName == "Unknown"
    ensures a.fileName != ""
  {
    var found := FindFile(files, id);
    Activity(now, "moved", id, if found.Some? && found.value.name != "" then found.value.name else "Unknown")
  }

  /**
   * Moving to the root, or a folder under a folder ranked above it, keeps
   * the rank; every folder stays ranked.
   */
  lemma MoveKeepsRanked(files: seq<FileItem>, id: string, newParent: Option<string>, now: Timestamp,
                        rank: map<string, nat>)
    requires Ranked(files, rank)
    requires ((exists i :: 0 <= i < |files| && files[i].id == id && files[i].isFolder)
              && newParent.Some? && newParent.value in rank) ==> id in rank && rank[id] < rank[newParent.value]
    ensures Ranked(Moved(files, id, newParent, now), rank)
    ensures RanksEveryFolder(files, rank) ==> RanksEveryFolder(Moved(files, id, newParent, now), rank)
  {
    var r := Moved(files, id, newParent, now);
    forall f | f in r && f.isFolder && f.parentId.Some? && f.parentId.value in rank
      ensures f.id in rank && rank[f.id] < rank[f.parentId.value]
    {
      var i :| 0 <= i < |r| && r[i] == f;
      assert files[i] in files;
    }
    forall f | RanksEveryFolder(files, rank) && f in r && f.isFolder ensures f.id in rank {
      var i :| 0 <= i < |r| && r[i] == f;
      assert files[i] in files;
    }
  }

  /**
   * `moveFile` has no cycle check: a folder moved under itself can be in no
   * rank, so the graph is no longer acyclic.
   */
  lemma MoveIntoItselfIsCyclic(files: seq<FileItem>, id: string, now: Timestamp)
    requires exists i :: 0 <= i < |files| && files[i].id == id && files[i].isFolder
    ensures forall rank :: Ranked(Moved(files, id, Some(id), now), rank) ==> id !in rank
    ensures !Acyclic(Moved(files, id, Some(id), now))
  {
    var i :| 0 <= i < |files| && files[i].id == id && files[i].isFolder;
    var r := Moved(files, id, Some(id), now);
    assert r[i] in r && r[i].isFolder && r[i].id == id && r[i].parentId == Some(id);
  }

  /** `starFile`: every record with that id gets the flag. */
  function Starred(files: seq<FileItem>, id: string, starred: bool): (r: seq<FileItem>)
    ensures |r| == |files|
    ensures forall i :: 0 <= i < |files| ==> r[i].(starred := files[i].starred) == files[i]
    ensures forall i :: 0 <= i < |files| ==> r[i].starred == if files[i].id == id then starred else files[i].starred
  {
    UpdateWhere(files, id, (f: FileItem) => f.(starred := starred))
  }

  /** Starring changes no id, parent or folder flag, so it keeps every rank. */
  lemma StarKeepsRanked(files: seq<FileItem>, id: string, starred: bool, rank: map<string, nat>)
    requires Ranked(files, rank)
    ensures Ranked(Starred(files, id, starred), rank)
    ensures RanksEveryFolder(files, rank) ==> RanksEveryFolder(Starred(files, id, starred), rank)
  {
    SameShapeKeepsRanked(files, Starred(files, id, starred), rank);
  }

  // ---------------------------------------------------------------------------
  // deleteFile
  // ---------------------------------------------------------------------------

  /**
   * What `deleteFile` needs to stop: the item is a record with the id and,
   * when it is a folder, the rank covers it. Nothing is asked of folders the
   * item does not contain, nor of anything when the item is a file.
   */
  ghost predicate Deletable(files: seq<FileItem>, id: string, top: FileItem, rank: map<string, nat>) {
    top in files && top.id == id && (top.isFolder ==> Ranked(files, rank) && id in rank)
  }

  /** `idsToDelete`: the item itself and, for a folder, everything below it. */
  function DoomedIds(files: seq<FileItem>, id: string, top: FileItem, ghost rank: map<string, nat>)
    : (r: seq<string>)
    requires Deletable(files, id, top, rank)
    ensures |r| >= 1 && r[0] == id
    ensures !top.isFolder ==> r == [id]
  {
    if top.isFolder then [id] + AllChildrenIds(files, id, rank) else [id]
  }

  /** What `deleteFile` removes: the item, and for a folder every record below it through folders. */
  lemma DoomedIdsIff(files: seq<FileItem>, id: string, top: FileItem, rank: map<string, nat>, x: string)
    requires Deletable(files, id, top, rank)
    ensures x in DoomedIds(files, id, top, rank) <==> x == id || (top.isFolder && exists n :: Reaches(files, id, x, n))
  {
    if top.isFolder {
      if x in AllChildrenIds(files, id, rank) {
        AllChildrenIdsSound(files, id, rank, x);
      }
      if exists n :: Reaches(files, id, x, n) {
        var n :| Reaches(files, id, x, n);
        AllChildrenIdsComplete(files, id, rank, x, n);
      }
    }
  }

  /** `files.filter(file => !idsToDelete.includes(file.id))`. */
  function Surviving(files: seq<FileItem>, doomed: seq<string>): (r: seq<FileItem>)
    ensures forall f :: f in r <==> f in files && f.id !in doomed
    ensures forall f :: multiset(r)[f] == if f.id !in doomed then multiset(files)[f] else 0
    ensures Sublist(r, files)
  {
    Filter(files, (f: FileItem) => f.id !in doomed)
  }

  /** `selectedFiles.filter(fileId => !idsToDelete.includes(fileId))`. */
  function Unselected(selected: seq<string>, doomed: seq<string>): (r: seq<string>)
    ensures forall s :: s in r <==> s in selected && s !in doomed
    ensures forall s :: s !in doomed ==> multiset(r)[s] == multiset(selected)[s]
    ensures Sublist(r, selected)
  {
    Filter(selected, (s: string) => s !in doomed)
  }

  /** `files.find(f => f.id === id)?.isFolder`, read as a boolean. */
  predicate IsFolderId(files: seq<FileItem>, id: string) {
    var found := FindFile(files, id);
    found.Some? && found.value.isFolder
  }

  /** The entries of `idsToDelete` counted as folders. */
  function FolderEntries(files: seq<FileItem>, doomed: seq<string>): seq<string> {
    Filter(doomed, (x: string) => IsFolderId(files, x))
  }

  /** The entries of `idsToDelete` counted as files (an id no record has counts as a file). */
  function FileEntries(files: seq<FileItem>, doomed: seq<string>): seq<string> {
    Filter(doomed, (x: string) => !IsFolderId(files, x))
  }

  /** `deleteFile`'s usage update: only the top item's size is given back. */
  function CountDelete(u: UsageStats, files: seq<FileItem>, top: FileItem, doomed: seq<string>, now: Timestamp)
    : (r: UsageStats)
    ensures r.totalStorage == u.totalStorage
    ensures r.usedStorage == u.usedStorage - top.size
    ensures r.recentActivity == [Activity(now, "deleted", top.id, top.name)] + u.recentActivity
    ensures !top.isFolder ==> r.fileCount == u.fileCount - 1 && r.folderCount == u.folderCount
  {
    u.(usedStorage := u.usedStorage - top.size,
       fileCount := if top.isFolder then u.fileCount - |FileEntries(files, doomed)| else u.fileCount - 1,
       folderCount := if top.isFolder then u.folderCount - |FolderEntries(files, doomed)| else u.folderCount,
       recentActivity := [Activity(now, "deleted", top.id, top.name)] + u.recentActivity)
  }

  /**
   * The records left after deleting `id`: exactly those that are neither
   * the item nor, for a folder, below it; in their old order and as often
   * as before.
   */
  lemma DeleteLeavesExactly(files: seq<FileItem>, id: string, top: FileItem, rank: map<string, nat>, f: FileItem)
    requires Deletable(files, id, top, rank)
    ensures var r := Surviving(files, DoomedIds(files, id, top, rank));
      var kept := f.id != id && !(top.isFolder && exists n :: Reaches(files, id, f.id, n));
      && Sublist(r, files)
      && (f in r <==> f in files && kept)
      && multiset(r)[f] == if kept then multiset(files)[f] else 0
  {
    DoomedIdsIff(files, id, top, rank, f.id);
  }

  /** Removing records never creates a cycle, and leaves every remaining folder ranked. */
  lemma DeleteKeepsRanked(files: seq<FileItem>, doomed: seq<string>, rank: map<string, nat>)
    requires Ranked(files, rank)
    ensures Ranked(Surviving(files, doomed), rank)
    ensures RanksEveryFolder(files, rank) ==> RanksEveryFolder(Surviving(files, doomed), rank)
  {
  }

  /** An acyclic folder graph stays acyclic when records are removed. */
  lemma DeleteKeepsAcyclic(files: seq<FileItem>, doomed: seq<string>)
    requires Acyclic(files)
    ensures Acyclic(Surviving(files, doomed))
  {
    var rank :| Ranked(files, rank) && RanksEveryFolder(files, rank);
    DeleteKeepsRanked(files, doomed, rank);
  }

  /** Both of the above, for any starting graph. */
  lemma DeleteKeepsGraph(files: seq<FileItem>, doomed: seq<string>, rank: map<string, nat>)
    ensures Ranked(files, rank) ==> Ranked(Surviving(files, doomed), rank)
    ensures Acyclic(files) ==> Acyclic(Surviving(files, doomed))
  {
    if Ranked(files, rank) {
      DeleteKeepsRanked(files, doomed, rank);
    }
    if Acyclic(files) {
      DeleteKeepsAcyclic(files, doomed);
    }
  }

  // ---------------------------------------------------------------------------
  // deleteFile: the counters against the records removed
  // ---------------------------------------------------------------------------

  /** A folder record whose id is listed. */
  function DeletesFolder(doomed: seq<string>): FileItem -> bool {
    (f: FileItem) => f.isFolder && f.id in doomed
  }

  /** A non-folder record whose id is listed. */
  function DeletesFile(doomed: seq<string>): FileItem -> bool {
    (f: FileItem) => !f.isFolder && f.id in doomed
  }

  /** The deleted folder records: what `folderCount` is meant to lose. */
  function DeletedFolders(files: seq<FileItem>, doomed: seq<string>): (r: seq<FileItem>)
    ensures forall f :: f in r <==> f in files && f.isFolder && f.id in doomed
    ensures forall f :: multiset(r)[f] == if f.isFolder && f.id in doomed then multiset(files)[f] else 0
  {
    Filter(files, DeletesFolder(doomed))
  }

  /** The other deleted records: what `fileCount` is meant to lose. */
  function DeletedFiles(files: seq<FileItem>, doomed: seq<string>): (r: seq<FileItem>)
    ensures forall f :: f in r <==> f in files && !f.isFolder && f.id in doomed
    ensures forall f :: multiset(r)[f] == if !f.isFolder && f.id in doomed then multiset(files)[f] else 0
  {
    Filter(files, DeletesFile(doomed))
  }

  /** Every record is deleted as a folder, deleted as a file, or kept. */
  lemma {:induction false} DeletePartition(files: seq<FileItem>, doomed: seq<string>)
    ensures |DeletedFolders(files, doomed)| + |DeletedFiles(files, doomed)| + |Surviving(files, doomed)| == |files|
  {
    if files != [] {
      DeletePartition(files[1..], doomed);
    }
  }

  /**
   * Under unique ids, a record below `c` has a parent: `c` itself, or a
   * folder `d` that lies below `c` one step sooner.
   */
  lemma {:induction false} ReachesParent(files: seq<FileItem>, c: string, g: FileItem, n: nat)
    returns (d: FileItem)
    requires UniqueIds(files) && g in files && Reaches(files, c, g.id, n)
    ensures g.parentId.Some?
    ensures g.parentId != Some(c) ==>
      n > 0 && d in files && d.isFolder && g.parentId == Some(d.id) && Reaches(files, c, d.id, n - 1)
    decreases n
  {
    var e := ReachesStep(files, c, g.id, n);
    if e.id == g.id {
      SameIdSameRecord(files, g, e);
      d := g;
    } else {
      var above := ReachesParent(files, e.id, g, n - 1);
      if g.parentId == Some(e.id) {
        ReachesChild(files, c, e, n - 1);
        d := e;
      } else {
        ReachesThrough(files, c, e, above.id, n - 2);
        d := above;
      }
    }
  }

  /** Whatever lies below `p` is the id of a record with a parent. */
  lemma ReachesNamesRecord(files: seq<FileItem>, p: string, x: string, n: nat)
    requires Reaches(files, p, x, n)
    ensures exists g :: g in files && g.id == x && g.parentId.Some?
    decreases n
  {
    var c := ReachesStep(files, p, x, n);
    if c.id != x {
      ReachesNamesRecord(files, c.id, x, n - 1);
    }
  }

  /** Under unique ids, a folder below a ranked `c` is ranked lower than `c`. */
  lemma {:induction false} RanksBelow(files: seq<FileItem>, rank: map<string, nat>, c: string, d: FileItem, n: nat)
    requires Ranked(files, rank) && c in rank && UniqueIds(files)
    requires d in files && d.isFolder && Reaches(files, c, d.id, n)
    ensures d.id in rank && rank[d.id] < rank[c]
    decreases n
  {
    var e := ReachesStep(files, c, d.id, n);
    if e.id == d.id {
      SameIdSameRecord(files, d, e);
    } else {
      RanksBelow(files, rank, e.id, d, n - 1);
    }
  }

  /** Nothing whose parent is a ranked `p` lies below a folder child of `p`. */
  lemma NotBelowChild(files: seq<FileItem>, rank: map<string, nat>, p: string, c: FileItem, g: FileItem, n: nat)
    requires Ranked(files, rank) && p in rank && UniqueIds(files)
    requires c in files && c.isFolder && c.parentId == Some(p)
    requires g in files && g.parentId == Some(p)
    ensures !Reaches(files, c.id, g.id, n)
  {
    if Reaches(files, c.id, g.id, n) {
      var d := ReachesParent(files, c.id, g, n);
      if g.parentId != Some(c.id) {
        RanksBelow(files, rank, c.id, d, n - 1);
      }
    }
  }

  /** Nothing lies below two different folder children of a ranked `p`. */
  lemma {:induction false} NotBelowBoth(files: seq<FileItem>, rank: map<string, nat>, p: string,
                                        c1: FileItem, c2: FileItem, g: FileItem, n1: nat, n2: nat)
    requires Ranked(files, rank) && p in rank && UniqueIds(files)
    requires c1 in files && c1.isFolder && c1.parentId == Some(p)
    requires c2 in files && c2.isFolder && c2.parentId == Some(p)
    requires c1.id != c2.id && g in files
    ensures !(Reaches(files, c1.id, g.id, n1) && Reaches(files, c2.id, g.id, n2))
    decreases n1 + n2
  {
    if Reaches(files, c1.id, g.id, n1) && Reaches(files, c2.id, g.id, n2) {
      var d1 := ReachesParent(files, c1.id, g, n1);
      var d2 := ReachesParent(files, c2.id, g, n2);
      if g.parentId == Some(c1.id) {
        NotBelowChild(files, rank, p, c2, c1, n2 - 1);
      } else if g.parentId == Some(c2.id) {
        NotBelowChild(files, rank, p, c1, c2, n1 - 1);
      } else {
        NotBelowBoth(files, rank, p, c1, c2, d1, n1 - 1, n2 - 1);
      }
    }
  }

  /** Under unique ids, the folder children of `p` have unique ids. */
  lemma FolderChildrenUnique(files: seq<FileItem>, p: string)
    requires UniqueIds(files)
    ensures UniqueIds(FolderChildrenOf(files, p))
  {
    var children := ChildrenOf(files, p);
    IdsOfSublist(children, files);
    SublistDistinct(Ids(children), Ids(files));
    IdsOfSublist(FolderChildrenOf(files, p), children);
    SublistDistinct(Ids(FolderChildrenOf(files, p)), Ids(children));
  }

  /** An id the `flatMap` lists comes from one of the folders. */
  lemma {:induction false} NestedIdsFrom(files: seq<FileItem>, folders: seq<FileItem>, p: string,
                                         rank: map<string, nat>, x: string)
    returns (c: FileItem, k: nat)
    requires Ranked(files, rank) && p in rank
    requires forall d | d in folders :: d in files && d.isFolder && d.parentId == Some(p)
    requires x in NestedIds(files, folders, p, rank)
    ensures k < |folders| && folders[k] == c
    ensures c in folders && c.id in rank && x in AllChildrenIds(files, c.id, rank)
    decreases |folders|
  {
    assert folders[0] in folders;
    if x in AllChildrenIds(files, folders[0].id, rank) {
      c, k := folders[0], 0;
    } else {
      c, k := NestedIdsFrom(files, folders[1..], p, rank, x);
      k := k + 1;
    }
  }

  /** Under unique ids, `getAllChildrenIds` lists no id twice. */
  lemma {:induction false} AllChildrenIdsDistinct(files: seq<FileItem>, p: string, rank: map<string, nat>)
    requires Ranked(files, rank) && p in rank && UniqueIds(files)
    ensures Distinct(AllChildrenIds(files, p, rank))
    decreases rank[p], 1
  {
    var children := ChildrenOf(files, p);
    var folders := FolderChildrenOf(files, p);
    var nested := NestedIds(files, folders, p, rank);
    IdsOfSublist(children, files);
    SublistDistinct(Ids(children), Ids(files));
    FolderChildrenUnique(files, p);
    NestedIdsDistinct(files, folders, p, rank);
    forall x | x in Ids(children) ensures x !in nested {
      var j :| 0 <= j < |children| && Ids(children)[j] == x;
      assert children[j] in children;
      ChildNotNested(files, p, rank, children[j]);
    }
    DistinctConcat(Ids(children), nested);
  }

  /** A child of `p` lies below no folder child of `p`, so the `flatMap` does not list it again. */
  lemma ChildNotNested(files: seq<FileItem>, p: string, rank: map<string, nat>, g: FileItem)
    requires Ranked(files, rank) && p in rank && UniqueIds(files)
    requires g in files && g.parentId == Some(p)
    ensures g.id !in NestedIds(files, FolderChildrenOf(files, p), p, rank)
  {
    if g.id in NestedIds(files, FolderChildrenOf(files, p), p, rank) {
      var c, _ := NestedIdsFrom(files, FolderChildrenOf(files, p), p, rank, g.id);
      AllChildrenIdsSound(files, c.id, rank, g.id);
      var n :| Reaches(files, c.id, g.id, n);
      NotBelowChild(files, rank, p, c, g, n);
    }
  }

  /** What lies below the first folder lies below none of the others. */
  lemma NotNestedTwice(files: seq<FileItem>, folders: seq<FileItem>, p: string, rank: map<string, nat>, x: string)
    requires Ranked(files, rank) && p in rank && UniqueIds(files)
    requires forall c | c in folders :: c in files && c.isFolder && c.parentId == Some(p)
    requires folders != [] && UniqueIds(folders) && folders[0].id in rank
    requires x in AllChildrenIds(files, folders[0].id, rank)
    ensures x !in NestedIds(files, folders[1..], p, rank)
  {
    var rest := folders[1..];
    assert forall d | d in rest :: d in folders;
    if x in NestedIds(files, rest, p, rank) {
      var c2, k := NestedIdsFrom(files, rest, p, rank, x);
      FirstIdNotLater(folders, k + 1);
      assert folders[0] in folders && folders[k + 1] in folders;
      ListedUnderOne(files, rank, p, folders[0], folders[k + 1], x);
    }
  }

  /** Under unique ids, no later record shares the first one's id. */
  lemma FirstIdNotLater(folders: seq<FileItem>, k: nat)
    requires UniqueIds(folders) && 0 < k < |folders|
    ensures folders[0].id != folders[k].id
  {
    assert Ids(folders)[0] == folders[0].id && Ids(folders)[k] == folders[k].id;
  }

  /** What `getAllChildrenIds` lists for one folder child of `p`, it lists for no other. */
  lemma ListedUnderOne(files: seq<FileItem>, rank: map<string, nat>, p: string, c1: FileItem, c2: FileItem, x: string)
    requires Ranked(files, rank) && p in rank && UniqueIds(files)
    requires c1 in files && c1.isFolder && c1.parentId == Some(p) && c1.id in rank
    requires c2 in files && c2.isFolder && c2.parentId == Some(p) && c2.id in rank
    requires c1.id != c2.id && x in AllChildrenIds(files, c1.id, rank)
    ensures x !in AllChildrenIds(files, c2.id, rank)
  {
    AllChildrenIdsSound(files, c1.id, rank, x);
    var n1 :| Reaches(files, c1.id, x, n1);
    ReachesNamesRecord(files, c1.id, x, n1);
    var g :| g in files && g.id == x && g.parentId.Some?;
    if x in AllChildrenIds(files, c2.id, rank) {
      AllChildrenIdsSound(files, c2.id, rank, x);
      var n2 :| Reaches(files, c2.id, x, n2);
      NotBelowBoth(files, rank, p, c1, c2, g, n1, n2);
    }
  }

  /** Dropping the first record keeps ids unique. */
  lemma UniqueIdsTail(fs: seq<FileItem>)
    requires fs != [] && UniqueIds(fs)
    ensures UniqueIds(fs[1..])
  {
    DistinctTail(Ids(fs));
    assert Ids(fs)[1..] == Ids(fs[1..]);
  }

  lemma {:induction false} NestedIdsDistinct(files: seq<FileItem>, folders: seq<FileItem>, p: string,
                                             rank: map<string, nat>)
    requires Ranked(files, rank) && p in rank && UniqueIds(files)
    requires forall c | c in folders :: c in files && c.isFolder && c.parentId == Some(p)
    requires UniqueIds(folders)
    ensures Distinct(NestedIds(files, folders, p, rank))
    decreases rank[p], 0, |folders|
  {
    if folders != [] {
      var c := folders[0];
      var rest := folders[1..];
      assert c in folders;
      UniqueIdsTail(folders);
      var mine := AllChildrenIds(files, c.id, rank);
      var others := NestedIds(files, rest, p, rank);
      AllChildrenIdsDistinct(files, c.id, rank);
      NestedIdsDistinct(files, rest, p, rank);
      forall x | x in mine ensures x !in others {
        NotNestedTwice(files, folders, p, rank, x);
      }
      DistinctConcat(mine, others);
    }
  }

  /** Under unique ids, `idsToDelete` lists no id twice, and every entry names a record. */
  lemma DoomedIdsDistinct(files: seq<FileItem>, id: string, top: FileItem, rank: map<string, nat>)
    requires Deletable(files, id, top, rank) && UniqueIds(files)
    ensures Distinct(DoomedIds(files, id, top, rank))
    ensures forall x | x in DoomedIds(files, id, top, rank) :: exists f :: f in files && f.id == x
  {
    if top.isFolder {
      var below := AllChildrenIds(files, id, rank);
      AllChildrenIdsDistinct(files, id, rank);
      if id in below {
        AllChildrenIdsSound(files, id, rank, id);
        var n :| Reaches(files, id, id, n);
        RanksBelow(files, rank, id, top, n);
      }
      DistinctConcat([id], below);
      forall x | x in DoomedIds(files, id, top, rank) ensures exists f :: f in files && f.id == x {
        if x != id {
          AllChildrenIdsSound(files, id, rank, x);
          var n :| Reaches(files, id, x, n);
          ReachesNamesRecord(files, id, x, n);
        }
      }
    }
  }

  /** Under unique ids no record occurs twice. */
  lemma RecordsDistinct(files: seq<FileItem>)
    requires UniqueIds(files)
    ensures Distinct(files)
  {
    forall i, j | 0 <= i < j < |files| ensures files[i] != files[j] {
      assert Ids(files)[i] != Ids(files)[j];
    }
  }

  /** No ids, no records deleted. */
  lemma NothingDeleted(files: seq<FileItem>)
    ensures |DeletedFolders(files, [])| == 0 && |DeletedFiles(files, [])| == 0
  {
    assert multiset(DeletedFolders(files, [])) == multiset{};
    assert multiset(DeletedFiles(files, [])) == multiset{};
  }

  /** Under unique ids, the only record of `files` with `g`'s id is `g`, and it occurs once. */
  lemma OnlyRecord(files: seq<FileItem>, g: FileItem)
    requires UniqueIds(files) && g in files
    ensures multiset(files)[g] == 1
    ensures forall f | f in files && f.id == g.id :: f == g
  {
    RecordsDistinct(files);
    DistinctOnce(files, g);
    forall f | f in files && f.id == g.id ensures f == g {
      SameIdSameRecord(files, f, g);
    }
  }

  /** One more id, naming record `g`, deletes one more folder record exactly when `g` is a folder. */
  lemma OneMoreFolder(files: seq<FileItem>, doomed: seq<string>, g: FileItem)
    requires UniqueIds(files) && g in files && doomed != [] && doomed[0] == g.id && g.id !in doomed[1..]
    ensures |DeletedFolders(files, doomed)| == |DeletedFolders(files, doomed[1..])| + (if g.isFolder then 1 else 0)
  {
    OnlyRecord(files, g);
    var rest := doomed[1..];
    assert doomed == [g.id] + rest;
    if g.isFolder {
      FilterOneMore(files, DeletesFolder(doomed), DeletesFolder(rest), g);
    } else {
      FilterAgree(files, DeletesFolder(doomed), DeletesFolder(rest));
    }
  }

  /** One more id, naming record `g`, deletes one more other record exactly when `g` is no folder. */
  lemma OneMoreFile(files: seq<FileItem>, doomed: seq<string>, g: FileItem)
    requires UniqueIds(files) && g in files && doomed != [] && doomed[0] == g.id && g.id !in doomed[1..]
    ensures |DeletedFiles(files, doomed)| == |DeletedFiles(files, doomed[1..])| + (if g.isFolder then 0 else 1)
  {
    OnlyRecord(files, g);
    var rest := doomed[1..];
    assert doomed == [g.id] + rest;
    if g.isFolder {
      FilterAgree(files, DeletesFile(doomed), DeletesFile(rest));
    } else {
      FilterOneMore(files, DeletesFile(doomed), DeletesFile(rest), g);
    }
  }

  /** One more id, naming a record, is one more entry and one more record of the same kind. */
  lemma EntriesCountStep(files: seq<FileItem>, doomed: seq<string>, g: FileItem)
    requires UniqueIds(files) && g in files && doomed != [] && doomed[0] == g.id && g.id !in doomed[1..]
    ensures |FolderEntries(files, doomed)| - |DeletedFolders(files, doomed)|
         == |FolderEntries(files, doomed[1..])| - |DeletedFolders(files, doomed[1..])|
    ensures |FileEntries(files, doomed)| - |DeletedFiles(files, doomed)|
         == |FileEntries(files, doomed[1..])| - |DeletedFiles(files, doomed[1..])|
  {
    SameIdSameRecord(files, FindFile(files, g.id).value, g);
    assert IsFolderId(files, g.id) == g.isFolder;
    EntriesStep(files, doomed);
    OneMoreFolder(files, doomed, g);
    OneMoreFile(files, doomed, g);
  }

  /** Each entry of `idsToDelete` is counted as a folder or as a file, one at a time. */
  lemma EntriesStep(files: seq<FileItem>, doomed: seq<string>)
    requires doomed != []
    ensures |FolderEntries(files, doomed)|
         == |FolderEntries(files, doomed[1..])| + (if IsFolderId(files, doomed[0]) then 1 else 0)
    ensures |FileEntries(files, doomed)|
         == |FileEntries(files, doomed[1..])| + (if IsFolderId(files, doomed[0]) then 0 else 1)
  {
  }

  /**
   * Counting entries of a list of distinct ids, each naming a record, counts
   * records: as many folder entries as deleted folder records, and as many
   * file entries as deleted other records.
   */
  lemma {:induction false} EntriesCountRecords(files: seq<FileItem>, doomed: seq<string>)
    requires UniqueIds(files) && Distinct(doomed)
    requires forall x | x in doomed :: exists f :: f in files && f.id == x
    ensures |FolderEntries(files, doomed)| == |DeletedFolders(files, doomed)|
    ensures |FileEntries(files, doomed)| == |DeletedFiles(files, doomed)|
    decreases |doomed|
  {
    if doomed == [] {
      NothingDeleted(files);
    } else {
      var rest := doomed[1..];
      DistinctTail(doomed);
      assert forall x | x in rest :: x in doomed;
      EntriesCountRecords(files, rest);
      assert doomed[0] in doomed;
      var g :| g in files && g.id == doomed[0];
      EntriesCountStep(files, doomed, g);
    }
  }

  /**
   * With unique ids, deleting a folder lowers `folderCount` by the number of
   * folder records removed and `fileCount` by the number of other records
   * removed; together the two drop by one per entry of `idsToDelete`.
   */
  lemma DeleteCountsRecords(u: UsageStats, files: seq<FileItem>, id: string, top: FileItem, rank: map<string, nat>,
                            now: Timestamp)
    requires Deletable(files, id, top, rank) && top.isFolder && UniqueIds(files)
    ensures var doomed := DoomedIds(files, id, top, rank);
      var r := CountDelete(u, files, top, doomed, now);
      && r.folderCount == u.folderCount - |DeletedFolders(files, doomed)|
      && r.fileCount == u.fileCount - |DeletedFiles(files, doomed)|
      && r.fileCount + r.folderCount == u.fileCount + u.folderCount - |doomed|
  {
    var doomed := DoomedIds(files, id, top, rank);
    DoomedIdsDistinct(files, id, top, rank);
    EntriesCountRecords(files, doomed);
    FilterPartition(doomed, (x: string) => IsFolderId(files, x), (x: string) => !IsFolderId(files, x));
  }

  // ---------------------------------------------------------------------------
  // addFileVersion
  // ---------------------------------------------------------------------------

  /** `r` is `{ ...v, ...patch }`: every field of `r` is the one the patch supplies, or `v`'s own. */
  predicate VersionSpread(v: FileVersion, patch: VersionPatch, r: FileVersion) {
    && Takes(patch.id, v.id, r.id) && Takes(patch.name, v.name, r.name) && Takes(patch.size, v.size, r.size)
    && Takes(patch.mimeType, v.mimeType, r.mimeType) && Takes(patch.createdAt, v.createdAt, r.createdAt)
    && Takes(patch.createdBy, v.createdBy, r.createdBy) && Takes(patch.url, v.url, r.url)
  }

  /** `{ ...v, ...patch }` for versions. */
  function ApplyVersionPatch(v: FileVersion, patch: VersionPatch): (r: FileVersion)
    ensures VersionSpread(v, patch, r)
  {
    FileVersion(
      patch.id.GetOr(v.id), patch.name.GetOr(v.name), patch.size.GetOr(v.size), patch.mimeType.GetOr(v.mimeType),
      patch.createdAt.GetOr(v.createdAt), patch.createdBy.GetOr(v.createdBy), patch.url.GetOr(v.url))
  }

  /** The version `addFileVersion` builds: the content's size and type, the file's name, then the caller's fields. */
  function NewVersion(file: FileItem, patch: VersionPatch, content: Content, versionId: string, url: string,
                      now: Timestamp): (v: FileVersion)
    ensures v.id == patch.id.GetOr(versionId) && v.name == patch.name.GetOr(file.name)
    ensures v.size == patch.size.GetOr(content.size) && v.mimeType == patch.mimeType.GetOr(content.mimeType)
    ensures v.createdAt == patch.createdAt.GetOr(now) && v.createdBy == patch.createdBy.GetOr(CurrentUserId)
    ensures v.url == patch.url.GetOr(url)
  {
    ApplyVersionPatch(FileVersion(versionId, file.name, content.size, content.mimeType, now, CurrentUserId, url), patch)
  }

  /** The records after `addFileVersion`: each record with the id gets the version appended and made current. */
  function WithVersion(files: seq<FileItem>, fileId: string, v: FileVersion, content: Content, imageUrl: string,
                       now: Timestamp): (r: seq<FileItem>)
    ensures |r| == |files|
    ensures forall i :: 0 <= i < |files| && files[i].id != fileId ==> r[i] == files[i]
    ensures forall i :: 0 <= i < |files| && files[i].id == fileId ==>
      r[i] == files[i].(versions := files[i].versions + [v], currentVersionId := v.id, size := v.size,
                        updatedAt := now,
                        previewUrl := if Formatters.StartsWith(content.mimeType, "image/") then Some(imageUrl)
                                      else files[i].previewUrl)
  {
    UpdateWhere(files, fileId, (f: FileItem) =>
      f.(versions := f.versions + [v], currentVersionId := v.id, size := v.size, updatedAt := now,
         previewUrl := if Formatters.StartsWith(content.mimeType, "image/") then Some(imageUrl) else f.previewUrl))
  }

  /** A new version changes no id, parent or folder flag, so it keeps every rank. */
  lemma VersionKeepsRanked(files: seq<FileItem>, fileId: string, v: FileVersion, content: Content, imageUrl: string,
                           now: Timestamp, rank: map<string, nat>)
    requires Ranked(files, rank)
    ensures Ranked(WithVersion(files, fileId, v, content, imageUrl, now), rank)
    ensures RanksEveryFolder(files, rank) ==> RanksEveryFolder(WithVersion(files, fileId, v, content, imageUrl, now), rank)
  {
    SameShapeKeepsRanked(files, WithVersion(files, fileId, v, content, imageUrl, now), rank);
  }

  /** The `'upload'` notification `addFileVersion` prepends. */
  function UploadNotice(file: FileItem, fileId: string, noticeId: string, now: Timestamp): (n: Notification)
    ensures !n.read && n.kind == UploadNote && n.fileId == Some(fileId) && n.userId == CurrentUserId
    ensures n.id == noticeId && n.createdAt == now
    ensures n.message == "You uploaded a new version of \"" + file.name + "\""
  {
    Notification(noticeId, CurrentUserId, "You uploaded a new version of \"" + file.name + "\"", false, now,
                 Some(fileId), UploadNote)
  }

  /** `addFileVersion`'s usage update: the new version's size is added on top of what was counted. */
  function CountVersion(u: UsageStats, file: FileItem, fileId: string, v: FileVersion, now: Timestamp): (r: UsageStats)
    ensures r.usedStorage == u.usedStorage + v.size
    ensures r.fileCount == u.fileCount && r.folderCount == u.folderCount && r.totalStorage == u.totalStorage
    ensures r.recentActivity == [Activity(now, "updated", fileId, file.name)] + u.recentActivity
  {
    u.(usedStorage := u.usedStorage + v.size,
       recentActivity := [Activity(now, "updated", fileId, file.name)] + u.recentActivity)
  }

  // ---------------------------------------------------------------------------
  // shareFile and generateShareLink
  // ---------------------------------------------------------------------------

  /** `` `https://secureshare.app/s/${uuid.slice(0, 8)}` ``. */
  function LinkFor(token: string): (link: string)
    ensures |link| > 0
  {
    "https://secureshare.app/s/" + (if |token| <= 8 then token else token[..8])
  }

  /** `file.shareLink` is truthy: present and not the empty string. */
  predicate HasLink(f: FileItem) {
    f.shareLink.Some? && f.shareLink.value != ""
  }

  /** The permission rewrite of `shareFile`: every record with the id gets the list. */
  function WithPermissions(files: seq<FileItem>, id: string, permissions: seq<FilePermission>): (r: seq<FileItem>)
    ensures |r| == |files|
    ensures forall i :: 0 <= i < |files| ==> r[i].id == files[i].id && r[i].shareLink == files[i].shareLink
    ensures forall i :: 0 <= i < |files| ==> r[i] == if files[i].id == id then files[i].(permissions := permissions) else files[i]
  {
    UpdateWhere(files, id, (f: FileItem) => f.(permissions := permissions))
  }

  /** The link rewrite of `shareFile`: every record with the id gets the link. */
  function WithLink(files: seq<FileItem>, id: string, link: string): (r: seq<FileItem>)
    ensures |r| == |files|
    ensures forall i :: 0 <= i < |files| ==> r[i].id == files[i].id && r[i].permissions == files[i].permissions
    ensures forall i :: 0 <= i < |files| ==> r[i] == if files[i].id == id then files[i].(shareLink := Some(link)) else files[i]
  {
    UpdateWhere(files, id, (f: FileItem) => f.(shareLink := Some(link)))
  }

  datatype ShareResult = ShareResult(files: seq<FileItem>, link: string)

  /** `r` is `files` record for record, with at most the permissions and the share link changed. */
  predicate SharingOnly(files: seq<FileItem>, r: seq<FileItem>) {
    |r| == |files|
    && forall i :: 0 <= i < |files| ==>
      r[i] == files[i].(permissions := r[i].permissions, shareLink := r[i].shareLink)
  }

  /** Replacing permissions changes only permissions. */
  lemma PermissionsSharingOnly(files: seq<FileItem>, id: string, permissions: seq<FilePermission>)
    ensures SharingOnly(files, WithPermissions(files, id, permissions))
  {
  }

  /** Setting the link after a sharing-only change is still a sharing-only change. */
  lemma LinkSharingOnly(files: seq<FileItem>, w: seq<FileItem>, id: string, link: string)
    requires SharingOnly(files, w)
    ensures SharingOnly(files, WithLink(w, id, link))
  {
    var r := WithLink(w, id, link);
    forall i | 0 <= i < |files|
      ensures r[i] == files[i].(permissions := r[i].permissions, shareLink := r[i].shareLink)
    {
      assert w[i] == files[i].(permissions := w[i].permissions, shareLink := w[i].shareLink);
    }
  }

  /** A sharing-only change keeps every id, parent and folder flag. */
  lemma SharingOnlyKeepsRanked(files: seq<FileItem>, r: seq<FileItem>, rank: map<string, nat>)
    requires SharingOnly(files, r) && Ranked(files, rank)
    ensures Ranked(r, rank)
    ensures RanksEveryFolder(files, rank) ==> RanksEveryFolder(r, rank)
  {
    forall i | 0 <= i < |r|
      ensures r[i].id == files[i].id && r[i].parentId == files[i].parentId && r[i].isFolder == files[i].isFolder
    {
      assert r[i] == files[i].(permissions := r[i].permissions, shareLink := r[i].shareLink);
    }
    SameShapeKeepsRanked(files, r, rank);
  }

  /**
   * `shareFile`: for a known id, replace the permissions of every record with
   * that id and return the first match's link, creating one when it has none.
   */
  function ShareOutcome(files: seq<FileItem>, id: string, permissions: seq<FilePermission>, token: string)
    : (r: ShareResult)
    ensures r.link == "" <==> forall i :: 0 <= i < |files| ==> files[i].id != id
    ensures SharingOnly(files, r.files)
  {
    var found := FindFile(files, id);
    if found.None? then ShareResult(files, "")
    else
      var withPermissions := WithPermissions(files, id, permissions);
      PermissionsSharingOnly(files, id, permissions);
      if HasLink(found.value) then ShareResult(withPermissions, found.value.shareLink.value)
      else
        var link := LinkFor(token);
        LinkSharingOnly(files, withPermissions, id, link);
        ShareResult(WithLink(withPermissions, id, link), link)
  }

  /** An unknown id returns `''` and changes nothing. */
  lemma ShareUnknown(files: seq<FileItem>, id: string, permissions: seq<FilePermission>, token: string)
    requires forall i :: 0 <= i < |files| ==> files[i].id != id
    ensures ShareOutcome(files, id, permissions, token) == ShareResult(files, "")
  {
  }

  /**
   * A known id, the link: non-empty, the first match's old link when it had
   * one and a new one otherwise, and afterwards carried by the first match.
   */
  lemma ShareKnownLink(files: seq<FileItem>, id: string, permissions: seq<FilePermission>, token: string)
    requires exists i :: 0 <= i < |files| && files[i].id == id
    ensures var r := ShareOutcome(files, id, permissions, token);
      var k := FileIndex(files, id);
      && r.link != "" && |r.files| == |files| && FileIndex(r.files, id) == k
      && (HasLink(files[k]) ==> r.link == files[k].shareLink.value)
      && (!HasLink(files[k]) ==> r.link == LinkFor(token))
      && r.files[k].shareLink == Some(r.link)
  {
    var withPermissions := WithPermissions(files, id, permissions);
    SameIdsSameIndex(files, withPermissions, id);
    if !HasLink(files[FileIndex(files, id)]) {
      SameIdsSameIndex(withPermissions, WithLink(withPermissions, id, LinkFor(token)), id);
    }
  }

  /** A known id, the records: every record with the id has the new permissions; the others are untouched. */
  lemma ShareKnownRecords(files: seq<FileItem>, id: string, permissions: seq<FilePermission>, token: string)
    requires exists i :: 0 <= i < |files| && files[i].id == id
    ensures var r := ShareOutcome(files, id, permissions, token);
      && |r.files| == |files|
      && (forall i :: 0 <= i < |files| && files[i].id == id ==> r.files[i].permissions == permissions)
      && (forall i :: 0 <= i < |files| && files[i].id != id ==> r.files[i] == files[i])
  {
  }

  /** When the first record with the id already has a link, `shareFile` returns that link. */
  lemma ShareExistingLink(files: seq<FileItem>, id: string, permissions: seq<FilePermission>, token: string)
    requires 0 <= FileIndex(files, id) && HasLink(files[FileIndex(files, id)])
    ensures ShareOutcome(files, id, permissions, token).link == files[FileIndex(files, id)].shareLink.value
  {
  }

  /** Sharing twice returns the same link: the first call stores the link the second call finds. */
  lemma ShareTwiceSameLink(files: seq<FileItem>, id: string, p1: seq<FilePermission>, t1: string,
                           p2: seq<FilePermission>, t2: string)
    requires exists i :: 0 <= i < |files| && files[i].id == id
    ensures var r1 := ShareOutcome(files, id, p1, t1);
      ShareOutcome(r1.files, id, p2, t2).link == r1.link
  {
    var r1 := ShareOutcome(files, id, p1, t1);
    ShareKnownLink(files, id, p1, t1);
    var k := FileIndex(files, id);
    assert r1.files[k].id == id;
  }

  /** `generateShareLink`: every record with the id gets the link, expiry and password, absent ones included. */
  function WithShareLink(files: seq<FileItem>, id: string, link: string, expiry: Option<Timestamp>,
                         password: Option<string>): (r: seq<FileItem>)
    ensures |r| == |files|
    ensures forall i :: 0 <= i < |files| && files[i].id != id ==> r[i] == files[i]
    ensures forall i :: 0 <= i < |files| && files[i].id == id ==>
      r[i] == files[i].(shareLink := Some(link), shareExpiry := expiry, sharePassword := password)
  {
    UpdateWhere(files, id, (f: FileItem) => f.(shareLink := Some(link), shareExpiry := expiry, sharePassword := password))
  }

  /** Sharing changes no id, parent or folder flag, so it keeps every rank. */
  lemma ShareKeepsRanked(files: seq<FileItem>, id: string, permissions: seq<FilePermission>, token: string,
                         rank: map<string, nat>)
    requires Ranked(files, rank)
    ensures Ranked(ShareOutcome(files, id, permissions, token).files, rank)
    ensures RanksEveryFolder(files, rank) ==> RanksEveryFolder(ShareOutcome(files, id, permissions, token).files, rank)
  {
    SharingOnlyKeepsRanked(files, ShareOutcome(files, id, permissions, token).files, rank);
  }

  /** Generating a link changes no id, parent or folder flag, so it keeps every rank. */
  lemma ShareLinkKeepsRanked(files: seq<FileItem>, id: string, link: string, expiry: Option<Timestamp>,
                             password: Option<string>, rank: map<string, nat>)
    requires Ranked(files, rank)
    ensures Ranked(WithShareLink(files, id, link, expiry, password), rank)
    ensures RanksEveryFolder(files, rank) ==> RanksEveryFolder(WithShareLink(files, id, link, expiry, password), rank)
  {
    SameShapeKeepsRanked(files, WithShareLink(files, id, link, expiry, password), rank);
  }

  /** After `generateShareLink`, `shareFile` hands out the generated link. */
  lemma GenerateThenShare(files: seq<FileItem>, id: string, token: string, expiry: Option<Timestamp>,
                          password: Option<string>, permissions: seq<FilePermission>, token2: string)
    requires exists i :: 0 <= i < |files| && files[i].id == id
    ensures ShareOutcome(WithShareLink(files, id, LinkFor(token), expiry, password), id, permissions, token2).link
            == LinkFor(token)
  {
    var g := WithShareLink(files, id, LinkFor(token), expiry, password);
    SameIdsSameIndex(files, g, id);
    var k := FileIndex(files, id);
    assert g[k].shareLink == Some(LinkFor(token));
    ShareExistingLink(g, id, permissions, token2);
  }

  // ---------------------------------------------------------------------------
  // Selection
  // ---------------------------------------------------------------------------

  /** `selectedFiles.filter(fileId => fileId !== id)`: every occurrence goes, everything else stays in order. */
  function Deselected(selected: seq<string>, id: string): (r: seq<string>)
    ensures id !in r
    ensures forall s :: s != id ==> multiset(r)[s] == multiset(selected)[s]
    ensures Sublist(r, selected)
  {
    Filter(selected, (s: string) => s != id)
  }

  /** The records whose `parentId` equals the current folder. */
  function InFolder(files: seq<FileItem>, folder: Option<string>): (r: seq<FileItem>)
    ensures forall f :: f in r <==> f in files && f.parentId == folder
    ensures forall f :: multiset(r)[f] == if f.parentId == folder then multiset(files)[f] else 0
    ensures Sublist(r, files)
  {
    Filter(files, (f: FileItem) => f.parentId == folder)
  }

  /** `selectAllFiles(true)`: the ids of the current folder's records, in list order. */
  function FolderSelection(files: seq<FileItem>, folder: Option<string>): (r: seq<string>)
    ensures forall x :: x in r <==> exists f :: f in files && f.parentId == folder && f.id == x
    ensures |r| == |InFolder(files, folder)|
    ensures forall i :: 0 <= i < |r| ==> r[i] == InFolder(files, folder)[i].id
    ensures Sublist(r, Ids(files))
  {
    var inFolder := InFolder(files, folder);
    IdsMembers(inFolder);
    IdsOfSublist(inFolder, files);
    Ids(inFolder)
  }

  /** An id is listed exactly when some record has it. */
  lemma IdsMembers(fs: seq<FileItem>)
    ensures forall x :: x in Ids(fs) <==> exists f :: f in fs && f.id == x
  {
    var r := Ids(fs);
    forall x | x in r ensures exists f :: f in fs && f.id == x {
      var j :| 0 <= j < |r| && r[j] == x;
      assert fs[j] in fs;
    }
    forall x | exists f :: f in fs && f.id == x ensures x in r {
      var f :| f in fs && f.id == x;
      var j :| 0 <= j < |fs| && fs[j] == f;
      assert r[j] == x;
    }
  }

  /** Taking ids keeps the sublist relation. */
  lemma {:induction false} IdsOfSublist(a: seq<FileItem>, b: seq<FileItem>)
    requires Sublist(a, b)
    ensures Sublist(Ids(a), Ids(b))
    decreases |b|
  {
    if a != [] {
      assert Ids(a)[1..] == Ids(a[1..]);
      assert Ids(b)[1..] == Ids(b[1..]);
      if a[0] == b[0] && Sublist(a[1..], b[1..]) {
        IdsOfSublist(a[1..], b[1..]);
      } else {
        IdsOfSublist(a, b[1..]);
      }
    }
  }

  // ---------------------------------------------------------------------------
  // Notifications
  // ---------------------------------------------------------------------------

  /** `notifications.filter(n => !n.read).length`, the badge of src/components/Layout.tsx. */
  function UnreadCount(ns: seq<Notification>): (count: nat)
    ensures count <= |ns|
    ensures count == 0 <==> forall i | 0 <= i < |ns| :: ns[i].read
  {
    var unread := Filter(ns, (n: Notification) => !n.read);
    assert forall i | 0 <= i < |ns| :: ns[i] in ns;
    assert forall i | 0 <= i < |unread| :: unread[i] in unread;
    |unread|
  }

  /** `markNotificationAsRead`: only notifications with the id become read. */
  function MarkedRead(ns: seq<Notification>, id: string): (r: seq<Notification>)
    ensures |r| == |ns|
    ensures forall i :: 0 <= i < |ns| ==> r[i].(read := ns[i].read) == ns[i]
    ensures forall i :: 0 <= i < |ns| ==> r[i].read == (ns[i].read || ns[i].id == id)
  {
    Map(ns, (n: Notification) => if n.id == id then n.(read := true) else n)
  }

  /** `clearAllNotifications`: every notification is kept, and read. */
  function AllRead(ns: seq<Notification>): (r: seq<Notification>)
    ensures |r| == |ns|
    ensures forall i :: 0 <= i < |ns| ==> r[i] == ns[i].(read := true)
  {
    Map(ns, (n: Notification) => n.(read := true))
  }

  /** Marking one notification read lowers the badge by the number of unread ones with that id. */
  lemma {:induction false} MarkedReadUnread(ns: seq<Notification>, id: string)
    ensures UnreadCount(MarkedRead(ns, id))
            == UnreadCount(ns) - |Filter(ns, (n: Notification) => n.id == id && !n.read)|
  {
    if ns != [] {
      MarkedReadUnread(ns[1..], id);
      assert MarkedRead(ns, id)[1..] == MarkedRead(ns[1..], id);
    }
  }

  /** After `clearAllNotifications` nothing is unread, and clearing again changes nothing. */
  lemma ClearAllClears(ns: seq<Notification>)
    ensures UnreadCount(AllRead(ns)) == 0
    ensures AllRead(AllRead(ns)) == AllRead(ns)
  {
  }

  /** `addNotification` prepends: the badge grows by one exactly for an unread notification. */
  lemma AddNotificationUnread(n: Notification, ns: seq<Notification>)
    ensures UnreadCount([n] + ns) == UnreadCount(ns) + (if n.read then 0 else 1)
  {
    assert ([n] + ns)[1..] == ns;
  }

  // ---------------------------------------------------------------------------
  // Initial data
  // ---------------------------------------------------------------------------

  const MockFiles: seq<FileItem> := [
    FileItem("folder-1", "My Documents", "folder", 0, 1736899200000, 1736899200000, "user-1", None, true, false,
             [FilePermission("user-1", Owner)], [], "", None, None, None, None),
    FileItem("folder-2", "Work Projects", "folder", 0, 1737331200000, 1737331200000, "user-1", None, true, true,
             [FilePermission("user-1", Owner)], [], "", None, None, None, None),
    FileItem("file-1", "Project Proposal.pdf", "application/pdf", 2500000, 1737763200000, 1738368000000, "user-1",
             Some("folder-2"), false, false, [FilePermission("user-1", Owner)],
             [FileVersion("version-1", "Project Proposal v1.pdf", 2500000, "application/pdf", 1737763200000, "user-1",
                          "https://example.com/files/project-proposal-v1.pdf")],
             "version-1", None, None, None, Some("https://example.com/previews/project-proposal.png")),
    FileItem("file-2", "Team Photo.jpg", "image/jpeg", 5000000, 1738195200000, 1738195200000, "user-1", None, false,
             true, [FilePermission("user-1", Owner), FilePermission("user-2", View)],
             [FileVersion("version-2", "Team Photo.jpg", 5000000, "image/jpeg", 1738195200000, "user-1",
                          "https://example.com/files/team-photo.jpg")],
             "version-2", Some("https://secureshare.app/s/abcd1234"), Some(1743292800000), None,
             Some("https://example.com/files/team-photo.jpg"))
  ]

  const MockNotifications: seq<Notification> := [
    Notification("notif-1", "user-1", "Jane Doe shared \"Marketing Plan.docx\" with you", false, 1739145600000,
                 Some("file-3"), ShareNote),
    Notification("notif-2", "user-1", "Your file \"Team Photo.jpg\" was viewed 5 times", true, 1739059200000,
                 Some("file-2"), SystemNote)
  ]

  const MockUsageStats: UsageStats := UsageStats(10737418240, 7500000, 2, 2, [
    Activity(1738368000000, "updated", "file-1", "Project Proposal.pdf"),
    Activity(1738195200000, "uploaded", "file-2", "Team Photo.jpg")
  ])

  /** The initial badge shows one unread notification. */
  lemma MockBadge()
    ensures UnreadCount(MockNotifications) == 1
  {
    assert MockNotifications[1..] == [MockNotifications[1]];
    assert [MockNotifications[1]][1..] == [];
  }

  /** Sharing the initial team photo hands out the link it already has. */
  lemma MockShareKeepsLink(permissions: seq<FilePermission>, token: string)
    ensures ShareOutcome(MockFiles, "file-2", permissions, token).link == "https://secureshare.app/s/abcd1234"
  {
    assert MockFiles[3].id == "file-2";
    assert FileIndex(MockFiles, "file-2") == 3;
    ShareExistingLink(MockFiles, "file-2", permissions, token);
  }

  /** The initial folder graph is acyclic: both folders sit at the root. */
  lemma MockFilesAcyclic()
    ensures Ranked(MockFiles, map["folder-1" := 0, "folder-2" := 0])
    ensures RanksEveryFolder(MockFiles, map["folder-1" := 0, "folder-2" := 0])
    ensures Acyclic(MockFiles)
  {
    var rank := map["folder-1" := 0, "folder-2" := 0];
    forall f | f in MockFiles && f.isFolder ensures f.parentId.None? && f.id in rank {
      var i :| 0 <= i < |MockFiles| && MockFiles[i] == f;
      assert i < 2;
    }
    assert Ranked(MockFiles, rank) && RanksEveryFolder(MockFiles, rank);
  }

  // ---------------------------------------------------------------------------
  // The store
  // ---------------------------------------------------------------------------

  /** The `FileState` store; each method is one action, run to completion before the next. */
  class FileStore {
    var files: seq<FileItem>
    var notifications: seq<Notification>
    var usage: UsageStats
    var currentFolder: Option<string>
    var selectedFiles: seq<string>

    /** The store as `create` sets it up: the mock records, at the root, nothing selected. */
    constructor ()
      ensures files == MockFiles && notifications == MockNotifications && usage == MockUsageStats
      ensures currentFolder == None && selectedFiles == []
    {
      files := MockFiles;
      notifications := MockNotifications;
      usage := MockUsageStats;
      currentFolder := None;
      selectedFiles := [];
    }

    /** `addFile`: append the new record at the end and count it. */
    method AddFile(patch: FilePatch, content: Option<Content>, newId: string, versionId: string,
                   versionUrl: string, imagePreviewUrl: string, now: Timestamp)
      returns (nf: FileItem)
      modifies this
      ensures nf == NewFile(patch, content, old(currentFolder), newId, versionId, versionUrl, imagePreviewUrl, now)
      ensures files == old(files) + [nf]
      ensures usage == CountUpload(old(usage), nf, now)
      ensures notifications == old(notifications) && currentFolder == old(currentFolder)
      ensures selectedFiles == old(selectedFiles)
    {
      nf := NewFile(patch, content, currentFolder, newId, versionId, versionUrl, imagePreviewUrl, now);
      files := files + [nf];
      usage := CountUpload(usage, nf, now);
    }

    /** `updateFile`. */
    method UpdateFile(id: string, updates: FilePatch, now: Timestamp)
      modifies this
      ensures files == Updated(old(files), id, updates, now)
      ensures usage == old(usage) && notifications == old(notifications)
      ensures currentFolder == old(currentFolder) && selectedFiles == old(selectedFiles)
    {
      var updated := Updated(files, id, updates, now);
      files := updated;
    }

    /**
     * `deleteFile`. When the item is a folder, the ghost `rank` is the
     * evidence that the folders below it form no cycle, without which the
     * recursion over children would not stop; deleting a file, or an unknown
     * id, asks for nothing.
     */
    method DeleteFile(id: string, now: Timestamp, ghost rank: map<string, nat>)
      requires FindFile(files, id).Some? ==> Deletable(files, id, FindFile(files, id).value, rank)
      modifies this
      ensures FindFile(old(files), id).None? ==>
        files == old(files) && selectedFiles == old(selectedFiles) && usage == old(usage)
      ensures FindFile(old(files), id).Some? ==>
        var top := FindFile(old(files), id).value;
        var doomed := DoomedIds(old(files), id, top, rank);
        && files == Surviving(old(files), doomed)
        && selectedFiles == Unselected(old(selectedFiles), doomed)
        && usage == CountDelete(old(usage), old(files), top, doomed, now)
      ensures notifications == old(notifications) && currentFolder == old(currentFolder)
      ensures Ranked(old(files), rank) ==> Ranked(files, rank)
      ensures Acyclic(old(files)) ==> Acyclic(files)
    {
      var found := FindFile(files, id);
      if found.Some? {
        var top := found.value;
        var doomed := DoomedIds(files, id, top, rank);
        usage := CountDelete(usage, files, top, doomed, now);
        files := Surviving(files, doomed);
        selectedFiles := Unselected(selectedFiles, doomed);
        DeleteKeepsGraph(old(files), doomed, rank);
      }
    }

    /** `moveFile`: no check that the new parent exists or lies outside the item. */
    method MoveFile(id: string, newParent: Option<string>, now: Timestamp)
      modifies this
      ensures files == Moved(old(files), id, newParent, now)
      ensures usage == old(usage).(recentActivity := [MoveActivity(old(files), id, now)] + old(usage).recentActivity)
      ensures notifications == old(notifications) && currentFolder == old(currentFolder)
      ensures selectedFiles == old(selectedFiles)
    {
      var activity := MoveActivity(files, id, now);
      files := Moved(files, id, newParent, now);
      usage := usage.(recentActivity := [activity] + usage.recentActivity);
    }

    /** `starFile`. */
    method StarFile(id: string, starred: bool)
      modifies this
      ensures files == Starred(old(files), id, starred)
      ensures usage == old(usage) && notifications == old(notifications)
      ensures currentFolder == old(currentFolder) && selectedFiles == old(selectedFiles)
    {
      files := Starred(files, id, starred);
    }

    /** `addFileVersion`: a no-op without content or for an unknown id. */
    method AddFileVersion(fileId: string, patch: VersionPatch, content: Option<Content>, versionId: string,
                          url: string, imageUrl: string, noticeId: string, now: Timestamp)
      modifies this
      ensures content.None? || FindFile(old(files), fileId).None? ==>
        files == old(files) && usage == old(usage) && notifications == old(notifications)
      ensures content.Some? && FindFile(old(files), fileId).Some? ==>
        var file := FindFile(old(files), fileId).value;
        var v := NewVersion(file, patch, content.value, versionId, url, now);
        && files == WithVersion(old(files), fileId, v, content.value, imageUrl, now)
        && usage == CountVersion(old(usage), file, fileId, v, now)
        && notifications == [UploadNotice(file, fileId, noticeId, now)] + old(notifications)
      ensures currentFolder == old(currentFolder) && selectedFiles == old(selectedFiles)
    {
      if content.None? {
        return;
      }
      var found := FindFile(files, fileId);
      if found.None? {
        return;
      }
      var file := found.value;
      var v := NewVersion(file, patch, content.value, versionId, url, now);
      files := WithVersion(files, fileId, v, content.value, imageUrl, now);
      usage := CountVersion(usage, file, fileId, v, now);
      notifications := [UploadNotice(file, fileId, noticeId, now)] + notifications;
    }

    /** `shareFile`. */
    method ShareFile(id: string, permissions: seq<FilePermission>, token: string) returns (link: string)
      modifies this
      ensures ShareResult(files, link) == ShareOutcome(old(files), id, permissions, token)
      ensures usage == old(usage) && notifications == old(notifications)
      ensures currentFolder == old(currentFolder) && selectedFiles == old(selectedFiles)
    {
      var outcome := ShareOutcome(files, id, permissions, token);
      files, link := outcome.files, outcome.link;
    }

    /** `generateShareLink`: the link is returned whether or not a record has the id. */
    method GenerateShareLink(id: string, expiry: Option<Timestamp>, password: Option<string>, token: string)
      returns (link: string)
      modifies this
      ensures link == LinkFor(token)
      ensures files == WithShareLink(old(files), id, link, expiry, password)
      ensures usage == old(usage) && notifications == old(notifications)
      ensures currentFolder == old(currentFolder) && selectedFiles == old(selectedFiles)
    {
      link := LinkFor(token);
      files := WithShareLink(files, id, link, expiry, password);
    }

    /** `navigateToFolder`. */
    method NavigateToFolder(folderId: Option<string>)
      modifies this
      ensures currentFolder == folderId
      ensures files == old(files) && usage == old(usage) && notifications == old(notifications)
      ensures selectedFiles == old(selectedFiles)
    {
      currentFolder := folderId;
    }

    /** `selectFile`: selecting appends without looking for duplicates; deselecting drops every occurrence. */
    method SelectFile(id: string, selected: bool)
      modifies this
      ensures selectedFiles == if selected then old(selectedFiles) + [id] else Deselected(old(selectedFiles), id)
      ensures files == old(files) && usage == old(usage) && notifications == old(notifications)
      ensures currentFolder == old(currentFolder)
    {
      selectedFiles := if selected then selectedFiles + [id] else Deselected(selectedFiles, id);
    }

    /** `selectAllFiles`. */
    method SelectAllFiles(selected: bool)
      modifies this
      ensures selectedFiles == if selected then FolderSelection(old(files), old(currentFolder)) else []
      ensures files == old(files) && usage == old(usage) && notifications == old(notifications)
      ensures currentFolder == old(currentFolder)
    {
      selectedFiles := if selected then FolderSelection(files, currentFolder) else [];
    }

    /** `markNotificationAsRead`. */
    method MarkNotificationAsRead(id: string)
      modifies this
      ensures notifications == MarkedRead(old(notifications), id)
      ensures files == old(files) && usage == old(usage)
      ensures currentFolder == old(currentFolder) && selectedFiles == old(selectedFiles)
    {
      notifications := MarkedRead(notifications, id);
    }

    /** `clearAllNotifications`. */
    method ClearAllNotifications()
      modifies this
      ensures notifications == AllRead(old(notifications))
      ensures UnreadCount(notifications) == 0
      ensures files == old(files) && usage == old(usage)
      ensures currentFolder == old(currentFolder) && selectedFiles == old(selectedFiles)
    {
      notifications := AllRead(notifications);
      ClearAllClears(old(notifications));
    }

    /** `addNotification`. */
    method AddNotification(n: Notification)
      modifies this
      ensures notifications == [n] + old(notifications)
      ensures files == old(files) && usage == old(usage)
      ensures currentFolder == old(currentFolder) && selectedFiles == old(selectedFiles)
    {
      notifications := [n] + notifications;
    }
  }
}
