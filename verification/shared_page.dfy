/**
 * The two lists of src/pages/SharedPage.tsx and the choice between an empty
 * state and the file list. The page renders `<FileList />`, which lists the
 * store's own records; the two filtered lists only decide whether the empty
 * state of the active tab is shown.
 */
module SharedPage {
  import opened Seqs
  import opened Types
  import Store

  datatype Tab = SharedWithMeTab | SharedByMeTab

  /** What the page shows below the tabs. */
  datatype View = NothingSharedWithYou | NothingSharedByYou | FileListView

  /** Some entry is for another user and is not an owner entry. */
  predicate SharedWithCurrentUser(f: FileItem) {
    exists i :: 0 <= i < |f.permissions| && f.permissions[i].userId != Store.CurrentUserId
                && f.permissions[i].access != Owner
  }

  /** Some entry is for another user, and the current user has an owner entry. */
  predicate SharedByCurrentUser(f: FileItem) {
    (exists i :: 0 <= i < |f.permissions| && f.permissions[i].userId != Store.CurrentUserId)
    && exists i :: 0 <= i < |f.permissions| && f.permissions[i] == FilePermission(Store.CurrentUserId, Owner)
  }

  /** `sharedWithMe`. */
  function SharedWithMe(files: seq<FileItem>): (r: seq<FileItem>)
    ensures forall f :: f in r <==> f in files && SharedWithCurrentUser(f)
    ensures forall f :: multiset(r)[f] == if SharedWithCurrentUser(f) then multiset(files)[f] else 0
    ensures Sublist(r, files)
  {
    Filter(files, SharedWithCurrentUser)
  }

  /** `sharedByMe`. */
  function SharedByMe(files: seq<FileItem>): (r: seq<FileItem>)
    ensures forall f :: f in r <==> f in files && SharedByCurrentUser(f)
    ensures forall f :: multiset(r)[f] == if SharedByCurrentUser(f) then multiset(files)[f] else 0
    ensures Sublist(r, files)
  {
    Filter(files, SharedByCurrentUser)
  }

  /** A record whose entries all belong to the current user is in neither list. */
  lemma OwnOnlyInNeither(files: seq<FileItem>, f: FileItem)
    requires forall i | 0 <= i < |f.permissions| :: f.permissions[i].userId == Store.CurrentUserId
    ensures f !in SharedWithMe(files) && f !in SharedByMe(files)
  {
  }

  /** The list the active tab is about. */
  function ActiveList(tab: Tab, files: seq<FileItem>): seq<FileItem> {
    match tab
    case SharedWithMeTab => SharedWithMe(files)
    case SharedByMeTab => SharedByMe(files)
  }

  /** The conditional below the tabs: each tab's empty state when its list is empty, the file list otherwise. */
  function PageView(tab: Tab, files: seq<FileItem>): (v: View)
    ensures v == NothingSharedWithYou <==> tab == SharedWithMeTab && |SharedWithMe(files)| == 0
    ensures v == NothingSharedByYou <==> tab == SharedByMeTab && |SharedByMe(files)| == 0
    ensures v == FileListView <==> |ActiveList(tab, files)| > 0
  {
    if tab == SharedWithMeTab && |SharedWithMe(files)| == 0 then NothingSharedWithYou
    else if tab == SharedByMeTab && |SharedByMe(files)| == 0 then NothingSharedByYou
    else FileListView
  }

  /** The empty state is shown exactly when no record qualifies for the active tab. */
  lemma EmptyStateIff(tab: Tab, files: seq<FileItem>)
    ensures PageView(tab, files) != FileListView <==>
      forall f | f in files :: !(if tab == SharedWithMeTab then SharedWithCurrentUser(f) else SharedByCurrentUser(f))
  {
    var active := ActiveList(tab, files);
    if |active| > 0 {
      assert active[0] in active;
    }
  }

  /** On the initial records, the team photo (owned by user-1, viewable by user-2) is in both lists. */
  lemma MockTeamPhotoInBoth()
    ensures Store.MockFiles[3].id == "file-2"
    ensures Store.MockFiles[3] in SharedWithMe(Store.MockFiles)
    ensures Store.MockFiles[3] in SharedByMe(Store.MockFiles)
  {
    var photo := Store.MockFiles[3];
    assert photo.permissions[1].userId != Store.CurrentUserId;
    assert photo.permissions[0] == FilePermission(Store.CurrentUserId, Owner);
  }

  /** On the initial records, the two folders, whose only entry is user-1's, are in neither list. */
  lemma MockFoldersInNeither()
    ensures Store.MockFiles[0] !in SharedWithMe(Store.MockFiles) && Store.MockFiles[0] !in SharedByMe(Store.MockFiles)
    ensures Store.MockFiles[1] !in SharedWithMe(Store.MockFiles) && Store.MockFiles[1] !in SharedByMe(Store.MockFiles)
  {
    OwnOnlyInNeither(Store.MockFiles, Store.MockFiles[0]);
    OwnOnlyInNeither(Store.MockFiles, Store.MockFiles[1]);
  }
}
