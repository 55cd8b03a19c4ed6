# SecureShare file store, modelled in Dafny

SecureShare is a React file-sharing front end. The logic behind its pages lives in a client-side store:

- a flat list of file and folder records, linked by `parentId`;
- the current folder and the selection;
- the notifications;
- usage counters: used storage, file and folder counts, and recent activity.

A few pure helpers sit around the store: the MIME-type icon and colour classifiers and middle-ellipsis truncation. Some list logic is embedded in UI components:

- the permission editor of the share dialog;
- the "shared with me" and "shared by me" lists;
- version selection, sibling navigation and preview choice in the file preview.

This project models that logic and proves what it promises.

| file | module | models |
|---|---|---|
| `wrappers.dfy` | `Wrappers` | `Option`, for `undefined`/`null` |
| `seqs.dfy` | `Seqs` | JavaScript's `filter`, `map`, `findIndex` and `find`, with their order-preserving sublist contracts |
| `types.dfy` | `Types` | the records of `src/types/index.ts`; patches (`Partial<…>`) carry an `Option` per field |
| `formatters.dfy` | `Formatters` | `getFileIcon`, `getFileColor` and `truncateString`, with `startsWith`, `includes` and `slice` written out |
| `file_store.dfy` | `Store` | the store: one pure function per new value an action builds, lemmas about them, and class `FileStore`, whose methods are the actions |
| `share_modal.dfy` | `ShareModal` | adding, removing and updating permission entries, and which rows offer controls |
| `shared_page.dfy` | `SharedPage` | the two sharing filters and the empty-state choice |
| `file_preview.dfy` | `FilePreview` | the version shown, previous/next file, version numbering and the preview kind |

Several things the code does are inputs to the model rather than computations:

- Fresh ids (`uuidv4()`), object URLs (`URL.createObjectURL`) and the clock (`new Date()`) are parameters of the actions.
- Timestamps are integers (milliseconds).
- An uploaded `File` is reduced to its size and type (`Content`).

`deleteFile` recurses through the folder graph, and nothing in the store rules out a cycle: `moveFile` accepts any new parent. The model therefore carries the acyclicity that the recursion silently relies on as a ghost `rank` map, in which each folder ranks below its parent. `DeleteFile` asks for a rank only when the id names a folder, and only one that ranks that folder and is valid wherever a folder's parent is ranked. An unknown id or a plain file needs nothing. Lemmas show that adding keeps the graph acyclic, and that updating without touching the tree fields, moving under a higher-ranked folder, starring, versioning, sharing and deleting all keep a rank. Another lemma shows that moving a folder into itself leaves no rank at all.

The usage counters are not kept equal to the sum of the record sizes, and the model does not claim they are:

- Deleting a folder gives back only the folder's own size.
- A new version adds its size on top of what was already counted.

## Model

| member | source | states |
|---|---|---|
| Formatters.GetFileColor | src/utils/formatters.ts:40-74 | the colour is always one of the nine Tailwind classes the function names |
| Formatters.GetFileIcon | src/utils/formatters.ts:79-117 | the icon is always one of Folder, Image, Video, Music, FileText, Table, Presentation, Archive, File |
| Formatters.IncludesIff | src/utils/formatters.ts:57 | the recursive `includes` holds exactly when the substring occurs at some position, in both directions |
| Formatters.FolderOnlyOnExactMatch | src/utils/formatters.ts:40-82 | the Folder icon and the folder colour are returned exactly for the type `'folder'` |
| Formatters.IconColourAgree | src/utils/formatters.ts:40-117 | icon and colour agree branch by branch, both directions: Folder/blue-500, Image/purple-500, Video/pink-500, Music/green-500, FileText/red-500 or blue-600, Table/green-600, Presentation/orange-500, Archive or File/gray-500 |
| Formatters.DocumentBeforeSheet | src/utils/formatters.ts:100-106 | first match wins: a type containing both "document" and "sheet" is FileText and blue-600, never Table |
| Formatters.ArchiveHasNoColour | src/utils/formatters.ts:112-116 | a type containing `zip` or `archive`, past the earlier tests, gets the Archive icon but the fallback gray colour |
| Formatters.SliceIndex | src/utils/formatters.ts:126 | `slice` positions: a negative index counts from the end, and the result is clamped to `0..length` |
| Formatters.Half | src/utils/formatters.ts:125 | `Math.floor(maxLength / 2)`: `2*h <= maxLength < 2*h + 2`, for negative limits too |
| Formatters.TruncateString | src/utils/formatters.ts:122-127 | a string no longer than the limit comes back unchanged; a longer one becomes its prefix up to `slice(0, half)`, then `"..."`, then its suffix from `slice(-half)`, with JavaScript's clamping of negative and oversized positions |
| Formatters.TruncateLong | src/utils/formatters.ts:125-126 | for a limit of at least 2, the result is the first and last `half` characters around `"..."`, of length `2*half+3`, i.e. 2 or 3 over the limit |
| Formatters.TruncateTiny | src/utils/formatters.ts:126 | with a limit of 0 or 1, `slice(-0)` keeps the whole string, so the result is `"..." + str` |
| Formatters.TruncateNegative | src/utils/formatters.ts:125-126 | with a negative limit, both halves count from the other end |
| Formatters.TruncateCanLengthen | src/utils/formatters.ts:122-126 | `truncateString("abcdef", 5)` is `"ab...ef"`, longer than its input |
| Store.FindFile | src/store/fileStore.ts:256 | absent exactly when no record has the id; otherwise the first record with it |
| Store.AllChildrenIdsSound | src/store/fileStore.ts:261-269 | every id `getAllChildrenIds` lists is reachable from the folder through child links that pass through folders only |
| Store.NestedIdsSound | src/store/fileStore.ts:264-266 | the same, for the ids collected from the folder children |
| Store.AllChildrenIdsComplete | src/store/fileStore.ts:261-269 | every id reachable that way is listed |
| Store.NestedIdsContain | src/store/fileStore.ts:264-266 | the `flatMap` over folder children contains what each child's recursion lists |
| Store.ApplyPatch | src/store/fileStore.ts:200 | the spread `{ ...record, ...patch }`: every field the patch supplies takes the patch's value, and every other field keeps the record's value; an empty patch changes nothing |
| Store.NewFile | src/store/fileStore.ts:186-222 | the fields (id, name, type, size, parent, folder flag, permissions, starred, owner, times, sharing fields) come from the caller when supplied and from the listed defaults otherwise; a first version is created and made current exactly for a non-folder with content, and an image type then gets the new preview URL |
| Store.CountUpload | src/store/fileStore.ts:226-240 | storage grows by the new size; exactly one of file/folder count grows by one, according to `isFolder`; one "uploaded" activity is prepended |
| Store.AppendKeepsAcyclic | src/store/fileStore.ts:225 | appending a record with a fresh id keeps the folder graph acyclic |
| Store.Updated | src/store/fileStore.ts:246-252 | length and order kept; records without the id are unchanged; a record with the id takes every field the patch supplies, keeps every other field, and gets the update time whatever the patch says about it |
| Store.Stamped | src/store/fileStore.ts:249 | `{ ...file, ...updates, updatedAt }`: the patch's fields, then the update time, over the record |
| Store.UpdateKeepsRanked | src/store/fileStore.ts:246-252 | an update that leaves id, parent and folder flag alone keeps the graph acyclic |
| Store.Moved | src/store/fileStore.ts:301-304 | only records with the id change, and only their parent and update time |
| Store.MoveActivity | src/store/fileStore.ts:307-313 | the "moved" activity carries the id and the time; it names the first record with the id when that name is non-empty, and says "Unknown" when the id is absent or the name is empty |
| Store.MoveKeepsRanked | src/store/fileStore.ts:300-304 | moving to the root or under a higher-ranked folder keeps the graph acyclic |
| Store.MoveIntoItselfIsCyclic | src/store/fileStore.ts:300-304 | moving a folder under itself is accepted and leaves the graph with no valid rank |
| Store.Starred | src/store/fileStore.ts:320-326 | records differ from before only in `starred`, which is set exactly on records with the id |
| Store.StarKeepsRanked | src/store/fileStore.ts:320-326 | starring keeps every rank, and a rank of every folder stays one |
| Store.DoomedIds | src/store/fileStore.ts:271-273 | the list starts with the item's id, and is exactly that id for a non-folder |
| Store.AllChildrenIdsDistinct | src/store/fileStore.ts:261-269 | when record ids are unique, `getAllChildrenIds` lists no id twice |
| Store.DoomedIdsDistinct | src/store/fileStore.ts:271-273 | when record ids are unique, `idsToDelete` lists no id twice, and each entry is the id of some record |
| Store.DoomedIdsIff | src/store/fileStore.ts:271-273 | an id is deleted exactly when it is the item's, or the item is a folder and the id lies below it |
| Store.DeleteLeavesExactly | src/store/fileStore.ts:254-276 | the records left are those of the old list, in order and each as often as before, that are neither the item nor below the deleted folder; the others are gone entirely |
| Store.Surviving | src/store/fileStore.ts:276 | a record survives exactly when its id is not deleted, as often as it occurred; order kept |
| Store.Unselected | src/store/fileStore.ts:277 | deleted ids leave the selection; every other id keeps its count and order |
| Store.DeleteKeepsRanked | src/store/fileStore.ts:276 | removing records keeps every rank, and a rank of every folder stays one |
| Store.DeleteKeepsAcyclic | src/store/fileStore.ts:276 | removing records keeps an acyclic graph acyclic |
| Store.DeleteKeepsGraph | src/store/fileStore.ts:276 | the two above as implications, for any starting list |
| Store.CountDelete | src/store/fileStore.ts:278-296 | storage drops by the top item's size only; a non-folder lowers the file count by one and leaves the folder count; one "deleted" activity is prepended; what a folder does to the two counts is stated by `DeleteCountsRecords` |
| Store.DeletePartition | src/store/fileStore.ts:276-286 | every record is a deleted folder, a deleted non-folder, or a survivor, and the three numbers add up to the list's length |
| Store.EntriesCountRecords | src/store/fileStore.ts:282-285 | for distinct ids that each name a record, under unique record ids, the folder entries are as many as the deleted folder records and the other entries as many as the deleted other records |
| Store.DeleteCountsRecords | src/store/fileStore.ts:281-286 | deleting a folder under unique ids lowers `folderCount` by the number of folder records removed and `fileCount` by the number of other records removed; together the two drop by the number of deleted ids |
| Store.NewVersion | src/store/fileStore.ts:336-345 | each of the seven fields is the caller's when supplied, and otherwise the fresh id, the file's name, the content's size and type, the action's time, user-1 and the object URL |
| Store.ApplyVersionPatch | src/store/fileStore.ts:344 | `{ ...version, ...versionData }`: every field supplied wins, every other field is kept |
| Store.WithVersion | src/store/fileStore.ts:349-363 | each record with the id is the old record with the version appended at the end, made current, its size, the update time, and for an image type the new preview URL (else its old one); every other field is kept, and other records are unchanged |
| Store.VersionKeepsRanked | src/store/fileStore.ts:349-363 | a new version keeps every rank, and a rank of every folder stays one |
| Store.UploadNotice | src/store/fileStore.ts:380-388 | the notification is unread, of kind upload, for the current user and the file, with the fresh id, the action's time and the message naming the file |
| Store.CountVersion | src/store/fileStore.ts:364-376 | storage grows by the version's size on top of what was counted; counts unchanged; one "updated" activity |
| Store.LinkFor | src/store/fileStore.ts:410 | a share link is never empty |
| Store.WithPermissions | src/store/fileStore.ts:402-406 | the permission rewrite keeps every id and link, and replaces the permissions exactly on records with the id |
| Store.WithLink | src/store/fileStore.ts:412-416 | the link rewrite keeps every id and permission list, and sets the link exactly on records with the id |
| Store.ShareOutcome | src/store/fileStore.ts:395-422 | the link is `''` exactly when no record has the id; the records change in their permissions and share link only |
| Store.ShareKeepsRanked | src/store/fileStore.ts:395-422 | sharing keeps every rank, and a rank of every folder stays one |
| Store.ShareUnknown | src/store/fileStore.ts:397-399 | an unknown id returns `''` and changes nothing |
| Store.ShareKnownLink | src/store/fileStore.ts:408-421 | for a known id, the link is non-empty: the first match's old link if it had one, a new one otherwise; the first match carries it afterwards |
| Store.ShareKnownRecords | src/store/fileStore.ts:402-406 | records with the id get the new permissions; other records are untouched |
| Store.ShareExistingLink | src/store/fileStore.ts:421 | a first match that has a link gets that link back |
| Store.ShareTwiceSameLink | src/store/fileStore.ts:395-422 | sharing the same id twice returns the same link |
| Store.WithShareLink | src/store/fileStore.ts:427-438 | records with the id get link, expiry and password overwritten (absent ones included); others unchanged |
| Store.ShareLinkKeepsRanked | src/store/fileStore.ts:427-438 | generating a link keeps every rank, and a rank of every folder stays one |
| Store.GenerateThenShare | src/store/fileStore.ts:424-441 | after `generateShareLink`, `shareFile` returns the generated link |
| Store.Deselected | src/store/fileStore.ts:451 | deselecting removes every occurrence of the id and keeps all other ids, counts and order |
| Store.InFolder | src/store/fileStore.ts:458 | exactly the records whose parent is the current folder, in order, each as often as in the list |
| Store.FolderSelection | src/store/fileStore.ts:455-463 | select-all yields the ids of the current folder's records, one per record and position by position, as a sublist of all ids in list order |
| Store.UnreadCount | src/components/Layout.tsx:9 | the badge is at most the number of notifications, and zero exactly when all are read |
| Store.MarkedRead | src/store/fileStore.ts:470-476 | only `read` changes, and it becomes true exactly on notifications with the id |
| Store.AllRead | src/store/fileStore.ts:478-482 | every notification is kept, in order, and read |
| Store.MarkedReadUnread | src/store/fileStore.ts:470-476 | marking one read lowers the unread count by the number of unread notifications with that id |
| Store.ClearAllClears | src/store/fileStore.ts:478-482 | after clearing, the unread count is zero, and clearing again changes nothing |
| Store.AddNotificationUnread | src/store/fileStore.ts:484-488 | prepending raises the unread count by one exactly for an unread notification |
| Store.MockBadge | src/store/fileStore.ts:126-145 | the initial notifications show one unread |
| Store.MockShareKeepsLink | src/store/fileStore.ts:94-123 | sharing the initial team photo returns its existing link |
| Store.MockFilesAcyclic | src/store/fileStore.ts:36-124 | the initial folder graph is acyclic: ranking both folders 0 is valid and ranks every folder |
| Store.FileStore.constructor | src/store/fileStore.ts:168-177 | the store starts with the initial data, at the root, with nothing selected |
| Store.FileStore.AddFile | src/store/fileStore.ts:181-244 | exactly one record, the new one, is appended; counters updated by `CountUpload`; nothing else changes |
| Store.FileStore.UpdateFile | src/store/fileStore.ts:246-252 | only the records change, as `Updated` describes |
| Store.FileStore.DeleteFile | src/store/fileStore.ts:254-298 | unknown id: no change; otherwise the deleted ids leave records and selection, and the counters change as `CountDelete` says; notifications and folder untouched; a valid rank stays valid and an acyclic graph stays acyclic |
| Store.FileStore.MoveFile | src/store/fileStore.ts:300-318 | records move as `Moved` says; one "moved" activity is prepended even for an unknown id |
| Store.FileStore.StarFile | src/store/fileStore.ts:320-326 | only the star flags change |
| Store.FileStore.AddFileVersion | src/store/fileStore.ts:328-393 | no change without content or for an unknown id; otherwise version appended, storage and activity updated, one unread upload notification prepended |
| Store.FileStore.ShareFile | src/store/fileStore.ts:395-422 | returns the link and leaves the records as `ShareOutcome` gives them |
| Store.FileStore.GenerateShareLink | src/store/fileStore.ts:424-441 | always returns a new link and overwrites the sharing fields of records with the id |
| Store.FileStore.NavigateToFolder | src/store/fileStore.ts:443-445 | only the current folder changes |
| Store.FileStore.SelectFile | src/store/fileStore.ts:447-453 | selecting appends without deduplication; deselecting removes every occurrence |
| Store.FileStore.SelectAllFiles | src/store/fileStore.ts:455-464 | selects the current folder's ids, or clears the selection |
| Store.FileStore.MarkNotificationAsRead | src/store/fileStore.ts:470-476 | only notifications change, as `MarkedRead` says |
| Store.FileStore.ClearAllNotifications | src/store/fileStore.ts:478-482 | every notification becomes read, none is removed, and the badge becomes zero |
| Store.FileStore.AddNotification | src/store/fileStore.ts:484-488 | the notification is prepended; nothing else changes |
| ShareModal.UserByEmail | src/components/ShareModal.tsx:55 | absent exactly when no known user has that exact (untrimmed) address |
| ShareModal.AddUser | src/components/ShareModal.tsx:51-75 | a blank address does nothing; an unknown one only invites; a user with an entry is left alone; otherwise one entry for that user at the chosen level is appended |
| ShareModal.AddAppendsOne | src/components/ShareModal.tsx:62-67 | a share appends exactly one entry, at the end, never an owner entry, keeping all earlier entries in place |
| ShareModal.AddKeepsUnique | src/components/ShareModal.tsx:59-67 | if user ids are unique before an add, they are unique after |
| ShareModal.RemovePermission | src/components/ShareModal.tsx:78 | every entry of the user is removed; the others stay, in order and each as often as before |
| ShareModal.RemoveKeepsUnique | src/components/ShareModal.tsx:78 | removal keeps user ids unique |
| ShareModal.UpdatePermission | src/components/ShareModal.tsx:83-85 | length and the sequence of user ids are kept; access changes exactly on the user's entries |
| ShareModal.UpdateKeepsUnique | src/components/ShareModal.tsx:83-85 | update keeps user ids unique |
| ShareModal.PermissionRow | src/components/ShareModal.tsx:219-266 | no row for an unknown user; a row's select and remove controls are offered exactly for non-owner entries |
| ShareModal.OwnerRowLocked | src/components/ShareModal.tsx:243-266 | the owner's entry is shown as John Doe without controls |
| ShareModal.AddUserIgnored | src/components/ShareModal.tsx:51-75 | on the demo data, a whitespace address does nothing and an unknown address only invites |
| ShareModal.AddUserTwice | src/components/ShareModal.tsx:51-75 | on the demo data, adding jane@example.com appends user-2 once, and a second add finds existing access |
| SharedPage.SharedWithMe | src/pages/SharedPage.tsx:13-15 | exactly the records with an entry for another user that is not an owner entry, in order, each as often as in the list |
| SharedPage.SharedByMe | src/pages/SharedPage.tsx:18-21 | exactly the records with an entry for another user and an owner entry for user-1, in order, each as often as in the list |
| SharedPage.OwnOnlyInNeither | src/pages/SharedPage.tsx:13-21 | a record whose entries all belong to user-1 is in neither list |
| SharedPage.PageView | src/pages/SharedPage.tsx:62-80 | each tab's empty state shows exactly when that tab's list is empty; otherwise the file list |
| SharedPage.EmptyStateIff | src/pages/SharedPage.tsx:62-80 | the empty state shows exactly when no record qualifies for the active tab |
| SharedPage.MockTeamPhotoInBoth | src/pages/SharedPage.tsx:13-21 | the initial file-2 (owner user-1, viewer user-2) is in both lists |
| SharedPage.MockFoldersInNeither | src/pages/SharedPage.tsx:13-21 | the initial folders are in neither list |
| FilePreview.CurrentVersion | src/components/FilePreview.tsx:55 | the first version with the selected id, else the first version; absent exactly when there are no versions |
| FilePreview.UploadedVersionIsCurrent | src/store/fileStore.ts:353-354 | after `addFileVersion` with an unused version id, a preview OPENED on the updated record (which selects its `currentVersionId`) shows the new version |
| FilePreview.OpenPreviewKeepsVersion | src/components/FilePreview.tsx:36-55 | the preview that uploads keeps the version id it selected when it opened; that id is still present after the upload, so that preview goes on showing the same version |
| FilePreview.AppendKeepsSelection | src/components/FilePreview.tsx:55 | appending a version does not change which version an id already present selects |
| FilePreview.Siblings | src/components/FilePreview.tsx:58 | exactly the non-folder records with the file's parent, in order, each as often as in the list |
| FilePreview.NeighboursOf | src/components/FilePreview.tsx:59-61 | a previous file exists exactly when the index is above 0 and is the one before; a next file exists exactly when the index is below length − 1 and is the one after |
| FilePreview.NotListedNeighbours | src/components/FilePreview.tsx:59-61 | a file missing from the list has no previous file, and its next file is the first sibling if there is one |
| FilePreview.NeighboursAreSiblings | src/components/FilePreview.tsx:58-61 | navigation only offers non-folder records of the same folder |
| FilePreview.VersionNumbers | src/components/FilePreview.tsx:277-285 | labels run from n down to 1, strictly decreasing, so they are distinct |
| FilePreview.UploadedVersionNumberedOne | src/components/FilePreview.tsx:285 | since versions are appended, an upload is numbered 1 and every older version moves up by one |
| FilePreview.IconComponent | src/components/FilePreview.tsx:129-138 | Image, Video, Music and FileText map to themselves; anything else to File |
| FilePreview.RenderPreview | src/components/FilePreview.tsx:64-147 | no preview exactly when there is no version; video and audio play the version's URL; an image shows its non-empty preview URL or the version's URL; past the media tests, a PDF preview is drawn exactly for a type containing `pdf`, with a thumbnail exactly when the preview URL is non-empty; the fallback draws `IconComponent` of `getFileIcon`, which is FileText or File |
| FilePreview.NoVersionNoPreview | src/components/FilePreview.tsx:65-71 | "No preview available" exactly when there is no version |
| FilePreview.ImageSource | src/components/FilePreview.tsx:73-81 | an image shows its non-empty preview URL, else the version's URL |
| FilePreview.MediaPreviewAgreesWithIcon | src/components/FilePreview.tsx:73-108 | with a version, an image, video or audio preview is drawn exactly when the icon is Image, Video or Music |
| FilePreview.PdfPreviewIsDocument | src/components/FilePreview.tsx:110-126 | a PDF preview is drawn only for a type whose icon is FileText |
| FilePreview.FallbackIcon | src/components/FilePreview.tsx:128-146 | the fallback icon is FileText or File, and FileText exactly for word-processing types |

## Left out

- The authentication server (`database/server.js`, `database/db.mjs`): Express, bcrypt and MySQL I/O. It is not part of this model, and neither are the login, registration and current-user plumbing of the front end (`setCurrentUser`, the auth page).
- `formatFileSize` and `formatDate`: floating-point logarithms and locale/clock-dependent formatting.
- `setSearchQuery`, `searchQuery`, `isUploading` and `uploadProgress`: store fields that no modelled action reads.
- Zustand's `create`/`set`/`get` and the `async` on `addFile`/`addFileVersion`: each action runs to completion, so the store is a class whose methods run one after another.
- Rendering, routing, clipboard, `alert` and dark mode. Of the share dialog, only the permission list is modelled; its link form (date parsing of the expiry, `password || undefined`) is not.
- Separate `new Date()` calls within one action (the record's two timestamps, the version's, the activity's and the notification's) can differ by a millisecond; the model passes one `now` to the whole action.
- FilePreview.UploadedVersionIsCurrent: speaks of a preview opened after the upload. The preview in which the upload happens does not switch to the new version; `OpenPreviewKeepsVersion` states what it shows instead.
- Patch fields explicitly set to `undefined`: a patch field is either supplied (and wins) or absent.
- Store.FileStore.DeleteFile: deleting a FOLDER requires a ghost `rank` that ranks it and is valid where parents are ranked, so the folder's subtree has no cycle. Below a folder caught in a cycle, which `moveFile` can produce, the source's recursion never returns (the stack overflows) and the model does not describe that run. Deleting a plain file or an unknown id has no precondition.
- Formatters.TruncateString: lengths are counted in characters, not UTF-16 code units, and `maxLength` is an integer. A fractional limit is not modelled.
- ShareModal.IsJsWhitespace: follows the ECMAScript white-space and line-terminator set; `trim` is only ever used to test for blankness.
- The data shapes of users and notifications are kept only as far as the modelled logic reads them; the avatar fallback URL (`encodeURIComponent` of the name) is not modelled.
