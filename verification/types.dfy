/**
 * The records of src/types/index.ts. Dates are timestamps supplied by the
 * caller; the TypeScript field `type` is called `mimeType` here because
 * `type` is a Dafny keyword.
 */
module Types {
  import opened Wrappers

  /** A `Date`, as milliseconds since the epoch. */
  type Timestamp = int

  datatype User = User(id: string, name: string, email: string, avatar: Option<string>)

  /** `'view' | 'edit' | 'owner'`. */
  datatype Access = View | Edit | Owner

  datatype FilePermission = FilePermission(userId: string, access: Access)

  datatype FileVersion = FileVersion(
    id: string,
    name: string,
    size: int,
    mimeType: string,
    createdAt: Timestamp,
    createdBy: string,
    url: string)

  /** A file or folder record; folders and files share one flat list, linked by `parentId`. */
  datatype FileItem = FileItem(
    id: string,
    name: string,
    mimeType: string,
    size: int,
    createdAt: Timestamp,
    updatedAt: Timestamp,
    createdBy: string,
    parentId: Option<string>,
    isFolder: bool,
    starred: bool,
    permissions: seq<FilePermission>,
    versions: seq<FileVersion>,
    currentVersionId: string,
    shareLink: Option<string>,
    shareExpiry: Option<Timestamp>,
    sharePassword: Option<string>,
    previewUrl: Option<string>)

  /** `'share' | 'upload' | 'comment' | 'system'`. */
  datatype NotificationKind = ShareNote | UploadNote | CommentNote | SystemNote

  datatype Notification = Notification(
    id: string,
    userId: string,
    message: string,
    read: bool,
    createdAt: Timestamp,
    fileId: Option<string>,
    kind: NotificationKind)

  /** One entry of `recentActivity`. */
  datatype Activity = Activity(date: Timestamp, action: string, fileId: string, fileName: string)

  datatype UsageStats = UsageStats(
    totalStorage: int,
    usedStorage: int,
    fileCount: int,
    folderCount: int,
    recentActivity: seq<Activity>)

  /** `Partial<FileItem>`: a present field is supplied by the caller. */
  datatype FilePatch = FilePatch(
    id: Option<string>,
    name: Option<string>,
    mimeType: Option<string>,
    size: Option<int>,
    createdAt: Option<Timestamp>,
    updatedAt: Option<Timestamp>,
    createdBy: Option<string>,
    parentId: Option<Option<string>>,
    isFolder: Option<bool>,
    starred: Option<bool>,
    permissions: Option<seq<FilePermission>>,
    versions: Option<seq<FileVersion>>,
    currentVersionId: Option<string>,
    shareLink: Option<string>,
    shareExpiry: Option<Timestamp>,
    sharePassword: Option<string>,
    previewUrl: Option<string>)

  /** `Partial<FileVersion>`. */
  datatype VersionPatch = VersionPatch(
    id: Option<string>,
    name: Option<string>,
    size: Option<int>,
    mimeType: Option<string>,
    createdAt: Option<Timestamp>,
    createdBy: Option<string>,
    url: Option<string>)

  /** A browser `File` handed to an upload: its size and MIME type. */
  datatype Content = Content(size: int, mimeType: string)
}
