/**
 * The permission-list editing of src/components/ShareModal.tsx: adding a
 * known user by e-mail, removing a user, changing a user's access, and which
 * rows of "People with access" offer those controls. Each edit produces the
 * list the modal hands to the store's `shareFile`.
 */
module ShareModal {
  import opened Wrappers
  import opened Seqs
  import opened Types

  /** The users an e-mail can be matched against (`mockUsers`). */
  const ShareableUsers: seq<User> := [
    User("user-2", "Jane Smith", "jane@example.com", Some("https://i.pravatar.cc/150?u=user-2")),
    User("user-3", "Bob Johnson", "bob@example.com", Some("https://i.pravatar.cc/150?u=user-3")),
    User("user-4", "Alice Williams", "alice@example.com", Some("https://i.pravatar.cc/150?u=user-4"))
  ]

  /** The users a permission row can be shown for: the signed-in user, then `mockUsers`. */
  const KnownUsers: seq<User> :=
    [User("user-1", "John Doe", "john@example.com", Some("https://i.pravatar.cc/150?u=user-1"))] + ShareableUsers

  /** The access levels the "Share" form offers: `'view' | 'edit'`. */
  type Grant = a: Access | a != Owner witness View

  /** A character `String.prototype.trim` removes: ECMAScript WhiteSpace and LineTerminator. */
  predicate IsJsWhitespace(c: char) {
    c == ' ' || c == '\t' || c == '\n' || c == '\r' || c == '\U{000B}' || c == '\U{000C}'
    || c == '\U{00A0}' || c == '\U{1680}' || ('\U{2000}' <= c <= '\U{200A}')
    || c == '\U{2028}' || c == '\U{2029}' || c == '\U{202F}' || c == '\U{205F}' || c == '\U{3000}'
    || c == '\U{FEFF}'
  }

  /** `!s.trim()`: nothing is left once whitespace is trimmed. */
  predicate IsBlank(s: string) {
    forall i | 0 <= i < |s| :: IsJsWhitespace(s[i])
  }

  /** `permissions.some(p => p.userId === userId)`. */
  predicate HasAccess(permissions: seq<FilePermission>, userId: string) {
    exists i :: 0 <= i < |permissions| && permissions[i].userId == userId
  }

  /** No user appears in two entries. */
  predicate UniqueUserIds(permissions: seq<FilePermission>) {
    forall i, j | 0 <= i < j < |permissions| :: permissions[i].userId != permissions[j].userId
  }

  /** `mockUsers.find(u => u.email === email)`: an exact match on the untrimmed input. */
  function UserByEmail(email: string): (r: Option<User>)
    ensures r.None? <==> forall u | u in ShareableUsers :: u.email != email
    ensures r.Some? ==> r.value in ShareableUsers && r.value.email == email
  {
    Find(ShareableUsers, (u: User) => u.email == email)
  }

  /** What pressing "Share" does. */
  datatype AddOutcome =
    | BlankEmail                              // returns before anything else
    | Invitation(email: string)               // the `alert` for an unknown address
    | AlreadyHasAccess                        // a known user with an entry already: nothing happens
    | Share(permissions: seq<FilePermission>) // `shareFile(file.id, permissions)`

  /** `handleAddUser`, for the permissions shown and the access level selected. */
  function AddUser(permissions: seq<FilePermission>, email: string, level: Grant): (r: AddOutcome)
    ensures r.BlankEmail? <==> IsBlank(email)
    ensures r.Invitation? <==> !IsBlank(email) && forall u | u in ShareableUsers :: u.email != email
    ensures r.Invitation? ==> r.email == email
    ensures r.AlreadyHasAccess? <==>
      !IsBlank(email) && exists u :: u in ShareableUsers && u.email == email && HasAccess(permissions, u.id)
    ensures r.Share? ==>
      exists u :: u in ShareableUsers && u.email == email && !HasAccess(permissions, u.id)
                  && r.permissions == permissions + [FilePermission(u.id, level)]
  {
    if IsBlank(email) then BlankEmail
    else
      match UserByEmail(email)
      case None => Invitation(email)
      case Some(user) =>
        if HasAccess(permissions, user.id) then AlreadyHasAccess
        else Share(permissions + [FilePermission(user.id, level)])
  }

  /**
   * A share appends exactly one entry, at the end, that is never an owner
   * entry, and keeps every earlier entry in place.
   */
  lemma AddAppendsOne(permissions: seq<FilePermission>, email: string, level: Grant)
    requires AddUser(permissions, email, level).Share?
    ensures var r := AddUser(permissions, email, level).permissions;
      |r| == |permissions| + 1 && r[..|permissions|] == permissions
      && r[|permissions|].access == level && r[|permissions|].access != Owner
  {
    var r := AddUser(permissions, email, level).permissions;
    assert r[..|permissions|] == permissions;
  }

  /** Adding keeps user ids unique: a user with an entry is never added again. */
  lemma AddKeepsUnique(permissions: seq<FilePermission>, email: string, level: Grant)
    requires UniqueUserIds(permissions)
    ensures var r := AddUser(permissions, email, level);
      r.Share? ==> UniqueUserIds(r.permissions)
  {
    var r := AddUser(permissions, email, level);
    if r.Share? {
      var u :| u in ShareableUsers && u.email == email && !HasAccess(permissions, u.id)
               && r.permissions == permissions + [FilePermission(u.id, level)];
      forall i, j | 0 <= i < j < |r.permissions| ensures r.permissions[i].userId != r.permissions[j].userId {
        if j == |permissions| {
          assert r.permissions[i] == permissions[i];
        }
      }
    }
  }

  /** `handleRemovePermission`: every entry of the user goes, the rest stay in order. */
  function RemovePermission(permissions: seq<FilePermission>, userId: string): (r: seq<FilePermission>)
    ensures forall p :: p in r <==> p in permissions && p.userId != userId
    ensures forall p :: multiset(r)[p] == if p.userId != userId then multiset(permissions)[p] else 0
    ensures !HasAccess(r, userId)
    ensures Sublist(r, permissions)
  {
    var r := Filter(permissions, (p: FilePermission) => p.userId != userId);
    assert forall i | 0 <= i < |r| :: r[i] in r;
    r
  }

  /** A sublist of a list with unique user ids has unique user ids. */
  lemma {:induction false} SublistKeepsUnique(a: seq<FilePermission>, b: seq<FilePermission>)
    requires Sublist(a, b) && UniqueUserIds(b)
    ensures UniqueUserIds(a)
    decreases |b|
  {
    if a != [] {
      assert UniqueUserIds(b[1..]) by {
        forall i, j | 0 <= i < j < |b[1..]| ensures b[1..][i].userId != b[1..][j].userId {
          assert b[1..][i] == b[i + 1] && b[1..][j] == b[j + 1];
        }
      }
      if a[0] == b[0] && Sublist(a[1..], b[1..]) {
        SublistKeepsUnique(a[1..], b[1..]);
        SublistMembers(a[1..], b[1..]);
        forall j | 0 < j < |a| ensures a[0].userId != a[j].userId {
          assert a[1..][j - 1] in a[1..];
          var k :| 0 <= k < |b[1..]| && b[1..][k] == a[j];
          assert b[k + 1] == a[j];
        }
      } else {
        SublistKeepsUnique(a, b[1..]);
      }
    }
  }

  /** Removing keeps user ids unique. */
  lemma RemoveKeepsUnique(permissions: seq<FilePermission>, userId: string)
    requires UniqueUserIds(permissions)
    ensures UniqueUserIds(RemovePermission(permissions, userId))
  {
    SublistKeepsUnique(RemovePermission(permissions, userId), permissions);
  }

  /** `handleUpdatePermission`: the access of the user's entries changes; nothing else does. */
  function UpdatePermission(permissions: seq<FilePermission>, userId: string, access: Access)
    : (r: seq<FilePermission>)
    ensures |r| == |permissions|
    ensures forall i | 0 <= i < |r| :: r[i].userId == permissions[i].userId
    ensures forall i | 0 <= i < |r| :: r[i].access == if permissions[i].userId == userId then access else permissions[i].access
  {
    Map(permissions, (p: FilePermission) => if p.userId == userId then p.(access := access) else p)
  }

  /** Updating keeps the sequence of user ids, so it keeps them unique. */
  lemma UpdateKeepsUnique(permissions: seq<FilePermission>, userId: string, access: Access)
    requires UniqueUserIds(permissions)
    ensures UniqueUserIds(UpdatePermission(permissions, userId, access))
  {
  }

  /** One line of "People with access": who it is and whether the select and remove button are offered. */
  datatype Row = Row(user: User, editable: bool)

  /** The row rendered for an entry; nothing for a user the modal does not know. */
  function PermissionRow(p: FilePermission): (r: Option<Row>)
    ensures r.None? <==> forall u | u in KnownUsers :: u.id != p.userId
    ensures r.Some? ==> r.value.user in KnownUsers && r.value.user.id == p.userId
    ensures r.Some? ==> (r.value.editable <==> p.access != Owner)
  {
    match Find(KnownUsers, (u: User) => u.id == p.userId)
    case None => None
    case Some(user) => Some(Row(user, p.access != Owner))
  }

  /** The owner's entry is shown without controls, so it can neither be removed nor downgraded from the list. */
  lemma OwnerRowLocked()
    ensures PermissionRow(FilePermission("user-1", Owner)) == Some(Row(KnownUsers[0], false))
  {
  }

  /** On the demo data, a blank address does nothing and an unknown one only sends an invitation. */
  lemma AddUserIgnored()
    ensures AddUser([FilePermission("user-1", Owner)], " \t", View) == BlankEmail
    ensures AddUser([FilePermission("user-1", Owner)], "nobody@example.com", View) == Invitation("nobody@example.com")
  {
    assert !IsBlank("nobody@example.com") by {
      assert !IsJsWhitespace("nobody@example.com"[0]);
    }
  }

  /** On the demo data, a known address is shared once, then reported as already shared. */
  lemma AddUserTwice()
    ensures AddUser([FilePermission("user-1", Owner)], "jane@example.com", Edit)
            == Share([FilePermission("user-1", Owner), FilePermission("user-2", Edit)])
    ensures AddUser([FilePermission("user-1", Owner), FilePermission("user-2", Edit)], "jane@example.com", View)
            == AlreadyHasAccess
  {
    assert UserByEmail("jane@example.com") == Some(ShareableUsers[0]);
    assert HasAccess([FilePermission("user-1", Owner), FilePermission("user-2", Edit)], "user-2") by {
      assert [FilePermission("user-1", Owner), FilePermission("user-2", Edit)][1].userId == "user-2";
    }
    assert !IsBlank("jane@example.com") by {
      assert !IsJsWhitespace("jane@example.com"[0]);
    }
  }
}
