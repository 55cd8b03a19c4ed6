/**
 * The pure string helpers of src/utils/formatters.ts: the two MIME-type
 * classifiers and middle-ellipsis truncation, with JavaScript's string
 * `startsWith`, `includes` and `slice` written out.
 */
module Formatters {

  /** `s.startsWith(prefix)`. */
  predicate StartsWith(s: string, prefix: string) {
    |prefix| <= |s| && s[..|prefix|] == prefix
  }

  /** `s.includes(sub)`: `sub` starts at some position of `s`. */
  predicate Includes(s: string, sub: string)
    decreases |s|
  {
    StartsWith(s, sub) || (s != [] && Includes(s[1..], sub))
  }

  /** `sub` occurs in `s` starting at position `i`. */
  predicate OccursAt(s: string, sub: string, i: int) {
    0 <= i && i + |sub| <= |s| && s[i..i + |sub|] == sub
  }

  /** `Includes` agrees with the positional reading of `includes`, in both directions. */
  lemma {:induction false} IncludesIff(s: string, sub: string)
    ensures Includes(s, sub) <==> exists i :: OccursAt(s, sub, i)
    decreases |s|
  {
    if StartsWith(s, sub) {
      assert OccursAt(s, sub, 0);
    } else if s != [] {
      IncludesIff(s[1..], sub);
      if Includes(s[1..], sub) {
        var i :| OccursAt(s[1..], sub, i);
        assert s[i + 1..i + 1 + |sub|] == s[1..][i..i + |sub|];
        assert OccursAt(s, sub, i + 1);
      }
      if exists i :: OccursAt(s, sub, i) {
        var i :| OccursAt(s, sub, i);
        assert i > 0;
        assert s[1..][i - 1..i - 1 + |sub|] == s[i..i + |sub|];
        assert OccursAt(s[1..], sub, i - 1);
      }
    }
  }

  /** `sub` found at position `i` of `s` means `s.includes(sub)`. */
  lemma IncludesAt(s: string, sub: string, i: nat)
    requires OccursAt(s, sub, i)
    ensures Includes(s, sub)
  {
    IncludesIff(s, sub);
  }

  /** A non-empty `sub` is not in `s` when it is longer than `s` or its first character never occurs in `s`. */
  lemma NotIncluded(s: string, sub: string)
    requires sub != []
    requires |sub| > |s| || forall i | 0 <= i < |s| :: s[i] != sub[0]
    ensures !Includes(s, sub)
  {
    IncludesIff(s, sub);
    forall i ensures !OccursAt(s, sub, i) {
      if 0 <= i && i + |sub| <= |s| {
        assert s[i..i + |sub|][0] == s[i];
      }
    }
  }

  /** The folder type contains none of the document markers, so it never reaches those branches. */
  lemma FolderIsNoDocument()
    ensures !Includes("folder", "pdf") && !Includes("folder", "word") && !Includes("folder", "document")
  {
    NotIncluded("folder", "pdf");
    NotIncluded("folder", "word");
    NotIncluded("folder", "document");
  }

  /** The icon names `getFileIcon` can return. */
  const IconNames: set<string> :=
    {"Folder", "Image", "Video", "Music", "FileText", "Table", "Presentation", "Archive", "File"}

  /** `getFileColor`: the first matching branch decides the Tailwind colour class. */
  function GetFileColor(t: string): (r: string)
    ensures r in {"text-blue-500", "text-purple-500", "text-pink-500", "text-green-500", "text-red-500",
                  "text-blue-600", "text-green-600", "text-orange-500", "text-gray-500"}
  {
    if t == "folder" then "text-blue-500"
    else if StartsWith(t, "image/") then "text-purple-500"
    else if StartsWith(t, "video/") then "text-pink-500"
    else if StartsWith(t, "audio/") then "text-green-500"
    else if Includes(t, "pdf") then "text-red-500"
    else if Includes(t, "word") || Includes(t, "document") then "text-blue-600"
    else if Includes(t, "excel") || Includes(t, "sheet") then "text-green-600"
    else if Includes(t, "powerpoint") || Includes(t, "presentation") then "text-orange-500"
    else "text-gray-500"
  }

  /** `getFileIcon`: the same tests in the same order, plus an archive branch before the fallback. */
  function GetFileIcon(t: string): (r: string)
    ensures r in IconNames
  {
    if t == "folder" then "Folder"
    else if StartsWith(t, "image/") then "Image"
    else if StartsWith(t, "video/") then "Video"
    else if StartsWith(t, "audio/") then "Music"
    else if Includes(t, "pdf") then "FileText"
    else if Includes(t, "word") || Includes(t, "document") then "FileText"
    else if Includes(t, "excel") || Includes(t, "sheet") then "Table"
    else if Includes(t, "powerpoint") || Includes(t, "presentation") then "Presentation"
    else if Includes(t, "zip") || Includes(t, "archive") then "Archive"
    else "File"
  }

  /** Only the exact type `'folder'` is a folder: no prefix or substring test reaches either answer. */
  lemma FolderOnlyOnExactMatch(t: string)
    ensures GetFileIcon(t) == "Folder" <==> t == "folder"
    ensures GetFileColor(t) == "text-blue-500" <==> t == "folder"
  {
  }

  /**
   * The two classifiers agree branch by branch, in both directions: each icon
   * goes with exactly the colours listed beside it.
   */
  lemma IconColourAgree(t: string)
    ensures GetFileIcon(t) == "Folder" <==> GetFileColor(t) == "text-blue-500"
    ensures GetFileIcon(t) == "Image" <==> GetFileColor(t) == "text-purple-500"
    ensures GetFileIcon(t) == "Video" <==> GetFileColor(t) == "text-pink-500"
    ensures GetFileIcon(t) == "Music" <==> GetFileColor(t) == "text-green-500"
    ensures GetFileIcon(t) == "FileText" <==> GetFileColor(t) in {"text-red-500", "text-blue-600"}
    ensures GetFileIcon(t) == "Table" <==> GetFileColor(t) == "text-green-600"
    ensures GetFileIcon(t) == "Presentation" <==> GetFileColor(t) == "text-orange-500"
    ensures GetFileIcon(t) in {"Archive", "File"} <==> GetFileColor(t) == "text-gray-500"
  {
    if t == "folder" || StartsWith(t, "image/") || StartsWith(t, "video/") || StartsWith(t, "audio/") {
    } else if Includes(t, "pdf") || Includes(t, "word") || Includes(t, "document") {
      assert GetFileIcon(t) == "FileText";
    } else {
      assert GetFileColor(t) !in {"text-blue-500", "text-purple-500", "text-pink-500", "text-green-500", "text-red-500", "text-blue-600"};
    }
  }

  /** No earlier branch of the two classifiers applies to `t`. */
  predicate PastMediaBranches(t: string) {
    t != "folder" && !StartsWith(t, "image/") && !StartsWith(t, "video/") && !StartsWith(t, "audio/")
  }

  /**
   * First match wins: a type naming both a document and a sheet (as the
   * OOXML spreadsheet type does) is a document, never a table.
   */
  lemma DocumentBeforeSheet(t: string)
    requires PastMediaBranches(t) && !Includes(t, "pdf")
    requires Includes(t, "document") && Includes(t, "sheet")
    ensures GetFileIcon(t) == "FileText" && GetFileColor(t) == "text-blue-600"
  {
  }

  /** An archive type (zip or archive) gets the Archive icon but the fallback grey colour: the colour has no archive branch. */
  lemma ArchiveHasNoColour(t: string)
    requires PastMediaBranches(t)
    requires !Includes(t, "pdf") && !Includes(t, "word") && !Includes(t, "document")
    requires !Includes(t, "excel") && !Includes(t, "sheet")
    requires !Includes(t, "powerpoint") && !Includes(t, "presentation")
    requires Includes(t, "zip") || Includes(t, "archive")
    ensures GetFileIcon(t) == "Archive" && GetFileColor(t) == "text-gray-500"
  {
  }

  /**
   * The position `String.prototype.slice` starts or ends at for argument `i`
   * on a string of length `len`: a negative argument counts from the end,
   * and the result is clamped to `0..len`. `-0` is `0`.
   */
  function SliceIndex(i: int, len: nat): (r: nat)
    ensures r <= len
    ensures 0 <= i <= len ==> r == i
    ensures i < 0 && 0 <= len + i ==> r == len + i
    ensures len + i < 0 ==> r == 0
    ensures len < i ==> r == len
  {
    if i < 0 then (if len + i < 0 then 0 else len + i)
    else if i > len then len
    else i
  }

  /** `s.slice(start, end)`. */
  function Slice(s: string, start: int, end: int): (r: string)
    ensures |r| <= |s|
  {
    var from, to := SliceIndex(start, |s|), SliceIndex(end, |s|);
    if from < to then s[from..to] else []
  }

  /** `Math.floor(maxLength / 2)`: Dafny's division by a positive divisor rounds down. */
  function Half(maxLength: int): (h: int)
    ensures 2 * h <= maxLength < 2 * h + 2
  {
    maxLength / 2
  }

  /**
   * `truncateString`: a string within the limit comes back as it is; a longer
   * one becomes a prefix of it, `"..."`, and a suffix of it.
   */
  function TruncateString(str: string, maxLength: int): (r: string)
    ensures |str| <= maxLength ==> r == str
    ensures |str| > maxLength ==>
      var p, q := SliceIndex(Half(maxLength), |str|), SliceIndex(-Half(maxLength), |str|);
      r == str[..p] + "..." + str[q..]
  {
    if |str| <= maxLength then str
    else
      var half := Half(maxLength);
      Slice(str, 0, half) + "..." + Slice(str, -half, |str|)
  }

  /**
   * A longer string, for a limit of at least 2: the first and last `half`
   * characters around `"..."`. The result is two or three characters LONGER
   * than the limit, never within it.
   */
  lemma TruncateLong(str: string, maxLength: int)
    requires 2 <= maxLength < |str|
    ensures var half := maxLength / 2;
      && TruncateString(str, maxLength) == str[..half] + "..." + str[|str| - half..]
      && |TruncateString(str, maxLength)| == 2 * half + 3
      && maxLength + 2 <= |TruncateString(str, maxLength)| <= maxLength + 3
  {
    var half := Half(maxLength);
    assert SliceIndex(half, |str|) == half && SliceIndex(-half, |str|) == |str| - half;
  }

  /** With a limit of 0 or 1 the half is 0, `slice(-0)` is the whole string, and the result is `"..." + str`. */
  lemma TruncateTiny(str: string, maxLength: int)
    requires 0 <= maxLength <= 1 && maxLength < |str|
    ensures TruncateString(str, maxLength) == "..." + str
  {
    assert str[0..|str|] == str;
  }

  /** A negative limit makes the halves count from the other end: every string is "truncated". */
  lemma TruncateNegative(str: string, maxLength: int)
    requires maxLength < 0
    ensures var half := maxLength / 2;
      var cut := if |str| + half < 0 then 0 else |str| + half;
      var from := if -half > |str| then |str| else -half;
      TruncateString(str, maxLength) == str[..cut] + "..." + str[from..]
  {
  }

  /** A limit one short of the length makes the "truncated" string longer than the original. */
  lemma TruncateCanLengthen()
    ensures TruncateString("abcdef", 5) == "ab...ef"
    ensures |TruncateString("abcdef", 5)| > |"abcdef"|
  {
    TruncateLong("abcdef", 5);
  }
}
