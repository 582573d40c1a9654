/**
 * Backup naming and listing in the Dropbox backup service (`src/lib/services/dropbox.ts`).
 *
 * A backup of a session goes to `/<yyyy-mm-dd>/<title>_<id>.json` (or, for a manual
 * backup, `<title>_<id>_manual_<HHMMSS>.json`), the title sanitised first.  The Dropbox
 * client is reduced to whether one exists (the service is logged in) and the replies of
 * the folder listings, which are inputs here.  The clock is an input too: the ISO-8601
 * time of the upload and, for a manual backup, the local hours, minutes and seconds.
 */
module Dropbox {
  import opened Types
  import opened Text
  import opened Lists
  import opened Order

  const MaxTitleLength: nat := 50
  const UntitledTitle: string := "Untitled"
  const NotLoggedIn: string := "Not logged in"

  /** The characters the title may not keep: `\ / : * ? " < > |` and the control characters U+0000 to U+001F. */
  predicate Unsafe(c: char) {
    c in {'\\', '/', ':', '*', '?', '"', '<', '>', '|'} || c < ' '
  }

  predicate SafeChars(s: string) {
    forall i :: 0 <= i < |s| ==> !Unsafe(s[i])
  }

  /** Every unsafe character replaced by `_`. */
  function Sanitized(title: string): (r: string)
    ensures |r| == |title| && SafeChars(r)
    ensures forall i :: 0 <= i < |title| && !Unsafe(title[i]) ==> r[i] == title[i]
  {
    seq(|title|, i requires 0 <= i < |title| => if Unsafe(title[i]) then '_' else title[i])
  }

  /** The title part of the file name: sanitised, trimmed, cut to 50 characters, `Untitled` when nothing is left. */
  function SafeTitle(title: string): (r: string)
    ensures 0 < |r| <= MaxTitleLength
    ensures SafeChars(r)
  {
    var clean := Sanitized(title);
    var trimmed := Trim(clean);
    TrimKeepsSafe(clean);
    var cut := if |trimmed| <= MaxTitleLength then trimmed else trimmed[..MaxTitleLength];
    OrIfEmpty(cut, UntitledTitle)
  }

  /** `trim` only removes characters, so a safe string stays safe. */
  lemma TrimKeepsSafe(s: string)
    requires SafeChars(s)
    ensures SafeChars(Trim(s))
  {
    forall i | 0 <= i < |Trim(s)| ensures !Unsafe(Trim(s)[i]) {
      TrimIndex(s, i);
    }
  }

  /** A title that is already safe, trimmed and short enough names the file as it is. */
  lemma SafeTitleKeepsPlainTitle(title: string)
    requires 0 < |title| <= MaxTitleLength && SafeChars(title)
    requires !IsWs(title[0]) && !IsWs(title[|title| - 1])
    ensures SafeTitle(title) == title
  {
    assert Sanitized(title) == title;
    TrimUnchanged(title);
  }

  /** A title of white space alone gives `Untitled`. */
  lemma {:induction false} BlankTitleIsUntitled(title: string)
    requires forall i :: 0 <= i < |title| ==> IsWs(title[i]) && !Unsafe(title[i])
    ensures SafeTitle(title) == UntitledTitle
  {
    assert Sanitized(title) == title;
    AllWsTrimStart(title);
  }

  lemma {:induction false} AllWsTrimStart(s: string)
    requires forall i :: 0 <= i < |s| ==> IsWs(s[i])
    ensures TrimStart(s) == ""
    decreases |s|
  {
    if |s| > 0 {
      AllWsTrimStart(s[1..]);
    }
  }

  /** The local time of a manual backup, as `getHours`, `getMinutes` and `getSeconds` give it. */
  datatype ClockTime = ClockTime(hours: nat, minutes: nat, seconds: nat)

  predicate ValidTime(c: ClockTime) {
    c.hours < 24 && c.minutes < 60 && c.seconds < 60
  }

  /** `HHMMSS`, each field padded to two digits. */
  function TimeStamp(c: ClockTime): string {
    Pad2(c.hours) + Pad2(c.minutes) + Pad2(c.seconds)
  }

  /** The file name: `safeTitle_id.json`, with `_manual_HHMMSS` before the extension for a manual backup. */
  function FileName(safeTitle: string, id: Id, manual: Option<ClockTime>): string {
    safeTitle + "_" + id + Suffix(manual)
  }

  function Suffix(manual: Option<ClockTime>): string {
    match manual
    case None => ".json"
    case Some(c) => "_manual_" + TimeStamp(c) + ".json"
  }

  /** The date folder: the part of the ISO-8601 time before the first `T`. */
  function DateDir(isoTime: string): (r: string)
    ensures 'T' !in r
  {
    SplitChar(isoTime, 'T')[0]
  }

  /** The path a backup of the session is uploaded to. */
  function BackupPath(title: string, id: Id, isoTime: string, manual: Option<ClockTime>): string {
    "/" + DateDir(isoTime) + "/" + FileName(SafeTitle(title), id, manual)
  }

  /** `^\d{4}-\d{2}-\d{2}$`. */
  predicate IsDateName(name: string) {
    |name| == 10 && name[4] == '-' && name[7] == '-'
    && forall i :: 0 <= i < 10 && i != 4 && i != 7 ==> '0' <= name[i] <= '9'
  }

  /** The folder of an ISO-8601 time is its date, `yyyy-mm-dd`. */
  lemma DateDirOfIsoTime(isoTime: string)
    requires |isoTime| > 10 && isoTime[10] == 'T' && IsDateName(isoTime[..10])
    ensures DateDir(isoTime) == isoTime[..10] && IsDateName(DateDir(isoTime))
  {
    var i := IndexOf(isoTime, ['T']);
    assert OccursAt(isoTime, ['T'], 10);
    forall j | 0 <= j < 10 ensures !OccursAt(isoTime, ['T'], j) {
      assert isoTime[j..j + 1] == [isoTime[j]];
      assert isoTime[j] == isoTime[..10][j];
    }
    IndexOfIs(isoTime, ['T'], 10);
    SplitHead(isoTime, ['T']);
  }

  /** Two-digit padding tells numbers below 100 apart. */
  lemma Pad2Injective(a: nat, b: nat)
    requires a < 100 && b < 100 && Pad2(a) == Pad2(b)
    ensures a == b
  {
    assert DigitChar(a / 10) == DigitChar(b / 10) && DigitChar(a % 10) == DigitChar(b % 10);
  }

  /**
   * The upload overwrites a file of the same name, and the name alone keeps backups apart:
   * a manual backup never has the automatic backup's name, and manual backups taken at
   * different times of day have different names.
   */
  lemma ManualBackupsAreNewFiles(safeTitle: string, id: Id, c1: ClockTime, c2: ClockTime)
    requires ValidTime(c1) && ValidTime(c2)
    ensures FileName(safeTitle, id, Some(c1)) != FileName(safeTitle, id, None)
    ensures c1 != c2 ==> FileName(safeTitle, id, Some(c1)) != FileName(safeTitle, id, Some(c2))
  {
    TimeStampLength(c1);
    TimeStampLength(c2);
    if c1 != c2 {
      TimeStampInjective(c1, c2);
    }
    ManualNamesDiffer(safeTitle + "_" + id, TimeStamp(c1), TimeStamp(c2));
  }

  /** The name shapes of `FileName`, with the time stamps left abstract. */
  lemma ManualNamesDiffer(prefix: string, ts1: string, ts2: string)
    requires |ts1| == |ts2|
    ensures prefix + ("_manual_" + ts1 + ".json") != prefix + ".json"
    ensures ts1 != ts2 ==> prefix + ("_manual_" + ts1 + ".json") != prefix + ("_manual_" + ts2 + ".json")
  {
    assert |prefix + ("_manual_" + ts1 + ".json")| > |prefix + ".json"|;
    if ts1 != ts2 {
      MiddleDiffers(prefix + "_manual_", ts1, ts2, ".json");
      assert prefix + ("_manual_" + ts1 + ".json") == prefix + "_manual_" + ts1 + ".json";
      assert prefix + ("_manual_" + ts2 + ".json") == prefix + "_manual_" + ts2 + ".json";
    }
  }

  lemma TimeStampLength(c: ClockTime)
    requires ValidTime(c)
    ensures |TimeStamp(c)| == 6
  {
  }

  lemma MiddleDiffers(p: string, a: string, b: string, q: string)
    requires |a| == |b| && a != b
    ensures p + a + q != p + b + q
  {
    assert (p + a + q)[|p|..|p| + |a|] == a;
    assert (p + b + q)[|p|..|p| + |b|] == b;
  }

  lemma TimeStampInjective(c1: ClockTime, c2: ClockTime)
    requires ValidTime(c1) && ValidTime(c2) && c1 != c2
    ensures TimeStamp(c1) != TimeStamp(c2)
  {
    if TimeStamp(c1) == TimeStamp(c2) {
      assert Pad2(c1.hours) == TimeStamp(c1)[..2] && Pad2(c2.hours) == TimeStamp(c2)[..2];
      assert Pad2(c1.minutes) == TimeStamp(c1)[2..4] && Pad2(c2.minutes) == TimeStamp(c2)[2..4];
      assert Pad2(c1.seconds) == TimeStamp(c1)[4..] && Pad2(c2.seconds) == TimeStamp(c2)[4..];
      Pad2Injective(c1.hours, c2.hours);
      Pad2Injective(c1.minutes, c2.minutes);
      Pad2Injective(c1.seconds, c2.seconds);
    }
  }

  /**
   * The upload path splits back at `/` into the date folder and the file name, when the
   * session id holds no `/` (the title cannot: it is sanitised).
   */
  lemma BackupPathSplits(title: string, id: Id, isoTime: string, manual: Option<ClockTime>)
    requires '/' !in id && '/' !in DateDir(isoTime)
    ensures var name := FileName(SafeTitle(title), id, manual);
      && SplitChar(BackupPath(title, id, isoTime, manual), '/') == ["", DateDir(isoTime), name]
      && EndsWith(name, ".json") && StartsWith(name, SafeTitle(title) + "_" + id)
  {
    var t := SafeTitle(title);
    assert '/' !in t;
    FileNameShape(t, id, manual);
    SlashPathSplits(DateDir(isoTime), FileName(t, id, manual));
  }

  /** `/dir/name` splits at `/` into an empty head, `dir` and `name` when neither holds a `/`. */
  lemma SlashPathSplits(dir: string, name: string)
    requires '/' !in dir && '/' !in name
    ensures SplitChar("/" + dir + "/" + name, '/') == ["", dir, name]
  {
    var parts := ["", dir, name];
    assert parts[1..] == [dir, name] && parts[1..][1..] == [name];
    assert Join(parts[1..], "/") == dir + "/" + name;
    assert Join(parts, "/") == "" + "/" + (dir + "/" + name);
    assert Join(parts, "/") == "/" + dir + "/" + name;
    SplitJoinChar(parts, '/');
  }

  /** A file name starts with the title and the id, ends in `.json`, and adds no `/` of its own. */
  lemma FileNameShape(safeTitle: string, id: Id, manual: Option<ClockTime>)
    ensures var name := FileName(safeTitle, id, manual);
      && EndsWith(name, ".json") && StartsWith(name, safeTitle + "_" + id)
      && ('/' !in safeTitle && '/' !in id ==> '/' !in name)
  {
    var prefix := safeTitle + "_" + id;
    SuffixShape(manual);
    StartsWithAppend(prefix, Suffix(manual));
    EndsWithAppend(prefix, Suffix(manual), ".json");
  }

  lemma SuffixShape(manual: Option<ClockTime>)
    ensures '/' !in Suffix(manual) && EndsWith(Suffix(manual), ".json")
  {
    if manual.Some? {
      TimeStampDigits(manual.value);
      ManualSuffixShape(TimeStamp(manual.value));
    }
  }

  lemma ManualSuffixShape(ts: string)
    requires '/' !in ts
    ensures '/' !in "_manual_" + ts + ".json" && EndsWith("_manual_" + ts + ".json", ".json")
  {
    EndsWithAppend("_manual_" + ts, ".json", ".json");
  }

  lemma TimeStampDigits(c: ClockTime)
    ensures forall k :: 0 <= k < |TimeStamp(c)| ==> '0' <= TimeStamp(c)[k] <= '9'
    ensures '/' !in TimeStamp(c)
  {
    var h, m, s := Pad2(c.hours), Pad2(c.minutes), Pad2(c.seconds);
    var ts := TimeStamp(c);
    forall k | 0 <= k < |ts| ensures '0' <= ts[k] <= '9' {
      if k < |h| {
        assert ts[k] == h[k];
      } else if k < |h| + |m| {
        assert ts[k] == m[k - |h|];
      } else {
        assert ts[k] == s[k - |h| - |m|];
      }
    }
    assert '/' !in ts;
  }

  /* ---------------- folder listings ---------------- */

  datatype EntryTag = FolderEntry | FileEntry | DeletedEntry

  /** An entry of `filesListFolder`: its `.tag`, `name` and `path_lower`. */
  datatype Entry = Entry(tag: EntryTag, name: string, pathLower: string)

  /** What `filesListFolder` answers: the entries, or a thrown error. */
  datatype ListReply = Listed(entries: seq<Entry>) | ListFailed

  /** A backup file found in a date folder. */
  datatype BackupFileEntry = BackupFileEntry(name: string, path: string)

  predicate IsDateFolder(e: Entry) {
    e.tag == FolderEntry && IsDateName(e.name)
  }

  function Names(entries: seq<Entry>): (r: seq<string>)
    ensures |r| == |entries| && forall i :: 0 <= i < |r| ==> r[i] == entries[i].name
  {
    if |entries| == 0 then [] else [entries[0].name] + Names(entries[1..])
  }

  function NameOf(s: string): string {
    s
  }

  /** The date folders of a listing, newest first (`b.localeCompare(a)`). */
  function DateFolders(entries: seq<Entry>): seq<string> {
    SortBy(Names(Filter(entries, IsDateFolder)), NameOf, true)
  }

  /**
   * The date folders are exactly the names of the folder entries shaped `yyyy-mm-dd`,
   * and they come newest first.
   */
  lemma DateFoldersSpec(entries: seq<Entry>)
    ensures var r := DateFolders(entries);
      && (forall name :: name in r <==> exists e :: e in entries && e.tag == FolderEntry && e.name == name && IsDateName(name))
      && forall i, j :: 0 <= i < j < |r| ==> Le(r[j], r[i])
  {
    var kept := Filter(entries, IsDateFolder);
    var names := Names(kept);
    var r := DateFolders(entries);
    SortByMembers(names, NameOf, true);
    SortBySorted(names, NameOf, true);
    forall name ensures name in r <==> exists e :: e in entries && e.tag == FolderEntry && e.name == name && IsDateName(name) {
      if name in r {
        var i :| 0 <= i < |names| && names[i] == name;
        assert kept[i] in entries && IsDateFolder(kept[i]);
      }
      if exists e :: e in entries && e.tag == FolderEntry && e.name == name && IsDateName(name) {
        var e :| e in entries && e.tag == FolderEntry && e.name == name && IsDateName(name);
        var j :| 0 <= j < |entries| && entries[j] == e;
        assert IsDateFolder(entries[j]);
        var i :| 0 <= i < |kept| && kept[i] == e;
        assert names[i] == name;
      }
    }
  }

  /** The backup files of a date folder: the entries whose name ends in `.json`, in listing order. */
  function JsonFiles(entries: seq<Entry>): (r: seq<BackupFileEntry>)
    ensures |r| <= |entries|
    ensures forall i :: 0 <= i < |r| ==> EndsWith(r[i].name, ".json")
  {
    if |entries| == 0 then []
    else
      var rest := JsonFiles(entries[1..]);
      if EndsWith(entries[0].name, ".json") then [BackupFileEntry(entries[0].name, entries[0].pathLower)] + rest else rest
  }

  /** Every `.json` entry of the listing is offered, whatever its tag. */
  lemma {:induction false} JsonFilesComplete(entries: seq<Entry>)
    ensures forall e :: e in entries && EndsWith(e.name, ".json") ==> BackupFileEntry(e.name, e.pathLower) in JsonFiles(entries)
    ensures forall f :: f in JsonFiles(entries) ==> exists e :: e in entries && f == BackupFileEntry(e.name, e.pathLower)
    decreases |entries|
  {
    if |entries| > 0 {
      JsonFilesComplete(entries[1..]);
      forall e | e in entries && EndsWith(e.name, ".json")
        ensures BackupFileEntry(e.name, e.pathLower) in JsonFiles(entries)
      {
        if e != entries[0] {
          assert e in entries[1..];
        }
      }
      forall f | f in JsonFiles(entries)
        ensures exists e :: e in entries && f == BackupFileEntry(e.name, e.pathLower)
      {
        if f != BackupFileEntry(entries[0].name, entries[0].pathLower) {
          assert f in JsonFiles(entries[1..]);
          var e :| e in entries[1..] && f == BackupFileEntry(e.name, e.pathLower);
          assert e in entries;
        }
      }
    }
  }

  /** A backup uploaded today lands in a folder the date listing shows. */
  lemma UploadFolderIsListed(title: string, id: Id, isoTime: string, manual: Option<ClockTime>, entries: seq<Entry>)
    requires |isoTime| > 10 && isoTime[10] == 'T' && IsDateName(isoTime[..10])
    requires Entry(FolderEntry, DateDir(isoTime), "/" + DateDir(isoTime)) in entries
    ensures StartsWith(BackupPath(title, id, isoTime, manual), "/" + isoTime[..10] + "/")
    ensures isoTime[..10] in DateFolders(entries)
  {
    DateDirOfIsoTime(isoTime);
    DateFoldersSpec(entries);
    var path := BackupPath(title, id, isoTime, manual);
    assert path[..12] == "/" + isoTime[..10] + "/";
  }

  /* ---------------- the service ---------------- */

  /** What `filesUpload` does with the backup: it is written, or the call throws. */
  datatype UploadReply = Uploaded | UploadFailed(message: string)

  class DropboxService {
    /** The access token the Dropbox client was built with; `None` while logged out. */
    var client: Option<string>

    /** `initializeFromStorage`: a client exists when a non-empty token was stored. */
    constructor(storedToken: Option<string>)
      ensures client == if Present(storedToken) then storedToken else None
    {
      if Present(storedToken) {
        client := storedToken;
      } else {
        client := None;
      }
    }

    /** `get isLoggedIn`: `!!this.dbx`. */
    function IsLoggedIn(): (r: bool)
      reads this
      ensures r <==> client.Some?
    {
      client.Some?
    }

    /** `logout`: the stored tokens are removed and the client dropped. */
    method Logout()
      modifies this
      ensures !IsLoggedIn()
    {
      client := None;
    }

    /**
     * `uploadSession`: the path the backup is written to, `Not logged in` without a
     * client, or the error the upload threw.
     */
    method UploadSession(title: string, id: Id, isoTime: string, manual: Option<ClockTime>, upload: UploadReply)
      returns (r: Result<string>)
      ensures client.None? ==> r == Err(NotLoggedIn)
      ensures client.Some? && upload.UploadFailed? ==> r == Err(upload.message)
      ensures client.Some? && upload.Uploaded? ==> r == Ok(BackupPath(title, id, isoTime, manual))
    {
      if client.None? {
        return Err(NotLoggedIn);
      }
      var dateDir := DateDir(isoTime);
      var safeTitle := SafeTitle(title);
      var fileName := FileName(safeTitle, id, None);
      if manual.Some? {
        fileName := FileName(safeTitle, id, manual);
      }
      var path := "/" + dateDir + "/" + fileName;
      match upload
      case Uploaded => r := Ok(path);
      case UploadFailed(message) => r := Err(message);
    }

    /** `listDateFolders`: the date folders newest first; none while logged out or when the listing fails. */
    method ListDateFolders(reply: ListReply) returns (r: seq<string>)
      ensures client.None? || reply.ListFailed? ==> r == []
      ensures client.Some? && reply.Listed? ==> r == DateFolders(reply.entries)
    {
      if client.None? {
        return [];
      }
      match reply
      case ListFailed => r := [];
      case Listed(entries) => r := DateFolders(entries);
    }

    /**
     * `listSessionsInDate`: the folder it lists (`/` and the date) and the `.json` entries
     * found there; none while logged out or when the listing fails.
     */
    method ListSessionsInDate(dateFolder: string, reply: ListReply) returns (folder: Option<string>, r: seq<BackupFileEntry>)
      ensures client.None? ==> folder == None && r == []
      ensures client.Some? ==> folder == Some("/" + dateFolder)
      ensures client.Some? && reply.Listed? ==> r == JsonFiles(reply.entries)
      ensures reply.ListFailed? ==> r == []
    {
      if client.None? {
        return None, [];
      }
      folder := Some("/" + dateFolder);
      match reply
      case ListFailed => r := [];
      case Listed(entries) => r := JsonFiles(entries);
    }
  }
}
