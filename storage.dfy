/**
 * The blob-store adapter of storage.py: the per-user folder derived from an
 * e-mail address, the object path `folder/timestamp_filename` under which an
 * attachment is uploaded to the "attachments" bucket, and the listing of a
 * user's folder as (name, public URL) pairs that degrades to an empty list on
 * any failure.
 *
 * The bucket itself is a log of written objects; the UTC clock read by
 * `datetime.utcnow()` is an argument of the upload.
 */
module Storage {
  import opened Wrappers
  import opened Base64Url

  // ---------------------------------------------------------------------------
  // Folder of a user: every '@' becomes "_at_"

  /** The text that replaces one character of an e-mail address in its folder name. */
  function FolderChar(c: char): string
  {
    if c == '@' then "_at_" else [c]
  }

  /** The folder that namespaces a user's objects. */
  function Folder(email: string): (f: string)
    ensures '@' !in f
    ensures '@' !in email ==> f == email
    ensures |f| >= |email|
    decreases |email|
  {
    if email == [] then ""
    else FolderChar(email[0]) + Folder(email[1..])
  }

  /** Folder names are built character by character, so they distribute over concatenation. */
  lemma {:induction false} FolderAppend(a: string, b: string)
    ensures Folder(a + b) == Folder(a) + Folder(b)
    decreases |a|
  {
    if a == [] {
      assert a + b == b;
    } else {
      assert (a + b)[1..] == a[1..] + b;
      FolderAppend(a[1..], b);
    }
  }

  /** The folder of an address `local@domain` with no other '@' is `local_at_domain`. */
  lemma FolderOfAddress(local: string, domain: string)
    requires '@' !in local && '@' !in domain
    ensures Folder(local + "@" + domain) == local + "_at_" + domain
  {
    var at: string := "@";
    assert at[0] == '@' && at[1..] == [];
    assert Folder(at) == "_at_";
    FolderAppend(local, at);
    assert Folder(local + at) == local + "_at_";
    FolderAppend(local + at, domain);
  }

  /**
   * Namespace isolation: two addresses with one '@' each and no '_' in the
   * domain (as host names have none) never share a folder.
   */
  lemma FolderSeparatesAddresses(local1: string, domain1: string, local2: string, domain2: string)
    requires '@' !in local1 && '@' !in domain1 && '_' !in domain1
    requires '@' !in local2 && '@' !in domain2 && '_' !in domain2
    requires Folder(local1 + "@" + domain1) == Folder(local2 + "@" + domain2)
    ensures local1 == local2 && domain1 == domain2
  {
    FolderOfAddress(local1, domain1);
    FolderOfAddress(local2, domain2);
    LastUnderscore(local1, domain1);
    LastUnderscore(local2, domain2);
    var s := local1 + "_at_" + domain1;
    assert s == local2 + "_at_" + domain2;
    assert |local1| == |local2|;
    assert local1 == s[..|local1|] == local2;
    assert domain1 == s[|local1| + 4..] == domain2;
  }

  /** In `local_at_domain` with no '_' in the domain, the last '_' is the one closing "_at_". */
  lemma LastUnderscore(local: string, domain: string)
    requires '_' !in domain
    ensures (local + "_at_" + domain)[|local| + 3] == '_'
    ensures forall k :: |local| + 3 < k < |local| + 4 + |domain| ==> (local + "_at_" + domain)[k] != '_'
  {
    var s := local + "_at_" + domain;
    forall k | |local| + 3 < k < |s|
      ensures s[k] != '_'
    {
      assert s[k] == domain[k - |local| - 4];
      assert domain[k - |local| - 4] in domain;
    }
  }

  /** Without the domain restriction the folders of two different addresses can coincide. */
  lemma FolderCollision()
    ensures "x" + "@" + "y_at_z" != "x_at_y" + "@" + "z"
    ensures Folder("x" + "@" + "y_at_z") == Folder("x_at_y" + "@" + "z")
  {
    assert ("x" + "@" + "y_at_z")[1] != ("x_at_y" + "@" + "z")[1];
    var d, l := "y_at_z", "x_at_y";
    forall i | 0 <= i < 6 ensures d[i] != '@' && l[i] != '@' { }
    FolderOfAddress("x", d);
    FolderOfAddress(l, "z");
    assert "x" + "_at_" + d == l + "_at_" + "z";
  }

  // ---------------------------------------------------------------------------
  // The UTC second of an upload and its strftime("%Y%m%d_%H%M%S") text

  datatype UtcTime = UtcTime(year: int, month: int, day: int, hour: int, minute: int, second: int)

  /** The readings `datetime.utcnow()` gives from year 1000 on (four-digit years). */
  predicate InRange(t: UtcTime)
  {
    && 1000 <= t.year <= 9999 && 1 <= t.month <= 12 && 1 <= t.day <= 31
    && 0 <= t.hour <= 23 && 0 <= t.minute <= 59 && 0 <= t.second <= 59
  }

  type Instant = t: UtcTime | InRange(t) witness UtcTime(1970, 1, 1, 0, 0, 0)

  function Pow10(n: nat): (p: nat)
    ensures p >= 1
  {
    if n == 0 then 1 else 10 * Pow10(n - 1)
  }

  predicate IsDigit(c: char)
  {
    '0' <= c <= '9'
  }

  /** `n` in decimal, zero-filled to `width` characters. */
  function Digits(n: nat, width: nat): (s: string)
    requires n < Pow10(width)
    ensures |s| == width
    ensures forall i :: 0 <= i < |s| ==> IsDigit(s[i])
  {
    if width == 0 then ""
    else Digits(n / 10, width - 1) + [('0' as int + n % 10) as char]
  }

  /** The number a string of decimal digits denotes. */
  function DigitsValue(s: string): nat
    requires forall i :: 0 <= i < |s| ==> IsDigit(s[i])
  {
    if s == [] then 0
    else
      assert IsDigit(s[|s| - 1]);
      DigitsValue(s[..|s| - 1]) * 10 + (s[|s| - 1] as int - '0' as int)
  }

  lemma {:induction false} DigitsValueOfDigits(n: nat, width: nat)
    requires n < Pow10(width)
    ensures DigitsValue(Digits(n, width)) == n
  {
    if width > 0 {
      var s := Digits(n, width);
      assert s[..|s| - 1] == Digits(n / 10, width - 1);
      DigitsValueOfDigits(n / 10, width - 1);
    }
  }

  /** The date half of the timestamp, `YYYYmmdd`. */
  function DatePart(t: Instant): (s: string)
    ensures |s| == 8 && forall i :: 0 <= i < 8 ==> IsDigit(s[i])
  {
    Digits(t.year, 4) + Digits(t.month, 2) + Digits(t.day, 2)
  }

  /** The time half of the timestamp, `HHMMSS`. */
  function TimePart(t: Instant): (s: string)
    ensures |s| == 6 && forall i :: 0 <= i < 6 ==> IsDigit(s[i])
  {
    Digits(t.hour, 2) + Digits(t.minute, 2) + Digits(t.second, 2)
  }

  /** The fixed-width timestamp of an upload, `YYYYmmdd_HHMMSS`. */
  function Stamp(t: Instant): (s: string)
    ensures |s| == 15 && s[8] == '_'
    ensures forall i :: 0 <= i < 15 && i != 8 ==> IsDigit(s[i])
  {
    DatePart(t) + "_" + TimePart(t)
  }

  /** Reads the six fields back from a timestamp. */
  function ParseStamp(s: string): UtcTime
    requires |s| == 15
    requires forall i :: 0 <= i < 15 && i != 8 ==> IsDigit(s[i])
  {
    UtcTime(DigitsValue(s[0..4]), DigitsValue(s[4..6]), DigitsValue(s[6..8]),
            DigitsValue(s[9..11]), DigitsValue(s[11..13]), DigitsValue(s[13..15]))
  }

  /** The timestamp text determines the second it was taken from. */
  lemma ParseStampOfStamp(t: Instant)
    ensures ParseStamp(Stamp(t)) == t
  {
    var s, date, time := Stamp(t), DatePart(t), TimePart(t);
    assert s[..8] == date && s[9..] == time;
    assert s[0..4] == date[0..4] == Digits(t.year, 4);
    assert s[4..6] == date[4..6] == Digits(t.month, 2);
    assert s[6..8] == date[6..8] == Digits(t.day, 2);
    assert s[9..11] == time[0..2] == Digits(t.hour, 2);
    assert s[11..13] == time[2..4] == Digits(t.minute, 2);
    assert s[13..15] == time[4..6] == Digits(t.second, 2);
    DigitsValueOfDigits(t.year, 4);
    DigitsValueOfDigits(t.month, 2);
    DigitsValueOfDigits(t.day, 2);
    DigitsValueOfDigits(t.hour, 2);
    DigitsValueOfDigits(t.minute, 2);
    DigitsValueOfDigits(t.second, 2);
  }

  // ---------------------------------------------------------------------------
  // Object paths

  /** The object's name inside the user's folder. */
  function ObjectName(at: Instant, filename: string): string
  {
    Stamp(at) + "_" + filename
  }

  /** The storage path `folder/timestamp_filename` of an upload. */
  function ObjectPath(email: string, at: Instant, filename: string): string
  {
    Folder(email) + "/" + ObjectName(at, filename)
  }

  /**
   * The path lies in the user's folder, and its name there is the 15-character
   * timestamp, an underscore and the original filename.
   */
  lemma ObjectPathShape(email: string, at: Instant, filename: string)
    ensures var p, f := ObjectPath(email, at, filename), Folder(email);
      && |p| == |f| + 17 + |filename|
      && p[..|f| + 1] == f + "/"
      && p[|f| + 1..] == ObjectName(at, filename)
      && p[|f| + 1..|f| + 16] == Stamp(at)
      && p[|f| + 16] == '_'
      && p[|f| + 17..] == filename
  {
    var p, f, n := ObjectPath(email, at, filename), Folder(email), ObjectName(at, filename);
    assert p[|f| + 1..] == n;
    assert n[..15] == Stamp(at) && n[15] == '_' && n[16..] == filename;
    assert p[|f| + 1..|f| + 16] == n[..15];
  }

  /**
   * Within one user's folder the path is a function of the upload second and
   * the filename and determines both: two uploads collide exactly when they
   * carry the same filename in the same second.
   */
  lemma ObjectPathDetermines(email: string, at1: Instant, filename1: string, at2: Instant, filename2: string)
    ensures ObjectPath(email, at1, filename1) == ObjectPath(email, at2, filename2)
        <==> at1 == at2 && filename1 == filename2
  {
    if ObjectPath(email, at1, filename1) == ObjectPath(email, at2, filename2) {
      ObjectPathShape(email, at1, filename1);
      ObjectPathShape(email, at2, filename2);
      ParseStampOfStamp(at1);
      ParseStampOfStamp(at2);
    }
  }

  // ---------------------------------------------------------------------------
  // The bucket

  datatype StoredObject = StoredObject(path: string, data: seq<Byte>)

  /** The "attachments" bucket, as the sequence of objects written to it. */
  class Bucket {
    var objects: seq<StoredObject>

    constructor ()
      ensures objects == []
    {
      objects := [];
    }

    /** Uploads `data` for `email` at the UTC second `at` under the derived path. */
    method Upload(email: string, at: Instant, filename: string, data: seq<Byte>)
      modifies this
      ensures objects == old(objects) + [StoredObject(ObjectPath(email, at, filename), data)]
    {
      var folder := Folder(email);
      var timestamp := Stamp(at);
      var path := folder + "/" + timestamp + "_" + filename;
      assert path == ObjectPath(email, at, filename);
      objects := objects + [StoredObject(path, data)];
    }
  }

  // ---------------------------------------------------------------------------
  // Listing a user's files

  /** What the bucket's list call gave for a folder: it raised, or one entry per object, each with or without a name. */
  datatype Listing = ListRaised | Listed(entries: seq<Option<string>>)

  /** The bucket's list call, as a function of the folder it is asked for. */
  type ListCall = string -> Listing

  datatype FileEntry = FileEntry(name: string, url: string)

  const PublicPath: string := "/storage/v1/object/public/attachments/"

  /** The public URL of object `name` in `folder`. */
  function PublicUrl(baseUrl: string, folder: string, name: string): string
  {
    baseUrl + PublicPath + folder + "/" + name
  }

  predicate AllNamed(entries: seq<Option<string>>)
  {
    forall i :: 0 <= i < |entries| ==> entries[i].Some?
  }

  /** What the dashboard receives for `email`: one entry per object of its folder, or nothing on any failure. */
  function ListedFiles(baseUrl: string, email: string, list: ListCall): (files: seq<FileEntry>)
    ensures list(Folder(email)).ListRaised? ==> files == []
    ensures list(Folder(email)).Listed? && !AllNamed(list(Folder(email)).entries) ==> files == []
    ensures list(Folder(email)).Listed? && AllNamed(list(Folder(email)).entries) ==>
      var entries := list(Folder(email)).entries;
      && |files| == |entries|
      && forall i :: 0 <= i < |files| ==>
           && files[i].name == entries[i].value
           && files[i].url == PublicUrl(baseUrl, Folder(email), entries[i].value)
  {
    var listing := list(Folder(email));
    if listing.ListRaised? || !AllNamed(listing.entries) then []
    else
      seq(|listing.entries|, i requires 0 <= i < |listing.entries| =>
        FileEntry(listing.entries[i].value, PublicUrl(baseUrl, Folder(email), listing.entries[i].value)))
  }

  /** Lists `email`'s folder, building the entries one by one; any failure yields the empty list. */
  method ListUserFiles(baseUrl: string, email: string, list: ListCall) returns (files: seq<FileEntry>)
    ensures files == ListedFiles(baseUrl, email, list)
  {
    var folder := Folder(email);
    var listing := list(folder);
    if listing.ListRaised? {
      return [];
    }
    var entries := listing.entries;
    var fileList: seq<FileEntry> := [];
    var i := 0;
    while i < |entries|
      invariant 0 <= i <= |entries|
      invariant AllNamed(entries[..i])
      invariant |fileList| == i
      invariant forall k :: 0 <= k < i ==>
        fileList[k] == FileEntry(entries[k].value, PublicUrl(baseUrl, folder, entries[k].value))
    {
      if entries[i].None? {
        assert !AllNamed(entries);
        return [];
      }
      var name := entries[i].value;
      fileList := fileList + [FileEntry(name, PublicUrl(baseUrl, folder, name))];
      i := i + 1;
      assert entries[..i] == entries[..i - 1] + [entries[i - 1]];
    }
    assert entries[..i] == entries;
    files := fileList;
  }

  // ---------------------------------------------------------------------------
  // The listing of a folder, as the bucket's objects determine it

  /** An object lies directly in `folder`: its path is the folder, '/', and a name without '/'. */
  predicate InFolder(path: string, folder: string)
  {
    |folder| < |path| && path[..|folder| + 1] == folder + "/" && '/' !in path[|folder| + 1..]
  }

  /** The names the list call gives for `folder` when it succeeds: the objects directly in it, in upload order. */
  function FolderEntries(objects: seq<StoredObject>, folder: string): (entries: seq<Option<string>>)
    ensures AllNamed(entries)
    ensures |entries| <= |objects|
  {
    if objects == [] then []
    else
      var path := objects[|objects| - 1].path;
      FolderEntries(objects[..|objects| - 1], folder)
        + (if InFolder(path, folder) then [Some(path[|folder| + 1..])] else [])
  }

  /** The list call of a bucket holding `objects`, when it succeeds. */
  function BucketList(objects: seq<StoredObject>): ListCall
  {
    folder => Listed(FolderEntries(objects, folder))
  }

  /** An upload for `email` whose filename has no '/' becomes the last entry of that address's folder. */
  lemma UploadEndsFolder(objects: seq<StoredObject>, email: string, at: Instant, filename: string, data: seq<Byte>)
    requires '/' !in filename
    ensures var grown := objects + [StoredObject(ObjectPath(email, at, filename), data)];
      FolderEntries(grown, Folder(email)) == FolderEntries(objects, Folder(email)) + [Some(ObjectName(at, filename))]
  {
    var grown := objects + [StoredObject(ObjectPath(email, at, filename), data)];
    var f, path, name := Folder(email), ObjectPath(email, at, filename), ObjectName(at, filename);
    assert grown[..|grown| - 1] == objects;
    ObjectPathShape(email, at, filename);
    assert path[..|f| + 1] == f + "/" && path[|f| + 1..] == name;
    StampHasNoSlash(at);
    assert name == Stamp(at) + "_" + filename;
    forall k | 0 <= k < |name| ensures name[k] != '/' {
      if k < 15 {
        assert name[k] == Stamp(at)[k];
      } else if k > 15 {
        assert name[k] == filename[k - 16];
      }
    }
  }

  lemma StampHasNoSlash(at: Instant)
    ensures forall k :: 0 <= k < |Stamp(at)| ==> Stamp(at)[k] != '/'
  {
  }

  /**
   * Upload and listing derive the folder by the same rule: once an upload for
   * `email` is in the bucket, the listing of that address shows it under the
   * name `timestamp_filename`, with the public URL of the uploaded path.
   */
  lemma UploadIsListedUnderItsPath(baseUrl: string, objects: seq<StoredObject>, email: string,
                                   at: Instant, filename: string, data: seq<Byte>)
    requires '/' !in filename
    ensures var files := ListedFiles(baseUrl, email, BucketList(objects + [StoredObject(ObjectPath(email, at, filename), data)]));
      && files != []
      && files[|files| - 1] == FileEntry(ObjectName(at, filename), baseUrl + PublicPath + ObjectPath(email, at, filename))
  {
    var grown := objects + [StoredObject(ObjectPath(email, at, filename), data)];
    var f, name := Folder(email), ObjectName(at, filename);
    UploadEndsFolder(objects, email, at, filename, data);
    var entries := FolderEntries(grown, f);
    assert BucketList(grown)(f) == Listed(entries);
    assert entries[|entries| - 1] == Some(name);
    var files := ListedFiles(baseUrl, email, BucketList(grown));
    assert |files| == |entries|;
    PublicUrlOfPath(baseUrl, f, name);
  }

  /** The public URL of a name in a folder is the public prefix followed by the object's path. */
  lemma PublicUrlOfPath(baseUrl: string, folder: string, name: string)
    ensures PublicUrl(baseUrl, folder, name) == baseUrl + PublicPath + (folder + "/" + name)
  {
  }
}
