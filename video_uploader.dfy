/**
 * components/VideoUploader.tsx: the upload drop zone.  A file chosen in the
 * file dialog is forwarded as it is; a dropped file is forwarded only when its
 * MIME type matches the `accept` list.  The drag-highlight flag is display
 * state and is not modelled; a file list is a sequence of files.
 */
module VideoUploader {
  import opened Wrappers
  import opened Strings

  /** The `accept` list used when none is given. */
  const DefaultAccept := "video/*"

  const IdPrefix := "video-upload-"

  /** A file handed over by the browser, with its MIME type (`file.type`). */
  datatype File = File(name: string, mimeType: string)

  /** `accept.split(',').map(t => t.trim())` */
  function AcceptedTypes(accept: string): (types: seq<string>)
    ensures |types| == |Split(accept, ',')|
  {
    TrimAll(Split(accept, ','))
  }

  function TrimAll(entries: seq<string>): (trimmed: seq<string>)
    ensures |trimmed| == |entries|
    ensures forall k :: 0 <= k < |entries| ==> trimmed[k] == Trim(entries[k])
  {
    if entries == [] then [] else [Trim(entries[0])] + TrimAll(entries[1..])
  }

  /** One entry of the list against a file type: all white space is removed from
      the entry; a wildcard entry, one ending in a slash and a star, matches the
      types that start with the entry without its star, any other entry only
      the type equal to it. */
  predicate EntryMatches(entry: string, fileType: string)
  {
    var normalized := RemoveSpaces(entry);
    if EndsWith(normalized, "/*") then StartsWith(fileType, normalized[..|normalized| - 1])
    else fileType == normalized
  }

  /** `acceptedTypes.some(...)` */
  predicate AnyMatches(entries: seq<string>, fileType: string)
  {
    entries != [] && (EntryMatches(entries[0], fileType) || AnyMatches(entries[1..], fileType))
  }

  /** The acceptance test of `handleDrop`. */
  predicate IsAccepted(accept: string, fileType: string)
  {
    AnyMatches(AcceptedTypes(accept), fileType)
  }

  /** `handleDrop`: the first dropped file, when there is one and it is accepted. */
  function HandleDrop(files: seq<File>, accept: string): (forwarded: Option<File>)
  {
    if files != [] && IsAccepted(accept, files[0].mimeType) then Some(files[0]) else None
  }

  /** `handleFileChange`: the first chosen file, when there is one.  The file
      dialog has already applied the `accept` list. */
  function HandleFileChange(files: seq<File>): (forwarded: Option<File>)
  {
    if files != [] then Some(files[0]) else None
  }

  /** `video-upload-${title.replace(/\s+/g, '-')}` */
  function UploaderId(title: string): string
  {
    IdPrefix + ReplaceSpaceRuns(title, "-")
  }

  // ---------------------------------------------------------------- properties

  /** `some` holds exactly when one of the entries matches. */
  lemma {:induction false} AnyMatchesSome(entries: seq<string>, fileType: string)
    ensures AnyMatches(entries, fileType) <==> exists k :: 0 <= k < |entries| && EntryMatches(entries[k], fileType)
  {
    if entries != [] {
      AnyMatchesSome(entries[1..], fileType);
      if !EntryMatches(entries[0], fileType) && AnyMatches(entries[1..], fileType) {
        var k :| 0 <= k < |entries[1..]| && EntryMatches(entries[1..][k], fileType);
        assert EntryMatches(entries[k + 1], fileType);
      }
      if exists k :: 0 <= k < |entries| && EntryMatches(entries[k], fileType) {
        var k :| 0 <= k < |entries| && EntryMatches(entries[k], fileType);
        assert k == 0 || EntryMatches(entries[1..][k - 1], fileType);
      }
    }
  }

  /** White space anywhere in an entry is ignored, so the `trim` before the
      test makes no difference. */
  lemma EntryIgnoresSpaces(entry: string, fileType: string)
    ensures EntryMatches(Trim(entry), fileType) == EntryMatches(entry, fileType)
    ensures EntryMatches(RemoveSpaces(entry), fileType) == EntryMatches(entry, fileType)
  {
    RemoveSpacesTrim(entry);
    RemoveSpacesOfNoSpace(RemoveSpaces(entry));
  }

  /** A wildcard entry, `major` then a slash and a star, matches exactly the
      types that start with `major/`: the default entry takes `video/mp4`, but
      not `videos`. */
  lemma WildcardEntry(major: string, fileType: string)
    requires NoSpace(major)
    ensures EntryMatches(major + "/*", fileType) <==> StartsWith(fileType, major + "/")
  {
    var entry := major + "/*";
    assert NoSpace(entry);
    RemoveSpacesOfNoSpace(entry);
    assert entry[|entry| - 2..] == "/*";
    assert entry[..|entry| - 1] == major + "/";
  }

  /** Any other entry without white space matches only the type equal to it. */
  lemma ExactEntry(entry: string, fileType: string)
    requires NoSpace(entry) && !EndsWith(entry, "/*")
    ensures EntryMatches(entry, fileType) <==> fileType == entry
  {
    RemoveSpacesOfNoSpace(entry);
  }

  /** An `accept` list written as entries joined by commas accepts a type
      exactly when one of its entries matches it. */
  lemma AcceptedByEntries(entries: seq<string>, fileType: string)
    requires |entries| >= 1
    requires forall k :: 0 <= k < |entries| ==> ',' !in entries[k]
    ensures IsAccepted(Join(entries, ','), fileType)
            <==> exists k :: 0 <= k < |entries| && EntryMatches(entries[k], fileType)
  {
    var types := AcceptedTypes(Join(entries, ','));
    SplitJoin(entries, ',');
    AnyMatchesSome(types, fileType);
    forall k | 0 <= k < |entries|
      ensures EntryMatches(types[k], fileType) == EntryMatches(entries[k], fileType)
    {
      EntryIgnoresSpaces(entries[k], fileType);
    }
  }

  /** The default list accepts exactly the video types. */
  lemma DefaultAcceptsVideo(fileType: string)
    ensures IsAccepted(DefaultAccept, fileType) <==> StartsWith(fileType, "video/")
  {
    DefaultAcceptIsWildcard();
    SingleEntry(DefaultAccept, fileType);
    WildcardEntry("video", fileType);
  }

  /** The default list takes an MP4 video but not a type that merely starts
      with the word. */
  lemma DefaultAcceptExamples()
    ensures IsAccepted(DefaultAccept, "video/mp4")
    ensures !IsAccepted(DefaultAccept, "videos")
  {
    DefaultAcceptsVideo("video/mp4");
    DefaultAcceptsVideo("videos");
    assert "video/mp4"[..6] == "video/";
    assert "videos"[5] != "video/"[5];
  }

  lemma DefaultAcceptIsWildcard()
    ensures DefaultAccept == "video" + "/*" && ',' !in DefaultAccept
    ensures "video" + "/" == "video/" && NoSpace("video")
  {
  }

  /** A list of one entry accepts what that entry matches. */
  lemma SingleEntry(entry: string, fileType: string)
    requires ',' !in entry
    ensures IsAccepted(entry, fileType) <==> EntryMatches(entry, fileType)
  {
    assert Join([entry], ',') == entry;
    AcceptedByEntries([entry], fileType);
  }

  /** A drop forwards the first file exactly when it is accepted, and nothing
      else: later files and rejected files are never forwarded.  With the
      default list, exactly a first file of a video type is forwarded. */
  lemma DropForwardsAccepted(files: seq<File>, accept: string)
    ensures HandleDrop(files, accept).Some? <==> files != [] && IsAccepted(accept, files[0].mimeType)
    ensures HandleDrop(files, accept).Some? ==> HandleDrop(files, accept).value == files[0]
    ensures HandleDrop(files, DefaultAccept).Some? <==> files != [] && StartsWith(files[0].mimeType, "video/")
  {
    if files != [] {
      DefaultAcceptsVideo(files[0].mimeType);
    }
  }

  /** The file dialog forwards the first chosen file whatever its type, and
      nothing when no file was chosen. */
  lemma FileChangeForwardsFirst(files: seq<File>)
    ensures HandleFileChange(files).Some? <==> files != []
    ensures files != [] ==> HandleFileChange(files).value == files[0]
  {
  }

  /** The input id has no white space; a title without white space is used as
      it is, and each run of white space in the title becomes one `-`. */
  lemma UploaderIdShape(title: string)
    ensures NoSpace(UploaderId(title))
    ensures NoSpace(title) ==> UploaderId(title) == IdPrefix + title
  {
    ReplaceSpaceRunsNoSpace(title, "-");
    assert NoSpace(IdPrefix);
    if NoSpace(title) {
      ReplaceSpaceRunsIdentity(title, "-");
    }
  }

  /** Two words with white space between them are joined by a single `-`. */
  lemma UploaderIdJoinsWords(first: string, gap: string, rest: string)
    requires NoSpace(first) && gap != [] && AllSpace(gap) && (rest == [] || !IsSpace(rest[0]))
    ensures UploaderId(first + gap + rest) == IdPrefix + first + "-" + ReplaceSpaceRuns(rest, "-")
  {
    ReplaceSpaceRunsRun(first, gap, rest, "-");
  }
}
