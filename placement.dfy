/**
 * Where a tagged file ends up (`rename`): the folder under the public
 * downloads directory, and the first free name in it, found by prefixing a
 * counter to the file name until no file of that name exists.
 */
module Placement {
  import opened Wrappers
  import opened Text
  import opened Models
  import opened Paths
  import AndroidED

  /**
   * The folder under the downloads directory. The settings are read lazily, as
   * the source reads them: the folder structure only when it is used, the
   * album-folder flag only when there is no titled parent.
   */
  function TargetFolder(settings: Option<SettingsStore>, context: DownloadContext, track: Track): (r: Result<string, Error>)
    ensures var sanitized := AndroidED.SanitizedParent(context);
            && (!IsBlank(sanitized) ==>
                  r == (match AndroidED.FolderStructure(settings)
                        case Success(structure) => Success(structure + sanitized)
                        case Failure(e) => Failure(e)))
            && (IsBlank(sanitized) && AndroidED.AlbumFolder(settings) == Success(true) ==>
                  r == (match AndroidED.FolderStructure(settings)
                        case Success(structure) => Success(structure + AndroidED.IllegalReplace(if track.album.Some? then track.album.value.title else ""))
                        case Failure(e) => Failure(e)))
            && (IsBlank(sanitized) && AndroidED.AlbumFolder(settings) == Success(false) ==> r == Success("Echo/"))
            && (IsBlank(sanitized) && AndroidED.AlbumFolder(settings).Failure? ==> r == Failure(AndroidED.AlbumFolder(settings).error))
  {
    var sanitized := AndroidED.SanitizedParent(context);
    if !IsBlank(sanitized) then
      match AndroidED.FolderStructure(settings)
      case Success(structure) => Success(structure + sanitized)
      case Failure(e) => Failure(e)
    else
      match AndroidED.AlbumFolder(settings)
      case Failure(e) => Failure(e)
      case Success(albumFolder) =>
        if albumFolder then
          match AndroidED.FolderStructure(settings)
          case Success(structure) => Success(structure + AndroidED.IllegalReplace(if track.album.Some? then track.album.value.title else ""))
          case Failure(e) => Failure(e)
        else Success("Echo/")
  }

  /**
   * With the default settings a titled parent gives the folder "Echo/<title>",
   * two levels below the downloads directory, and an untitled one the literal
   * "Echo/" folder.
   */
  lemma DefaultFolders(context: DownloadContext, track: Track)
    ensures var settings := Some(SettingsStore(map[], map[], map[]));
            var sanitized := AndroidED.SanitizedParent(context);
            var r := TargetFolder(settings, context, track);
            && r.Success?
            && (!IsBlank(sanitized) ==> r.value == "Echo/" + sanitized && Names(r.value) == ["Echo", sanitized])
            && (IsBlank(sanitized) ==> r.value == "Echo/" && Names(r.value) == ["Echo"])
  {
    AndroidED.SettingDefaults();
    var sanitized := AndroidED.SanitizedParent(context);
    AndroidED.IllegalReplaceClean(if context.context.Some? then context.context.value.Title() else "");
    if !IsBlank(sanitized) {
      assert sanitized != "";
      NamesUnderEcho(sanitized);
    } else {
      var s := "Echo/";
      assert s[4] == '/' && s[..4] == "Echo";
      IndexOfFirst(s, '/', 4);
      assert Split(s, '/') == ["Echo"] + Split("", '/');
      assert NonEmpty(["Echo", ""]) == ["Echo"] + NonEmpty([""]);
      assert ["Echo", ""][1..] == [""];
    }
  }

  /** Without loaded settings there is no folder. */
  lemma NoSettingsNoFolder(context: DownloadContext, track: Track)
    ensures TargetFolder(None, context, track) == Failure(AndroidED.NOT_LOADED)
  {
  }

  // ------------------------------------------------------- collision names

  /** The name tried after `count` collisions: the name itself, then "1 name", "2 name", ... */
  function Candidate(count: nat, name: string): string {
    if count == 0 then name else NatToString(count) + " " + name
  }

  /** Different counts give different names, so every collision tries a new one. */
  lemma CandidateInjective(j: nat, k: nat, name: string)
    requires Candidate(j, name) == Candidate(k, name)
    ensures j == k
  {
    if j > 0 && k > 0 {
      var a := NatToString(j);
      var b := NatToString(k);
      assert (a + " ") + name == (b + " ") + name;
      assert |a| == |b|;
      assert a == (a + " " + name)[..|a|];
      assert b == (b + " " + name)[..|b|];
      NatToStringInjective(j, k);
    }
  }

  /** The candidates tried before `count`. */
  ghost function Tried(count: nat, name: string): set<string> {
    set k | 0 <= k < count :: Candidate(k, name)
  }

  lemma {:induction false} TriedSize(count: nat, name: string)
    ensures |Tried(count, name)| == count
    decreases count
  {
    if count > 0 {
      TriedSize(count - 1, name);
      assert Tried(count, name) == Tried(count - 1, name) + {Candidate(count - 1, name)};
      if Candidate(count - 1, name) in Tried(count - 1, name) {
        var k :| 0 <= k < count - 1 && Candidate(k, name) == Candidate(count - 1, name);
        CandidateInjective(k, count - 1, name);
      }
    }
  }

  /**
   * The collision loop of `rename` over the finite set of names present in the
   * target directory: the result is the first candidate that is not present,
   * and every earlier candidate is present.
   */
  method FreeName(existing: set<string>, name: string) returns (count: nat, target: string)
    ensures target == Candidate(count, name) && target !in existing
    ensures forall k :: 0 <= k < count ==> Candidate(k, name) in existing
    ensures count <= |existing|
  {
    count := 0;
    target := name;
    while target in existing
      invariant target == Candidate(count, name)
      invariant forall k :: 0 <= k < count ==> Candidate(k, name) in existing
      invariant count <= |existing|
      decreases |existing| - count
    {
      TriedSize(count + 1, name);
      assert Tried(count + 1, name) <= existing;
      Cardinality(Tried(count + 1, name), existing);
      count := count + 1;
      target := NatToString(count) + " " + name;
    }
  }

  lemma Cardinality<T>(a: set<T>, b: set<T>)
    requires a <= b
    ensures |a| <= |b|
  {
    assert b == a + (b - a);
  }

  /** The names of the files in `folder`; a folder not yet created holds none. */
  function Listing(files: map<Path, set<string>>, folder: Path): set<string> {
    if folder in files then files[folder] else {}
  }

  /** The files under the downloads directory, as the names in each folder. */
  class FileTree {
    var files: map<Path, set<string>>

    constructor (files: map<Path, set<string>>)
      ensures this.files == files
    {
      this.files := files;
    }

    /**
     * `rename` after the folder is chosen: create the folder when missing
     * (`mkdirs`) and copy the file into it under the first free name. Nothing
     * already present is overwritten, exactly one name is added to that
     * folder, and no other folder changes.
     */
    method Place(folder: Path, name: string) returns (target: string)
      modifies this
      ensures var before := Listing(old(files), folder);
              && target !in before
              && files == old(files)[folder := before + {target}]
              && exists count: nat :: target == Candidate(count, name) &&
                   forall k :: 0 <= k < count ==> Candidate(k, name) in before
    {
      var existing := Listing(files, folder);
      var count;
      count, target := FreeName(existing, name);
      files := files[folder := existing + {target}];
    }
  }
}
