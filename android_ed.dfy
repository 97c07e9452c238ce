/**
 * The Android download client: quality policy, file-name sanitisation, the
 * settings getters and their defaults, the public folder choice, and the
 * guards and temporary-file naming of `download`.
 */
module AndroidED {
  import opened Wrappers
  import opened Text
  import opened Models
  import opened Paths
  import SortedBy

  // ------------------------------------------------------ illegalReplace

  /** The characters of the pattern `[/\\:*?"<>|]`. */
  predicate IsIllegal(c: char) {
    c == '/' || c == '\\' || c == ':' || c == '*' || c == '?' || c == '"' || c == '<' || c == '>' || c == '|'
  }

  /** `illegalReplace(w)`: every illegal character becomes '_', every other one stays. */
  function IllegalReplace(w: string): (r: string)
    ensures |r| == |w|
    ensures forall i :: 0 <= i < |w| ==> r[i] == if IsIllegal(w[i]) then '_' else w[i]
    decreases |w|
  {
    if |w| == 0 then "" else [if IsIllegal(w[0]) then '_' else w[0]] + IllegalReplace(w[1..])
  }

  /** The result never contains an illegal character, and replacing again changes nothing. */
  lemma IllegalReplaceClean(w: string)
    ensures forall i :: 0 <= i < |IllegalReplace(w)| ==> !IsIllegal(IllegalReplace(w)[i])
    ensures '/' !in IllegalReplace(w)
    ensures IllegalReplace(IllegalReplace(w)) == IllegalReplace(w)
  {
  }

  // ---------------------------------------------------- selectQuality

  /** The position of the first maximum, as `maxByOrNull` scans (it replaces only on a strictly greater value). */
  function MaxPosition(qs: seq<int>, n: nat): (k: nat)
    requires 0 < n <= |qs|
    ensures k < n
    ensures forall j :: 0 <= j < n ==> qs[j] <= qs[k]
    ensures forall j :: 0 <= j < k ==> qs[j] < qs[k]
  {
    if n == 1 then 0
    else
      var k := MaxPosition(qs, n - 1);
      if qs[k] < qs[n - 1] then n - 1 else k
  }

  /** The position of the first minimum, as `minByOrNull` scans. */
  function MinPosition(qs: seq<int>, n: nat): (k: nat)
    requires 0 < n <= |qs|
    ensures k < n
    ensures forall j :: 0 <= j < n ==> qs[k] <= qs[j]
    ensures forall j :: 0 <= j < k ==> qs[k] < qs[j]
  {
    if n == 1 then 0
    else
      var k := MinPosition(qs, n - 1);
      if qs[n - 1] < qs[k] then n - 1 else k
  }

  /**
   * `selectQuality(setQuality) { quality }` on the qualities `qs`, giving the
   * chosen position. Branches test `setQuality in "0"` (substring
   * containment), so the empty policy takes the first branch.
   */
  function SelectQuality(qs: seq<int>, policy: string): (r: Result<nat, Error>)
    ensures r.Success? ==> r.value < |qs|
    ensures |qs| == 0 ==> r.Failure?
    ensures (policy == "" || policy == "0") && |qs| > 0 ==>
              r.Success? && (forall j :: 0 <= j < |qs| ==> qs[j] <= qs[r.value]) &&
              (forall j :: 0 <= j < r.value ==> qs[j] < qs[r.value])
    ensures policy == "1" && |qs| > 0 ==>
              r == Success(SortedBy.SortedPositions(qs, |qs|)[|qs| / 2])
    ensures policy == "2" && |qs| > 0 ==>
              r.Success? && (forall j :: 0 <= j < |qs| ==> qs[r.value] <= qs[j]) &&
              (forall j :: 0 <= j < r.value ==> qs[r.value] < qs[j])
    ensures policy !in {"", "0", "1", "2"} ==>
              r == if |qs| == 0 then Failure(NoSuchElement) else Success(0)
  {
    ContainsInOneChar('0', policy);
    ContainsInOneChar('1', policy);
    ContainsInOneChar('2', policy);
    if Contains("0", policy) then
      (if |qs| == 0 then Failure(NoSuchElement) else Success(MaxPosition(qs, |qs|)))
    else if Contains("1", policy) then
      (if |qs| == 0 then Failure(IndexOutOfBounds)
       else Success(SortedBy.SortedPositions(qs, |qs|)[|qs| / 2]))
    else if Contains("2", policy) then
      (if |qs| == 0 then Failure(NoSuchElement) else Success(MinPosition(qs, |qs|)))
    else if |qs| == 0 then Failure(NoSuchElement)
    else Success(0)
  }

  /** Policy "1" picks the element at position size/2 of the ascending, stable order by quality. */
  lemma MedianPolicy(qs: seq<int>)
    requires |qs| > 0
    ensures var r := SelectQuality(qs, "1");
            var sorted := SortedBy.SortedPositions(qs, |qs|);
            && |sorted| == |qs| && SortedBy.StablySorted(qs, sorted)
            && (forall v :: v in sorted <==> 0 <= v < |qs|)
            && r == Success(sorted[|qs| / 2])
  {
    SortedBy.SortedPositionsPermutation(qs, |qs|);
    SortedBy.SortedPositionsSorted(qs, |qs|);
  }

  /** The `quality` selector of `selectQuality`, applied to every element. */
  function Qualities<E>(xs: seq<E>, quality: E -> int): (qs: seq<int>)
    ensures |qs| == |xs| && forall i :: 0 <= i < |xs| ==> qs[i] == quality(xs[i])
  {
    seq(|xs|, i requires 0 <= i < |xs| => quality(xs[i]))
  }

  /** The `quality` selectors `selectServer` and `selectSources` pass. */
  function ServerQuality(s: Streamable): int { s.quality }
  function SourceQuality(s: Source): int { s.quality }

  /**
   * `selectServer`: the track's server at the position `selectQuality` picks
   * under the quality setting; a failed setting read or pick is passed on.
   */
  function SelectServer(settings: Option<SettingsStore>, context: DownloadContext): (r: Result<Streamable, Error>)
    ensures r.Success? ==> r.value in context.track.servers
    ensures settings.None? || |context.track.servers| == 0 ==> r.Failure?
    ensures SetQuality(settings).Failure? ==> r == Failure(SetQuality(settings).error)
    ensures SetQuality(settings).Success? ==>
              var pick := SelectQuality(Qualities(context.track.servers, ServerQuality), SetQuality(settings).value);
              && (pick.Failure? ==> r == Failure(pick.error))
              && (pick.Success? ==> r == Success(context.track.servers[pick.value]))
  {
    match SetQuality(settings)
    case Failure(e) => Failure(e)
    case Success(policy) =>
      match SelectQuality(Qualities(context.track.servers, ServerQuality), policy)
      case Failure(e) => Failure(e)
      case Success(k) => Success(context.track.servers[k])
  }

  /**
   * `selectSources`: a one-element list holding the source at the position
   * `selectQuality` picks under the quality setting.
   */
  function SelectSources(settings: Option<SettingsStore>, sources: seq<Source>): (r: Result<seq<Source>, Error>)
    ensures r.Success? ==> |r.value| == 1 && r.value[0] in sources
    ensures settings.None? || sources == [] ==> r.Failure?
    ensures SetQuality(settings).Failure? ==> r == Failure(SetQuality(settings).error)
    ensures SetQuality(settings).Success? ==>
              var pick := SelectQuality(Qualities(sources, SourceQuality), SetQuality(settings).value);
              && (pick.Failure? ==> r == Failure(pick.error))
              && (pick.Success? ==> r == Success([sources[pick.value]]))
  {
    match SetQuality(settings)
    case Failure(e) => Failure(e)
    case Success(policy) =>
      match SelectQuality(Qualities(sources, SourceQuality), policy)
      case Failure(e) => Failure(e)
      case Success(k) => Success([sources[k]])
  }

  /**
   * Under the default setting ("1") the server picked is the middle one of the
   * servers in ascending, stable order of quality: as many servers sort before
   * it as there are after it, give or take the one for an even count.
   */
  lemma DefaultServerIsMedian(context: DownloadContext)
    requires |context.track.servers| > 0
    ensures var r := SelectServer(Some(SettingsStore(map[], map[], map[])), context);
            var qs := Qualities(context.track.servers, ServerQuality);
            var sorted := SortedBy.SortedPositions(qs, |qs|);
            && r.Success?
            && r.value == context.track.servers[sorted[|qs| / 2]]
            && (forall i :: 0 <= i < |qs| / 2 ==> r.value.quality >= qs[sorted[i]])
            && (forall i :: |qs| / 2 < i < |qs| ==> r.value.quality <= qs[sorted[i]])
  {
    SettingDefaults();
    var qs := Qualities(context.track.servers, ServerQuality);
    MedianPolicy(qs);
    var sorted := SortedBy.SortedPositions(qs, |qs|);
    assert forall i :: 0 <= i < |qs| / 2 ==> SortedBy.SortsBefore(qs, sorted[i], sorted[|qs| / 2]);
    assert forall i :: |qs| / 2 < i < |qs| ==> SortedBy.SortsBefore(qs, sorted[|qs| / 2], sorted[i]);
  }

  // ------------------------------------------------------------ settings

  const DOWN_QUALITY := "quality"
  const DOWNLOAD_LYRICS := "download_lyrics"
  const FALLBACK_LYRICS_EXT := "fallback_lyrics_ext"
  const SYNC_LYRICS := "synced_lyrics"
  const S_FOLDER := "sfolder"
  const M_FOLDER := "mfolder"
  const A_FOLDER := "afolder"
  const TRACK_NUM := "tracknum"
  const CONCURRENT_DOWNLOADS := "download_num"

  const NOT_LOADED := IllegalState("Settings have not been loaded.")

  function StringSetting(settings: Option<SettingsStore>, key: string, default: string): (r: Result<string, Error>)
    ensures settings.None? ==> r == Failure(NOT_LOADED)
    ensures settings.Some? ==> r == Success(if key in settings.value.strings then settings.value.strings[key] else default)
  {
    match settings
    case None => Failure(NOT_LOADED)
    case Some(s) => Success(if key in s.strings then s.strings[key] else default)
  }

  function BoolSetting(settings: Option<SettingsStore>, key: string, default: bool): (r: Result<bool, Error>)
    ensures settings.None? ==> r == Failure(NOT_LOADED)
    ensures settings.Some? ==> r == Success(if key in settings.value.bools then settings.value.bools[key] else default)
  {
    match settings
    case None => Failure(NOT_LOADED)
    case Some(s) => Success(if key in s.bools then s.bools[key] else default)
  }

  function IntSetting(settings: Option<SettingsStore>, key: string, default: int): (r: Result<int, Error>)
    ensures settings.None? ==> r == Failure(NOT_LOADED)
    ensures settings.Some? ==> r == Success(if key in settings.value.ints then settings.value.ints[key] else default)
  {
    match settings
    case None => Failure(NOT_LOADED)
    case Some(s) => Success(if key in s.ints then s.ints[key] else default)
  }

  function ConcurrentDownloads(s: Option<SettingsStore>): Result<int, Error> { IntSetting(s, CONCURRENT_DOWNLOADS, 2) }
  function SetQuality(s: Option<SettingsStore>): Result<string, Error> { StringSetting(s, DOWN_QUALITY, "1") }
  function TrackNum(s: Option<SettingsStore>): Result<bool, Error> { BoolSetting(s, TRACK_NUM, false) }
  function DownFolder(s: Option<SettingsStore>): Result<string, Error> { StringSetting(s, M_FOLDER, "download") }
  function FolderStructure(s: Option<SettingsStore>): Result<string, Error> { StringSetting(s, S_FOLDER, "Echo/") }
  function AlbumFolder(s: Option<SettingsStore>): Result<bool, Error> { BoolSetting(s, A_FOLDER, false) }
  function DownLyrics(s: Option<SettingsStore>): Result<bool, Error> { BoolSetting(s, DOWNLOAD_LYRICS, true) }
  function DownFallbackLyrics(s: Option<SettingsStore>): Result<string, Error> { StringSetting(s, FALLBACK_LYRICS_EXT, "") }
  function SyncLyrics(s: Option<SettingsStore>): Result<bool, Error> { BoolSetting(s, SYNC_LYRICS, true) }

  /** The getters' values for a loaded store in which nothing is set. */
  lemma SettingDefaults()
    ensures var s := Some(SettingsStore(map[], map[], map[]));
            && SetQuality(s) == Success("1")
            && ConcurrentDownloads(s) == Success(2)
            && TrackNum(s) == Success(false)
            && DownFolder(s) == Success("download")
            && FolderStructure(s) == Success("Echo/")
            && AlbumFolder(s) == Success(false)
            && DownLyrics(s) == Success(true)
            && DownFallbackLyrics(s) == Success("")
            && SyncLyrics(s) == Success(true)
  {
  }

  // ------------------------------------------------------- public folders

  datatype PublicDirectory = Music | Podcasts | Downloads

  /** The public directory `tag` places files under: `downFolder in "music"` etc. test substring containment. */
  function DownloadsDirectoryFor(downFolder: string): (d: PublicDirectory)
    ensures d == Music <==> Contains("music", downFolder)
    ensures d == Podcasts <==> !Contains("music", downFolder) && Contains("podcasts", downFolder)
  {
    if Contains("music", downFolder) then Music
    else if Contains("podcasts", downFolder) then Podcasts
    else Downloads
  }

  /** Any substring of "music" (the empty one included) selects Music; the folder names are case-sensitive. */
  lemma DownloadsDirectoryExamples()
    ensures DownloadsDirectoryFor("music") == Music
    ensures DownloadsDirectoryFor("") == Music
    ensures DownloadsDirectoryFor("s") == Music
    ensures DownloadsDirectoryFor("podcasts") == Podcasts
    ensures DownloadsDirectoryFor("cast") == Podcasts
    ensures DownloadsDirectoryFor("download") == Downloads
  {
    assert IsPrefix("s", "sic");
    assert IsPrefix("cast", "casts");
    assert IsPrefix("music", "music");
    assert IsPrefix("podcasts", "podcasts");
    ContainsLonger("sic", "cast");
    assert "usic"[1..] == "sic" && "music"[1..] == "usic";
    assert "usic"[..4][0] != "cast"[0];
    assert "music"[..4][0] != "cast"[0];
    assert !Contains("usic", "cast");
    assert !Contains("music", "cast");
    ContainsLonger("music", "download");
    ContainsLonger("odcasts", "download");
    assert !IsPrefix("download", "podcasts");
  }

  // ------------------------------------------------------------- download

  /** `illegalReplace(context.context?.title.orEmpty())`: the sanitised title of the list the track is downloaded from. */
  function SanitizedParent(context: DownloadContext): string {
    IllegalReplace(if context.context.Some? then context.context.value.Title() else "")
  }

  /** The folder (relative to the cache directory) of `getDownloadDir`. */
  function DownloadFolder(context: DownloadContext): string {
    var sanitizedParent := SanitizedParent(context);
    if !IsBlank(sanitizedParent) then "Echo/" + sanitizedParent else "Echo"
  }

  /** The temporary file of a download: `File(getDownloadDir(context).parent, name)`. */
  function TempFile(cacheDir: Path, context: DownloadContext, name: string): Path {
    Child(Parent(Child(cacheDir, DownloadFolder(context))), name)
  }

  /** The folder of `getDownloadDir` is "Echo", or "Echo" and the sanitised parent title as a sub-folder. */
  lemma DownloadFolderNames(context: DownloadContext)
    ensures var sanitized := SanitizedParent(context);
            Names(DownloadFolder(context)) == if IsBlank(sanitized) then ["Echo"] else ["Echo", sanitized]
  {
    var sanitized := SanitizedParent(context);
    IllegalReplaceClean(if context.context.Some? then context.context.value.Title() else "");
    if IsBlank(sanitized) {
      NamesOfName("Echo");
    } else {
      assert sanitized != "";
      NamesUnderEcho(sanitized);
    }
  }

  /** The temporary file lies in the cache directory itself when there is no titled parent, else in its "Echo" folder. */
  lemma TempFileDirectory(cacheDir: Path, context: DownloadContext, name: string)
    requires name != "" && '/' !in name
    ensures var sanitized := SanitizedParent(context);
            TempFile(cacheDir, context, name) ==
              Path(cacheDir.names + (if IsBlank(sanitized) then [] else ["Echo"]) + [name])
  {
    var sanitized := SanitizedParent(context);
    DownloadFolderNames(context);
    NamesOfName(name);
    var dir := cacheDir.names + Names(DownloadFolder(context));
    var parent := cacheDir.names + (if IsBlank(sanitized) then [] else ["Echo"]);
    assert Child(cacheDir, DownloadFolder(context)) == Path(dir);
    assert dir == parent + [if IsBlank(sanitized) then "Echo" else sanitized];
    assert dir[..|dir| - 1] == parent;
    assert Parent(Path(dir)) == Path(parent);
  }

  /** What `download` hands to the transfer component that is not part of this model. */
  datatype DownloadPlan =
    | StreamTransfer(file: Path, totalLength: int)     // InputStreamDownload
    | HttpTransfer(file: Path, source: Source)         // HttpDownload

  /** The file name extension of a raw source's temporary file. */
  function RawExtension(isVideo: bool): string {
    if isVideo then "mp4" else "mp3"
  }

  /** The source dispatch of `download`, after the disabled-list check. */
  function Dispatch(cacheDir: Path, context: DownloadContext, source: Source): (r: Result<DownloadPlan, Error>)
    ensures source.Http? && source.isLive ==> r == Failure(NotSupported("Streams aren't supported"))
    ensures source.Http? && !source.isLive && source.decryption.Some? ==> r.Failure? && r.error.NotImplemented?
    ensures source.Http? && !source.isLive && source.decryption.None? ==>
              r == Success(HttpTransfer(TempFile(cacheDir, context, IntToString(source.hash) + ".mp4"), source))
    ensures source.Raw? && source.streamProvider.None? ==> r.Failure?
    ensures source.Raw? && source.streamProvider.Some? ==>
              r == Success(StreamTransfer(
                TempFile(cacheDir, context, IntToString(source.hash) + "." + RawExtension(source.isVideo)),
                source.streamProvider.value.totalLength))
  {
    match source
    case Raw(_, isVideo, hash, provider) =>
      (match provider
       case None => Failure(Thrown("java.lang.Exception: Streamprovider is null"))
       case Some(stream) =>
         Success(StreamTransfer(TempFile(cacheDir, context, IntToString(hash) + "." + RawExtension(isVideo)), stream.totalLength)))
    case Http(_, _, hash, _, decryption, isLive) =>
      if isLive then Failure(NotSupported("Streams aren't supported"))
      else match decryption
        case None => Success(HttpTransfer(TempFile(cacheDir, context, IntToString(hash) + ".mp4"), source))
        case Some(Widevine(_)) => Failure(NotImplemented("An operation is not implemented: Not shown for this repos & my safety"))
  }

  /** An extension id is disabled when it occurs anywhere in the fetched list text. */
  predicate IsDisabled(disabledExt: string, extensionId: string) {
    Contains(disabledExt, extensionId)
  }

  /** Every extension id is disabled by a list that contains it as a substring, and the empty id by any list. */
  lemma DisabledBySubstring(prefix: string, extensionId: string, suffix: string)
    ensures IsDisabled(prefix + extensionId + suffix, extensionId)
    ensures IsDisabled(prefix, "")
  {
    var hay := prefix + extensionId + suffix;
    assert hay[|prefix|..|prefix| + |extensionId|] == extensionId;
    assert OccursAt(hay, extensionId, |prefix|);
    ContainsIsSlice(hay, extensionId);
    assert OccursAt(prefix, "", 0);
    ContainsIsSlice(prefix, "");
  }

  /** The download client: the fields the source updates in place. */
  class Client {
    var musicExtensionList: seq<Extension>
    var lyricsExtensionList: seq<Extension>
    var disabledExt: string
    var isVideo: bool
    var settings: Option<SettingsStore>

    constructor ()
      ensures musicExtensionList == [] && lyricsExtensionList == []
      ensures disabledExt == "" && !isVideo && settings == None
    {
      musicExtensionList, lyricsExtensionList := [], [];
      disabledExt, isVideo, settings := "", false, None;
    }

    method SetMusicExtensions(extensions: seq<Extension>)
      modifies this
      ensures musicExtensionList == extensions
      ensures lyricsExtensionList == old(lyricsExtensionList) && disabledExt == old(disabledExt)
      ensures isVideo == old(isVideo) && settings == old(settings)
    {
      musicExtensionList := extensions;
    }

    method SetLyricsExtensions(extensions: seq<Extension>)
      modifies this
      ensures lyricsExtensionList == extensions
      ensures musicExtensionList == old(musicExtensionList) && disabledExt == old(disabledExt)
      ensures isVideo == old(isVideo) && settings == old(settings)
    {
      lyricsExtensionList := extensions;
    }

    method SetSettings(store: SettingsStore)
      modifies this
      ensures settings == Some(store)
      ensures musicExtensionList == old(musicExtensionList) && lyricsExtensionList == old(lyricsExtensionList)
      ensures disabledExt == old(disabledExt) && isVideo == old(isVideo)
    {
      settings := Some(store);
    }

    /** `onInitialize`: the disabled list becomes the fetched body; a failed fetch leaves it as it was. */
    method OnInitialize(fetched: Result<string, Error>)
      modifies this
      ensures disabledExt == if fetched.Success? then fetched.value else old(disabledExt)
      ensures musicExtensionList == old(musicExtensionList) && lyricsExtensionList == old(lyricsExtensionList)
      ensures isVideo == old(isVideo) && settings == old(settings)
    {
      if fetched.Success? {
        disabledExt := fetched.value;
      }
    }

    /**
     * `download(progressFlow, context, source)` up to the hand-over to the
     * transfer component: the disabled check comes first and leaves `isVideo`
     * alone; otherwise `isVideo` records the source and the source is dispatched.
     */
    method Download(cacheDir: Path, context: DownloadContext, source: Source) returns (r: Result<DownloadPlan, Error>)
      modifies this
      ensures IsDisabled(old(disabledExt), context.extensionId) ==>
                r == Failure(NotSupported(context.extensionId + " download currently")) && isVideo == old(isVideo)
      ensures !IsDisabled(old(disabledExt), context.extensionId) ==>
                r == Dispatch(cacheDir, context, source) && isVideo == source.isVideo
      ensures musicExtensionList == old(musicExtensionList) && lyricsExtensionList == old(lyricsExtensionList)
      ensures disabledExt == old(disabledExt) && settings == old(settings)
    {
      if Contains(disabledExt, context.extensionId) {
        return Failure(NotSupported(context.extensionId + " download currently"));
      }
      isVideo := source.isVideo;
      r := Dispatch(cacheDir, context, source);
    }
  }
}
