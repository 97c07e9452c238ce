/**
 * The tagging task: the album looked up through a bounded cache, the cover,
 * the lyrics, then the tagging attempt with its retry without cover when the
 * muxer cannot decode the cover, and the progress values it emits.
 */
module Tag {
  import opened Wrappers
  import opened Text
  import opened Models
  import opened Paths
  import opened EDExtension
  import AndroidED
  import TagLyrics
  import FfmpegCommand
  import Placement

  // ------------------------------------------------------------- album

  /** `"${context.extensionId}:${track.album?.id}"`: a missing album is written "null". */
  function AlbumKey(extensionId: string, album: Option<Album>): string {
    extensionId + ":" + (if album.None? then "null" else album.value.id)
  }

  /** Within one extension, different album ids give different keys. */
  lemma AlbumKeyInjective(extensionId: string, a: Album, b: Album)
    requires AlbumKey(extensionId, Some(a)) == AlbumKey(extensionId, Some(b))
    ensures a.id == b.id
  {
    var n := |extensionId| + 1;
    assert a.id == AlbumKey(extensionId, Some(a))[n..];
    assert b.id == AlbumKey(extensionId, Some(b))[n..];
  }

  /** A track without album shares its key with an album whose id is "null". */
  lemma AlbumKeyNullCollision(extensionId: string, a: Album)
    requires a.id == "null"
    ensures AlbumKey(extensionId, None) == AlbumKey(extensionId, Some(a))
  {
  }

  /**
   * `loadAlbum(extension, track)`: the album loaded through the album client,
   * else (no extension, no album on the track, a failed load) the track's own
   * album. `load` is the outcome of the client's `loadAlbum`.
   */
  function LoadAlbum(extension: Option<Extension>, track: Track, load: Album -> Result<Album, Error>): (r: Option<Album>)
    ensures r.None? <==> track.album.None?
    ensures extension.Some? && track.album.Some? && Get(extension.value, AlbumClient, load(track.album.value)).Success? ==>
              r == Some(load(track.album.value).value)
    ensures !(extension.Some? && track.album.Some? && Get(extension.value, AlbumClient, load(track.album.value)).Success?) ==>
              r == track.album
  {
    if extension.None? then track.album
    else
      var block: Result<Option<Album>, Error> :=
        if track.album.None? then Success(None)
        else match load(track.album.value)
          case Success(a) => Success(Some(a))
          case Failure(e) => Failure(e);
      var got := Get<Option<Album>>(extension.value, AlbumClient, block);
      if got.Success? && got.value.Some? then got.value else track.album
  }

  /** The album cache shared by all tagging tasks: at most 50 albums. */
  const ALBUM_CACHE_SIZE := 50

  class AlbumCache {
    var entries: map<string, Album>

    ghost predicate Valid()
      reads this
    {
      |entries| <= ALBUM_CACHE_SIZE
    }

    constructor ()
      ensures Valid() && entries == map[]
    {
      entries := map[];
    }

    /** `get(key)` */
    method Get(key: string) returns (r: Option<Album>)
      ensures r == if key in entries then Some(entries[key]) else None
    {
      r := if key in entries then Some(entries[key]) else None;
    }

    /**
     * `put(key, value)`: afterwards the key maps to the value, and when the
     * cache was full and the key new, one other entry was evicted. Which one is
     * least recently used is not modelled; any other entry may go.
     */
    method Put(key: string, value: Album)
      requires Valid()
      modifies this
      ensures Valid()
      ensures key in entries && entries[key] == value
      ensures forall k :: k in entries && k != key ==> k in old(entries) && entries[k] == old(entries)[k]
      ensures |old(entries).Keys - entries.Keys| <= 1
      ensures key in old(entries) || |old(entries)| < ALBUM_CACHE_SIZE ==> entries.Keys == old(entries).Keys + {key}
    {
      if key in entries || |entries| < ALBUM_CACHE_SIZE {
        entries := entries[key := value];
      } else {
        assert |entries| > 0;
        var victim :| victim in entries;
        var rest := entries - {victim};
        assert old(entries).Keys - rest[key := value].Keys == {victim};
        entries := rest[key := value];
      }
    }
  }

  /** The album `tag` tags with, given the cache as it was: the cached one, else the one loaded. */
  function CachedAlbum(entries: map<string, Album>, musicExtensions: seq<Extension>, context: DownloadContext,
                       load: Album -> Result<Album, Error>): Option<Album> {
    var key := AlbumKey(context.extensionId, context.track.album);
    if key in entries then Some(entries[key])
    else LoadAlbum(GetExtension(musicExtensions, context.extensionId), context.track, load)
  }

  /**
   * The album step of `tag`: a cached album, else the loaded one, which is
   * cached when there is one. Caching it changes no other entry and evicts at
   * most one, and none while the cache is not full.
   */
  method ResolveAlbum(cache: AlbumCache, musicExtensions: seq<Extension>, context: DownloadContext,
                      load: Album -> Result<Album, Error>) returns (album: Option<Album>)
    requires cache.Valid()
    modifies cache
    ensures cache.Valid()
    ensures album == CachedAlbum(old(cache.entries), musicExtensions, context, load)
    ensures var key := AlbumKey(context.extensionId, context.track.album);
            && (key in old(cache.entries) || album.None? ==> cache.entries == old(cache.entries))
            && (key !in old(cache.entries) && album.Some? ==>
                  && key in cache.entries && cache.entries[key] == album.value
                  && (forall k :: k in cache.entries && k != key ==> k in old(cache.entries) && cache.entries[k] == old(cache.entries)[k])
                  && |old(cache.entries).Keys - cache.entries.Keys| <= 1
                  && (|old(cache.entries)| < ALBUM_CACHE_SIZE ==> cache.entries.Keys == old(cache.entries).Keys + {key}))
  {
    var key := AlbumKey(context.extensionId, context.track.album);
    var cached := cache.Get(key);
    var extension := GetExtension(musicExtensions, context.extensionId);
    if cached.Some? {
      album := cached;
    } else {
      album := LoadAlbum(extension, context.track, load);
      if album.Some? {
        cache.Put(key, album.value);
      }
    }
  }

  /** A track with an album always ends up cached: the fallback to the track's album is cached too. */
  lemma FallbackAlbumCached(extension: Option<Extension>, track: Track, load: Album -> Result<Album, Error>)
    requires track.album.Some?
    ensures LoadAlbum(extension, track, load).Some?
  {
  }

  // ------------------------------------------------------- writeTags

  const JPEG_LS := "JPEG-LS support not enabled"

  /** What one run of the muxer does: succeed, or throw an exception with that text. */
  datatype MuxOutcome = MuxOk | MuxFailed(description: string)

  /**
   * One attempt (`ffmpegTag` then `rename`) up to the copy: the folder the file
   * goes to, or the error that stops it.
   */
  function Attempt(req: FfmpegCommand.TagRequest, mux: MuxOutcome, settings: Option<SettingsStore>): Result<string, Error> {
    if FfmpegCommand.CommandArgs(req).Failure? then Failure(FfmpegCommand.CommandArgs(req).error)
    else if mux.MuxFailed? then Failure(Thrown(mux.description))
    else Placement.TargetFolder(settings, req.context, req.track)
  }

  /** The attempt is retried: it failed and the failure's text mentions JPEG-LS. */
  predicate RetriesWithoutCover(outcome: Result<string, Error>) {
    outcome.Failure? && Contains(ErrorText(outcome.error), JPEG_LS)
  }

  /** How `writeTags` ends: the file is placed in a folder, an error is rethrown, or the muxer outcomes ran out. */
  datatype RetryResult = PlaceIn(folder: string) | GiveUp(error: Error) | NoOutcomeLeft

  /** The only failure of building the command is not the JPEG-LS one, so it is never retried. */
  lemma BuildFailureNotRetried(req: FfmpegCommand.TagRequest)
    requires FfmpegCommand.CommandArgs(req).Failure?
    ensures !RetriesWithoutCover(Failure(FfmpegCommand.CommandArgs(req).error))
  {
    var text := ErrorText(FfmpegCommand.CommandArgs(req).error);
    assert text == "java.lang.IllegalArgumentException" || text == "java.nio.BufferOverflowException";
    assert forall i :: 0 <= i < |text| ==> text[i] != JPEG_LS[0];
    NotContainsFirst(text, JPEG_LS);
  }

  /** A needle whose first character does not occur in `hay` does not occur there. */
  lemma {:induction false} NotContainsFirst(hay: string, needle: string)
    requires |needle| > 0 && forall i :: 0 <= i < |hay| ==> hay[i] != needle[0]
    ensures !Contains(hay, needle)
    decreases |hay|
  {
    if |hay| > 0 {
      if |needle| <= |hay| {
        assert hay[..|needle|][0] == hay[0];
      }
      NotContainsFirst(hay[1..], needle);
    }
  }

  /** One attempt as a function of its request and the muxer's outcome, for given settings. */
  function AttemptWith(settings: Option<SettingsStore>): (FfmpegCommand.TagRequest, MuxOutcome) -> Result<string, Error> {
    (req, mux) => Attempt(req, mux, settings)
  }

  /** The error of building the command of `req`, when it cannot be built. */
  function BuildError(req: FfmpegCommand.TagRequest): Option<Error> {
    if FfmpegCommand.CommandArgs(req).Failure? then Some(FfmpegCommand.CommandArgs(req).error) else None
  }

  /**
   * The retry policy over the muxer's successive outcomes: `build` tells
   * whether the command fails to build, before the muxer runs, and `attempt`
   * runs one attempt. A build failure is rethrown; otherwise the next outcome
   * decides the attempt, which is retried with `hasCover` set on the JPEG-LS
   * failure.
   */
  function RetryBy(attempt: (FfmpegCommand.TagRequest, MuxOutcome) -> Result<string, Error>,
                   build: FfmpegCommand.TagRequest -> Option<Error>,
                   req: FfmpegCommand.TagRequest, muxer: seq<MuxOutcome>): RetryResult
    decreases |muxer|
  {
    if build(req).Some? then GiveUp(build(req).value)
    else if |muxer| == 0 then NoOutcomeLeft
    else
      var outcome := attempt(req, muxer[0]);
      if RetriesWithoutCover(outcome) then RetryBy(attempt, build, req.(hasCover := true), muxer[1..])
      else if outcome.Failure? then GiveUp(outcome.error)
      else PlaceIn(outcome.value)
  }

  /** `writeTags`'s retry: `Attempt` under the settings, and the build of `CommandArgs`. */
  function Retry(settings: Option<SettingsStore>, req: FfmpegCommand.TagRequest, muxer: seq<MuxOutcome>): RetryResult {
    RetryBy(AttemptWith(settings), BuildError, req, muxer)
  }

  /** A command that cannot be built fails its attempt with the build's error, which is not retried. */
  ghost predicate BuildsFirst(attempt: (FfmpegCommand.TagRequest, MuxOutcome) -> Result<string, Error>,
                              build: FfmpegCommand.TagRequest -> Option<Error>)
  {
    forall r, m :: build(r).Some? ==> attempt(r, m) == Failure(build(r).value) && !RetriesWithoutCover(attempt(r, m))
  }

  /** `Attempt` checks the build first, and the build's failure is not the JPEG-LS one. */
  lemma AttemptBuildsFirst(settings: Option<SettingsStore>)
    ensures BuildsFirst(AttemptWith(settings), BuildError)
  {
    forall r, m | BuildError(r).Some?
      ensures AttemptWith(settings)(r, m) == Failure(BuildError(r).value)
      ensures !RetriesWithoutCover(AttemptWith(settings)(r, m))
    {
      BuildFailureNotRetried(r);
    }
  }

  /** The request of attempt `k`: the first as given, every later one with `hasCover` set. */
  function AttemptRequest(req: FfmpegCommand.TagRequest, k: nat): FfmpegCommand.TagRequest {
    if k == 0 then req else req.(hasCover := true)
  }

  /** The attempts retried after the first are those of the retry's own run. */
  lemma RetriedShift(attempt: (FfmpegCommand.TagRequest, MuxOutcome) -> Result<string, Error>,
                     req: FfmpegCommand.TagRequest, muxer: seq<MuxOutcome>, k: nat)
    requires 0 < k <= |muxer|
    requires forall j :: 0 <= j < k ==> RetriesWithoutCover(attempt(AttemptRequest(req, j), muxer[j]))
    ensures forall j :: 0 <= j < k - 1 ==>
              RetriesWithoutCover(attempt(AttemptRequest(req.(hasCover := true), j), muxer[1..][j]))
  {
    forall j | 0 <= j < k - 1
      ensures RetriesWithoutCover(attempt(AttemptRequest(req.(hasCover := true), j), muxer[1..][j]))
    {
      assert AttemptRequest(req.(hasCover := true), j) == AttemptRequest(req, j + 1);
      assert muxer[1..][j] == muxer[j + 1];
    }
  }

  /**
   * The first attempt that is not retried decides: it places the file or its
   * error is rethrown unchanged. Every earlier attempt failed with the JPEG-LS
   * text and was retried with `hasCover` set.
   */
  lemma {:induction false} RetryDecidedAt(attempt: (FfmpegCommand.TagRequest, MuxOutcome) -> Result<string, Error>,
                                          build: FfmpegCommand.TagRequest -> Option<Error>,
                                          req: FfmpegCommand.TagRequest, muxer: seq<MuxOutcome>, k: nat)
    requires BuildsFirst(attempt, build)
    requires k < |muxer|
    requires forall j :: 0 <= j < k ==> RetriesWithoutCover(attempt(AttemptRequest(req, j), muxer[j]))
    requires !RetriesWithoutCover(attempt(AttemptRequest(req, k), muxer[k]))
    ensures var outcome := attempt(AttemptRequest(req, k), muxer[k]);
            RetryBy(attempt, build, req, muxer) == if outcome.Failure? then GiveUp(outcome.error) else PlaceIn(outcome.value)
    decreases k
  {
    if k > 0 {
      var next := req.(hasCover := true);
      assert RetriesWithoutCover(attempt(AttemptRequest(req, 0), muxer[0]));
      RetriedShift(attempt, req, muxer, k);
      assert AttemptRequest(next, k - 1) == AttemptRequest(req, k);
      assert muxer[1..][k - 1] == muxer[k];
      RetryDecidedAt(attempt, build, next, muxer[1..], k - 1);
    }
  }

  /**
   * The retry is not guarded by `hasCover`: while the muxer keeps failing with
   * the JPEG-LS text, tagging is attempted again, with no bound of its own;
   * once the outcomes run out, only a command that cannot be built is reported.
   */
  lemma {:induction false} RetryUnbounded(attempt: (FfmpegCommand.TagRequest, MuxOutcome) -> Result<string, Error>,
                                          build: FfmpegCommand.TagRequest -> Option<Error>,
                                          req: FfmpegCommand.TagRequest, muxer: seq<MuxOutcome>)
    requires BuildsFirst(attempt, build)
    requires forall j :: 0 <= j < |muxer| ==> RetriesWithoutCover(attempt(AttemptRequest(req, j), muxer[j]))
    ensures var last := build(AttemptRequest(req, |muxer|));
            RetryBy(attempt, build, req, muxer) == if last.Some? then GiveUp(last.value) else NoOutcomeLeft
    decreases |muxer|
  {
    if |muxer| > 0 {
      var next := req.(hasCover := true);
      assert RetriesWithoutCover(attempt(AttemptRequest(req, 0), muxer[0]));
      RetriedShift(attempt, req, muxer, |muxer|);
      assert AttemptRequest(next, |muxer| - 1) == AttemptRequest(req, |muxer|);
      RetryUnbounded(attempt, build, next, muxer[1..]);
    }
  }

  /** How a whole `writeTags` call ends. */
  datatype WriteOutcome = Written(file: Path) | Failed(error: Error) | OutOfAttempts

  /**
   * `r` and the file tree after it are how `writeTags` ends under `plan`: the
   * file `name` copied into the planned folder under its first free name, and
   * no other change; or nothing copied.
   */
  ghost predicate Settles(plan: RetryResult, r: WriteOutcome, downloadsDir: Path, name: string,
                          before: map<Path, set<string>>, after: map<Path, set<string>>)
  {
    match plan
    case PlaceIn(folder) =>
      var dir := Child(downloadsDir, folder);
      var listing := Placement.Listing(before, dir);
      exists target: string ::
        && r == Written(Child(dir, target))
        && target !in listing && after == before[dir := listing + {target}]
        && exists count: nat :: target == Placement.Candidate(count, name) &&
             forall k :: 0 <= k < count ==> Placement.Candidate(k, name) in listing
    case GiveUp(e) => r == Failed(e) && after == before
    case NoOutcomeLeft => r == OutOfAttempts && after == before
  }

  /**
   * `writeTags`: attempt, and on the JPEG-LS failure run again with
   * `hasCover` set; the file is copied into the target folder under the
   * downloads directory. `coverRemoved` tells whether the cover file is
   * deleted on the way out (by `ffmpegTag` after a run, or by the handler).
   */
  method WriteTags(req: FfmpegCommand.TagRequest, muxer: seq<MuxOutcome>, settings: Option<SettingsStore>,
                   downloadsDir: Path, tree: Placement.FileTree) returns (r: WriteOutcome, coverRemoved: bool)
    modifies tree
    decreases |muxer|
    ensures Settles(Retry(settings, req, muxer), r, downloadsDir, FileName(req.file), old(tree.files), tree.files)
    ensures coverRemoved == (req.cover.Some? && !r.OutOfAttempts?)
  {
    var cmd := FfmpegCommand.BuildCommand(req);
    if cmd.Failure? {
      return Failed(cmd.error), req.cover.Some?;
    }
    if |muxer| == 0 {
      return OutOfAttempts, false;
    }
    var attempt: Result<string, Error>;
    if muxer[0].MuxFailed? {
      attempt := Failure(Thrown(muxer[0].description));
    } else {
      attempt := Placement.TargetFolder(settings, req.context, req.track);
    }
    assert attempt == AttemptWith(settings)(req, muxer[0]);
    assert BuildError(req).None?;
    ghost var plan := Retry(settings, req, muxer);
    if attempt.Failure? {
      if Contains(ErrorText(attempt.error), JPEG_LS) {
        assert plan == RetryBy(AttemptWith(settings), BuildError, req.(hasCover := true), muxer[1..]);
        r, coverRemoved := WriteTags(req.(hasCover := true), muxer[1..], settings, downloadsDir, tree);
      } else {
        assert plan == GiveUp(attempt.error);
        r, coverRemoved := Failed(attempt.error), req.cover.Some?;
      }
    } else {
      assert plan == PlaceIn(attempt.value);
      var dir := Child(downloadsDir, attempt.value);
      var target := tree.Place(dir, FileName(req.file));
      r, coverRemoved := Written(Child(dir, target)), req.cover.Some?;
      assert r == Written(Child(dir, target));
    }
  }

  // ------------------------------------------------------------- tag

  /** The step counter values `tag` emits: `Progress(4, progress = k)`. */
  function Tick(k: int): Progress {
    Progress(4, Some(k), None)
  }

  /**
   * The inputs of one `tag` run that stand for I/O: the album load, the cover
   * download, per lyrics extension the outcomes of the lyrics search, of
   * loading its feed and of loading one entry, and the muxer runs.
   */
  datatype Environment = Environment(
    loadAlbum: Album -> Result<Album, Error>,
    cover: Option<FfmpegCommand.Cover>,
    searchLyrics: Extension -> Result<(), Error>,
    loadAllLyrics: Extension -> Result<seq<Lyrics>, Error>,
    loadLyrics: (Extension, Lyrics) -> Result<Lyrics, Error>,
    muxer: seq<MuxOutcome>)

  /** `getLyrics` on an extension, with that extension's outcomes. */
  function LyricsLookup(env: Environment): Extension -> Result<Option<Lyrics>, Error> {
    e => TagLyrics.GetLyrics(e, env.searchLyrics(e), env.loadAllLyrics(e), l => env.loadLyrics(e, l))
  }

  /** The settings `tag` reads before the lyrics step, in the order it reads them. */
  function LyricsSettings(settings: Option<SettingsStore>): Result<(bool, bool, string), Error> {
    match AndroidED.DownLyrics(settings)
    case Failure(e) => Failure(e)
    case Success(down) =>
      match AndroidED.SyncLyrics(settings)
      case Failure(e) => Failure(e)
      case Success(sync) =>
        match AndroidED.DownFallbackLyrics(settings)
        case Failure(e) => Failure(e)
        case Success(fallback) => Success((down, sync, fallback))
  }

  /** The request `writeTags` passes to the first attempt. */
  function FirstRequest(context: DownloadContext, file: Path, album: Option<Album>, extension: Option<Extension>,
                        cover: Option<FfmpegCommand.Cover>, lyrics: Option<Lyrics>): FfmpegCommand.TagRequest {
    FfmpegCommand.TagRequest(
      file, context, context.track, cover, TagLyrics.LyricsText(lyrics),
      LowerAscii(Paths.Extension(file)), album,
      if extension.None? then "" else extension.value.name, false)
  }

  /** The first request of `tag`, from the album, the lyrics settings read and the lyrics looked up. */
  function TagRequestOf(context: DownloadContext, file: Path, album: Option<Album>, musicExtensions: seq<Extension>,
                        lyricsExtensions: seq<Extension>, lyricsSettings: (bool, bool, string), env: Environment)
    : FfmpegCommand.TagRequest {
    var extension := GetExtension(musicExtensions, context.extensionId);
    var lyrics := TagLyrics.GetActualLyrics(lyricsSettings.0, lyricsSettings.1, lyricsSettings.2,
                                            lyricsExtensions, extension, LyricsLookup(env));
    FirstRequest(context, file, album, extension, env.cover, lyrics)
  }

  /**
   * `tag(progressFlow, context, file, downloadsDir)`: the values emitted, in
   * order, and how it ends. Ticks 1 to 3 follow the album, cover and lyrics
   * steps; tick 4 only follows a successful `writeTags`, which runs on the
   * album resolved through the cache and the lyrics `getActualLyrics` finds.
   */
  method RunTag(client: AndroidED.Client, cache: AlbumCache, tree: Placement.FileTree, context: DownloadContext,
                file: Path, downloadsDir: Path, env: Environment) returns (events: seq<Progress>, r: WriteOutcome)
    requires cache.Valid()
    modifies cache, tree
    ensures cache.Valid()
    ensures LyricsSettings(client.settings).Failure? ==>
              events == [Tick(1), Tick(2)] && r == Failed(LyricsSettings(client.settings).error) && tree.files == old(tree.files)
    ensures LyricsSettings(client.settings).Success? ==>
              var album := CachedAlbum(old(cache.entries), client.musicExtensionList, context, env.loadAlbum);
              var req := TagRequestOf(context, file, album, client.musicExtensionList, client.lyricsExtensionList,
                                      LyricsSettings(client.settings).value, env);
              && events == [Tick(1), Tick(2), Tick(3)] + (if r.Written? then [Tick(4)] else [])
              && Settles(Retry(client.settings, req, env.muxer), r, downloadsDir, FileName(file), old(tree.files), tree.files)
  {
    var album := ResolveAlbum(cache, client.musicExtensionList, context, env.loadAlbum);
    events := [Tick(1)];
    var extension := GetExtension(client.musicExtensionList, context.extensionId);
    events := events + [Tick(2)];
    assert events == [Tick(1), Tick(2)];
    var lyricsSettings := LyricsSettings(client.settings);
    if lyricsSettings.Failure? {
      return events, Failed(lyricsSettings.error);
    }
    var (down, sync, fallback) := lyricsSettings.value;
    var lyrics := TagLyrics.GetActualLyrics(down, sync, fallback, client.lyricsExtensionList, extension, LyricsLookup(env));
    events := events + [Tick(3)];
    assert events == [Tick(1), Tick(2), Tick(3)];
    var req := FirstRequest(context, file, album, extension, env.cover, lyrics);
    assert req == TagRequestOf(context, file, album, client.musicExtensionList, client.lyricsExtensionList, lyricsSettings.value, env);
    events, r := FinishTag(req, env.muxer, client.settings, downloadsDir, tree, events);
  }

  /** The last step of `tag`: `writeTags`, then tick 4 when it succeeded. */
  method FinishTag(req: FfmpegCommand.TagRequest, muxer: seq<MuxOutcome>, settings: Option<SettingsStore>,
                   downloadsDir: Path, tree: Placement.FileTree, before: seq<Progress>)
    returns (events: seq<Progress>, r: WriteOutcome)
    modifies tree
    ensures events == before + (if r.Written? then [Tick(4)] else [])
    ensures Settles(Retry(settings, req, muxer), r, downloadsDir, FileName(req.file), old(tree.files), tree.files)
  {
    var coverRemoved;
    r, coverRemoved := WriteTags(req, muxer, settings, downloadsDir, tree);
    events := before + (if r.Written? then [Tick(4)] else []);
  }
}
