/**
 * The extension lookup, the capability probe and the expansion of a media
 * item into per-track download contexts (the `EDExtension` base class).
 */
module EDExtension {
  import opened Wrappers
  import opened Models

  /** `firstOrNull { it.id == id }`: the first extension with that id. */
  function GetExtension(exts: seq<Extension>, id: string): (r: Option<Extension>)
    ensures r.None? <==> forall i :: 0 <= i < |exts| ==> exts[i].id != id
    ensures r.Some? ==> exists k :: 0 <= k < |exts| && exts[k] == r.value && r.value.id == id &&
                          forall j :: 0 <= j < k ==> exts[j].id != id
    decreases |exts|
  {
    if |exts| == 0 then None
    else if exts[0].id == id then Some(exts[0])
    else
      var r := GetExtension(exts[1..], id);
      assert forall j :: 1 <= j < |exts| ==> exts[j] == exts[1..][j - 1];
      r
  }

  /** `T::class.simpleName` of each client interface. */
  function CapabilityName(c: Capability): string {
    match c
    case AlbumClient => "AlbumClient"
    case PlaylistClient => "PlaylistClient"
    case RadioClient => "RadioClient"
    case LyricsClient => "LyricsClient"
  }

  /**
   * `ext.get<T, R> { block }`: loads the instance, fails NotSupported when it does
   * not implement `cap`, otherwise runs the block. `block` is the outcome of
   * running it; every failure is captured, none escapes.
   */
  function Get<R>(ext: Extension, cap: Capability, block: Result<R, Error>): (r: Result<R, Error>)
    ensures ext.instance.Failure? ==> r == Failure(ext.instance.error)
    ensures ext.instance.Success? && cap !in ext.instance.value ==>
              r == Failure(NotSupported(ext.name + " Extension: " + CapabilityName(cap)))
    ensures ext.instance.Success? && cap in ext.instance.value ==> r == block
    ensures r.Success? <==> ext.instance.Success? && cap in ext.instance.value && block.Success?
  {
    match ext.instance
    case Failure(e) => Failure(e)
    case Success(caps) =>
      if cap !in caps then Failure(NotSupported(ext.name + " Extension: " + CapabilityName(cap)))
      else block
  }

  /** The client interface a list kind is loaded through. */
  function ListCapability(item: MediaItem): Capability
    requires item.IsList()
  {
    match item
    case AlbumItem(_) => AlbumClient
    case PlaylistItem(_, _) => PlaylistClient
    case RadioItem(_, _) => RadioClient
  }

  /**
   * The block run for an album: load the album, then all tracks of its track
   * feed; `feed` is Success(None) when the loaded album has no track feed.
   */
  function AlbumTracksBlock(loaded: Result<Album, Error>, feed: Result<Option<seq<Track>>, Error>): (r: Result<seq<Track>, Error>)
    ensures loaded.Failure? ==> r == Failure(loaded.error)
    ensures loaded.Success? && feed == Success(None) ==> r == Success([])
    ensures loaded.Success? && feed.Success? && feed.value.Some? ==> r == Success(feed.value.value)
    ensures loaded.Success? && feed.Failure? ==> r == Failure(feed.error)
  {
    match loaded
    case Failure(e) => Failure(e)
    case Success(_) =>
      match feed
      case Failure(e) => Failure(e)
      case Success(tracks) => Success(tracks.GetOr([]))
  }

  /** The block run for a playlist: load the playlist, then all its tracks. */
  function PlaylistTracksBlock(loaded: Result<MediaItem, Error>, tracks: Result<seq<Track>, Error>): (r: Result<seq<Track>, Error>)
    ensures loaded.Failure? ==> r == Failure(loaded.error)
    ensures loaded.Success? ==> r == tracks
  {
    if loaded.Failure? then Failure(loaded.error) else tracks
  }

  /** `mapIndexed { index, track -> DownloadContext(extensionId, track, index, item) }`, from index `start`. */
  function Contexts(extensionId: string, tracks: seq<Track>, item: MediaItem, start: nat): (r: seq<DownloadContext>)
    ensures |r| == |tracks|
    ensures forall i :: 0 <= i < |tracks| ==>
              r[i] == DownloadContext(extensionId, tracks[i], Some(start + i), Some(item))
    decreases |tracks|
  {
    if |tracks| == 0 then []
    else [DownloadContext(extensionId, tracks[0], Some(start), Some(item))] + Contexts(extensionId, tracks[1..], item, start + 1)
  }

  /**
   * `getDownloadTracks(extensionId, item, _)`. For a list item, `block` is the
   * outcome of the list's block (AlbumTracksBlock, PlaylistTracksBlock, or the
   * radio's track load); it is unused for other items.
   */
  function GetDownloadTracks(musicExtensions: seq<Extension>, extensionId: string, item: MediaItem,
                             block: Result<seq<Track>, Error>): (r: Result<seq<DownloadContext>, Error>)
    ensures item.TrackItem? ==> r == Success([DownloadContext(extensionId, item.track, None, None)])
    ensures !item.TrackItem? && !item.IsList() ==> r == Success([])
    ensures item.IsList() && GetExtension(musicExtensions, extensionId).None? ==> r == Failure(NullPointer)
    ensures item.IsList() && GetExtension(musicExtensions, extensionId).Some? ==>
              var loaded := Get(GetExtension(musicExtensions, extensionId).value, ListCapability(item), block);
              && (loaded.Failure? ==> r == Failure(loaded.error))
              && (loaded.Success? ==>
                    && r.Success? && |r.value| == |loaded.value|
                    && (forall i :: 0 <= i < |r.value| ==>
                          r.value[i] == DownloadContext(extensionId, loaded.value[i], Some(i), Some(item))))
  {
    match item
    case TrackItem(t) => Success([DownloadContext(extensionId, t, None, None)])
    case ProfileItem(_, _) => Success([])
    case _ =>
      match GetExtension(musicExtensions, extensionId)
      case None => Failure(NullPointer)
      case Some(ext) =>
        match Get(ext, ListCapability(item), block)
        case Failure(e) => Failure(e)
        case Success(tracks) => Success(Contexts(extensionId, tracks, item, 0))
  }

  /** The tracks of the contexts a list expands into are the loaded tracks, in order. */
  lemma ListContextsTracks(musicExtensions: seq<Extension>, extensionId: string, item: MediaItem, tracks: seq<Track>)
    requires item.IsList()
    requires GetExtension(musicExtensions, extensionId).Some?
    requires Get(GetExtension(musicExtensions, extensionId).value, ListCapability(item), Success(tracks)).Success?
    ensures var r := GetDownloadTracks(musicExtensions, extensionId, item, Success(tracks));
            r.Success? && seq(|r.value|, i requires 0 <= i < |r.value| => r.value[i].track) == tracks
  {
  }

  /** An album whose loaded form has no track feed expands to no contexts. */
  lemma AlbumWithoutFeedIsEmpty(musicExtensions: seq<Extension>, extensionId: string, album: Album, loaded: Album)
    requires GetExtension(musicExtensions, extensionId).Some?
    requires var ext := GetExtension(musicExtensions, extensionId).value;
             ext.instance.Success? && AlbumClient in ext.instance.value
    ensures GetDownloadTracks(musicExtensions, extensionId, AlbumItem(album),
                              AlbumTracksBlock(Success(loaded), Success(None))) == Success([])
  {
  }
}
