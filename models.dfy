/**
 * The data the download-and-tag pipeline receives from the host application:
 * tracks, albums, media items, download contexts, lyrics, streamable sources,
 * progress values, extensions and the settings store. These are immutable
 * values in the host, so they are datatypes here.
 */
module Models {
  import opened Wrappers

  type byte = x: int | 0 <= x < 256

  /** A signed 32-bit Kotlin `Int`. */
  type int32 = x: int | -0x8000_0000 <= x < 0x8000_0000

  /** The exceptions the core throws or lets through. */
  datatype Error =
    | NotSupported(message: string)       // ClientException.NotSupported
    | IllegalState(message: string)       // IllegalStateException
    | NullPointer                         // `!!` on null
    | NoSuchElement                       // `first()` of an empty list
    | IndexOutOfBounds                    // list index out of range
    | NotImplemented(message: string)     // Kotlin `TODO(...)`
    | Thrown(description: string)         // any other exception, by its `toString()`

  /** `e.toString()`: the exception's class name, then ": " and its message when it has one. */
  function ErrorText(e: Error): string {
    match e
    case NotSupported(m) => "dev.brahmkshatriya.echo.common.helpers.ClientException$NotSupported: " + m
    case IllegalState(m) => "java.lang.IllegalStateException: " + m
    case NullPointer => "java.lang.NullPointerException"
    case NoSuchElement => "java.util.NoSuchElementException"
    case IndexOutOfBounds => "java.lang.IndexOutOfBoundsException"
    case NotImplemented(m) => "kotlin.NotImplementedError: " + m
    case Thrown(d) => d
  }

  datatype Artist = Artist(id: string, name: string)

  datatype Album = Album(id: string, title: string, artists: seq<Artist>)

  /** A variant of a track on some server, with its quality score. */
  datatype Streamable = Streamable(id: string, quality: int)

  datatype Track = Track(
    id: string,
    title: string,
    artists: seq<Artist>,
    album: Option<Album>,
    albumOrderNumber: Option<int>,
    albumDiscNumber: Option<int>,
    genres: seq<string>,
    isrc: Option<string>,
    releaseDate: Option<string>,   // the release date as its `toString()` renders it
    servers: seq<Streamable>)

  /** EchoMediaItem: a track, one of the three list kinds, or a profile. */
  datatype MediaItem =
    | TrackItem(track: Track)
    | AlbumItem(album: Album)
    | PlaylistItem(playlistId: string, playlistTitle: string)
    | RadioItem(radioId: string, radioTitle: string)
    | ProfileItem(profileId: string, profileTitle: string)
  {
    predicate IsList() {
      AlbumItem? || PlaylistItem? || RadioItem?
    }

    function Title(): string {
      match this
      case TrackItem(t) => t.title
      case AlbumItem(a) => a.title
      case PlaylistItem(_, title) => title
      case RadioItem(_, title) => title
      case ProfileItem(_, title) => title
    }
  }

  /** One track to download, with the extension it comes from, its 0-based position and its parent list. */
  datatype DownloadContext = DownloadContext(
    extensionId: string,
    track: Track,
    sortOrder: Option<int>,
    context: Option<MediaItem>)

  datatype LyricItem = LyricItem(text: string, startTime: int, endTime: int)

  datatype LyricsValue =
    | Timed(list: seq<LyricItem>, fillTimeGaps: bool)
    | Simple(text: string)

  /** A lyrics result; `lyrics` is None when the provider returned no body. */
  datatype Lyrics = Lyrics(id: string, title: string, lyrics: Option<LyricsValue>)

  /**
   * A progress value: `size` is the total, `progress` and `speed` are None
   * where the emitting call leaves them at the library's defaults.
   */
  datatype Progress = Progress(size: int, progress: Option<int>, speed: Option<int>)

  datatype NetworkRequest = NetworkRequest(url: string, headers: map<string, string>)

  datatype Decryption = Widevine(license: string)

  /** The stream a raw source's provider returns, with its declared length. */
  datatype StreamHandle = StreamHandle(totalLength: int)

  /**
   * A source of a track: a raw stream from the provider or an HTTP request.
   * `hash` stands for the platform's `hashCode()` of the source (raw) or of its
   * request (http), which names the temporary file.
   */
  datatype Source =
    | Raw(quality: int, isVideo: bool, hash: int32, streamProvider: Option<StreamHandle>)
    | Http(quality: int, isVideo: bool, hash: int32, request: NetworkRequest,
           decryption: Option<Decryption>, isLive: bool)

  /** The client interfaces an extension instance may implement. */
  datatype Capability = AlbumClient | PlaylistClient | RadioClient | LyricsClient

  /** An installed extension; `instance` is the outcome of loading it, as the set of interfaces it implements. */
  datatype Extension = Extension(id: string, name: string, instance: Result<set<Capability>, Error>)

  /** The stored settings, by key and kind. */
  datatype SettingsStore = SettingsStore(
    strings: map<string, string>,
    ints: map<string, int>,
    bools: map<string, bool>)
}
