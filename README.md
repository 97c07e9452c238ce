# echo-echodown-extension: the download-and-tag pipeline in Dafny

This project models the download extension for the Echo music player, up to the point where a track lands on disk.

1. `EDExtension` looks up extensions and probes their client capabilities. It also expands a media item into per-track download contexts, with 0-based sort orders.
2. `AndroidED` decides what is downloaded and where the temporary file goes:
   - the quality policy and file-name sanitisation;
   - the settings getters and their defaults;
   - the guards of `download`;
   - the choice of public folder.
3. `Downloader` moves the bytes:
   - it copies a stream into a file in chunks, sampling progress about once a second;
   - its resumable HTTP variant sends a `Range` request header.
4. `Tag` finishes the file:
   - resolves the album through a cache;
   - picks the lyrics and fills the gaps in timed lyrics;
   - builds the muxer's argument string, including the base64 FLAC PICTURE block for Ogg covers;
   - retries without the cover when the muxer rejects it;
   - places the result in its folder under a collision-free name.

Files, the network, the muxer process and the clock are not part of the model. Their results are inputs:
- a sequence of read chunks and clock readings;
- the outcome of each muxer run;
- the outcome of each extension call, as a function value;
- the image's bytes and bounds.

Objects the source updates in place are classes:
- the client's fields (`AndroidED.Client`);
- the album cache (`Tag.AlbumCache`);
- the files under the downloads directory, folder by folder (`Placement.FileTree`);
- the byte buffer of the picture block (`PictureBlock.ByteBuffer`);
- the output file and the received-bytes flow (`Downloader.OutputFile`, `Downloader.ReceiveFlow`).

Loops of the source are methods with loop invariants, proved against specification functions:
- `TagLyrics.FillGaps`, the gap-filling loop;
- `Placement.FreeName`, the collision loop of `rename`;
- `PictureBlock.PutChunks`, the read loop of the picture block;
- `FfmpegCommand.AppendMetadata`, a loop over the tag entries that stands for the eleven successive `-metadata` appends of the command builder;
- `Downloader.Download`, the transfer loop.

The steps that update those objects, or run the loops in sequence, are methods too:
- `Downloader.OkHttpDownload`;
- `PictureBlock.PutHeader` and `PictureBlock.VorbisPictureBlockBase64`;
- `FfmpegCommand.AppendStreamArgs`, `FfmpegCommand.AppendTags` and `FfmpegCommand.BuildCommand`;
- `Tag.ResolveAlbum`, `Tag.WriteTags` (recursive, as the source is), `Tag.RunTag` and `Tag.FinishTag`.

The remaining operations compute values and are functions.

Four behaviours of the code are kept as written, although they are easy to mistake for something else:
- A resumed download opens the file without append. The file therefore ends up holding only the new bytes, although the total reported counts the old ones.
- No progress value follows the end of the transfer loop.
- `tag` emits its fourth step only after a successful `writeTags`.
- The JPEG-LS retry has no bound: it is not guarded by `hasCover`.

Modules:

| module | what it holds |
|---|---|
| `Wrappers` | Option and Result |
| `Text` | Kotlin string operations on `seq<char>` |
| `Models` | the host's data types |
| `Paths` | `java.io.File` paths as name lists |
| `SortedBy` | Kotlin's stable `sortedBy` |
| `Base64` | section 4 of RFC 4648 |
| `PictureBlock` | section 8.8 of RFC 9639 |

The remaining modules (`EDExtension`, `AndroidED`, `TagLyrics`, `FfmpegCommand`, `Placement`, `Tag`, `Downloader`) follow the source classes.

## Model

| member | source | states |
|---|---|---|
| EDExtension.GetExtension | ext/src/main/java/dev/brahmkshatriya/echo/extension/EDExtension.kt:66 | The result is the first extension with that id. It is None exactly when no extension has the id. |
| EDExtension.Get | ext/src/main/java/dev/brahmkshatriya/echo/extension/EDExtension.kt:68-72 | A failed instance load gives its error. An instance lacking the capability gives NotSupported("<name> Extension: <Client>"). Otherwise the block's own outcome, success or failure, is returned rather than thrown. |
| EDExtension.AlbumTracksBlock | ext/src/main/java/dev/brahmkshatriya/echo/extension/EDExtension.kt:43-46 | A failed album load, or a failed feed load, gives that failure. An album without a track feed gives the empty list. Otherwise the result is the feed's tracks. |
| EDExtension.PlaylistTracksBlock | ext/src/main/java/dev/brahmkshatriya/echo/extension/EDExtension.kt:48-51 | A failed playlist load gives its failure. Otherwise the result is the outcome of loading all the tracks. |
| EDExtension.Contexts | ext/src/main/java/dev/brahmkshatriya/echo/extension/EDExtension.kt:57-59 | There is one context per track, in order. Each carries the extension id, the track, sort order start+i and the list item. |
| EDExtension.GetDownloadTracks | ext/src/main/java/dev/brahmkshatriya/echo/extension/EDExtension.kt:36-63 | A track gives exactly one context, with no sort order and no parent. An unknown extension id for a list fails NullPointer. A failed load or probe is rethrown. A loaded list gives one context per track, with 0-based index and the item as parent. Any other item gives []. |
| EDExtension.ListContextsTracks | ext/src/main/java/dev/brahmkshatriya/echo/extension/EDExtension.kt:56-59 | The contexts' tracks are exactly the loaded tracks, in order. |
| EDExtension.AlbumWithoutFeedIsEmpty | ext/src/main/java/dev/brahmkshatriya/echo/extension/EDExtension.kt:43-45 | An album whose loaded form has no track feed expands to no contexts. |
| AndroidED.IllegalReplace | app/src/main/java/dev/brahmkshatriya/echo/extension/AndroidED.kt:282-286 | The length is kept. Each of / \ : * ? " < > \| becomes '_'. Every other character is unchanged. |
| AndroidED.IllegalReplaceClean | app/src/main/java/dev/brahmkshatriya/echo/extension/AndroidED.kt:282-286 | The result contains no illegal character and no '/'. Replacing again changes nothing. |
| AndroidED.MaxPosition | app/src/main/java/dev/brahmkshatriya/echo/extension/AndroidED.kt:291 | The first position of maximum quality among the first n: no quality is greater, and every earlier one is strictly smaller. |
| AndroidED.MinPosition | app/src/main/java/dev/brahmkshatriya/echo/extension/AndroidED.kt:293 | The first position of minimum quality among the first n. |
| AndroidED.SelectQuality | app/src/main/java/dev/brahmkshatriya/echo/extension/AndroidED.kt:289-296 | Every policy fails on an empty list. Policy "" or "0" picks the first maximum. Policy "1" picks position size/2 of the stable ascending order. Policy "2" picks the first minimum. Any other policy picks the first element. Branches test substring containment. |
| AndroidED.MedianPolicy | app/src/main/java/dev/brahmkshatriya/echo/extension/AndroidED.kt:292 | The order used by policy "1" is a permutation of the positions, stably sorted by quality. Policy "1" picks its element at size/2. |
| AndroidED.SelectServer | app/src/main/java/dev/brahmkshatriya/echo/extension/AndroidED.kt:52-54 | The result is the track's server at the position that SelectQuality picks from the servers' qualities under the quality setting. A failed setting read or a failed pick is passed on, so missing settings or an empty server list fail. |
| AndroidED.SelectSources | app/src/main/java/dev/brahmkshatriya/echo/extension/AndroidED.kt:56-62 | The result is the one-element list of the source at the position that SelectQuality picks from the sources' qualities under the quality setting. A failed setting read or a failed pick is passed on, so missing settings or no sources fail. |
| AndroidED.DefaultServerIsMedian | app/src/main/java/dev/brahmkshatriya/echo/extension/AndroidED.kt:52-54 | Under the default quality setting "1", the server chosen is the middle one of the stable ascending order by quality. The servers before it in that order are no better, and those after it are no worse. |
| AndroidED.StringSetting | app/src/main/java/dev/brahmkshatriya/echo/extension/AndroidED.kt:139-141 | Without loaded settings the getter fails with IllegalStateException("Settings have not been loaded."). Otherwise it returns the stored value, or the default. |
| AndroidED.BoolSetting | app/src/main/java/dev/brahmkshatriya/echo/extension/AndroidED.kt:139-141 | Like StringSetting, for switches. |
| AndroidED.IntSetting | app/src/main/java/dev/brahmkshatriya/echo/extension/AndroidED.kt:139-141 | Like StringSetting, for sliders. |
| AndroidED.ConcurrentDownloads | app/src/main/java/dev/brahmkshatriya/echo/extension/AndroidED.kt:244-245 | The `concurrent_downloads` slider, default 2. Its contract is stated by `AndroidED.IntSetting` and `AndroidED.SettingDefaults`. |
| AndroidED.SetQuality | app/src/main/java/dev/brahmkshatriya/echo/extension/AndroidED.kt:247-248 | The `quality` setting, default "1". Its contract is stated by `AndroidED.StringSetting` and `AndroidED.SettingDefaults`. |
| AndroidED.TrackNum | app/src/main/java/dev/brahmkshatriya/echo/extension/AndroidED.kt:250-251 | The `track_num` switch, default false. Its contract is stated by `AndroidED.BoolSetting` and `AndroidED.SettingDefaults`. |
| AndroidED.DownFolder | app/src/main/java/dev/brahmkshatriya/echo/extension/AndroidED.kt:253-254 | The main folder setting, default "download". Its contract is stated by `AndroidED.StringSetting` and `AndroidED.SettingDefaults`. |
| AndroidED.FolderStructure | app/src/main/java/dev/brahmkshatriya/echo/extension/AndroidED.kt:256-257 | The subfolder setting, default "Echo/". Its contract is stated by `AndroidED.StringSetting` and `AndroidED.SettingDefaults`. |
| AndroidED.AlbumFolder | app/src/main/java/dev/brahmkshatriya/echo/extension/AndroidED.kt:259-260 | The album-folder switch, default false. Its contract is stated by `AndroidED.BoolSetting` and `AndroidED.SettingDefaults`. |
| AndroidED.DownLyrics | app/src/main/java/dev/brahmkshatriya/echo/extension/AndroidED.kt:262-263 | The download-lyrics switch, default true. Its contract is stated by `AndroidED.BoolSetting` and `AndroidED.SettingDefaults`. |
| AndroidED.DownFallbackLyrics | app/src/main/java/dev/brahmkshatriya/echo/extension/AndroidED.kt:265-266 | The fallback lyrics extension id, default "". Its contract is stated by `AndroidED.StringSetting` and `AndroidED.SettingDefaults`. |
| AndroidED.SyncLyrics | app/src/main/java/dev/brahmkshatriya/echo/extension/AndroidED.kt:268-269 | The synced-lyrics switch, default true. Its contract is stated by `AndroidED.BoolSetting` and `AndroidED.SettingDefaults`. |
| AndroidED.SettingDefaults | app/src/main/java/dev/brahmkshatriya/echo/extension/AndroidED.kt:244-269 | In a loaded but empty store the defaults are: quality "1", 2 concurrent downloads, track number false, main folder "download", subfolder "Echo/", album folder false, download lyrics true, fallback id "", synced lyrics true. |
| AndroidED.DownloadsDirectoryFor | app/src/main/java/dev/brahmkshatriya/echo/extension/AndroidED.kt:129-135 | Music exactly when the setting occurs in "music". Podcasts exactly when it occurs in "podcasts" but not in "music". Downloads otherwise. |
| AndroidED.DownloadsDirectoryExamples | app/src/main/java/dev/brahmkshatriya/echo/extension/AndroidED.kt:130-134 | "", "s" and "music" select Music. "cast" and "podcasts" select Podcasts. "download" selects Downloads. |
| AndroidED.DownloadFolder | app/src/main/java/dev/brahmkshatriya/echo/extension/AndroidED.kt:44-47 | The folder of `getDownloadDir`: "Echo/" and the sanitised parent title, or "Echo". Its contract is stated by `AndroidED.DownloadFolderNames`. |
| AndroidED.TempFile | app/src/main/java/dev/brahmkshatriya/echo/extension/AndroidED.kt:78-81 | Where a download's temporary file goes. Its contract is stated by `AndroidED.TempFileDirectory`. |
| AndroidED.DownloadFolderNames | app/src/main/java/dev/brahmkshatriya/echo/extension/AndroidED.kt:44-50 | The temp folder is ["Echo"] when the sanitised parent title is blank, and ["Echo", sanitised title] otherwise. |
| AndroidED.TempFileDirectory | app/src/main/java/dev/brahmkshatriya/echo/extension/AndroidED.kt:78-81 | The temporary file lies in the parent of the temp folder: the cache directory itself, or its "Echo" folder. |
| AndroidED.Dispatch | app/src/main/java/dev/brahmkshatriya/echo/extension/AndroidED.kt:79-112 | A raw source without a provider fails. A raw source's file is "<hash>.mp4" for video and "<hash>.mp3" otherwise. A live HTTP source fails NotSupported before the decryption is looked at. Widevine fails NotImplemented. An undecrypted HTTP source goes to "<request hash>.mp4". |
| AndroidED.DisabledBySubstring | app/src/main/java/dev/brahmkshatriya/echo/extension/AndroidED.kt:74 | An id is disabled by any list text that contains it as a substring. The empty id is disabled by every list. |
| AndroidED.Client.OnInitialize | app/src/main/java/dev/brahmkshatriya/echo/extension/AndroidED.kt:36-42 | The disabled list becomes the fetched body. A failed fetch leaves it as it was. No other field changes. |
| AndroidED.Client.SetSettings | app/src/main/java/dev/brahmkshatriya/echo/extension/AndroidED.kt:142-144 | The settings become the store given. Nothing else changes. |
| AndroidED.Client.SetMusicExtensions | ext/src/main/java/dev/brahmkshatriya/echo/extension/EDExtension.kt:24-27 | The music extension list is replaced. Nothing else changes. |
| AndroidED.Client.SetLyricsExtensions | ext/src/main/java/dev/brahmkshatriya/echo/extension/EDExtension.kt:31-34 | The lyrics extension list is replaced. Nothing else changes. |
| AndroidED.Client.Download | app/src/main/java/dev/brahmkshatriya/echo/extension/AndroidED.kt:69-113 | A disabled extension id fails NotSupported("<id> download currently") before any source handling, and `isVideo` is left alone. Otherwise `isVideo` records the source and the result is the dispatch. |
| SortedBy.SortedPositions | app/src/main/java/dev/brahmkshatriya/echo/extension/AndroidED.kt:292 | The positions of the first n qualities in the order of `sortedBy`: n positions, each valid. That they are a permutation, stably sorted, is stated by the two lemmas below. |
| SortedBy.SortedPositionsPermutation | app/src/main/java/dev/brahmkshatriya/echo/extension/AndroidED.kt:292 | The sorted positions are exactly 0..n-1, each once. |
| SortedBy.SortedPositionsSorted | app/src/main/java/dev/brahmkshatriya/echo/extension/AndroidED.kt:292 | The sorted positions are ordered by quality, and equal qualities keep their original order. |
| Downloader.OutputFile.Open | ext/src/main/java/dev/brahmkshatriya/echo/extension/Downloader.kt:31 | Opening without append empties the file. With append it keeps its bytes. |
| Downloader.Step | ext/src/main/java/dev/brahmkshatriya/echo/extension/Downloader.kt:40-51 | One read of the loop: the count grows by the read, and a sample is added when a second has passed. Its contract is stated by `Downloader.SampleAfterASecond` and `Downloader.RunWellSampled`. |
| Downloader.Run | ext/src/main/java/dev/brahmkshatriya/echo/extension/Downloader.kt:39-52 | The loop state after k reads. Its contract is stated by `Downloader.RunWellSampled`, and `Downloader.Download` follows it. |
| Downloader.Download | ext/src/main/java/dev/brahmkshatriya/echo/extension/Downloader.kt:21-56 | The file holds exactly the concatenation of the chunks, because it is truncated on opening. The values emitted are those of the sampling specification `Run`. The received-bytes flow ends at the sum of the chunk sizes, and is unchanged when nothing was read. A read that throws after the chunks lets its exception escape, and leaves the file, the flow and the values emitted as the chunks made them. |
| Downloader.RunWellSampled | ext/src/main/java/dev/brahmkshatriya/echo/extension/Downloader.kt:28-51 | The first value carries only the total. Every later one carries total, count and speed. Counts never decrease. The speeds add up to the last sampled count. `received` is the sum of the reads so far. |
| Downloader.SampleAfterASecond | ext/src/main/java/dev/brahmkshatriya/echo/extension/Downloader.kt:45-51 | A read adds one sample, with speed received - lastBytes, exactly when at least 1000 ms have passed since the last sample. Otherwise it adds none and the sample time stays. |
| Downloader.LastBytesUnreported | ext/src/main/java/dev/brahmkshatriya/echo/extension/Downloader.kt:39-55 | One byte read within the first second is received but never reported: only the opening value is emitted. |
| Downloader.FlattenLength | ext/src/main/java/dev/brahmkshatriya/echo/extension/Downloader.kt:41-42 | The bytes written number the sum of the chunk sizes. |
| Downloader.ResumeHeaders | ext/src/main/java/dev/brahmkshatriya/echo/extension/Downloader.kt:68-72 | With N > 0 bytes on disk, "Range" is set to "bytes=N-", replacing any earlier value, and the other headers are kept. With none, the headers are unchanged. |
| Downloader.RangeReadsBack | ext/src/main/java/dev/brahmkshatriya/echo/extension/Downloader.kt:70 | The Range value reads back as an open byte range starting at N (section 14.2 of RFC 9110). |
| Downloader.OkHttpDownload | ext/src/main/java/dev/brahmkshatriya/echo/extension/Downloader.kt:60-84 | The headers sent are the resume headers, and the flow is first set to the bytes on disk. A failed call escapes with its error, with nothing emitted and the file untouched. Otherwise the total is the bytes on disk plus the declared content length, and the file ends up holding only the body. The flow ends at the body's byte count, or at the old length when the body is empty. A failing read escapes as in `Download`. |
| Downloader.ResumeTruncates | ext/src/main/java/dev/brahmkshatriya/echo/extension/Downloader.kt:31-76 | A resumed download reports a total that counts the existing bytes, yet the file holds only the body's bytes. When the body is as long as declared, the total exceeds the file's final length by exactly the bytes that were on disk. |
| TagLyrics.GapFilledLyrics | app/src/main/java/dev/brahmkshatriya/echo/extension/tasks/Tag.kt:364-378 | `fillGaps` on lyrics. Its contract is stated by `TagLyrics.GapFilledLyricsProperties`, `TagLyrics.FilledPlacement` and `TagLyrics.FilledHasNoGaps`. |
| TagLyrics.FilledLength | app/src/main/java/dev/brahmkshatriya/echo/extension/tasks/Tag.kt:367-375 | Gap filling adds exactly one item per gap. |
| TagLyrics.FilledPlacement | app/src/main/java/dev/brahmkshatriya/echo/extension/tasks/Tag.kt:369-374 | Original item i sits at index i plus the number of gaps up to it. When it had a gap, it is preceded by the filler Item("", previous end or 0, its start). |
| TagLyrics.FilledHasNoGaps | app/src/main/java/dev/brahmkshatriya/echo/extension/tasks/Tag.kt:369-374 | The filled list has no gap, and ends with the last original item. |
| TagLyrics.NoGapsFilledIsIdentity | app/src/main/java/dev/brahmkshatriya/echo/extension/tasks/Tag.kt:369-374 | A list without gaps is copied unchanged. |
| TagLyrics.FilledFixedPoints | app/src/main/java/dev/brahmkshatriya/echo/extension/tasks/Tag.kt:364-378 | Gap filling leaves a list unchanged exactly when it has no gaps. |
| TagLyrics.FilledIdempotent | app/src/main/java/dev/brahmkshatriya/echo/extension/tasks/Tag.kt:364-378 | Filling a filled list inserts nothing. |
| TagLyrics.FillGaps | app/src/main/java/dev/brahmkshatriya/echo/extension/tasks/Tag.kt:364-378 | The loop with its running `last` computes the gap-filled lyrics. |
| TagLyrics.GapFilledLyricsProperties | app/src/main/java/dev/brahmkshatriya/echo/extension/tasks/Tag.kt:364-378 | Lyrics without a flagged timed list are returned unchanged. Filling twice is filling once. The id and title are kept. |
| TagLyrics.FormatTime | app/src/main/java/dev/brahmkshatriya/echo/extension/tasks/Tag.kt:380-389 | `formatTime`: the "[mm:ss.hh]" stamp of a time in milliseconds. Its contract is stated by `TagLyrics.FormatTimeReads` and the examples below. |
| TagLyrics.TimeFieldsBounds | app/src/main/java/dev/brahmkshatriya/echo/extension/tasks/Tag.kt:381-387 | For millis >= 0: mm = millis/60000, 0 <= ss < 60, 0 <= hundredths < 100, and mm·60000 + ss·1000 + hundredths·10 <= millis < that + 10. |
| TagLyrics.FormatTimeReads | app/src/main/java/dev/brahmkshatriya/echo/extension/tasks/Tag.kt:381-394 | The timestamp is "[" + minutes + ":" + seconds + "." + hundredths + "]". The minutes have at least two digits and read back as millis/60000, not wrapped. Seconds and hundredths are two digits each and read back as their fields. It is 10 characters below 100 minutes. |
| TagLyrics.FormatTimeMinuteAndSecond | app/src/main/java/dev/brahmkshatriya/echo/extension/tasks/Tag.kt:381-394 | 61234 ms renders as "[01:01.23]". |
| TagLyrics.FormatTimeHundredMinutes | app/src/main/java/dev/brahmkshatriya/echo/extension/tasks/Tag.kt:381-394 | 6000000 ms renders as "[100:00.00]": the minutes are not wrapped. |
| TagLyrics.FormatTimeNegative | app/src/main/java/dev/brahmkshatriya/echo/extension/tasks/Tag.kt:381-394 | -1500 ms renders as "[00:-1.-50]": the truncating remainders keep their sign. |
| TagLyrics.LyricsText | app/src/main/java/dev/brahmkshatriya/echo/extension/tasks/Tag.kt:97-109 | The lyrics text handed to the muxer: timed items joined by newlines, simple text as it is, otherwise none. Its contract is stated by `TagLyrics.TimedTextLines`. |
| TagLyrics.TimedTextLines | app/src/main/java/dev/brahmkshatriya/echo/extension/tasks/Tag.kt:97-102 | Splitting the text of timed lyrics on newlines gives one line per item, in order: timestamp then text (item texts without newlines). |
| TagLyrics.GetLyrics | app/src/main/java/dev/brahmkshatriya/echo/extension/tasks/Tag.kt:346-362 | Only a failure to load the feed after a successful search escapes. The result is present exactly when the search, the feed and the load of its first entry all succeed, and it is that entry gap-filled. |
| TagLyrics.GetActualLyrics | app/src/main/java/dev/brahmkshatriya/echo/extension/tasks/Tag.kt:320-344 | Lyrics off or no extension: null. A main result with a body, with no sync wanted or no lyrics extension: the main result. An unknown fallback id: null, even when main lyrics exist. A timed fallback: the fallback. Otherwise: the main result. Any failure: null. The result is always one of the two lookups. |
| FfmpegCommand.BuildCommand | app/src/main/java/dev/brahmkshatriya/echo/extension/tasks/Tag.kt:184-248 | The builder produces the rendered command pieces, or the picture-block failure. |
| FfmpegCommand.AppendTags | app/src/main/java/dev/brahmkshatriya/echo/extension/tasks/Tag.kt:224-247 | The builder appends the cover stream tags, the eleven tag entries, the lyrics and the output path, in that order. |
| FfmpegCommand.AppendStreamArgs | app/src/main/java/dev/brahmkshatriya/echo/extension/tasks/Tag.kt:187-223 | This fails exactly for an Ogg cover too large for the picture buffer, with the exception `PictureBlock.OversizeError` gives for its length. Otherwise it appends the container's inputs, maps and codecs. |
| FfmpegCommand.CommandArgs | app/src/main/java/dev/brahmkshatriya/echo/extension/tasks/Tag.kt:184-248 | The command as pieces. Its contract is stated by the lemmas below; `FfmpegCommand.BuildCommand` renders it. |
| FfmpegCommand.CommandFrame | app/src/main/java/dev/brahmkshatriya/echo/extension/tasks/Tag.kt:167-247 | The command starts with `-y -i "<input>" ` and ends with the quoted path of `temp_<name>` beside the input. |
| FfmpegCommand.CoverInput | app/src/main/java/dev/brahmkshatriya/echo/extension/tasks/Tag.kt:187-223 | Among the command's pieces (`CommandArgs`), there is a second input exactly when a cover is embedded in a container other than Ogg. |
| FfmpegCommand.AttachedPicture | app/src/main/java/dev/brahmkshatriya/echo/extension/tasks/Tag.kt:188-195 | Among the command's pieces (`CommandArgs`), `attached_pic` appears exactly for m4a, flac and mp3 when a cover is present and `hasCover` is unset. |
| FfmpegCommand.Id3Options | app/src/main/java/dev/brahmkshatriya/echo/extension/tasks/Tag.kt:200-242 | Among the command's pieces (`CommandArgs`), mp3 and only mp3 has `-id3v2_version 3`. `-id3v2_text_enc 1` appears exactly for mp3 with lyrics. |
| FfmpegCommand.OggPicture | app/src/main/java/dev/brahmkshatriya/echo/extension/tasks/Tag.kt:205-209 | Ogg with a cover embeds METADATA_BLOCK_PICTURE=<base64 of the picture block>. It fails only when the block exceeds a 32-bit length, and then with `PictureBlock.OversizeError` of the cover's length. |
| FfmpegCommand.LyricsTag | app/src/main/java/dev/brahmkshatriya/echo/extension/tasks/Tag.kt:239-246 | Lyrics go under `lyrics-eng` for mp3 and `lyrics` otherwise. Each '"' becomes '\'', so no double quote is left. |
| FfmpegCommand.TagEntryFacts | app/src/main/java/dev/brahmkshatriya/echo/extension/tasks/Tag.kt:169-179 | What each of the eleven entries holds, in order. The track entry comes first. The quoted title, album and album-artist values hold no illegal character. The artist names (one artist: its name as it is), genres, isrc and extension name are quoted unsanitised. A missing disc number or isrc is written "null", and without an album the album artists are empty. The date key is `year` for flac and mp4 and `date` otherwise. The provider entry is the unquoted `service_provider=Echo`. |
| FfmpegCommand.TrackNumberChoice | app/src/main/java/dev/brahmkshatriya/echo/extension/tasks/Tag.kt:169 | The track number is the list position, else the album order number, else 0. |
| FfmpegCommand.TagEntries | app/src/main/java/dev/brahmkshatriya/echo/extension/tasks/Tag.kt:169-238 | The eleven `-metadata` entries, in command order. Their count is its own contract. What each holds is stated by `FfmpegCommand.TagEntryFacts`. |
| FfmpegCommand.RenderAllConcat | app/src/main/java/dev/brahmkshatriya/echo/extension/tasks/Tag.kt:184-248 | Appending pieces appends their texts. |
| PictureBlock.BE32RoundTrip | app/src/main/java/dev/brahmkshatriya/echo/extension/tasks/Tag.kt:294-305 | A big-endian putInt value reads back as the same signed 32-bit integer. |
| PictureBlock.MimeIsImageJpeg | app/src/main/java/dev/brahmkshatriya/echo/extension/tasks/Tag.kt:289 | The MIME bytes are the ten ASCII codes of "image/jpeg". |
| PictureBlock.Header | app/src/main/java/dev/brahmkshatriya/echo/extension/tasks/Tag.kt:296-306 | The nine header fields as bytes, 42 of them. The layout is stated by `PictureBlock.BlockLayout`, and `PictureBlock.PutHeader` writes it. |
| PictureBlock.Block | app/src/main/java/dev/brahmkshatriya/echo/extension/tasks/Tag.kt:289-315 | The header followed by the image. Its contract is stated by `PictureBlock.BlockLayout` and `PictureBlock.EncodedBlockDecodes`. |
| PictureBlock.BlockLayout | app/src/main/java/dev/brahmkshatriya/echo/extension/tasks/Tag.kt:289-315 | The block is 42 + imgLen bytes. Offset 0 holds 3, 4 holds 10, 8..17 hold "image/jpeg", 18 holds 0, 22 holds w, 26 holds h, 30 holds 24, 34 holds 0, 38 holds imgLen, and the image follows verbatim from 42. |
| PictureBlock.EncodedBlockDecodes | app/src/main/java/dev/brahmkshatriya/echo/extension/tasks/Tag.kt:317 | The base64 text of the block decodes back to the block. |
| PictureBlock.ByteBuffer.PutInt | app/src/main/java/dev/brahmkshatriya/echo/extension/tasks/Tag.kt:297-305 | putInt appends the four big-endian bytes when they fit. Otherwise it fails and writes nothing. |
| PictureBlock.ByteBuffer.Put | app/src/main/java/dev/brahmkshatriya/echo/extension/tasks/Tag.kt:312 | put appends the bytes when they fit. Otherwise it fails and writes nothing. |
| PictureBlock.PutHeader | app/src/main/java/dev/brahmkshatriya/echo/extension/tasks/Tag.kt:296-306 | The nine header fields are put in order. This succeeds exactly when the buffer has room for the 42 header bytes, and then fills exactly the header. |
| PictureBlock.PutChunks | app/src/main/java/dev/brahmkshatriya/echo/extension/tasks/Tag.kt:308-315 | The read loop succeeds exactly when the image fits in the room left, and then appends the whole image after the header. A chunk without room fails. |
| PictureBlock.VorbisPictureBlockBase64 | app/src/main/java/dev/brahmkshatriya/echo/extension/tasks/Tag.kt:283-318 | The length `toInt()` and the capacity `hdrSize + imgLen` are wrapped to 32 bits. A block of at most Int.MAX_VALUE bytes gives the base64 text of the block, built by the header puts and the chunk-read loop. A longer one fails with IllegalArgumentException when the wrapped capacity is negative, and with BufferOverflowException when a put runs out of room (`PictureBlock.OversizeError`). |
| PictureBlock.Wrap32 | app/src/main/java/dev/brahmkshatriya/echo/extension/tasks/Tag.kt:292 | `toInt()` keeps the low 32 bits: the result differs from the input by a multiple of 2^32. |
| PictureBlock.CapacityBound | app/src/main/java/dev/brahmkshatriya/echo/extension/tasks/Tag.kt:291-294 | The wrapped capacity never exceeds 42 + the cover's length, and equals it exactly when that fits an Int. Then the wrapped length is the cover's length. |
| PictureBlock.OversizeErrors | app/src/main/java/dev/brahmkshatriya/echo/extension/tasks/Tag.kt:292-312 | Covers of 2^31 − 42 and 2^31 bytes fail in `allocate` (IllegalArgumentException). Covers of 2^32 − 42 and 2^32 + 100 bytes fail in a put (BufferOverflowException). |
| Base64.Encode | app/src/main/java/dev/brahmkshatriya/echo/extension/tasks/Tag.kt:317 | Padded base64: four characters per started group of three bytes. That it decodes back is `Base64.DecodeEncode`. |
| Base64.DecodeEncode | app/src/main/java/dev/brahmkshatriya/echo/extension/tasks/Tag.kt:317 | Decoding the padded base64 text of any byte string gives it back (section 4 of RFC 4648). |
| Base64.AlphabetIsRfc4648 | app/src/main/java/dev/brahmkshatriya/echo/extension/tasks/Tag.kt:317 | The alphabet is A-Z, a-z, 0-9, '+', '/'. |
| Placement.TargetFolder | app/src/main/java/dev/brahmkshatriya/echo/extension/tasks/Tag.kt:135-143 | A non-blank sanitised parent gives folderStructure + parent. Otherwise, with albumFolder set, folderStructure + the sanitised album title. Otherwise the literal "Echo/". Settings are read lazily, and a read fails when the settings are not loaded. |
| Placement.DefaultFolders | app/src/main/java/dev/brahmkshatriya/echo/extension/tasks/Tag.kt:135-143 | With default settings the folder is "Echo/<parent>", two levels down, or the literal "Echo/" folder. |
| Placement.NoSettingsNoFolder | app/src/main/java/dev/brahmkshatriya/echo/extension/tasks/Tag.kt:137-140 | Without loaded settings no folder is chosen. |
| Placement.Candidate | app/src/main/java/dev/brahmkshatriya/echo/extension/tasks/Tag.kt:145-150 | The name tried after count collisions: the name, then "1 name", "2 name" and so on. Its contract is stated by `Placement.CandidateInjective` and `Placement.FreeName`. |
| Placement.CandidateInjective | app/src/main/java/dev/brahmkshatriya/echo/extension/tasks/Tag.kt:145-150 | Different collision counts give different names. |
| Placement.TriedSize | app/src/main/java/dev/brahmkshatriya/echo/extension/tasks/Tag.kt:145-150 | The first count candidates are count distinct names. |
| Placement.FreeName | app/src/main/java/dev/brahmkshatriya/echo/extension/tasks/Tag.kt:145-150 | The name chosen is the first of name, "1 name", "2 name", ... that is absent. Every earlier candidate exists. The count never exceeds the number of existing names, so the loop ends. |
| Placement.FileTree.Place | app/src/main/java/dev/brahmkshatriya/echo/extension/tasks/Tag.kt:144-152 | The folder is created when missing. The file lands under the first free candidate name of that folder, and that name is added to that folder alone. |
| Tag.AlbumKey | app/src/main/java/dev/brahmkshatriya/echo/extension/tasks/Tag.kt:50 | The album cache key "<extension id>:<album id or null>". Its contract is stated by `Tag.AlbumKeyInjective` and `Tag.AlbumKeyNullCollision`. |
| Tag.AlbumKeyInjective | app/src/main/java/dev/brahmkshatriya/echo/extension/tasks/Tag.kt:50 | Within one extension, distinct album ids give distinct cache keys. |
| Tag.AlbumKeyNullCollision | app/src/main/java/dev/brahmkshatriya/echo/extension/tasks/Tag.kt:50 | A track without an album shares its key with an album whose id is "null". |
| Tag.LoadAlbum | app/src/main/java/dev/brahmkshatriya/echo/extension/tasks/Tag.kt:257-264 | The result is absent exactly when the track has no album. It is the loaded album when the album client succeeds, and the track's own album otherwise. |
| Tag.FallbackAlbumCached | app/src/main/java/dev/brahmkshatriya/echo/extension/tasks/Tag.kt:53-57 | A track with an album always has an album to cache, the fallback included. |
| Tag.AlbumCache.Put | app/src/main/java/dev/brahmkshatriya/echo/extension/tasks/Tag.kt:55 | The key maps to the value afterwards. Other entries are unchanged or evicted, at most one is evicted, none when there was room, and the size stays at most 50. |
| Tag.AlbumCache.Get | app/src/main/java/dev/brahmkshatriya/echo/extension/tasks/Tag.kt:51 | The cached album for the key, if any. |
| Tag.CachedAlbum | app/src/main/java/dev/brahmkshatriya/echo/extension/tasks/Tag.kt:50-57 | The album `tag` uses: the cached one, else the loaded one. Its contract is stated by `Tag.ResolveAlbum`. |
| Tag.ResolveAlbum | app/src/main/java/dev/brahmkshatriya/echo/extension/tasks/Tag.kt:50-57 | A cache hit returns the cached album and leaves the cache alone. A miss loads, and caches the result whenever there is one. Caching it changes no other entry and evicts at most one, and none when the cache was not full. An absent album leaves the cache alone. |
| Tag.Attempt | app/src/main/java/dev/brahmkshatriya/echo/extension/tasks/Tag.kt:114-116 | One attempt: a command that cannot be built fails with the build's error before the muxer runs, a muxer failure fails with its text, and otherwise the result is the target folder. Its contract is stated by `Tag.AttemptBuildsFirst` and `Tag.RetryDecidedAt`. |
| Tag.BuildFailureNotRetried | app/src/main/java/dev/brahmkshatriya/echo/extension/tasks/Tag.kt:117-124 | A command that cannot be built fails with IllegalArgumentException or BufferOverflowException. Neither text mentions JPEG-LS, so the failure is rethrown. |
| Tag.AttemptBuildsFirst | app/src/main/java/dev/brahmkshatriya/echo/extension/tasks/Tag.kt:114-124 | An attempt whose command cannot be built fails with the build's error, and that failure is not retried. |
| Tag.RetryBy | app/src/main/java/dev/brahmkshatriya/echo/extension/tasks/Tag.kt:114-125 | The retry policy: a command that cannot be built is rethrown before any muxer outcome is used. Otherwise the next outcome decides, and the JPEG-LS failure is retried with `hasCover` set. Its contract is stated by `Tag.RetryDecidedAt` and `Tag.RetryUnbounded`. |
| Tag.RetryDecidedAt | app/src/main/java/dev/brahmkshatriya/echo/extension/tasks/Tag.kt:114-125 | For an attempt that checks the build first, the first attempt whose failure does not mention JPEG-LS decides. It places the file, or its error is rethrown unchanged. Every later attempt has `hasCover` set. |
| Tag.RetryUnbounded | app/src/main/java/dev/brahmkshatriya/echo/extension/tasks/Tag.kt:117-120 | While the muxer keeps failing with JPEG-LS, the retry never stops: it is not guarded by `hasCover`. When the outcomes run out, only a command that cannot be built is reported. |
| Tag.WriteTags | app/src/main/java/dev/brahmkshatriya/echo/extension/tasks/Tag.kt:86-154 | The outcome follows the retry policy. A placed file lands in the folder downloadsDir/folder, under the first free name there. That name is added to that folder, and no other folder changes. A rethrown error, or running out of outcomes, leaves the file tree alone. The cover file is removed whenever the call ends. |
| Tag.FinishTag | app/src/main/java/dev/brahmkshatriya/echo/extension/tasks/Tag.kt:69-82 | The outcome and the file tree follow the retry policy, as for `Tag.WriteTags`. Tick 4 is emitted exactly when the file was placed. |
| Tag.RunTag | app/src/main/java/dev/brahmkshatriya/echo/extension/tasks/Tag.kt:41-84 | Ticks 1, 2 and 3 follow the album, cover and lyrics steps, and tick 4 comes only after success. Settings that are not loaded stop the run after tick 2 with the settings error. Otherwise the outcome and the file tree follow the retry policy for the first request. That request is built from the album resolved through the cache as it was, and from the lyrics `getActualLyrics` finds by `getLyrics` on the environment's lyrics outcomes. |
| Paths.AfterLastDot | app/src/main/java/dev/brahmkshatriya/echo/extension/tasks/Tag.kt:111 | The file extension is what follows the last '.', or "" when there is no dot. It never contains a dot. |
| Text.ContainsIsSlice | app/src/main/java/dev/brahmkshatriya/echo/extension/AndroidED.kt:290-294 | `contains` and `in` hold exactly when some slice equals the needle. |
| Text.Pad2Reads | app/src/main/java/dev/brahmkshatriya/echo/extension/tasks/Tag.kt:394 | `%02d` of n >= 0 reads back as n in digits, and takes two characters below 100. |
| Text.SplitJoin | app/src/main/java/dev/brahmkshatriya/echo/extension/tasks/Tag.kt:99 | Splitting a join on a separator that no part contains gives the parts back. |

## Left out

- Network calls, file-system effects and the muxer process are not modelled. Their results are inputs: read chunks, muxer outcomes, the fetched disabled list, extension results, and the cover's bytes and bounds.
- `saveCoverBitmap` is not modelled. The cover file, or its absence, is an input of the tag run.
- `hashCode()` values are not modelled. They are taken as given `hash` fields, because they are platform-specific.
- `BitmapFactory` bounds decoding is not modelled. The width and height are inputs of the picture block.
- Coroutines, dispatchers and flows are not modelled. Emitted values are a returned sequence, and `tryEmit` is assumed never to drop a value.
- Nullable flows are not modelled: `Downloader.Download` always has a flow to update.
- The time is not modelled as a clock. Clock readings are an input sequence.
- Concurrency is out of scope: the shared album cache and parallel downloads are single-threaded here.
- Tag.AlbumCache.Put: the LRU recency order of `android.util.LruCache` is not modelled. The evicted entry, when the cache is full, is left arbitrary.
- `getSettingItems`, the reflective application lookup and `Environment` directory resolution are not modelled. They are UI schema and platform code. `DownloadsDirectoryFor` gives the directory kind.
- `Merge`, `HttpDownload` and `InputStreamDownload` are not part of this model. `AndroidED.Client.Download` ends at the plan it hands to them.
- The Widevine path is only a failure, because the source leaves it as `TODO`.
- `copyTo`, `delete` and `renameTo` failures are not modelled. Deletion is tracked only for the cover file, by `coverRemoved`.
- Models.ErrorText: the texts are the exceptions' class names and messages as thrown here. The muxer's own failures are taken as the text it reports. Only the JPEG-LS substring test depends on them.
- Text.LowerAscii: `lowercase()` is modelled on ASCII letters only. The file extensions compared against are ASCII.
- TagLyrics.GapFilledLyrics: `Lyrics.Timed(new)` takes the class default of `fillTimeGaps`, which is not shown. It is taken to be set; gap filling is idempotent either way.
- PictureBlock.VorbisPictureBlockBase64: the image is given as one byte sequence. The loop reads it in `DEFAULT_BUFFER_SIZE` chunks, so the split of reads is fixed rather than arbitrary.
- Tag.WriteTags: the unbounded retry is driven by a finite sequence of muxer outcomes. Running out of outcomes is `OutOfAttempts`, which stands for the recursion that never returns.
- Placement.FileTree.Place: only the target folder's listing is modelled. The parent folders that `mkdirs` creates on the way are not recorded.
- Downloader.Download: a failing `out.write`, or a failure to open the file, is not modelled. A read that throws is modelled only after whole chunks, as `fault`. A write failing in mid-chunk could leave part of a chunk on disk and the flow one chunk behind.
- Downloader.OkHttpDownload: a failure of `response.body` or of the request builder is not modelled. Only the awaited call fails, as `call`.
- TagLyrics.FormatTime: `String.format` formats with the default locale. The model writes ASCII digits and an ASCII minus sign, as an English locale does; a locale with other digits gives other text.
- Text.Pad2: the same default-locale caveat applies to `%02d`.
- FfmpegCommand.CoverInput: the contract is about the command's pieces, not the text the muxer parses. Values are interpolated unescaped. A '"' in the artist names, genres, isrc, release date, extension name or a file path therefore ends the quoted value early, and the muxer sees other tokens than the pieces.
- FfmpegCommand.AttachedPicture: the contract is about the command's pieces, with the same unescaped-quote caveat.
- FfmpegCommand.Id3Options: the contract is about the command's pieces, with the same unescaped-quote caveat.
- Tag.Environment: the lyrics outcomes depend on the extension alone. Within one `tag` run the track and client id searched are fixed, so this loses nothing there.
- The case-insensitivity of HTTP header names is not modelled: a "range" key in lower case would stay beside the new "Range".
