/**
 * The argument string given to the muxer when tagging a downloaded file
 * (`ffmpegTag`): inputs and stream maps chosen by container, cover art
 * attached as a video stream or, for Ogg, embedded as a base64 picture block,
 * then one metadata entry per tag and the optional lyrics.
 */
module FfmpegCommand {
  import opened Wrappers
  import opened Text
  import opened Models
  import opened Paths
  import AndroidED
  import Base64
  import PictureBlock

  /** One piece of the command, rendered with its trailing space. */
  datatype Arg =
    | Overwrite                    // -y
    | Input(path: string)          // -i "<path>"
    | Map(spec: string)            // -map <spec>
    | Copy(stream: string)         // -c<stream> copy
    | AttachedPic                  // -disposition:v:0 attached_pic
    | Id3v2Version3                // -id3v2_version 3
    | Id3v2TextEncoding            // -id3v2_text_enc 1
    | Metadata(entry: string)      // -metadata <entry>
    | StreamMetadata(entry: string) // -metadata:s:v:0 <entry>
    | Output(path: string)         // "<path>", the only piece without a trailing space

  function Quoted(s: string): string {
    "\"" + s + "\""
  }

  function Render(a: Arg): string {
    match a
    case Overwrite => "-y "
    case Input(path) => "-i " + Quoted(path) + " "
    case Map(spec) => "-map " + spec + " "
    case Copy(stream) => "-c" + stream + " copy "
    case AttachedPic => "-disposition:v:0 attached_pic "
    case Id3v2Version3 => "-id3v2_version 3 "
    case Id3v2TextEncoding => "-id3v2_text_enc 1 "
    case Metadata(entry) => "-metadata " + entry + " "
    case StreamMetadata(entry) => "-metadata:s:v:0 " + entry + " "
    case Output(path) => Quoted(path)
  }

  /** The text of a list of pieces, in order. */
  function RenderAll(args: seq<Arg>): string
    decreases |args|
  {
    if |args| == 0 then "" else RenderAll(args[..|args| - 1]) + Render(args[|args| - 1])
  }

  lemma {:induction false} RenderAllConcat(a: seq<Arg>, b: seq<Arg>)
    ensures RenderAll(a + b) == RenderAll(a) + RenderAll(b)
    decreases |b|
  {
    if |b| > 0 {
      assert (a + b)[..|a + b| - 1] == a + b[..|b| - 1];
      RenderAllConcat(a, b[..|b| - 1]);
    } else {
      assert a + b == a;
    }
  }

  /** A decoded cover: its file, the bounds read from it (-1 when unreadable) and its bytes. */
  datatype Cover = Cover(file: Path, width: int32, height: int32, bytes: seq<byte>)

  /** The arguments of `ffmpegTag`. */
  datatype TagRequest = TagRequest(
    file: Path,
    context: DownloadContext,
    track: Track,
    cover: Option<Cover>,
    lyricsText: Option<string>,
    fileExtension: string,
    album: Option<Album>,
    extName: string,
    hasCover: bool)

  /** The cover is put into the file: there is one, and the muxer has not rejected it before. */
  predicate EmbedsCover(req: TagRequest) {
    req.cover.Some? && !req.hasCover
  }

  predicate AttachesPicture(ext: string) {
    ext == "m4a" || ext == "flac" || ext == "mp3"
  }

  /** `File(file.parent, "temp_${file.name}")` */
  function OutputFile(file: Path): Path {
    Child(Parent(file), "temp_" + FileName(file))
  }

  /** A nullable value in a string template: its text, or "null". */
  function OrNull(s: Option<string>): string {
    if s.None? then "null" else s.value
  }

  function ArtistNames(artists: seq<Artist>): (r: seq<string>)
    ensures |r| == |artists| && forall i :: 0 <= i < |artists| ==> r[i] == artists[i].name
  {
    seq(|artists|, i requires 0 <= i < |artists| => artists[i].name)
  }

  function SanitizedArtistNames(artists: seq<Artist>): (r: seq<string>)
    ensures |r| == |artists| && forall i :: 0 <= i < |artists| ==> r[i] == AndroidED.IllegalReplace(artists[i].name)
  {
    seq(|artists|, i requires 0 <= i < |artists| => AndroidED.IllegalReplace(artists[i].name))
  }

  /** The track number: the position in the list, else the album order number, else 0. */
  function TrackNumber(req: TagRequest): int {
    req.context.sortOrder.GetOr(req.track.albumOrderNumber.GetOr(0))
  }

  /** The release-date key: "year" for flac and mp4 (not m4a), "date" otherwise. */
  function DateKey(ext: string): string {
    if ext == "flac" || ext == "mp4" then "year" else "date"
  }

  /** The eleven `-metadata` entries every command carries, in order. */
  function TagEntries(req: TagRequest): (r: seq<string>)
    ensures |r| == 11
  {
    var t := req.track;
    var albumArtists := if req.album.None? then [] else req.album.value.artists;
    var albumTitle := if t.album.None? then "" else t.album.value.title;
    var disc := if t.albumDiscNumber.None? then None else Some(IntToString(t.albumDiscNumber.value));
    [ "track=" + Quoted(IntToString(TrackNumber(req))),
      "title=" + Quoted(AndroidED.IllegalReplace(t.title)),
      "artist=" + Quoted(Join(ArtistNames(t.artists), ", ")),
      "album=" + Quoted(AndroidED.IllegalReplace(albumTitle)),
      DateKey(req.fileExtension) + "=" + Quoted(OrNull(t.releaseDate)),
      "album_artist=" + Quoted(Join(SanitizedArtistNames(albumArtists), ", ")),
      "genre=" + Quoted(Join(t.genres, ", ")),
      "discnumber=" + Quoted(OrNull(disc)),
      "isrc=" + Quoted(OrNull(t.isrc)),
      "service_name=" + Quoted(req.extName),
      "service_provider=Echo" ]
  }

  function MetadataArgs(entries: seq<string>): (r: seq<Arg>)
    ensures |r| == |entries| && forall i :: 0 <= i < |entries| ==> r[i] == Metadata(entries[i])
  {
    seq(|entries|, i requires 0 <= i < |entries| => Metadata(entries[i]))
  }

  /** mp3 lyrics go under the ID3 key of the English unsynchronised lyrics frame. */
  function LyricsKey(ext: string): string {
    if ext == "mp3" then "lyrics-eng" else "lyrics"
  }

  /** The lyrics entry: double quotes in the text become single quotes. */
  function LyricsEntry(ext: string, text: string): string {
    LyricsKey(ext) + "=" + Quoted(ReplaceChar(text, '"', '\''))
  }

  /** The picture block text the Ogg branch embeds. */
  function PictureText(c: Cover): Result<string, Error> {
    if PictureBlock.HEADER_SIZE + |c.bytes| > PictureBlock.INT_MAX then Failure(PictureBlock.OversizeError(|c.bytes|))
    else Success(Base64.Encode(PictureBlock.Block(c.width, c.height, c.bytes)))
  }

  /** The container-dependent inputs, maps and codecs; `picture` is the Ogg picture block text. */
  function StreamArgs(req: TagRequest, picture: string): seq<Arg> {
    var ext := req.fileExtension;
    if AttachesPicture(ext) then
      (if EmbedsCover(req)
       then [Input(AbsolutePath(req.cover.value.file)), Map("0:a"), Map("1:v"), Copy(":a"), Copy(":v"), AttachedPic]
       else [Map("0"), Copy("")])
      + (if ext == "mp3" then [Id3v2Version3] else [])
    else if ext == "ogg" then
      (if EmbedsCover(req) then [Metadata("METADATA_BLOCK_PICTURE=" + picture)] else []) + [Copy(":a")]
    else
      (if EmbedsCover(req) then [Input(AbsolutePath(req.cover.value.file)), Map("0"), Map("1")] else [Map("0")])
      + [Copy("")]
  }

  function CoverArgs(req: TagRequest): seq<Arg> {
    if EmbedsCover(req) then [StreamMetadata("title=\"Album cover\""), StreamMetadata("comment=\"Cover (front)\"")] else []
  }

  function LyricsArgs(req: TagRequest): seq<Arg> {
    if req.lyricsText.None? then []
    else if req.fileExtension == "mp3" then [Id3v2TextEncoding, Metadata(LyricsEntry("mp3", req.lyricsText.value))]
    else [Metadata(LyricsEntry(req.fileExtension, req.lyricsText.value))]
  }

  /** The whole command given the picture text and the tag entries. */
  function Assemble(req: TagRequest, picture: string, entries: seq<string>): seq<Arg> {
    [Overwrite, Input(AbsolutePath(req.file))] + StreamArgs(req, picture) + CoverArgs(req)
      + MetadataArgs(entries) + LyricsArgs(req) + [Output(AbsolutePath(OutputFile(req.file)))]
  }

  /** The picture text the command embeds ("" when it embeds none). */
  function Picture(req: TagRequest): string {
    if req.fileExtension == "ogg" && EmbedsCover(req) && PictureText(req.cover.value).Success?
    then PictureText(req.cover.value).value else ""
  }

  /** The command's pieces; only building the Ogg picture block can fail. */
  function CommandArgs(req: TagRequest): Result<seq<Arg>, Error> {
    if req.fileExtension == "ogg" && EmbedsCover(req) then
      match PictureText(req.cover.value)
      case Failure(e) => Failure(e)
      case Success(p) => Success(Assemble(req, p, TagEntries(req)))
    else Success(Assemble(req, "", TagEntries(req)))
  }

  /** The `when (fileExtension)` part of the builder. */
  method AppendStreamArgs(req: TagRequest, cmd: seq<Arg>) returns (r: Result<seq<Arg>, Error>, ghost picture: string)
    ensures r.Failure? <==> req.fileExtension == "ogg" && EmbedsCover(req) && PictureText(req.cover.value).Failure?
    ensures r.Failure? ==> r.error == PictureBlock.OversizeError(|req.cover.value.bytes|)
    ensures r.Success? ==> r.value == cmd + StreamArgs(req, picture)
    ensures r.Success? && req.fileExtension == "ogg" && EmbedsCover(req) ==> picture == PictureText(req.cover.value).value
    ensures !(req.fileExtension == "ogg" && EmbedsCover(req)) ==> picture == ""
  {
    var ext := req.fileExtension;
    var embed := req.cover.Some? && !req.hasCover;
    var out := cmd;
    picture := "";
    if ext == "m4a" || ext == "flac" || ext == "mp3" {
      if embed {
        out := out + [Input(AbsolutePath(req.cover.value.file)), Map("0:a"), Map("1:v"), Copy(":a"), Copy(":v"), AttachedPic];
      } else {
        out := out + [Map("0"), Copy("")];
      }
      if ext == "mp3" {
        out := out + [Id3v2Version3];
      }
    } else if ext == "ogg" {
      if embed {
        var c := req.cover.value;
        var block := PictureBlock.VorbisPictureBlockBase64(c.width, c.height, c.bytes);
        if block.Failure? {
          return Failure(block.error), picture;
        }
        picture := block.value;
        out := out + [Metadata("METADATA_BLOCK_PICTURE=" + block.value)];
      }
      out := out + [Copy(":a")];
    } else {
      if embed {
        out := out + [Input(AbsolutePath(req.cover.value.file)), Map("0"), Map("1")];
      } else {
        out := out + [Map("0")];
      }
      out := out + [Copy("")];
    }
    r := Success(out);
  }

  /** One `-metadata` piece per entry, in order. */
  method AppendMetadata(cmd: seq<Arg>, entries: seq<string>) returns (out: seq<Arg>)
    ensures out == cmd + MetadataArgs(entries)
  {
    out := cmd;
    var i := 0;
    while i < |entries|
      invariant 0 <= i <= |entries|
      invariant out == cmd + MetadataArgs(entries[..i])
    {
      assert MetadataArgs(entries[..i + 1]) == MetadataArgs(entries[..i]) + [Metadata(entries[i])];
      out := out + [Metadata(entries[i])];
      i := i + 1;
    }
    assert entries[..i] == entries;
  }

  /** The rest of the builder: cover stream tags, the tag entries, the lyrics and the output path. */
  method AppendTags(req: TagRequest, cmd: seq<Arg>) returns (out: seq<Arg>)
    ensures out == cmd + CoverArgs(req) + MetadataArgs(TagEntries(req)) + LyricsArgs(req)
                   + [Output(AbsolutePath(OutputFile(req.file)))]
  {
    out := cmd;
    if req.cover.Some? && !req.hasCover {
      out := out + [StreamMetadata("title=\"Album cover\""), StreamMetadata("comment=\"Cover (front)\"")];
    }
    assert out == cmd + CoverArgs(req);
    ghost var tagged := cmd + CoverArgs(req) + MetadataArgs(TagEntries(req));
    out := AppendMetadata(out, TagEntries(req));
    assert out == tagged;
    if req.lyricsText.Some? {
      if req.fileExtension == "mp3" {
        out := out + [Id3v2TextEncoding, Metadata(LyricsEntry("mp3", req.lyricsText.value))];
      } else {
        out := out + [Metadata(LyricsEntry(req.fileExtension, req.lyricsText.value))];
      }
    }
    assert out == tagged + LyricsArgs(req);
    out := out + [Output(AbsolutePath(OutputFile(req.file)))];
  }

  /** The `buildString` of `ffmpegTag`, piece by piece. */
  method BuildCommand(req: TagRequest) returns (r: Result<string, Error>)
    ensures CommandArgs(req).Failure? ==> r == Failure(CommandArgs(req).error)
    ensures CommandArgs(req).Success? ==> r == Success(RenderAll(CommandArgs(req).value))
  {
    var streams, picture := AppendStreamArgs(req, [Overwrite, Input(AbsolutePath(req.file))]);
    if streams.Failure? {
      return Failure(streams.error);
    }
    var cmd := AppendTags(req, streams.value);
    assert cmd == Assemble(req, picture, TagEntries(req));
    r := Success(RenderAll(cmd));
  }

  // ------------------------------------------------------------ properties

  lemma CommandArgsShape(req: TagRequest)
    requires CommandArgs(req).Success?
    ensures CommandArgs(req).value == Assemble(req, Picture(req), TagEntries(req))
  {
  }

  lemma RenderAllSnoc(a: seq<Arg>, x: Arg)
    ensures RenderAll(a + [x]) == RenderAll(a) + Render(x)
  {
    assert (a + [x])[..|a|] == a;
  }

  lemma RenderHead(p: string)
    ensures RenderAll([Overwrite, Input(p)]) == "-y -i " + Quoted(p) + " "
  {
    RenderAllSnoc([], Overwrite);
    assert [] + [Overwrite] == [Overwrite];
    RenderAllSnoc([Overwrite], Input(p));
    assert [Overwrite] + [Input(p)] == [Overwrite, Input(p)];
    assert "-y " + ("-i " + Quoted(p) + " ") == "-y -i " + Quoted(p) + " ";
  }

  lemma PrefixOfConcat(a: string, b: string)
    ensures IsPrefix(a, a + b)
  {
    assert (a + b)[..|a|] == a;
  }

  lemma SuffixOfConcat(a: string, b: string)
    ensures (a + b)[|a + b| - |b|..] == b
  {
  }

  lemma RenderAllFrame(args: seq<Arg>)
    requires |args| >= 3 && args[0] == Overwrite && args[1].Input? && args[|args| - 1].Output?
    ensures var text := RenderAll(args);
            var out := Quoted(args[|args| - 1].path);
            && IsPrefix("-y -i " + Quoted(args[1].path) + " ", text)
            && |out| <= |text| && text[|text| - |out|..] == out
  {
    var head := [Overwrite, Input(args[1].path)];
    var init := args[..|args| - 1];
    var last := args[|args| - 1];
    assert args == head + args[2..];
    assert args == init + [last];
    RenderHead(args[1].path);
    RenderAllConcat(head, args[2..]);
    PrefixOfConcat(RenderAll(head), RenderAll(args[2..]));
    RenderAllSnoc(init, last);
    SuffixOfConcat(RenderAll(init), Render(last));
  }

  /** The command starts with `-y -i "<input>" ` and ends with the quoted `temp_<name>` path beside the input. */
  lemma CommandFrame(req: TagRequest)
    requires CommandArgs(req).Success?
    ensures var args := CommandArgs(req).value;
            var text := RenderAll(args);
            var out := Quoted(AbsolutePath(OutputFile(req.file)));
            && |args| >= 3
            && args[0] == Overwrite && args[1] == Input(AbsolutePath(req.file))
            && args[|args| - 1] == Output(AbsolutePath(OutputFile(req.file)))
            && IsPrefix("-y -i " + Quoted(AbsolutePath(req.file)) + " ", text)
            && |out| <= |text| && text[|text| - |out|..] == out
  {
    CommandArgsShape(req);
    RenderAllFrame(CommandArgs(req).value);
  }

  /** Apart from the tag entries, which are all Metadata, the pieces come from these segments. */
  lemma AssembleMembers(req: TagRequest, p: string, entries: seq<string>, a: Arg)
    requires !a.Metadata?
    ensures a in Assemble(req, p, entries) <==>
              || a == Overwrite || a == Input(AbsolutePath(req.file))
              || a in StreamArgs(req, p) || a in CoverArgs(req) || a in LyricsArgs(req)
              || a == Output(AbsolutePath(OutputFile(req.file)))
  {
    assert a !in MetadataArgs(entries);
  }

  /** The stream part has an input only when it embeds a cover outside Ogg. */
  lemma StreamArgsInputs(req: TagRequest, p: string)
    ensures forall a :: a in StreamArgs(req, p) && a.Input? ==> EmbedsCover(req) && req.fileExtension != "ogg"
  {
    var ext := req.fileExtension;
    if AttachesPicture(ext) {
      assert ext != "ogg";
    } else if ext == "ogg" {
      assert StreamArgs(req, p) == (if EmbedsCover(req) then [Metadata("METADATA_BLOCK_PICTURE=" + p)] else []) + [Copy(":a")];
    }
  }

  /** The pieces after the stream part, none of which is an input. */
  function AfterStreams(req: TagRequest, entries: seq<string>): seq<Arg> {
    CoverArgs(req) + MetadataArgs(entries) + LyricsArgs(req) + [Output(AbsolutePath(OutputFile(req.file)))]
  }

  lemma AssembleSplit(req: TagRequest, p: string, entries: seq<string>)
    ensures Assemble(req, p, entries) == [Overwrite, Input(AbsolutePath(req.file))] + (StreamArgs(req, p) + AfterStreams(req, entries))
  {
  }

  lemma AfterStreamsNoInput(req: TagRequest, entries: seq<string>)
    ensures forall a :: a in AfterStreams(req, entries) ==> !a.Input?
  {
    forall a | a in MetadataArgs(entries) ensures a.Metadata? {
      var k :| 0 <= k < |MetadataArgs(entries)| && MetadataArgs(entries)[k] == a;
    }
  }

  /** Outside Ogg, an embedded cover is the first stream piece. */
  lemma StreamArgsCover(req: TagRequest, p: string)
    requires EmbedsCover(req) && req.fileExtension != "ogg"
    ensures |StreamArgs(req, p)| > 0 && StreamArgs(req, p)[0] == Input(AbsolutePath(req.cover.value.file))
  {
  }

  lemma CoverInputArgs(req: TagRequest, p: string, entries: seq<string>)
    ensures var args := Assemble(req, p, entries);
            && (EmbedsCover(req) && req.fileExtension != "ogg" ==> args[2] == Input(AbsolutePath(req.cover.value.file)))
            && (!(EmbedsCover(req) && req.fileExtension != "ogg") ==> forall i :: 2 <= i < |args| ==> !args[i].Input?)
  {
    var args := Assemble(req, p, entries);
    var st := StreamArgs(req, p);
    var rest := AfterStreams(req, entries);
    AssembleSplit(req, p, entries);
    if EmbedsCover(req) && req.fileExtension != "ogg" {
      StreamArgsCover(req, p);
      assert args[2] == st[0];
    } else {
      StreamArgsInputs(req, p);
      AfterStreamsNoInput(req, entries);
      NoInputAfter([Overwrite, Input(AbsolutePath(req.file))], st + rest);
    }
  }

  lemma NoInputAfter(head: seq<Arg>, tail: seq<Arg>)
    requires forall a :: a in tail ==> !a.Input?
    ensures forall i :: |head| <= i < |head + tail| ==> !(head + tail)[i].Input?
  {
    forall i | |head| <= i < |head + tail|
      ensures !(head + tail)[i].Input?
    {
      assert (head + tail)[i] == tail[i - |head|];
    }
  }

  /** A second input, the cover, is given exactly when a cover is embedded in a container other than Ogg. */
  lemma CoverInput(req: TagRequest)
    requires CommandArgs(req).Success?
    ensures var args := CommandArgs(req).value;
            && (EmbedsCover(req) && req.fileExtension != "ogg" ==> args[2] == Input(AbsolutePath(req.cover.value.file)))
            && (!(EmbedsCover(req) && req.fileExtension != "ogg") ==> forall i :: 2 <= i < |args| ==> !args[i].Input?)
  {
    CommandArgsShape(req);
    CoverInputArgs(req, Picture(req), TagEntries(req));
  }

  /** The cover becomes an attached picture exactly for m4a, flac and mp3 with a cover embedded. */
  lemma AttachedPicture(req: TagRequest)
    requires CommandArgs(req).Success?
    ensures AttachedPic in CommandArgs(req).value <==> AttachesPicture(req.fileExtension) && EmbedsCover(req)
  {
    CommandArgsShape(req);
    AttachedPictureArgs(req, Picture(req), TagEntries(req));
  }

  lemma AttachedPictureArgs(req: TagRequest, p: string, entries: seq<string>)
    ensures AttachedPic in Assemble(req, p, entries) <==> AttachesPicture(req.fileExtension) && EmbedsCover(req)
  {
    AssembleMembers(req, p, entries, AttachedPic);
  }

  lemma Id3VersionArgs(req: TagRequest, p: string, entries: seq<string>)
    ensures Id3v2Version3 in Assemble(req, p, entries) <==> req.fileExtension == "mp3"
  {
    AssembleMembers(req, p, entries, Id3v2Version3);
    assert Id3v2Version3 !in CoverArgs(req) && Id3v2Version3 !in LyricsArgs(req);
    assert Id3v2Version3 in StreamArgs(req, p) <==> req.fileExtension == "mp3";
  }

  lemma Id3EncodingArgs(req: TagRequest, p: string, entries: seq<string>)
    ensures Id3v2TextEncoding in Assemble(req, p, entries) <==> req.fileExtension == "mp3" && req.lyricsText.Some?
  {
    AssembleMembers(req, p, entries, Id3v2TextEncoding);
    assert Id3v2TextEncoding !in CoverArgs(req) && Id3v2TextEncoding !in StreamArgs(req, p);
    assert Id3v2TextEncoding in LyricsArgs(req) <==> req.fileExtension == "mp3" && req.lyricsText.Some?;
  }

  lemma Id3OptionsArgs(req: TagRequest, p: string, entries: seq<string>)
    ensures Id3v2Version3 in Assemble(req, p, entries) <==> req.fileExtension == "mp3"
    ensures Id3v2TextEncoding in Assemble(req, p, entries) <==> req.fileExtension == "mp3" && req.lyricsText.Some?
  {
    Id3VersionArgs(req, p, entries);
    Id3EncodingArgs(req, p, entries);
  }

  /** mp3 always asks for ID3v2.3, and for UTF-16 text frames exactly when it carries lyrics; no other container does. */
  lemma Id3Options(req: TagRequest)
    requires CommandArgs(req).Success?
    ensures Id3v2Version3 in CommandArgs(req).value <==> req.fileExtension == "mp3"
    ensures Id3v2TextEncoding in CommandArgs(req).value <==> req.fileExtension == "mp3" && req.lyricsText.Some?
  {
    CommandArgsShape(req);
    Id3OptionsArgs(req, Picture(req), TagEntries(req));
  }

  /**
   * Ogg with a cover embeds the whole picture block, base64-encoded, as the
   * METADATA_BLOCK_PICTURE comment, and the command fails only when the image
   * is too long for a 32-bit buffer, with the exception the wrapped sizes raise.
   */
  lemma OggPicture(req: TagRequest)
    requires req.fileExtension == "ogg" && EmbedsCover(req)
    ensures var c := req.cover.value;
            && (CommandArgs(req).Success? <==> PictureBlock.HEADER_SIZE + |c.bytes| <= PictureBlock.INT_MAX)
            && (CommandArgs(req).Failure? ==> CommandArgs(req).error == PictureBlock.OversizeError(|c.bytes|))
            && (CommandArgs(req).Success? ==>
                  Metadata("METADATA_BLOCK_PICTURE=" + Base64.Encode(PictureBlock.Block(c.width, c.height, c.bytes)))
                    in CommandArgs(req).value)
  {
  }

  /** Lyrics are written under `lyrics-eng` for mp3 and `lyrics` otherwise, with no double quote left inside the value. */
  lemma LyricsTag(req: TagRequest)
    requires CommandArgs(req).Success? && req.lyricsText.Some?
    ensures var text := ReplaceChar(req.lyricsText.value, '"', '\'');
            && Metadata(LyricsKey(req.fileExtension) + "=" + Quoted(text)) in CommandArgs(req).value
            && '"' !in text
            && |text| == |req.lyricsText.value|
  {
    CommandArgsShape(req);
    var text := ReplaceChar(req.lyricsText.value, '"', '\'');
    assert forall i :: 0 <= i < |text| ==> text[i] != '"';
  }

  /** A sanitised value between quotes holds no illegal file-name character. */
  lemma QuotedClean(key: string, w: string)
    ensures var s := key + Quoted(AndroidED.IllegalReplace(w));
            && IsPrefix(key + "\"", s)
            && forall i :: |key| + 1 <= i < |s| - 1 ==> !AndroidED.IsIllegal(s[i])
  {
    AndroidED.IllegalReplaceClean(w);
    QuotedCleanText(key, AndroidED.IllegalReplace(w));
  }

  lemma QuotedPrefix(key: string, v: string)
    ensures IsPrefix(key + "\"", key + Quoted(v))
  {
    assert key + Quoted(v) == (key + "\"") + (v + "\"");
    PrefixOfConcat(key + "\"", v + "\"");
  }

  /** The title entry holds the sanitised title between quotes. */
  lemma TitleEntryClean(req: TagRequest)
    ensures var e := TagEntries(req)[1];
            && IsPrefix("title=\"", e)
            && forall i :: 7 <= i < |e| - 1 ==> !AndroidED.IsIllegal(e[i])
  {
    assert TagEntries(req)[1] == "title=" + Quoted(AndroidED.IllegalReplace(req.track.title));
    QuotedClean("title=", req.track.title);
    assert "title=" + "\"" == "title=\"";
  }

  /** The album entry holds the sanitised album title between quotes. */
  lemma AlbumEntryClean(req: TagRequest)
    ensures var e := TagEntries(req)[3];
            && IsPrefix("album=\"", e)
            && forall i :: 7 <= i < |e| - 1 ==> !AndroidED.IsIllegal(e[i])
  {
    var w := if req.track.album.None? then "" else req.track.album.value.title;
    assert TagEntries(req)[3] == "album=" + Quoted(AndroidED.IllegalReplace(w));
    QuotedClean("album=", w);
    assert "album=" + "\"" == "album=\"";
  }

  /** A text with no illegal file-name character. */
  predicate Clean(v: string) {
    forall i :: 0 <= i < |v| ==> !AndroidED.IsIllegal(v[i])
  }

  /** Joining clean parts with a clean separator gives a clean text. */
  lemma {:induction false} JoinClean(parts: seq<string>, sep: string)
    requires Clean(sep) && forall k :: 0 <= k < |parts| ==> Clean(parts[k])
    ensures Clean(Join(parts, sep))
    decreases |parts|
  {
    if |parts| > 1 {
      JoinClean(parts[1..], sep);
      var tail := Join(parts[1..], sep);
      assert Join(parts, sep) == parts[0] + sep + tail;
      assert Clean(parts[0]);
      forall i | 0 <= i < |parts[0] + sep + tail| ensures !AndroidED.IsIllegal((parts[0] + sep + tail)[i]) {
        if i >= |parts[0]| + |sep| {
          assert (parts[0] + sep + tail)[i] == tail[i - |parts[0]| - |sep|];
        } else if i >= |parts[0]| {
          assert (parts[0] + sep + tail)[i] == sep[i - |parts[0]|];
        }
      }
    } else if |parts| == 1 {
      assert Clean(parts[0]);
    }
  }

  /** An entry quoting a clean text: the key and a quote, then only legal characters up to the closing quote. */
  lemma QuotedCleanText(key: string, v: string)
    requires Clean(v)
    ensures var s := key + Quoted(v);
            && IsPrefix(key + "\"", s)
            && forall i :: |key| + 1 <= i < |s| - 1 ==> !AndroidED.IsIllegal(s[i])
  {
    var s := key + Quoted(v);
    QuotedPrefix(key, v);
    assert forall i :: |key| + 1 <= i < |s| - 1 ==> s[i] == v[i - |key| - 1];
  }

  /** The album-artist entry holds the album's artist names, each sanitised, between quotes. */
  lemma AlbumArtistEntryClean(req: TagRequest)
    ensures var e := TagEntries(req)[5];
            && IsPrefix("album_artist=\"", e)
            && forall i :: 14 <= i < |e| - 1 ==> !AndroidED.IsIllegal(e[i])
  {
    var artists := if req.album.None? then [] else req.album.value.artists;
    var names := SanitizedArtistNames(artists);
    forall k | 0 <= k < |names| ensures Clean(names[k]) {
      AndroidED.IllegalReplaceClean(artists[k].name);
    }
    JoinClean(names, ", ");
    assert TagEntries(req)[5] == "album_artist=" + Quoted(Join(names, ", "));
    QuotedCleanText("album_artist=", Join(names, ", "));
    assert "album_artist=" + "\"" == "album_artist=\"";
  }

  /** The entries that quote a value as it is, with "null" for a missing one. */
  lemma PlainEntries(req: TagRequest)
    ensures var e := TagEntries(req);
            var t := req.track;
            && e[2] == "artist=" + Quoted(Join(ArtistNames(t.artists), ", "))
            && (|t.artists| == 1 ==> e[2] == "artist=" + Quoted(t.artists[0].name))
            && (req.album.None? ==> e[5] == "album_artist=\"\"")
            && e[6] == "genre=" + Quoted(Join(t.genres, ", "))
            && e[7] == "discnumber=" + Quoted(if t.albumDiscNumber.None? then "null" else IntToString(t.albumDiscNumber.value))
            && e[8] == "isrc=" + Quoted(if t.isrc.None? then "null" else t.isrc.value)
            && e[9] == "service_name=" + Quoted(req.extName)
  {
    var e := TagEntries(req);
    assert e[2] == "artist=" + Quoted(Join(ArtistNames(req.track.artists), ", "));
    assert e[6] == "genre=" + Quoted(Join(req.track.genres, ", "));
  }

  /**
   * The tag entries in order. The title, album and album-artist values are
   * sanitised (no illegal file-name character); the artist, genre, isrc and
   * service-name values are quoted as they are, a missing disc number or isrc
   * as "null"; the date goes under `year` for flac and mp4 and under `date`
   * otherwise; the provider entry is the unquoted `Echo`.
   */
  lemma TagEntryFacts(req: TagRequest)
    ensures var e := TagEntries(req);
            var t := req.track;
            && e[0] == "track=" + Quoted(IntToString(TrackNumber(req)))
            && IsPrefix("title=\"", e[1])
            && (forall i :: 7 <= i < |e[1]| - 1 ==> !AndroidED.IsIllegal(e[1][i]))
            && e[2] == "artist=" + Quoted(Join(ArtistNames(t.artists), ", "))
            && (|t.artists| == 1 ==> e[2] == "artist=" + Quoted(t.artists[0].name))
            && IsPrefix("album=\"", e[3])
            && (forall i :: 7 <= i < |e[3]| - 1 ==> !AndroidED.IsIllegal(e[3][i]))
            && e[4] == (if req.fileExtension == "flac" || req.fileExtension == "mp4" then "year" else "date")
                         + "=" + Quoted(OrNull(t.releaseDate))
            && IsPrefix("album_artist=\"", e[5])
            && (forall i :: 14 <= i < |e[5]| - 1 ==> !AndroidED.IsIllegal(e[5][i]))
            && (req.album.None? ==> e[5] == "album_artist=\"\"")
            && e[6] == "genre=" + Quoted(Join(t.genres, ", "))
            && e[7] == "discnumber=" + Quoted(if t.albumDiscNumber.None? then "null" else IntToString(t.albumDiscNumber.value))
            && e[8] == "isrc=" + Quoted(if t.isrc.None? then "null" else t.isrc.value)
            && e[9] == "service_name=" + Quoted(req.extName)
            && e[10] == "service_provider=Echo"
  {
    TitleEntryClean(req);
    AlbumEntryClean(req);
    AlbumArtistEntryClean(req);
    PlainEntries(req);
  }

  /** The track number prefers the list position, then the album order number, then 0. */
  lemma TrackNumberChoice(req: TagRequest)
    ensures req.context.sortOrder.Some? ==> TrackNumber(req) == req.context.sortOrder.value
    ensures req.context.sortOrder.None? && req.track.albumOrderNumber.Some? ==> TrackNumber(req) == req.track.albumOrderNumber.value
    ensures req.context.sortOrder.None? && req.track.albumOrderNumber.None? ==> TrackNumber(req) == 0
  {
  }
}
