/**
 * The lyrics side of tagging: filling the silent gaps of timed lyrics, the
 * `[mm:ss.cc]` timestamp, rendering lyrics to the text written into the tag,
 * fetching lyrics from one extension, and choosing between the track's own
 * extension and the configured fallback lyrics extension.
 */
module TagLyrics {
  import opened Wrappers
  import opened Text
  import opened Models
  import opened EDExtension

  // ------------------------------------------------------------ fillGaps

  /** The end of the item before position `i`; 0 before the first item. */
  function PrevEnd(items: seq<LyricItem>, i: nat): int
    requires i <= |items|
  {
    if i == 0 then 0 else items[i - 1].endTime
  }

  /** Item `i` starts after the previous one ended (after 0 for the first item). */
  predicate HasGap(items: seq<LyricItem>, i: nat)
    requires i < |items|
  {
    items[i].startTime > PrevEnd(items, i)
  }

  /** The empty item that covers the gap before item `i`. */
  function Filler(items: seq<LyricItem>, i: nat): LyricItem
    requires i < |items|
  {
    LyricItem("", PrevEnd(items, i), items[i].startTime)
  }

  /** What one step of the loop appends for item `i`. */
  function Step(items: seq<LyricItem>, i: nat): seq<LyricItem>
    requires i < |items|
  {
    (if HasGap(items, i) then [Filler(items, i)] else []) + [items[i]]
  }

  /** The list built after the first `n` items. */
  function FilledUpTo(items: seq<LyricItem>, n: nat): seq<LyricItem>
    requires n <= |items|
    decreases n
  {
    if n == 0 then [] else FilledUpTo(items, n - 1) + Step(items, n - 1)
  }

  function Filled(items: seq<LyricItem>): seq<LyricItem> {
    FilledUpTo(items, |items|)
  }

  /** How many of the first `n` items have a gap before them. */
  function GapsBefore(items: seq<LyricItem>, n: nat): nat
    requires n <= |items|
    decreases n
  {
    if n == 0 then 0 else GapsBefore(items, n - 1) + (if HasGap(items, n - 1) then 1 else 0)
  }

  /** No item of the list starts after the previous one ended. */
  predicate NoGaps(items: seq<LyricItem>) {
    forall j :: 0 <= j < |items| ==> !HasGap(items, j)
  }

  /** The list grows by exactly one filler per gap. */
  lemma {:induction false} FilledLength(items: seq<LyricItem>, n: nat)
    requires n <= |items|
    ensures |FilledUpTo(items, n)| == n + GapsBefore(items, n)
    decreases n
  {
    if n > 0 {
      FilledLength(items, n - 1);
    }
  }

  /**
   * Item `i` sits at position `i + GapsBefore(items, i + 1)` of the output, and
   * when it has a gap the filler is right before it. With FilledLength this
   * places every element of the output: the originals, in order, and one
   * filler in front of each item that has a gap.
   */
  lemma {:induction false} FilledPlacement(items: seq<LyricItem>, n: nat, i: nat)
    requires i < n <= |items|
    ensures var r := FilledUpTo(items, n);
            var p := i + GapsBefore(items, i + 1);
            && p < |r| && r[p] == items[i]
            && (HasGap(items, i) ==> r[p - 1] == Filler(items, i))
    decreases n
  {
    FilledLength(items, n - 1);
    if n - 1 > i {
      FilledPlacement(items, n - 1, i);
      FilledLength(items, i + 1);
      FilledLength(items, n);
    }
  }

  /** The output of the loop has no gaps, and ends with the last original item. */
  lemma {:induction false} FilledHasNoGaps(items: seq<LyricItem>, n: nat)
    requires n <= |items|
    ensures NoGaps(FilledUpTo(items, n))
    ensures n > 0 ==> |FilledUpTo(items, n)| > 0 && FilledUpTo(items, n)[|FilledUpTo(items, n)| - 1] == items[n - 1]
    ensures n == 0 ==> FilledUpTo(items, n) == []
    decreases n
  {
    if n > 0 {
      FilledHasNoGaps(items, n - 1);
      var p := FilledUpTo(items, n - 1);
      var r := FilledUpTo(items, n);
      assert r == p + Step(items, n - 1);
      assert PrevEnd(r, |p|) == PrevEnd(items, n - 1);
      forall j | 0 <= j < |r|
        ensures !HasGap(r, j)
      {
        if j < |p| {
          assert r[j] == p[j] && PrevEnd(r, j) == PrevEnd(p, j);
          assert !HasGap(p, j);
        }
      }
    }
  }

  /** On a list without gaps the loop copies its input. */
  lemma {:induction false} NoGapsFilledIsIdentity(items: seq<LyricItem>, n: nat)
    requires NoGaps(items) && n <= |items|
    ensures FilledUpTo(items, n) == items[..n]
    decreases n
  {
    if n > 0 {
      NoGapsFilledIsIdentity(items, n - 1);
      assert !HasGap(items, n - 1);
      assert items[..n] == items[..n - 1] + [items[n - 1]];
    }
  }

  /** The lists that gap filling leaves unchanged are exactly those without gaps. */
  lemma FilledFixedPoints(items: seq<LyricItem>)
    ensures Filled(items) == items <==> NoGaps(items)
  {
    FilledHasNoGaps(items, |items|);
    if NoGaps(items) {
      NoGapsFilledIsIdentity(items, |items|);
      assert items[..|items|] == items;
    }
  }

  /** Running gap filling on its own output inserts nothing. */
  lemma FilledIdempotent(items: seq<LyricItem>)
    ensures Filled(Filled(items)) == Filled(items)
  {
    FilledHasNoGaps(items, |items|);
    FilledFixedPoints(Filled(items));
  }

  /** `Lyrics.Timed(new)` is built without naming the flag, so it takes the class default, for which a set flag is assumed. */
  const TIMED_DEFAULT_FILL := true

  /** `Lyrics.fillGaps()` */
  function GapFilledLyrics(l: Lyrics): Lyrics {
    match l.lyrics
    case Some(Timed(list, true)) => Lyrics(l.id, l.title, Some(Timed(Filled(list), TIMED_DEFAULT_FILL)))
    case _ => l
  }

  /** `Lyrics.fillGaps()`, with its loop over the items and its running `last` end time. */
  method FillGaps(l: Lyrics) returns (r: Lyrics)
    ensures r == GapFilledLyrics(l)
  {
    if l.lyrics.Some? && l.lyrics.value.Timed? && l.lyrics.value.fillTimeGaps {
      var list := l.lyrics.value.list;
      var filled: seq<LyricItem> := [];
      var last := 0;
      var i := 0;
      while i < |list|
        invariant 0 <= i <= |list|
        invariant filled == FilledUpTo(list, i)
        invariant last == PrevEnd(list, i)
      {
        var item := list[i];
        if item.startTime > last {
          filled := filled + [LyricItem("", last, item.startTime)];
        }
        filled := filled + [item];
        last := item.endTime;
        i := i + 1;
      }
      r := Lyrics(l.id, l.title, Some(Timed(filled, TIMED_DEFAULT_FILL)));
    } else {
      r := l;
    }
  }

  /** Lyrics without a flagged timed list are returned unchanged, and filling twice is filling once. */
  lemma GapFilledLyricsProperties(l: Lyrics)
    ensures !(l.lyrics.Some? && l.lyrics.value.Timed? && l.lyrics.value.fillTimeGaps) ==> GapFilledLyrics(l) == l
    ensures GapFilledLyrics(GapFilledLyrics(l)) == GapFilledLyrics(l)
    ensures GapFilledLyrics(l).id == l.id && GapFilledLyrics(l).title == l.title
  {
    if l.lyrics.Some? && l.lyrics.value.Timed? && l.lyrics.value.fillTimeGaps {
      FilledIdempotent(l.lyrics.value.list);
    }
  }

  // ---------------------------------------------------------- formatTime

  /** Kotlin `Long` division: truncates toward zero. */
  function TDiv(a: int, b: int): int
    requires b > 0
  {
    if a >= 0 then a / b else -((-a) / b)
  }

  /** Kotlin `Long` remainder: takes the sign of the dividend. */
  function TRem(a: int, b: int): int
    requires b > 0
  {
    a - b * TDiv(a, b)
  }

  /** Minutes, seconds and hundredths of a time in milliseconds. */
  function TimeFields(millis: int): (int, int, int) {
    var mm := TDiv(millis, 60000);
    var remainder := TRem(millis, 60000);
    var ss := TDiv(remainder, 1000);
    var ms := TRem(remainder, 1000);
    (mm, ss, TDiv(ms, 10))
  }

  /** `formatTime(millis)`: `String.format("[%02d:%02d.%02d]", mm, ss, hundredths)`. */
  function FormatTime(millis: int): string {
    var f := TimeFields(millis);
    "[" + Pad2(f.0) + ":" + Pad2(f.1) + "." + Pad2(f.2) + "]"
  }

  /** For a non-negative time the fields are whole minutes, seconds 0..59 and hundredths 0..99, rounded down. */
  lemma TimeFieldsBounds(millis: int)
    requires millis >= 0
    ensures var f := TimeFields(millis);
            && f.0 == millis / 60000
            && 0 <= f.1 < 60 && 0 <= f.2 < 100
            && f.0 * 60000 + f.1 * 1000 + f.2 * 10 <= millis < f.0 * 60000 + f.1 * 1000 + f.2 * 10 + 10
  {
  }

  /**
   * The timestamp reads back: a bracket, the minutes (at least two digits, not
   * wrapped at 60 or 100), a colon, two digits of seconds, a dot, two digits
   * of hundredths and a closing bracket.
   */
  lemma FormatTimeReads(millis: int)
    requires millis >= 0
    ensures var f := TimeFields(millis);
            var mm, ss, hh := Pad2(f.0), Pad2(f.1), Pad2(f.2);
            && FormatTime(millis) == "[" + mm + ":" + ss + "." + hh + "]"
            && |mm| >= 2 && AllDigits(mm) && ParseNat(mm) == millis / 60000
            && |ss| == 2 && AllDigits(ss) && ParseNat(ss) == f.1
            && |hh| == 2 && AllDigits(hh) && ParseNat(hh) == f.2
            && (millis < 6000000 ==> |FormatTime(millis)| == 10)
  {
    TimeFieldsBounds(millis);
    var f := TimeFields(millis);
    Pad2Reads(f.0);
    Pad2Reads(f.1);
    Pad2Reads(f.2);
  }

  lemma FormatTimeStart()
    ensures FormatTime(0) == "[00:00.00]"
  {
    assert TimeFields(0) == (0, 0, 0);
    assert Pad2(0) == "00";
  }

  lemma FormatTimeMinuteAndSecond()
    ensures FormatTime(61234) == "[01:01.23]"
  {
    assert TimeFields(61234) == (1, 1, 23);
    assert Pad2(1) == "01";
    assert NatToString(23) == NatToString(2) + [DigitChar(3)];
    assert Pad2(23) == "23";
  }

  /** Minutes are not wrapped: a hundred minutes take three digits. */
  lemma FormatTimeHundredMinutes()
    ensures FormatTime(6000000) == "[100:00.00]"
  {
    assert TimeFields(6000000) == (100, 0, 0);
    assert NatToString(10) == NatToString(1) + [DigitChar(0)];
    assert NatToString(100) == NatToString(10) + [DigitChar(0)];
    assert Pad2(100) == "100";
    assert Pad2(0) == "00";
  }

  /** A negative time keeps the signs of the truncating remainders. */
  lemma FormatTimeNegative()
    ensures FormatTime(-1500) == "[00:-1.-50]"
  {
    assert TimeFields(-1500) == (0, -1, -50);
    assert NatToString(50) == NatToString(5) + [DigitChar(0)];
    assert Pad2(-1) == "-1";
    assert Pad2(-50) == "-50";
    assert Pad2(0) == "00";
  }

  // ------------------------------------------------------ lyrics as text

  function LyricLine(item: LyricItem): string {
    FormatTime(item.startTime) + item.text
  }

  function Lines(list: seq<LyricItem>): (r: seq<string>)
    ensures |r| == |list|
  {
    seq(|list|, i requires 0 <= i < |list| => LyricLine(list[i]))
  }

  /** The text written as the lyrics tag: timed lyrics one timestamped line per item, simple lyrics verbatim, otherwise none. */
  function LyricsText(lyrics: Option<Lyrics>): Option<string> {
    if lyrics.None? then None
    else match lyrics.value.lyrics
      case Some(Timed(list, _)) => Some(Join(Lines(list), "\n"))
      case Some(Simple(text)) => Some(text)
      case None => None
  }

  lemma Pad2HasNoNewline(n: int)
    ensures '\n' !in Pad2(n)
  {
    var s := Pad2(n);
    if n < 0 {
      assert s == "-" + NatToString(-n);
      assert forall i :: 1 <= i < |s| ==> s[i] == NatToString(-n)[i - 1];
    } else if n < 10 {
      assert s == "0" + NatToString(n);
      assert forall i :: 1 <= i < |s| ==> s[i] == NatToString(n)[i - 1];
    }
  }

  lemma FormatTimeHasNoNewline(millis: int)
    ensures '\n' !in FormatTime(millis)
  {
    var f := TimeFields(millis);
    Pad2HasNoNewline(f.0);
    Pad2HasNoNewline(f.1);
    Pad2HasNoNewline(f.2);
  }

  /**
   * Splitting the text of timed lyrics on newlines gives back one line per
   * item, in order, each the item's timestamp followed by its text, provided
   * no item text holds a newline itself.
   */
  lemma TimedTextLines(l: Lyrics)
    requires l.lyrics.Some? && l.lyrics.value.Timed? && |l.lyrics.value.list| >= 1
    requires forall i :: 0 <= i < |l.lyrics.value.list| ==> '\n' !in l.lyrics.value.list[i].text
    ensures var list := l.lyrics.value.list;
            var r := LyricsText(Some(l));
            && r.Some?
            && |Split(r.value, '\n')| == |list|
            && forall i :: 0 <= i < |list| ==> Split(r.value, '\n')[i] == FormatTime(list[i].startTime) + list[i].text
  {
    var list := l.lyrics.value.list;
    var lines := Lines(list);
    forall k | 0 <= k < |lines|
      ensures '\n' !in lines[k]
    {
      FormatTimeHasNoNewline(list[k].startTime);
    }
    SplitJoin(lines, '\n');
  }

  // ------------------------------------------------------------ getLyrics

  /**
   * `getLyrics(extension, track, clientId)`: search through the lyrics client,
   * load the whole feed, and load and gap-fill its first entry. `search` is
   * the outcome of the search block, `loadAll` of loading its feed (outside the
   * capability probe, so its failure escapes), `load` of loading one entry.
   */
  function GetLyrics(ext: Extension, search: Result<(), Error>, loadAll: Result<seq<Lyrics>, Error>,
                     load: Lyrics -> Result<Lyrics, Error>): (r: Result<Option<Lyrics>, Error>)
    ensures r.Failure? <==> Get(ext, LyricsClient, search).Success? && loadAll.Failure?
    ensures r.Failure? ==> r.error == loadAll.error
    ensures (r.Success? && r.value.Some?) <==>
              && Get(ext, LyricsClient, search).Success? && loadAll.Success? && |loadAll.value| > 0
              && Get(ext, LyricsClient, load(loadAll.value[0])).Success?
    ensures r.Success? && r.value.Some? ==> r.value.value == GapFilledLyrics(load(loadAll.value[0]).value)
  {
    if Get(ext, LyricsClient, search).Failure? then Success(None)
    else match loadAll
      case Failure(e) => Failure(e)
      case Success(all) =>
        if |all| == 0 then Success(None)
        else match Get(ext, LyricsClient, load(all[0]))
          case Failure(_) => Success(None)
          case Success(value) => Success(Some(GapFilledLyrics(value)))
  }

  // ------------------------------------------------------ getActualLyrics

  /** The lyrics are a timed or a simple text, not absent. */
  predicate HasBody(l: Option<Lyrics>) {
    l.Some? && l.value.lyrics.Some?
  }

  predicate IsTimed(l: Option<Lyrics>) {
    l.Some? && l.value.lyrics.Some? && l.value.lyrics.value.Timed?
  }

  /**
   * `getActualLyrics`: `lookup(e)` is the outcome of `getLyrics` on extension
   * `e`; any failure is caught and gives no lyrics.
   */
  function GetActualLyrics(downLyrics: bool, syncLyrics: bool, downFallbackLyrics: string,
                           lyricsExtensions: seq<Extension>, extension: Option<Extension>,
                           lookup: Extension -> Result<Option<Lyrics>, Error>): (r: Option<Lyrics>)
    // lyrics off, or no extension: nothing
    ensures !downLyrics || extension.None? ==> r == None
    ensures downLyrics && extension.Some? ==>
              var main := lookup(extension.value);
              var fallbackExt := GetExtension(lyricsExtensions, downFallbackLyrics);
              // the main lookup failed: nothing
              && (main.Failure? ==> r == None)
              // the main result has a body and no synced fallback is wanted or possible: the main result
              && (main.Success? && HasBody(main.value) && (!syncLyrics || |lyricsExtensions| == 0) ==> r == main.value)
              && (main.Success? && !(HasBody(main.value) && (!syncLyrics || |lyricsExtensions| == 0)) ==>
                    // the fallback extension is not installed: nothing, whatever the main result was
                    && (fallbackExt.None? ==> r == None)
                    // the fallback lookup failed: nothing
                    && (fallbackExt.Some? && lookup(fallbackExt.value).Failure? ==> r == None)
                    // the fallback has timed lyrics: the fallback, otherwise the main result
                    && (fallbackExt.Some? && lookup(fallbackExt.value).Success? ==>
                          r == if IsTimed(lookup(fallbackExt.value).value) then lookup(fallbackExt.value).value else main.value))
    // the result is always one of the two lookups' results, or nothing
    ensures r.Some? ==> (
              && downLyrics && extension.Some?
              && (|| Success(r) == lookup(extension.value)
                  || (GetExtension(lyricsExtensions, downFallbackLyrics).Some? &&
                      Success(r) == lookup(GetExtension(lyricsExtensions, downFallbackLyrics).value))))
  {
    if !downLyrics || extension.None? then None
    else match lookup(extension.value)
      case Failure(_) => None
      case Success(main) =>
        if HasBody(main) && (!syncLyrics || |lyricsExtensions| == 0) then main
        else match GetExtension(lyricsExtensions, downFallbackLyrics)
          case None => None
          case Some(fallbackExt) =>
            match lookup(fallbackExt)
            case Failure(_) => None
            case Success(fallback) => if IsTimed(fallback) then fallback else main
  }
}
