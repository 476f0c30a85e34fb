/** The YouTube provider (src/providers/youtube.rs): how a search result becomes
    a listed track, how a download is split into byte ranges fetched in
    parallel, and which cover is kept for a downloaded track. The network calls
    themselves (search, stream selection, the HEAD and GET requests, cover
    download) are not part of this model. */
module YouTube {
  import opened Wrappers
  import opened Strings

  // ---------------------------------------------------------------------------
  // map_track

  /** The fields of a search result the mapping reads; `album` is the album's
      name, `covers` the cover URLs in the order given, `duration` in seconds. */
  datatype TrackItem = TrackItem(id: string, name: string, artists: seq<string>, album: Option<string>, covers: seq<string>, duration: Option<nat>)

  datatype YtTrack = YtTrack(id: string, title: string, artist: string, album: string, albumArt: Option<string>, duration: nat)

  const UnknownAlbum: string := "Unknown Album"

  /** A search result as listed. `fetchedArt` is what downloading the first
      cover produced (its base64 text, or None when that failed); it is used
      only when the item has a cover. A missing duration makes the mapping
      panic, shown here as None. */
  function MapTrack(item: TrackItem, fetchedArt: Option<string>): (r: Option<YtTrack>)
    ensures r.None? <==> item.duration.None?
    ensures r.Some? ==> r.value.id == item.id && r.value.title == item.name && r.value.duration == item.duration.value
    ensures r.Some? ==> r.value.artist == Join(item.artists, ", ")
    ensures r.Some? ==> (item.album.Some? ==> r.value.album == item.album.value) && (item.album.None? ==> r.value.album == UnknownAlbum)
    ensures r.Some? ==> (|item.covers| == 0 ==> r.value.albumArt == None) && (|item.covers| > 0 ==> r.value.albumArt == fetchedArt)
  {
    match item.duration
    case None => None
    case Some(d) =>
      Some(YtTrack(item.id, item.name, Join(item.artists, ", "), item.album.GetOr(UnknownAlbum),
                   if |item.covers| == 0 then None else fetchedArt, d))
  }

  /** The artist line of a listed track names every artist, each once, with ", " between them. */
  lemma MapTrackArtistLine(item: TrackItem, fetchedArt: Option<string>)
    requires item.duration.Some?
    ensures |item.artists| == 0 ==> MapTrack(item, fetchedArt).value.artist == ""
    ensures |item.artists| == 1 ==> MapTrack(item, fetchedArt).value.artist == item.artists[0]
    ensures |MapTrack(item, fetchedArt).value.artist| ==
      SumLengths(item.artists) + (if |item.artists| == 0 then 0 else (|item.artists| - 1) * 2)
  {
    JoinLength(item.artists, ", ");
  }

  // ---------------------------------------------------------------------------
  // The chunked download in download_track

  /** 256 KiB per request. */
  const ChunkSize: nat := 1024 * 256

  /** The byte range [start, end) of one request; `end` is exclusive. */
  datatype Chunk = Chunk(start: nat, end: nat)

  function Min(a: nat, b: nat): nat { if a <= b then a else b }

  /** The number of requests for `total` bytes: total / ChunkSize rounded up. */
  function ChunkCount(total: nat): nat { (total + ChunkSize - 1) / ChunkSize }

  /** The `k`-th range: it starts at k chunk sizes and is cut off at the total. */
  function ChunkAt(total: nat, k: nat): Chunk {
    Chunk(k * ChunkSize, Min(k * ChunkSize + ChunkSize, total))
  }

  /** The `Range` header of a non-empty range: its first and its last byte, both
      inclusive, as byte ranges are written in section 14.1.2 of RFC 9110. */
  function RangeHeader(c: Chunk): string
    requires c.start < c.end
  {
    "bytes=" + NatToString(c.start) + "-" + NatToString(c.end - 1)
  }

  /** The loop of download_track: one range and one `Range` header per request,
      starting at 0 and advancing by a chunk size while the start is inside the file. */
  method ChunkRanges(total: nat) returns (chunks: seq<Chunk>, headers: seq<string>)
    ensures |chunks| == ChunkCount(total) && |headers| == |chunks|
    ensures forall k :: 0 <= k < |chunks| ==> chunks[k] == ChunkAt(total, k)
    ensures forall k :: 0 <= k < |chunks| ==> chunks[k].start < chunks[k].end && headers[k] == RangeHeader(chunks[k])
  {
    chunks, headers := [], [];
    var start := 0;
    while start < total
      invariant start == |chunks| * ChunkSize && |headers| == |chunks|
      invariant |chunks| == 0 || (|chunks| - 1) * ChunkSize < total
      invariant forall k :: 0 <= k < |chunks| ==> chunks[k] == ChunkAt(total, k)
      invariant forall k :: 0 <= k < |chunks| ==> chunks[k].start < chunks[k].end && headers[k] == RangeHeader(chunks[k])
      decreases total - start
    {
      var end := Min(start + ChunkSize, total);
      chunks := chunks + [Chunk(start, end)];
      headers := headers + [RangeHeader(Chunk(start, end))];
      start := start + ChunkSize;
    }
    CountIsCeiling(|chunks|, total);
  }

  /** `n` requests are made exactly when n chunk sizes reach the total and n - 1 do not. */
  lemma CountIsCeiling(n: nat, total: nat)
    requires n * ChunkSize >= total
    requires n == 0 || (n - 1) * ChunkSize < total
    ensures n == ChunkCount(total)
  {
  }

  /** The ranges partition [0, total): the first starts at 0, each starts where
      the previous ended, the last ends at the total; each is non-empty and at
      most a chunk size long, and all but the last are exactly a chunk size. */
  lemma ChunksPartition(total: nat)
    ensures total == 0 <==> ChunkCount(total) == 0
    ensures ChunkCount(total) > 0 ==>
      ChunkAt(total, 0).start == 0 && ChunkAt(total, ChunkCount(total) - 1).end == total
    ensures forall k :: 0 <= k < ChunkCount(total) ==>
      ChunkAt(total, k).start < ChunkAt(total, k).end <= ChunkAt(total, k).start + ChunkSize
    ensures forall k :: 0 <= k < ChunkCount(total) - 1 ==>
      ChunkAt(total, k).end == ChunkAt(total, k).start + ChunkSize &&
      ChunkAt(total, k + 1).start == ChunkAt(total, k).end
  {
    var n := ChunkCount(total);
    assert n * ChunkSize >= total;
    assert n == 0 || (n - 1) * ChunkSize < total;
  }

  /** Every byte of the file is fetched by exactly one request: the one numbered
      byte / ChunkSize. */
  lemma ByteInOneChunk(total: nat, b: nat)
    requires b < total
    ensures b / ChunkSize < ChunkCount(total)
    ensures ChunkAt(total, b / ChunkSize).start <= b < ChunkAt(total, b / ChunkSize).end
    ensures forall k :: 0 <= k < ChunkCount(total) && ChunkAt(total, k).start <= b < ChunkAt(total, k).end ==> k == b / ChunkSize
  {
  }

  // ---------------------------------------------------------------------------
  // Reading a `Range` header back

  /** The index of the first `c` in `s`. */
  function IndexOf(s: string, c: char): (r: Option<nat>)
    ensures r.Some? ==> r.value < |s| && s[r.value] == c && c !in s[..r.value]
    ensures r.None? ==> c !in s
    decreases |s|
  {
    if |s| == 0 then None
    else if s[0] == c then Some(0)
    else
      match IndexOf(s[1..], c)
      case None => None
      case Some(k) =>
        assert s[..k + 1] == [s[0]] + s[1..][..k];
        Some(k + 1)
  }

  /** The first and last byte a `bytes=<first>-<last>` header asks for. */
  function ParseRange(h: string): Option<(nat, nat)> {
    if |h| < 6 || h[..6] != "bytes=" then None
    else
      var body := h[6..];
      match IndexOf(body, '-')
      case None => None
      case Some(k) =>
        var first, last := body[..k], body[k + 1..];
        if |first| > 0 && |last| > 0 && AllDigits(first) && AllDigits(last)
        then Some((DigitsValue(first), DigitsValue(last)))
        else None
  }

  lemma IndexOfAfterDigits(digits: string, rest: string)
    requires AllDigits(digits)
    ensures IndexOf(digits + "-" + rest, '-') == Some(|digits|)
  {
    var s := digits + "-" + rest;
    assert s[|digits|] == '-' && s[..|digits|] == digits;
  }

  /** A well-formed header body splits at its dash into the two numbers. */
  lemma ParseDigitsPair(first: string, last: string)
    requires |first| > 0 && |last| > 0 && AllDigits(first) && AllDigits(last)
    ensures ParseRange("bytes=" + (first + "-" + last)) == Some((DigitsValue(first), DigitsValue(last)))
  {
    var body := first + "-" + last;
    var h := "bytes=" + body;
    assert h[..6] == "bytes=" && h[6..] == body;
    IndexOfAfterDigits(first, last);
    assert body[..|first|] == first;
    assert body[|first| + 1..] == last;
  }

  /** A `Range` header names the range's first byte and its last byte, inclusive. */
  lemma RangeHeaderRoundTrip(c: Chunk)
    requires c.start < c.end
    ensures ParseRange(RangeHeader(c)) == Some((c.start, c.end - 1))
  {
    var first, last := NatToString(c.start), NatToString(c.end - 1);
    NatToStringDigits(c.start);
    NatToStringDigits(c.end - 1);
    NatToStringRoundTrip(c.start);
    NatToStringRoundTrip(c.end - 1);
    assert RangeHeader(c) == "bytes=" + (first + "-" + last);
    ParseDigitsPair(first, last);
  }

  // ---------------------------------------------------------------------------
  // As written: the range arithmetic is on u64

  const U64: nat := 0x1_0000_0000_0000_0000

  /** The end of a range as download_track computes it, with `start + chunk_size`
      wrapping at 2^64 as unchecked u64 addition does. */
  function ChunkEndU64(start: nat, total: nat): nat
    requires start < U64 && total < U64
  {
    Min((start + ChunkSize) % U64, total)
  }

  /** For a Content-Length of 2^64 - 1 the loop reaches the start 2^64 - 2^18,
      a multiple of the chunk size below the total, and the end it computes
      wraps to 0: the range ends before it starts, so `end - 1` underflows.
      The unbounded ChunkAt gives that range its intended end, the total. */
  lemma ChunkEndWrapsAsWritten()
    ensures var total, start := U64 - 1, U64 - ChunkSize;
      && start < total && start % ChunkSize == 0
      && ChunkEndU64(start, total) == 0 < start
      && ChunkAt(total, start / ChunkSize) == Chunk(start, total)
  {
    var total, start := U64 - 1, U64 - ChunkSize;
    assert start == (U64 / ChunkSize - 1) * ChunkSize;
    assert (start + ChunkSize) % U64 == 0;
  }

  // ---------------------------------------------------------------------------
  // Cover selection in download_track_default

  datatype Cover = Cover(url: string, width: nat, height: nat)

  predicate SortedByWidth(s: seq<Cover>) {
    forall i, j :: 0 <= i < j < |s| ==> s[i].width <= s[j].width
  }

  /** Put `c` into a width-sorted list after every cover no wider than it, which
      is where a stable sort puts a later element. */
  function InsertByWidth(sorted: seq<Cover>, c: Cover): (r: seq<Cover>)
    requires SortedByWidth(sorted)
    ensures |r| == |sorted| + 1 && multiset(r) == multiset(sorted) + multiset{c}
    ensures forall i :: 0 <= i < |r| ==> r[i] == c || r[i] in sorted
    ensures SortedByWidth(r)
    ensures |sorted| > 0 && sorted[|sorted| - 1].width <= c.width ==> r == sorted + [c]
    ensures |sorted| > 0 && sorted[|sorted| - 1].width > c.width ==> r[|r| - 1] == sorted[|sorted| - 1]
    decreases |sorted|
  {
    if |sorted| == 0 then [c]
    else
      var last := sorted[|sorted| - 1];
      if last.width <= c.width then
        AppendAfterLast(sorted, c);
        sorted + [c]
      else
        var prefix := sorted[..|sorted| - 1];
        SortedPrefix(sorted);
        var front := InsertByWidth(prefix, c);
        assert sorted == prefix + [last];
        InsertBehind(prefix, last, front, c);
        front + [last]
  }

  /** A cover at least as wide as the last one goes at the end. */
  lemma AppendAfterLast(sorted: seq<Cover>, c: Cover)
    requires SortedByWidth(sorted) && |sorted| > 0 && sorted[|sorted| - 1].width <= c.width
    ensures var r := sorted + [c];
      && (forall i :: 0 <= i < |r| ==> r[i] == c || r[i] in sorted)
      && SortedByWidth(r)
  {
    forall i | 0 <= i < |sorted|
      ensures sorted[i].width <= c.width
    {
      if i < |sorted| - 1 {
        assert sorted[i].width <= sorted[|sorted| - 1].width;
      }
    }
    AppendWidest(sorted, c);
    var r := sorted + [c];
    forall i | 0 <= i < |r|
      ensures r[i] == c || r[i] in sorted
    {
      if i < |sorted| {
        assert r[i] == sorted[i];
      }
    }
  }

  lemma SortedPrefix(sorted: seq<Cover>)
    requires SortedByWidth(sorted) && |sorted| > 0
    ensures SortedByWidth(sorted[..|sorted| - 1])
  {
    var prefix := sorted[..|sorted| - 1];
    forall i, j | 0 <= i < j < |prefix|
      ensures prefix[i].width <= prefix[j].width
    {
      assert prefix[i] == sorted[i] && prefix[j] == sorted[j];
    }
  }

  /** When `c` is narrower than the last cover, inserting it before that cover
      and keeping the cover last keeps every property of the insertion. */
  lemma InsertBehind(prefix: seq<Cover>, last: Cover, front: seq<Cover>, c: Cover)
    requires SortedByWidth(prefix + [last]) && c.width < last.width
    requires |front| == |prefix| + 1 && multiset(front) == multiset(prefix) + multiset{c}
    requires forall i :: 0 <= i < |front| ==> front[i] == c || front[i] in prefix
    requires SortedByWidth(front)
    ensures var r, sorted := front + [last], prefix + [last];
      && multiset(r) == multiset(sorted) + multiset{c}
      && (forall i :: 0 <= i < |r| ==> r[i] == c || r[i] in sorted)
      && SortedByWidth(r)
  {
    var sorted := prefix + [last];
    assert sorted[..|sorted| - 1] == prefix;
    NoWiderThanLast(sorted, front, c);
    AppendWidest(front, last);
    var r := front + [last];
    forall i | 0 <= i < |r|
      ensures r[i] == c || r[i] in sorted
    {
      if i < |front| && r[i] != c {
        assert r[i] == front[i] && front[i] in prefix;
      }
    }
  }

  lemma AppendWidest(s: seq<Cover>, x: Cover)
    requires SortedByWidth(s)
    requires forall i :: 0 <= i < |s| ==> s[i].width <= x.width
    ensures SortedByWidth(s + [x])
  {
  }

  lemma NoWiderThanLast(sorted: seq<Cover>, front: seq<Cover>, c: Cover)
    requires SortedByWidth(sorted) && |sorted| > 0 && c.width < sorted[|sorted| - 1].width
    requires forall i :: 0 <= i < |front| ==> front[i] == c || front[i] in sorted[..|sorted| - 1]
    ensures forall i :: 0 <= i < |front| ==> front[i].width <= sorted[|sorted| - 1].width
  {
    forall i | 0 <= i < |front|
      ensures front[i].width <= sorted[|sorted| - 1].width
    {
      if front[i] != c {
        var j :| 0 <= j < |sorted| - 1 && sorted[..|sorted| - 1][j] == front[i];
        assert sorted[j] == front[i];
      }
    }
  }

  /** `covers.sort_by(width)`: a stable sort by ascending width. */
  function SortByWidth(covers: seq<Cover>): (r: seq<Cover>)
    ensures SortedByWidth(r) && multiset(r) == multiset(covers) && |r| == |covers|
    decreases |covers|
  {
    if |covers| == 0 then []
    else
      assert covers == covers[..|covers| - 1] + [covers[|covers| - 1]];
      InsertByWidth(SortByWidth(covers[..|covers| - 1]), covers[|covers| - 1])
  }

  /** The cover kept: the last one after sorting, or none when there are no covers. */
  function AlbumCover(covers: seq<Cover>): Option<Cover> {
    var sorted := SortByWidth(covers);
    if |sorted| == 0 then None else Some(sorted[|sorted| - 1])
  }

  /** The index of the widest cover, the later one among equally wide covers. */
  function WidestIndex(covers: seq<Cover>): (i: nat)
    requires |covers| > 0
    ensures i < |covers|
    ensures forall j :: 0 <= j < |covers| ==> covers[j].width <= covers[i].width
    ensures forall j :: i < j < |covers| ==> covers[j].width < covers[i].width
    decreases |covers|
  {
    if |covers| == 1 then 0
    else
      var i := WidestIndex(covers[..|covers| - 1]);
      assert forall j :: 0 <= j < |covers| - 1 ==> covers[..|covers| - 1][j] == covers[j];
      if covers[i].width <= covers[|covers| - 1].width then |covers| - 1 else i
  }

  /** The kept cover is the widest one, and of several equally wide covers the
      last in the order given (the sort is stable); there is one exactly when
      the list is not empty. */
  lemma {:induction false} AlbumCoverIsWidest(covers: seq<Cover>)
    ensures AlbumCover(covers).None? <==> |covers| == 0
    ensures |covers| > 0 ==> AlbumCover(covers) == Some(covers[WidestIndex(covers)])
    decreases |covers|
  {
    if |covers| > 1 {
      var front, c := covers[..|covers| - 1], covers[|covers| - 1];
      AlbumCoverIsWidest(front);
      var sorted := SortByWidth(front);
      assert SortByWidth(covers) == InsertByWidth(sorted, c);
      var i := WidestIndex(front);
      assert sorted[|sorted| - 1] == front[i] == covers[i];
      assert WidestIndex(covers) == if covers[i].width <= c.width then |covers| - 1 else i;
    }
  }
}
