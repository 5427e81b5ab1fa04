/** The command-line tool of `sesh-cli/src/main.rs`: it scans a Spotify data
    export, counts the plays of every track URI and remembers the name and
    artist last seen for it, sorts the tracks by play count and lists the
    `n` most played tracks that have a name and an artist. */
module Cli {
  import opened Wrappers
  import opened Sesh
  import opened ZipScan

  /** `TrackInfo`: what a listing row prints for a track. */
  datatype TrackInfo = TrackInfo(name: string, artist: string)

  /** `get_track_info`: the track name and album artist of a record, when it
      has both. */
  function GetTrackInfo(s: Stream): (r: Option<TrackInfo>)
    ensures r.Some? <==> s.masterMetadataTrackName.Some? && s.masterMetadataAlbumArtistName.Some?
    ensures r.Some? ==> r.value.name == s.masterMetadataTrackName.value
    ensures r.Some? ==> r.value.artist == s.masterMetadataAlbumArtistName.value
  {
    if s.masterMetadataTrackName.None? then None
    else if s.masterMetadataAlbumArtistName.None? then None
    else Some(TrackInfo(s.masterMetadataTrackName.value, s.masterMetadataAlbumArtistName.value))
  }

  // ---------------------------------------------------------------------------
  // The tally kept by the callback of `main`
  // ---------------------------------------------------------------------------

  /** The two hash maps the callback captures: the track info and the play
      count per track URI. */
  datatype Tally = Tally(info: map<string, TrackInfo>, counts: map<string, nat>)

  const EmptyTally := Tally(map[], map[])

  /** The callback: a record with a track URI bumps that URI's count and, if
      it has a name and an artist, replaces the URI's info. */
  function Count(t: Tally, s: Stream): (r: Tally)
    ensures forall u :: u in r.counts <==> u in t.counts || s.spotifyTrackUri == Some(u)
    ensures forall u :: u in r.counts ==>
      r.counts[u] == (if u in t.counts then t.counts[u] else 0) + (if s.spotifyTrackUri == Some(u) then 1 else 0)
    ensures forall u :: u in r.info <==> u in t.info || (s.spotifyTrackUri == Some(u) && GetTrackInfo(s).Some?)
    ensures forall u :: u in r.info ==>
      r.info[u] == if s.spotifyTrackUri == Some(u) && GetTrackInfo(s).Some? then GetTrackInfo(s).value else t.info[u]
  {
    match s.spotifyTrackUri
    case None => t
    case Some(uri) =>
      var info := if GetTrackInfo(s).Some? then t.info[uri := GetTrackInfo(s).value] else t.info;
      var count := if uri in t.counts then t.counts[uri] else 0;
      Tally(info, t.counts[uri := count + 1])
  }

  /** The tally after the callback has seen `ss`. */
  function TallyOf(ss: seq<Stream>): Tally {
    FoldLeft(Count, EmptyTally, ss)
  }

  /** Reference definition: how many of `ss` were plays of `uri`. */
  function PlayCount(ss: seq<Stream>, uri: string): nat {
    if ss == [] then 0
    else PlayCount(ss[..|ss| - 1], uri) + (if ss[|ss| - 1].spotifyTrackUri == Some(uri) then 1 else 0)
  }

  /** Reference definition: the track info of the last play of `uri` that
      has one. */
  function LastInfo(ss: seq<Stream>, uri: string): Option<TrackInfo> {
    if ss == [] then None
    else
      var s := ss[|ss| - 1];
      if s.spotifyTrackUri == Some(uri) && GetTrackInfo(s).Some? then GetTrackInfo(s)
      else LastInfo(ss[..|ss| - 1], uri)
  }

  /** The tally counts every play of a URI and keeps the info of its last
      play that has one; URIs never played are absent from both maps. */
  lemma {:induction false} TallyCounts(ss: seq<Stream>)
    ensures forall uri :: uri in TallyOf(ss).counts <==> PlayCount(ss, uri) > 0
    ensures forall uri :: uri in TallyOf(ss).counts ==> TallyOf(ss).counts[uri] == PlayCount(ss, uri)
    ensures forall uri :: uri in TallyOf(ss).info <==> LastInfo(ss, uri).Some?
    ensures forall uri :: uri in TallyOf(ss).info ==> Some(TallyOf(ss).info[uri]) == LastInfo(ss, uri)
  {
    if ss != [] {
      var n := |ss| - 1;
      TallyCounts(ss[..n]);
      assert TallyOf(ss) == Count(TallyOf(ss[..n]), ss[n]);
    }
  }

  /** A URI with info has been played. */
  lemma {:induction false} InfoImpliesPlayed(ss: seq<Stream>, uri: string)
    requires LastInfo(ss, uri).Some?
    ensures PlayCount(ss, uri) > 0
  {
    var n := |ss| - 1;
    if !(ss[n].spotifyTrackUri == Some(uri) && GetTrackInfo(ss[n]).Some?) {
      InfoImpliesPlayed(ss[..n], uri);
    }
  }

  /** Records without a track URI (podcast episodes) leave the tally alone. */
  lemma EpisodesIgnored(ss: seq<Stream>, s: Stream)
    requires s.spotifyTrackUri.None?
    ensures TallyOf(ss + [s]) == TallyOf(ss)
  {
    FoldLeftSnoc(Count, EmptyTally, ss, s);
  }

  // ---------------------------------------------------------------------------
  // The listing
  // ---------------------------------------------------------------------------

  /** One entry of `track_play_counts` once collected into a vector. */
  datatype Play = Play(uri: string, count: nat)

  /** One printed row; the URI is kept to say which track it lists. */
  datatype Row = Row(uri: string, info: TrackInfo, count: nat)

  function Min(a: nat, b: nat): nat {
    if a <= b then a else b
  }

  /** The tracks that can be listed: played and with known info. */
  function Listable(counts: map<string, nat>, info: map<string, TrackInfo>): set<string> {
    set uri | uri in counts.Keys && uri in info
  }

  predicate Listed(rows: seq<Row>, uri: string) {
    exists p :: 0 <= p < |rows| && rows[p].uri == uri
  }

  predicate DistinctTracks(rows: seq<Row>) {
    forall p, q :: 0 <= p < q < |rows| ==> rows[p].uri != rows[q].uri
  }

  predicate NonIncreasing(rows: seq<Row>) {
    forall p, q :: 0 <= p < q < |rows| ==> rows[q].count <= rows[p].count
  }

  /** `rows` is a listing of the `n` most played listable tracks: each row
      is a listable track with its own count and info, no track twice, the
      most played first, `min(n, listable)` rows, and no track left out that
      was played more than one listed. */
  predicate IsTopN(rows: seq<Row>, counts: map<string, nat>, info: map<string, TrackInfo>, n: nat) {
    RowsOf(rows, counts, info) &&
    DistinctTracks(rows) &&
    NonIncreasing(rows) &&
    |rows| == Min(n, |Listable(counts, info)|) &&
    (forall uri :: uri in counts && uri in info && !Listed(rows, uri) ==>
       forall p :: 0 <= p < |rows| ==> counts[uri] <= rows[p].count)
  }

  /** The listing part of `main`: collect the counts into a vector, sort it
      by count, and take the most played tracks that have info. */
  method TopTracks(counts: map<string, nat>, info: map<string, TrackInfo>, n: nat) returns (rows: seq<Row>)
    ensures IsTopN(rows, counts, info, n)
  {
    var plays := Collect(counts);
    var a := new Play[|plays|](k requires 0 <= k < |plays| => plays[k]);
    assert a[..] == plays;
    SortByCount(a);
    var sorted := a[..];
    PermutationKeeps(plays, sorted, counts);
    rows := TakeListed(sorted, counts, info, n);
  }

  /** `iter().rev().filter_map(..).take(n)`: walk the sorted entries from the
      most played end, keep those with info, and stop after `n`. */
  method TakeListed(sorted: seq<Play>, counts: map<string, nat>, info: map<string, TrackInfo>, n: nat) returns (rows: seq<Row>)
    requires Tabulated(sorted, counts)
    requires SortedByCount(sorted)
    ensures IsTopN(rows, counts, info, n)
  {
    rows := [];
    var k := |sorted|;
    while k > 0 && |rows| < n
      invariant 0 <= k <= |sorted|
      invariant |rows| <= n
      invariant Walked(rows, sorted, k, counts, info)
    {
      k := k - 1;
      var play := sorted[k];
      if play.uri in info {
        TakeStep(rows, sorted, k, counts, info);
        rows := rows + [Row(play.uri, info[play.uri], play.count)];
      } else {
        SkipStep(rows, sorted, k, counts, info);
      }
    }
    WalkDone(rows, sorted, k, counts, info, n);
  }

  /** `sorted` lists every entry of `counts` once, each with its count. */
  predicate Tabulated(sorted: seq<Play>, counts: map<string, nat>) {
    (forall m :: 0 <= m < |sorted| ==> sorted[m].uri in counts && sorted[m].count == counts[sorted[m].uri]) &&
    (forall uri :: uri in counts ==> OccursFrom(sorted, 0, uri)) &&
    NoDuplicates(sorted)
  }

  predicate RowOf(row: Row, counts: map<string, nat>, info: map<string, TrackInfo>) {
    row.uri in counts && row.uri in info && row.count == counts[row.uri] && row.info == info[row.uri]
  }

  predicate RowsOf(rows: seq<Row>, counts: map<string, nat>, info: map<string, TrackInfo>) {
    forall p :: 0 <= p < |rows| ==> RowOf(rows[p], counts, info)
  }

  /** Every row comes from the visited entries `sorted[k..]`. */
  predicate FromVisited(rows: seq<Row>, sorted: seq<Play>, k: nat) {
    forall p :: 0 <= p < |rows| ==> OccursFrom(sorted, k, rows[p].uri)
  }

  /** `uri` is among the entries `sorted[k..]`. */
  predicate OccursFrom(sorted: seq<Play>, k: nat, uri: string) {
    exists m :: k <= m < |sorted| && sorted[m].uri == uri
  }

  /** Every visited entry with info has its row. */
  predicate CoversVisited(rows: seq<Row>, sorted: seq<Play>, k: nat, info: map<string, TrackInfo>) {
    forall m :: k <= m < |sorted| && sorted[m].uri in info ==> Listed(rows, sorted[m].uri)
  }

  /** No unvisited entry `sorted[..k]` was played more than a row. */
  predicate AboveUnvisited(rows: seq<Row>, sorted: seq<Play>, k: nat)
    requires k <= |sorted|
  {
    forall p, m :: 0 <= p < |rows| && 0 <= m < k ==> sorted[m].count <= rows[p].count
  }

  /** What the walk has done once it has visited `sorted[k..]`. */
  predicate Walked(rows: seq<Row>, sorted: seq<Play>, k: nat, counts: map<string, nat>, info: map<string, TrackInfo>)
    requires k <= |sorted|
  {
    RowsOf(rows, counts, info) &&
    FromVisited(rows, sorted, k) &&
    CoversVisited(rows, sorted, k, info) &&
    DistinctTracks(rows) &&
    NonIncreasing(rows) &&
    AboveUnvisited(rows, sorted, k)
  }

  /** Visiting an entry without info changes nothing. */
  lemma SkipStep(rows: seq<Row>, sorted: seq<Play>, k: nat, counts: map<string, nat>, info: map<string, TrackInfo>)
    requires k < |sorted| && sorted[k].uri !in info
    requires SortedByCount(sorted)
    requires Walked(rows, sorted, k + 1, counts, info)
    ensures Walked(rows, sorted, k, counts, info)
  {
    assert FromVisited(rows, sorted, k) by {
      forall p | 0 <= p < |rows|
        ensures OccursFrom(sorted, k, rows[p].uri)
      {
        assert OccursFrom(sorted, k + 1, rows[p].uri);
        var m :| k + 1 <= m < |sorted| && sorted[m].uri == rows[p].uri;
        assert k <= m;
      }
    }
  }

  /** Visiting an entry with info appends its row. */
  lemma TakeStep(rows: seq<Row>, sorted: seq<Play>, k: nat, counts: map<string, nat>, info: map<string, TrackInfo>)
    requires k < |sorted| && sorted[k].uri in info
    requires Tabulated(sorted, counts) && SortedByCount(sorted)
    requires Walked(rows, sorted, k + 1, counts, info)
    ensures Walked(rows + [Row(sorted[k].uri, info[sorted[k].uri], sorted[k].count)], sorted, k, counts, info)
  {
    var row := Row(sorted[k].uri, info[sorted[k].uri], sorted[k].count);
    NewRowFits(rows, sorted, k, counts);
    AppendKeepsOrder(rows, row);
    ListedGrows(rows, row);
    FromVisitedGrows(rows, sorted, k, row);
    AboveGrows(rows, sorted, k, row);
    assert RowsOf(rows + [row], counts, info) by {
      assert forall p :: 0 <= p < |rows| ==> (rows + [row])[p] == rows[p];
    }
  }

  /** The visited entry is a new track, played no more than any row. */
  lemma NewRowFits(rows: seq<Row>, sorted: seq<Play>, k: nat, counts: map<string, nat>)
    requires k < |sorted|
    requires Tabulated(sorted, counts)
    requires FromVisited(rows, sorted, k + 1) && AboveUnvisited(rows, sorted, k + 1)
    ensures forall p :: 0 <= p < |rows| ==> rows[p].uri != sorted[k].uri && sorted[k].count <= rows[p].count
  {
    forall p | 0 <= p < |rows|
      ensures rows[p].uri != sorted[k].uri
    {
      assert OccursFrom(sorted, k + 1, rows[p].uri);
      var m :| k + 1 <= m < |sorted| && sorted[m].uri == rows[p].uri;
      assert sorted[m] != sorted[k];
    }
  }

  lemma FromVisitedGrows(rows: seq<Row>, sorted: seq<Play>, k: nat, row: Row)
    requires k < |sorted| && row.uri == sorted[k].uri
    requires FromVisited(rows, sorted, k + 1)
    ensures FromVisited(rows + [row], sorted, k)
  {
    var longer := rows + [row];
    forall p | 0 <= p < |longer|
      ensures OccursFrom(sorted, k, longer[p].uri)
    {
      if p < |rows| {
        assert OccursFrom(sorted, k + 1, rows[p].uri);
        var m :| k + 1 <= m < |sorted| && sorted[m].uri == rows[p].uri;
        assert longer[p] == rows[p];
      } else {
        assert sorted[k].uri == longer[p].uri;
      }
    }
  }

  lemma AboveGrows(rows: seq<Row>, sorted: seq<Play>, k: nat, row: Row)
    requires k < |sorted| && row.count == sorted[k].count
    requires SortedByCount(sorted)
    requires AboveUnvisited(rows, sorted, k + 1)
    ensures AboveUnvisited(rows + [row], sorted, k)
  {
    var longer := rows + [row];
    forall p, m | 0 <= p < |longer| && 0 <= m < k
      ensures sorted[m].count <= longer[p].count
    {
      if p < |rows| {
        assert longer[p] == rows[p];
      }
    }
  }

  /** When the walk stops, its rows are a top-`n` listing. */
  lemma WalkDone(rows: seq<Row>, sorted: seq<Play>, k: nat, counts: map<string, nat>, info: map<string, TrackInfo>, n: nat)
    requires k <= |sorted| && |rows| <= n
    requires k == 0 || |rows| == n
    requires Tabulated(sorted, counts)
    requires Walked(rows, sorted, k, counts, info)
    ensures IsTopN(rows, counts, info, n)
  {
    forall uri | uri in counts && uri in info && !Listed(rows, uri)
      ensures forall p :: 0 <= p < |rows| ==> counts[uri] <= rows[p].count
    {
      assert OccursFrom(sorted, 0, uri);
      var m :| 0 <= m < |sorted| && sorted[m].uri == uri;
    }
    if |rows| < n {
      forall uri | uri in counts && uri in info
        ensures Listed(rows, uri)
      {
        assert OccursFrom(sorted, 0, uri);
      var m :| 0 <= m < |sorted| && sorted[m].uri == uri;
      }
    }
    TopSize(rows, counts, info, n);
  }

  /** Appending a new track played no more than any listed one keeps the
      rows distinct and in order. */
  lemma AppendKeepsOrder(rows: seq<Row>, row: Row)
    requires DistinctTracks(rows) && NonIncreasing(rows)
    requires forall p :: 0 <= p < |rows| ==> rows[p].uri != row.uri && row.count <= rows[p].count
    ensures DistinctTracks(rows + [row]) && NonIncreasing(rows + [row])
  {
    var longer := rows + [row];
    forall p, q | 0 <= p < q < |longer|
      ensures longer[p].uri != longer[q].uri && longer[q].count <= longer[p].count
    {
      assert longer[p] == rows[p];
    }
  }

  /** Appending a row keeps every listed track listed and lists its own. */
  lemma ListedGrows(rows: seq<Row>, row: Row)
    ensures forall uri :: Listed(rows, uri) ==> Listed(rows + [row], uri)
    ensures Listed(rows + [row], row.uri)
  {
    forall uri | Listed(rows, uri)
      ensures Listed(rows + [row], uri)
    {
      var p :| 0 <= p < |rows| && rows[p].uri == uri;
      assert (rows + [row])[p].uri == uri;
    }
    assert (rows + [row])[|rows|].uri == row.uri;
  }

  /** `into_iter().collect()`: the entries of the map in some order. */
  method Collect(counts: map<string, nat>) returns (plays: seq<Play>)
    ensures Tabulated(plays, counts)
  {
    plays := [];
    var remaining := counts.Keys;
    while remaining != {}
      invariant remaining <= counts.Keys
      invariant forall m :: 0 <= m < |plays| ==> plays[m].uri in counts && plays[m].uri !in remaining && plays[m].count == counts[plays[m].uri]
      invariant forall uri :: uri in counts && uri !in remaining ==> OccursFrom(plays, 0, uri)
      invariant NoDuplicates(plays)
      decreases |remaining|
    {
      var uri :| uri in remaining;
      OccursGrows(plays, Play(uri, counts[uri]));
      plays := plays + [Play(uri, counts[uri])];
      remaining := remaining - {uri};
    }
  }

  /** Appending an entry keeps every URI that occurred and adds its own. */
  lemma OccursGrows(plays: seq<Play>, play: Play)
    ensures forall uri :: OccursFrom(plays, 0, uri) ==> OccursFrom(plays + [play], 0, uri)
    ensures OccursFrom(plays + [play], 0, play.uri)
  {
    forall uri | OccursFrom(plays, 0, uri)
      ensures OccursFrom(plays + [play], 0, uri)
    {
      var m :| 0 <= m < |plays| && plays[m].uri == uri;
      assert (plays + [play])[m].uri == uri;
    }
    assert (plays + [play])[|plays|].uri == play.uri;
  }

  predicate NoDuplicates<T(==)>(s: seq<T>) {
    forall p, q :: 0 <= p < q < |s| ==> s[p] != s[q]
  }

  predicate SortedByCount(s: seq<Play>) {
    forall p, q :: 0 <= p < q < |s| ==> s[p].count <= s[q].count
  }

  /** `sort_by_key(|(_, count)| *count)`: a stable sort, here an insertion
      sort, into ascending order of count. */
  method SortByCount(a: array<Play>)
    modifies a
    ensures SortedByCount(a[..])
    ensures multiset(a[..]) == multiset(old(a[..]))
  {
    var i := 0;
    while i < a.Length
      invariant 0 <= i <= a.Length
      invariant SortedByCount(a[..i])
      invariant multiset(a[..]) == multiset(old(a[..]))
    {
      var j := i;
      while j > 0 && a[j - 1].count > a[j].count
        invariant 0 <= j <= i
        invariant forall p, q :: 0 <= p < q <= i && p != j && q != j ==> a[p].count <= a[q].count
        invariant forall q :: j < q <= i ==> a[j].count < a[q].count
        invariant multiset(a[..]) == multiset(old(a[..]))
      {
        Swap(a, j - 1, j);
        j := j - 1;
      }
      i := i + 1;
    }
  }

  /** Exchanges two adjacent entries. */
  method Swap(a: array<Play>, p: nat, q: nat)
    requires p < q < a.Length
    modifies a
    ensures a[p] == old(a[q]) && a[q] == old(a[p])
    ensures forall m :: 0 <= m < a.Length && m != p && m != q ==> a[m] == old(a[m])
    ensures multiset(a[..]) == multiset(old(a[..]))
  {
    a[p], a[q] := a[q], a[p];
  }

  /** The listing of a whole run of `main`: scan the archive with the
      counting callback, then list the top `n` tracks. A failed scan prints
      nothing and reports its error. */
  method MostPlayed(archive: Archive, n: nat) returns (r: Result<seq<Row>, ReadZipError>)
    ensures r.Failure? <==> ScanOutcome(archive).Fail?
    ensures r.Failure? ==> ScanOutcome(archive) == Fail(r.error)
    ensures r.Success? ==> IsTopN(r.value, TallyOf(ScanForwarded(archive)).counts, TallyOf(ScanForwarded(archive)).info, n)
    ensures r.Success? ==> forall p :: 0 <= p < |r.value| ==>
      r.value[p].count == PlayCount(ScanForwarded(archive), r.value[p].uri) &&
      LastInfo(ScanForwarded(archive), r.value[p].uri) == Some(r.value[p].info)
  {
    var tally, outcome := ReadZip(archive, Count, EmptyTally);
    if outcome.Fail? {
      return Failure(outcome.error);
    }
    var rows := TopTracks(tally.counts, tally.info, n);
    TallyCounts(ScanForwarded(archive));
    return Success(rows);
  }

  // ---------------------------------------------------------------------------
  // Lemmas about the listing
  // ---------------------------------------------------------------------------

  /** Sorting keeps each entry tied to its URI's count, keeps every URI and
      adds no duplicate. */
  lemma PermutationKeeps(s: seq<Play>, t: seq<Play>, counts: map<string, nat>)
    requires multiset(s) == multiset(t)
    requires Tabulated(s, counts)
    ensures Tabulated(t, counts)
  {
    forall m | 0 <= m < |t|
      ensures t[m].uri in counts && t[m].count == counts[t[m].uri]
    {
      assert t[m] in multiset(s);
    }
    forall uri | uri in counts
      ensures OccursFrom(t, 0, uri)
    {
      assert OccursFrom(s, 0, uri);
      var m :| 0 <= m < |s| && s[m].uri == uri;
      assert s[m] in multiset(t);
      var m' :| 0 <= m' < |t| && t[m'] == s[m];
      assert t[m'].uri == uri;
    }
    NoDuplicatesIff(s);
    NoDuplicatesIff(t);
  }

  /** A sequence has no duplicates exactly when no element occurs twice in
      its multiset. */
  lemma {:induction false} NoDuplicatesIff<T>(s: seq<T>)
    ensures NoDuplicates(s) <==> forall x :: multiset(s)[x] <= 1
  {
    if s != [] {
      var n := |s| - 1;
      var init, last := s[..n], s[n];
      assert s == init + [last];
      NoDuplicatesIff(init);
      assert multiset(s) == multiset(init) + multiset{last};
      if NoDuplicates(s) {
        assert NoDuplicates(init) by {
          forall p, q | 0 <= p < q < |init|
            ensures init[p] != init[q]
          {
            assert init[p] == s[p] && init[q] == s[q];
          }
        }
        assert last !in init by {
          forall p | 0 <= p < |init|
            ensures init[p] != last
          {
            assert s[p] == init[p];
          }
        }
      } else {
        var p, q :| 0 <= p < q < |s| && s[p] == s[q];
        if q < n {
          assert init[p] == init[q];
          var x :| multiset(init)[x] > 1;
          assert multiset(s)[x] > 1;
        } else {
          assert init[p] == last;
          assert multiset(s)[last] >= 2;
        }
      }
    }
  }

  /** The tracks the rows list. */
  function Tracks(rows: seq<Row>): set<string> {
    if rows == [] then {} else Tracks(rows[..|rows| - 1]) + {rows[|rows| - 1].uri}
  }

  lemma {:induction false} TracksListed(rows: seq<Row>, uri: string)
    ensures uri in Tracks(rows) <==> Listed(rows, uri)
  {
    if rows != [] {
      var n := |rows| - 1;
      TracksListed(rows[..n], uri);
      if Listed(rows, uri) && rows[n].uri != uri {
        var p :| 0 <= p < |rows| && rows[p].uri == uri;
        assert rows[..n][p].uri == uri;
      }
      if Listed(rows[..n], uri) {
        var p :| 0 <= p < n && rows[..n][p].uri == uri;
        assert rows[p].uri == uri;
      }
    }
  }

  /** Distinct rows list as many tracks as there are rows. */
  lemma {:induction false} DistinctTracksCount(rows: seq<Row>)
    requires DistinctTracks(rows)
    ensures |Tracks(rows)| == |rows|
  {
    if rows != [] {
      var n := |rows| - 1;
      var init := rows[..n];
      assert DistinctTracks(init) by {
        forall p, q | 0 <= p < q < |init|
          ensures init[p].uri != init[q].uri
        {
          assert init[p] == rows[p] && init[q] == rows[q];
        }
      }
      DistinctTracksCount(init);
      TracksListed(init, rows[n].uri);
    }
  }

  /** The walk lists `min(n, listable)` tracks: all of them unless it stopped
      at `n`. */
  lemma TopSize(rows: seq<Row>, counts: map<string, nat>, info: map<string, TrackInfo>, n: nat)
    requires |rows| <= n
    requires forall p :: 0 <= p < |rows| ==> rows[p].uri in counts && rows[p].uri in info
    requires DistinctTracks(rows)
    requires |rows| < n ==> forall uri :: uri in counts && uri in info ==> Listed(rows, uri)
    ensures |rows| == Min(n, |Listable(counts, info)|)
  {
    DistinctTracksCount(rows);
    forall uri | true
      ensures uri in Tracks(rows) <==> Listed(rows, uri)
    {
      TracksListed(rows, uri);
    }
    assert Tracks(rows) <= Listable(counts, info);
    SubsetCard(Tracks(rows), Listable(counts, info));
    if |rows| < n {
      assert Tracks(rows) == Listable(counts, info);
    }
  }

  lemma SubsetCard<T>(a: set<T>, b: set<T>)
    requires a <= b
    ensures |a| <= |b|
  {
    assert b == a + (b - a);
  }
}
