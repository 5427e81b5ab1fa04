/** The archive scan of `sesh/src/zip.rs`: `read_zip` walks the entries of a
    zip archive in index order, forwards the items of every entry whose name
    ends with `.json` and contains `Audio` to a callback, and stops at the
    first error of any kind; `read_zip_to_end` collects what the callback saw.

    The archive is a value: what opening the file and reading the central
    directory gave, and for each entry its name and either the zip error of
    `by_index` or the items the JSON array iterator yields for its contents.
    The callback, an `FnMut(Stream)`, is a transformer `cb` of the state it
    captures. */
module ZipScan {
  import opened Wrappers
  import opened Sesh

  /** `ReadZipError`, carrying the message of the underlying error. */
  datatype ReadZipError = Io(io: string) | Zip(zip: string) | Serde(serde: string)

  /** Why the JSON array iterator yielded an error: the entry's bytes could
      not be read (a decompression or checksum failure), or an element did
      not decode. */
  datatype ItemError = ItemIo(io: string) | ItemSerde(serde: string)

  /** `?` at zip.rs:31: the `From` conversion of an item's error into
      `ReadZipError`. */
  function FromItemError(e: ItemError): (r: ReadZipError)
    ensures r.Io? <==> e.ItemIo?
    ensures r.Serde? <==> e.ItemSerde?
    ensures r.Io? ==> r.io == e.io
    ensures r.Serde? ==> r.serde == e.serde
  {
    match e
    case ItemIo(m) => Io(m)
    case ItemSerde(m) => Serde(m)
  }

  /** One item of the JSON array iterator: a decoded record or an error. */
  type Item = Result<Stream, ItemError>

  /** One archive entry: its name, and either the error of opening it with
      `by_index` or the items of its contents. */
  datatype Entry = Entry(name: string, contents: Result<seq<Item>, string>)

  /** What `File::open` and `ZipArchive::new` make of the path. */
  datatype Archive =
    | FileOpenFailed(ioError: string)
    | HeaderInvalid(zipError: string)
    | Opened(entries: seq<Entry>)

  // ---------------------------------------------------------------------------
  // The entry filter (zip.rs:29)
  // ---------------------------------------------------------------------------

  /** `str::ends_with`, compared character by character from the end. */
  function EndsWith(s: string, suffix: string): (b: bool)
    ensures b <==> |suffix| <= |s| && s[|s| - |suffix|..] == suffix
  {
    if suffix == [] then true
    else if s == [] then false
    else s[|s| - 1] == suffix[|suffix| - 1] && EndsWith(s[..|s| - 1], suffix[..|suffix| - 1])
  }

  function StartsWith(s: string, prefix: string): (b: bool)
    ensures b <==> |prefix| <= |s| && s[..|prefix|] == prefix
  {
    if prefix == [] then true
    else if s == [] then false
    else s[0] == prefix[0] && StartsWith(s[1..], prefix[1..])
  }

  /** `needle` occurs in `s` starting at index `i`. */
  predicate OccursAt(s: string, needle: string, i: int) {
    0 <= i <= |s| - |needle| && s[i..i + |needle|] == needle
  }

  /** `str::contains`: some occurrence of `needle` starts at an index of `s`. */
  function Contains(s: string, needle: string): (b: bool)
    ensures b <==> exists i :: OccursAt(s, needle, i)
  {
    if StartsWith(s, needle) then
      assert OccursAt(s, needle, 0);
      true
    else if s == [] then false
    else
      var r := Contains(s[1..], needle);
      assert forall i :: OccursAt(s, needle, i) ==> i >= 1 && OccursAt(s[1..], needle, i - 1);
      if r then
        var i :| OccursAt(s[1..], needle, i);
        assert OccursAt(s, needle, i + 1);
        true
      else false
  }

  /** An entry of the listening history export, compared case-sensitively. */
  predicate IsAudioHistory(name: string) {
    EndsWith(name, ".json") && Contains(name, "Audio")
  }

  // ---------------------------------------------------------------------------
  // The events of a scan, and what the callback sees
  // ---------------------------------------------------------------------------

  /** What the scan meets in order: a record to forward or an error. */
  type Event = Result<Stream, ReadZipError>

  function Lift(item: Item): Event {
    match item
    case Success(s) => Success(s)
    case Failure(e) => Failure(FromItemError(e))
  }

  function LiftAll(items: seq<Item>): (evs: seq<Event>)
    ensures |evs| == |items|
  {
    if items == [] then [] else LiftAll(items[..|items| - 1]) + [Lift(items[|items| - 1])]
  }

  /** The events of one entry: its open error, or the items of a history entry,
      or nothing for an entry that is opened and skipped. */
  function EntryEvents(e: Entry): seq<Event> {
    match e.contents
    case Failure(z) => [Failure(Zip(z))]
    case Success(items) => if IsAudioHistory(e.name) then LiftAll(items) else []
  }

  function Events(entries: seq<Entry>): seq<Event> {
    if entries == [] then []
    else Events(entries[..|entries| - 1]) + EntryEvents(entries[|entries| - 1])
  }

  predicate AllOk(evs: seq<Event>) {
    forall k :: 0 <= k < |evs| ==> evs[k].Success?
  }

  /** The records among `evs`, in order. */
  function Records(evs: seq<Event>): seq<Stream> {
    if evs == [] then []
    else Records(evs[..|evs| - 1]) + (if evs[|evs| - 1].Success? then [evs[|evs| - 1].value] else [])
  }

  /** The index of the first error in `evs`, or `|evs|` if there is none. */
  function FirstError(evs: seq<Event>): (n: nat)
    ensures n <= |evs|
    ensures AllOk(evs[..n])
    ensures n < |evs| ==> evs[n].Failure?
  {
    if evs == [] then 0
    else if evs[0].Failure? then 0
    else
      var n := 1 + FirstError(evs[1..]);
      assert forall k :: 1 <= k < n ==> evs[..n][k] == evs[1..][..n - 1][k - 1];
      n
  }

  /** The records the callback receives: those before the first error. */
  function Forwarded(evs: seq<Event>): seq<Stream> {
    Records(evs[..FirstError(evs)])
  }

  /** What `read_zip` returns: the first error, if any. */
  function Verdict(evs: seq<Event>): Outcome<ReadZipError> {
    var n := FirstError(evs);
    if n < |evs| then Fail(evs[n].error) else Pass
  }

  /** The records forwarded by a scan of `archive`. */
  function ScanForwarded(archive: Archive): seq<Stream> {
    if archive.Opened? then Forwarded(Events(archive.entries)) else []
  }

  /** The result of a scan of `archive`. */
  function ScanOutcome(archive: Archive): Outcome<ReadZipError> {
    match archive
    case FileOpenFailed(e) => Fail(Io(e))
    case HeaderInvalid(e) => Fail(Zip(e))
    case Opened(entries) => Verdict(Events(entries))
  }

  /** The state an `FnMut` callback reaches after receiving `xs` in order. */
  function FoldLeft<S, T>(f: (S, T) -> S, init: S, xs: seq<T>): S {
    if xs == [] then init else f(FoldLeft(f, init, xs[..|xs| - 1]), xs[|xs| - 1])
  }

  // ---------------------------------------------------------------------------
  // read_zip and read_zip_to_end
  // ---------------------------------------------------------------------------

  /** `read_zip`: opening the file or reading the central directory can fail;
      otherwise the entries are visited in index order. An entry that fails
      to open aborts, the items of each history entry are forwarded in order,
      and the first item that fails to decode aborts. The callback state ends
      as the fold of `cb` over the forwarded records. */
  method ReadZip<S>(archive: Archive, cb: (S, Stream) -> S, init: S) returns (state: S, outcome: Outcome<ReadZipError>)
    ensures state == FoldLeft(cb, init, ScanForwarded(archive))
    ensures outcome == ScanOutcome(archive)
  {
    match archive {
      case FileOpenFailed(e) =>
        return init, Fail(Io(e));
      case HeaderInvalid(e) =>
        return init, Fail(Zip(e));
      case Opened(entries) =>
        state := init;
        var i := 0;
        while i < |entries|
          invariant 0 <= i <= |entries|
          invariant AllReadable(entries[..i])
          invariant state == FoldLeft(cb, init, HistoryRecords(entries[..i]))
        {
          var entry := entries[i];
          Split(entries, i);
          if entry.contents.Failure? {
            OpenErrorAborts(entries[..i], entry, entries[i + 1..]);
            return state, Fail(Zip(entry.contents.error));
          }
          var items := entry.contents.value;
          ghost var before := HistoryRecords(entries[..i]);
          if IsAudioHistory(entry.name) {
            var j := 0;
            assert before + ItemRecords(items[..j]) == before by {
              assert items[..j] == [];
            }
            while j < |items|
              invariant 0 <= j <= |items|
              invariant forall k :: 0 <= k < j ==> items[k].Success?
              invariant state == FoldLeft(cb, init, before + ItemRecords(items[..j]))
            {
              if items[j].Failure? {
                ItemErrorAborts(entries[..i], entry.name, items, j, entries[i + 1..]);
                return state, Fail(FromItemError(items[j].error));
              }
              var record := items[j].value;
              state := cb(state, record);
              ItemRecordsStep(before, items, j);
              FoldLeftSnoc(cb, init, before + ItemRecords(items[..j]), record);
              j := j + 1;
            }
            assert items[..j] == items;
          } else {
            assert before + EntryRecords(entry) == before;
          }
          HistoryStep(entries, i);
          i := i + 1;
        }
        assert entries[..i] == entries;
        ScanPassesIff(entries);
        ScanDeliversAll(entries);
        outcome := Pass;
    }
  }

  /** `read_zip_to_end`: the callback pushes every forwarded record onto a
      vector; the vector is returned when the scan passes, the error otherwise. */
  method ReadZipToEnd(archive: Archive) returns (r: Result<seq<Stream>, ReadZipError>)
    ensures r.Success? <==> ScanOutcome(archive) == Pass
    ensures r.Success? ==> r.value == ScanForwarded(archive)
    ensures r.Failure? ==> ScanOutcome(archive) == Fail(r.error)
  {
    var out, outcome := ReadZip(archive, Push, []);
    PushCollects(ScanForwarded(archive));
    if outcome.Fail? {
      return Failure(outcome.error);
    }
    return Success(out);
  }

  /** The callback of `read_zip_to_end`. */
  function Push(out: seq<Stream>, s: Stream): seq<Stream> {
    out + [s]
  }

  // ---------------------------------------------------------------------------
  // Lemmas about events
  // ---------------------------------------------------------------------------

  lemma FoldLeftSnoc<S, T>(f: (S, T) -> S, init: S, xs: seq<T>, x: T)
    ensures FoldLeft(f, init, xs + [x]) == f(FoldLeft(f, init, xs), x)
  {
    assert (xs + [x])[..|xs|] == xs;
  }

  /** Folding `Push` from the empty vector rebuilds the records it received. */
  lemma {:induction false} PushCollects(xs: seq<Stream>)
    ensures FoldLeft(Push, [], xs) == xs
  {
    if xs != [] {
      PushCollects(xs[..|xs| - 1]);
      assert xs[..|xs| - 1] + [xs[|xs| - 1]] == xs;
    }
  }

  lemma RecordsSnoc(evs: seq<Event>, e: Event)
    ensures Records(evs + [e]) == Records(evs) + (if e.Success? then [e.value] else [])
  {
    assert (evs + [e])[..|evs|] == evs;
  }

  lemma {:induction false} RecordsAppend(a: seq<Event>, b: seq<Event>)
    ensures Records(a + b) == Records(a) + Records(b)
  {
    if b == [] {
      assert a + b == a;
      assert Records(a) + [] == Records(a);
    } else {
      var n := |b| - 1;
      var ab := a + b;
      assert ab[..|ab| - 1] == a + b[..n];
      assert ab[|ab| - 1] == b[n];
      calc {
        Records(ab);
        Records(a + b[..n]) + (if b[n].Success? then [b[n].value] else []);
        { RecordsAppend(a, b[..n]); }
        Records(a) + Records(b[..n]) + (if b[n].Success? then [b[n].value] else []);
        { Assoc(Records(a), Records(b[..n]), (if b[n].Success? then [b[n].value] else [])); }
        Records(a) + (Records(b[..n]) + (if b[n].Success? then [b[n].value] else []));
      }
    }
  }


  lemma Assoc<T>(x: seq<T>, y: seq<T>, z: seq<T>)
    ensures (x + y) + z == x + (y + z)
  {
  }

  lemma {:induction false} EventsAppend(a: seq<Entry>, b: seq<Entry>)
    ensures Events(a + b) == Events(a) + Events(b)
  {
    if b == [] {
      assert a + b == a;
      assert Events(a) + [] == Events(a);
    } else {
      var n := |b| - 1;
      var ab := a + b;
      assert ab[..|ab| - 1] == a + b[..n];
      assert ab[|ab| - 1] == b[n];
      calc {
        Events(ab);
        Events(a + b[..n]) + EntryEvents(b[n]);
        { EventsAppend(a, b[..n]); }
        Events(a) + Events(b[..n]) + EntryEvents(b[n]);
        { Assoc(Events(a), Events(b[..n]), EntryEvents(b[n])); }
        Events(a) + (Events(b[..n]) + EntryEvents(b[n]));
      }
    }
  }

  /** The events of the entries before, at and after index `i`. */
  lemma EventsSplit(entries: seq<Entry>, i: nat)
    requires i < |entries|
    ensures Events(entries) == Events(entries[..i]) + EntryEvents(entries[i]) + Events(entries[i + 1..])
  {
    var upTo := entries[..i + 1];
    assert entries == upTo + entries[i + 1..];
    EventsAppend(upTo, entries[i + 1..]);
    EntryStep(entries, i);
  }

  lemma {:induction false} LiftAllAppend(a: seq<Item>, b: seq<Item>)
    ensures LiftAll(a + b) == LiftAll(a) + LiftAll(b)
  {
    if b == [] {
      assert a + b == a;
      assert LiftAll(a) + [] == LiftAll(a);
    } else {
      var n := |b| - 1;
      var ab := a + b;
      assert ab[..|ab| - 1] == a + b[..n];
      assert ab[|ab| - 1] == b[n];
      calc {
        LiftAll(ab);
        LiftAll(a + b[..n]) + [Lift(b[n])];
        { LiftAllAppend(a, b[..n]); }
        LiftAll(a) + LiftAll(b[..n]) + [Lift(b[n])];
        { Assoc(LiftAll(a), LiftAll(b[..n]), [Lift(b[n])]); }
        LiftAll(a) + (LiftAll(b[..n]) + [Lift(b[n])]);
      }
    }
  }


  lemma LiftAllSplit(items: seq<Item>, j: nat)
    requires j < |items|
    ensures LiftAll(items) == LiftAll(items[..j]) + [Lift(items[j])] + LiftAll(items[j + 1..])
    ensures LiftAll(items[..j + 1]) == LiftAll(items[..j]) + [Lift(items[j])]
  {
    var p := items[..j + 1];
    assert p[..|p| - 1] == items[..j];
    assert p[|p| - 1] == items[j];
    assert items == p + items[j + 1..];
    LiftAllAppend(p, items[j + 1..]);
  }


  /** The lifted items are all records exactly when every item decoded. */
  lemma {:induction false} LiftAllOk(items: seq<Item>)
    ensures AllOk(LiftAll(items)) <==> forall k :: 0 <= k < |items| ==> items[k].Success?
  {
    if items != [] {
      var n := |items| - 1;
      var init, last := LiftAll(items[..n]), [Lift(items[n])];
      assert LiftAll(items) == init + last;
      LiftAllOk(items[..n]);
      AllOkAppend(init, last);
      assert AllOk(last) <==> last[0].Success?;
      assert last[0].Success? <==> items[n].Success?;
      assert forall k :: 0 <= k < n ==> items[..n][k] == items[k];
    }
  }

  lemma {:induction false} AllOkAppend(a: seq<Event>, b: seq<Event>)
    ensures AllOk(a + b) <==> AllOk(a) && AllOk(b)
  {
    if AllOk(a) && AllOk(b) {
      forall k | 0 <= k < |a + b|
        ensures (a + b)[k].Success?
      {
        if k >= |a| {
          assert (a + b)[k] == b[k - |a|];
        }
      }
    }
    if AllOk(a + b) {
      forall k | 0 <= k < |a|
        ensures a[k].Success?
      {
        assert (a + b)[k] == a[k];
      }
      forall k | 0 <= k < |b|
        ensures b[k].Success?
      {
        assert (a + b)[|a| + k] == b[k];
      }
    }
  }

  /** A scan with no error forwards every record and passes. */
  lemma AllOkForwardsAll(evs: seq<Event>)
    requires AllOk(evs)
    ensures FirstError(evs) == |evs|
    ensures Forwarded(evs) == Records(evs)
    ensures Verdict(evs) == Pass
  {
    assert evs[..|evs|] == evs;
  }

  /** The verdict passes exactly when there is no error. */
  lemma VerdictPassIff(evs: seq<Event>)
    ensures Verdict(evs) == Pass <==> AllOk(evs)
  {
    var n := FirstError(evs);
    if n == |evs| {
      assert evs[..n] == evs;
    }
  }

  /** The scan stops at the first error: what comes after it does not matter. */
  lemma {:induction false} StopsAtFailure(pre: seq<Event>, e: Event, post: seq<Event>)
    requires AllOk(pre)
    requires e.Failure?
    ensures FirstError(pre + [e] + post) == |pre|
    ensures Forwarded(pre + [e] + post) == Records(pre)
    ensures Verdict(pre + [e] + post) == Fail(e.error)
  {
    var evs := pre + [e] + post;
    if pre != [] {
      StopsAtFailure(pre[1..], e, post);
      assert evs[1..] == pre[1..] + [e] + post;
    }
    assert evs[..|pre|] == pre;
  }

  // ---------------------------------------------------------------------------
  // What a scan of the entries delivers
  // ---------------------------------------------------------------------------

  /** The records of the readable items, in order. */
  function ItemRecords(items: seq<Item>): seq<Stream> {
    if items == [] then []
    else ItemRecords(items[..|items| - 1]) + (if items[|items| - 1].Success? then [items[|items| - 1].value] else [])
  }

  /** The records an entry contributes: those of a readable history entry. */
  function EntryRecords(e: Entry): seq<Stream> {
    if e.contents.Success? && IsAudioHistory(e.name) then ItemRecords(e.contents.value) else []
  }

  /** A reference definition of the export's records: those of every history
      entry, in entry order. */
  function HistoryRecords(entries: seq<Entry>): seq<Stream> {
    if entries == [] then []
    else HistoryRecords(entries[..|entries| - 1]) + EntryRecords(entries[|entries| - 1])
  }

  /** An entry the scan gets through: it opens, and if it is a history entry
      every item of it decodes. */
  predicate EntryReadable(e: Entry) {
    e.contents.Success? &&
    (IsAudioHistory(e.name) ==> forall k :: 0 <= k < |e.contents.value| ==> e.contents.value[k].Success?)
  }

  predicate AllReadable(entries: seq<Entry>) {
    forall k :: 0 <= k < |entries| ==> EntryReadable(entries[k])
  }

  lemma {:induction false} RecordsOfLiftAll(items: seq<Item>)
    ensures Records(LiftAll(items)) == ItemRecords(items)
  {
    if items != [] {
      var n := |items| - 1;
      RecordsOfLiftAll(items[..n]);
      assert LiftAll(items) == LiftAll(items[..n]) + [Lift(items[n])];
      RecordsSnoc(LiftAll(items[..n]), Lift(items[n]));
    }
  }

  /** The records among the events are those of the history entries. */
  lemma {:induction false} RecordsOfEvents(entries: seq<Entry>)
    ensures Records(Events(entries)) == HistoryRecords(entries)
  {
    if entries != [] {
      var n := |entries| - 1;
      var e := entries[n];
      RecordsOfEvents(entries[..n]);
      RecordsAppend(Events(entries[..n]), EntryEvents(e));
      if e.contents.Failure? {
        var evs: seq<Event> := [Failure(Zip(e.contents.error))];
        assert evs[..0] == [];
        assert Records(evs) == [];
      } else if IsAudioHistory(e.name) {
        RecordsOfLiftAll(e.contents.value);
      }
    }
  }

  lemma EntryEventsOk(e: Entry)
    ensures AllOk(EntryEvents(e)) <==> EntryReadable(e)
  {
    if e.contents.Success? && IsAudioHistory(e.name) {
      LiftAllOk(e.contents.value);
    } else if e.contents.Failure? {
      assert EntryEvents(e)[0].Failure?;
    }
  }

  lemma {:induction false} EventsOkIff(entries: seq<Entry>)
    ensures AllOk(Events(entries)) <==> AllReadable(entries)
  {
    if entries != [] {
      var n := |entries| - 1;
      EventsOkIff(entries[..n]);
      AllOkAppend(Events(entries[..n]), EntryEvents(entries[n]));
      EntryEventsOk(entries[n]);
      AllReadableSnoc(entries);
    }
  }

  lemma AllReadableSnoc(entries: seq<Entry>)
    requires entries != []
    ensures AllReadable(entries) <==> AllReadable(entries[..|entries| - 1]) && EntryReadable(entries[|entries| - 1])
  {
    var n := |entries| - 1;
    assert forall k :: 0 <= k < n ==> entries[..n][k] == entries[k];
  }

  /** `read_zip` returns `Ok` exactly when every entry opens and every item of
      every history entry decodes. */
  lemma ScanPassesIff(entries: seq<Entry>)
    ensures ScanOutcome(Opened(entries)) == Pass <==> AllReadable(entries)
  {
    VerdictPassIff(Events(entries));
    EventsOkIff(entries);
  }

  /** A scan that passes has handed the callback every record of every
      history entry, in entry order and item order. */
  lemma ScanDeliversAll(entries: seq<Entry>)
    requires AllReadable(entries)
    ensures ScanForwarded(Opened(entries)) == HistoryRecords(entries)
  {
    EventsOkIff(entries);
    AllOkForwardsAll(Events(entries));
    RecordsOfEvents(entries);
  }

  /** An entry that opens but is not a history entry has no effect. */
  lemma SkippedEntryIgnored(pre: seq<Entry>, e: Entry, post: seq<Entry>)
    requires e.contents.Success? && !IsAudioHistory(e.name)
    ensures Events(pre + [e] + post) == Events(pre + post)
  {
    var upTo := pre + [e];
    assert upTo[..|upTo| - 1] == pre;
    assert Events(upTo) == Events(pre) + [];
    assert Events(pre) + [] == Events(pre);
    EventsAppend(upTo, post);
    EventsAppend(pre, post);
  }


  /** An entry that fails to open aborts the scan with its zip error, after
      the records of the entries before it. */
  lemma OpenErrorAborts(pre: seq<Entry>, e: Entry, post: seq<Entry>)
    requires AllReadable(pre)
    requires e.contents.Failure?
    ensures ScanOutcome(Opened(pre + [e] + post)) == Fail(Zip(e.contents.error))
    ensures ScanForwarded(Opened(pre + [e] + post)) == HistoryRecords(pre)
  {
    var entries := pre + [e] + post;
    EventsSplit(entries, |pre|);
    assert entries[..|pre|] == pre && entries[|pre| + 1..] == post;
    EventsOkIff(pre);
    StopsAtFailure(Events(pre), Failure(Zip(e.contents.error)), Events(post));
    RecordsOfEvents(pre);
  }

  /** An item that fails aborts the scan with that item's error, after
      the records of the entries before its entry and of the items before it. */
  lemma ItemErrorAborts(pre: seq<Entry>, name: string, items: seq<Item>, j: nat, post: seq<Entry>)
    requires AllReadable(pre)
    requires IsAudioHistory(name)
    requires j < |items|
    requires forall k :: 0 <= k < j ==> items[k].Success?
    requires items[j].Failure?
    ensures ScanOutcome(Opened(pre + [Entry(name, Success(items))] + post)) == Fail(FromItemError(items[j].error))
    ensures ScanForwarded(Opened(pre + [Entry(name, Success(items))] + post)) == HistoryRecords(pre) + ItemRecords(items[..j])
  {
    var entries := pre + [Entry(name, Success(items))] + post;
    assert entries[..|pre|] == pre;
    EventsOkIff(pre);
    LiftAllOk(items[..j]);
    AllOkAppend(Events(pre), LiftAll(items[..j]));
    ItemErrorStops(entries, |pre|, j);
    RecordsAppend(Events(pre), LiftAll(items[..j]));
    RecordsOfEvents(pre);
    RecordsOfLiftAll(items[..j]);
  }

  // ---------------------------------------------------------------------------
  // Steps of the scan loops
  // ---------------------------------------------------------------------------

  lemma Split(entries: seq<Entry>, i: nat)
    requires i < |entries|
    ensures entries == entries[..i] + [entries[i]] + entries[i + 1..]
  {
  }

  /** One more readable entry extends the records by its own. */
  lemma HistoryStep(entries: seq<Entry>, i: nat)
    requires i < |entries|
    ensures HistoryRecords(entries[..i + 1]) == HistoryRecords(entries[..i]) + EntryRecords(entries[i])
    ensures AllReadable(entries[..i + 1]) <==> AllReadable(entries[..i]) && EntryReadable(entries[i])
  {
    assert entries[..i + 1][..i] == entries[..i];
    AllReadableSnoc(entries[..i + 1]);
  }

  /** One more decoded item extends the records by its record. */
  lemma ItemRecordsStep(before: seq<Stream>, items: seq<Item>, j: nat)
    requires j < |items| && items[j].Success?
    ensures before + ItemRecords(items[..j + 1]) == before + ItemRecords(items[..j]) + [items[j].value]
  {
    assert items[..j + 1][..j] == items[..j];
    Assoc(before, ItemRecords(items[..j]), [items[j].value]);
  }

  lemma EntryStep(entries: seq<Entry>, i: nat)
    requires i < |entries|
    ensures Events(entries[..i + 1]) == Events(entries[..i]) + EntryEvents(entries[i])
  {
    assert entries[..i + 1][..i] == entries[..i];
  }

  /** An item of a history entry that fails ends the scan with its error. */
  lemma ItemErrorStops(entries: seq<Entry>, i: nat, j: nat)
    requires i < |entries| && entries[i].contents.Success? && IsAudioHistory(entries[i].name)
    requires j < |entries[i].contents.value| && entries[i].contents.value[j].Failure?
    requires AllOk(Events(entries[..i]) + LiftAll(entries[i].contents.value[..j]))
    ensures Verdict(Events(entries)) == Fail(FromItemError(entries[i].contents.value[j].error))
    ensures Forwarded(Events(entries)) == Records(Events(entries[..i]) + LiftAll(entries[i].contents.value[..j]))
  {
    var items := entries[i].contents.value;
    var before, after := Events(entries[..i]), Events(entries[i + 1..]);
    var bad := Lift(items[j]);
    var rest := LiftAll(items[j + 1..]);
    EventsSplit(entries, i);
    LiftAllSplit(items, j);
    var prior := before + LiftAll(items[..j]);
    calc {
      Events(entries);
      before + (LiftAll(items[..j]) + [bad] + rest) + after;
      { Assoc(before, LiftAll(items[..j]) + [bad], rest);
        Assoc(before, LiftAll(items[..j]), [bad]); }
      prior + [bad] + rest + after;
      { Assoc(prior + [bad], rest, after); }
      prior + [bad] + (rest + after);
    }
    StopsAtFailure(prior, bad, rest + after);
  }
}
