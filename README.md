# sesh — a Dafny model

`sesh` reads the Spotify "extended streaming history" export. The export is a
zip archive whose `…Audio….json` entries each hold a JSON array of playback
records. This project models three parts of it:

- `sesh/src/lib.rs`, in `sesh_lib.dfy` (module `Sesh`). This covers the strict
  record schema that serde derives for `Stream`: unknown keys are rejected,
  there are five required fields, fifteen `Option` fields, and the
  `offline_timestamp` field. It also covers the custom `offline_timestamp`
  decoder, where 0 means absent and the milliseconds are turned into
  nanoseconds, and `Stream::playtime`.
- `sesh/src/zip.rs`, in `sesh_zip.dfy` (module `ZipScan`). `read_zip` walks the
  archive entries in index order. It passes every record of every history
  entry to an `FnMut` callback and stops at the first I/O, zip or serde error.
  `read_zip_to_end` collects the records into a vector.
- `sesh-cli/src/main.rs`, in `sesh_cli.dfy` (module `Cli`). The tool counts the
  plays of each track URI and keeps the last name and artist it saw for that
  URI. It then collects the counts, sorts them by count, and lists the `n` most
  played tracks that have a name and an artist.

`wrappers.dfy` (module `Wrappers`) provides `Option`, `Result` and
`Outcome`, the model of `Result<(), E>`.

How each part is modelled:

- **The archive.** It is a value: the result of opening the file and reading
  the central directory, then for each entry its name and either the error
  from `by_index` or the items the JSON array iterator yields.
- **The callback.** It is a state transformer `cb`. `ReadZip` ends in the
  state `FoldLeft(cb, init, ScanForwarded(archive))`, and the lemmas say which
  records those are.
- **The two hash maps of `main`.** They are the `Tally` value folded by the
  callback `Count`.
- **The listing.** It is imperative, as in the source:
  - `Collect` drains the map keys in an arbitrary (`:|`) order.
  - `SortByCount` is an in-place insertion sort on an `array`.
  - `TakeListed` walks the sorted vector from its most played end, filters and
    takes.
- **Foreign collaborators.** The RFC 3339 parser, the `IpAddr` parser and the
  date range of `OffsetDateTime::from_unix_timestamp_nanos` are parameters
  (`Sesh.Env`).

The comment at `sesh-cli/src/main.rs:31` says the tool finds the "least
played" tracks. The code lists the most played first (`rev()` after an
ascending sort), and the model follows the code.

## Model

| member | source | states |
|---|---|---|
| Sesh.WrapI128 | sesh/src/lib.rs:25-29 | The unchecked `i128` product wraps two's-complement. The result lies in the `i128` range, differs from the exact value by a multiple of 2^128, and equals it when the exact value fits. |
| Sesh.MillisToNanosFits | sesh/src/lib.rs:25-29 | For any millisecond count within ±(i128::MAX / 10^6), the nanosecond product `ms * 1_000_000` does not overflow `i128`. |
| Sesh.OfflineTimestamp | sesh/src/lib.rs:21-33 | The integer 0, and only 0, decodes to `None`. A non-integer (`null` included) is a type error. For any other integer whose nanosecond count fits, the decode succeeds exactly when `ms * 10^6` is within the representable date range, and then gives that instant in UTC. |
| Sesh.DecodeStream | sesh/src/lib.rs:36-71 | A decoded object has no key outside the 21 field names, has all six mandatory fields, and its `username`, `platform`, `ms_played` and `conn_country` are copied into the record; `DecodeStreamIff` and `DecodedFields` below specify it completely. |
| Sesh.DecodeStreamIff | sesh/src/lib.rs:36-71 | The derived decoder succeeds exactly when the object conforms to the schema table. Conforming means there is no unknown key, every required field is present with a value of its type, and every `Option` field is absent, `null` or of its type. |
| Sesh.StepOkIff | sesh/src/lib.rs:38-70 | Each field's decode step succeeds exactly when that field satisfies its entry in the schema table. |
| Sesh.Rfc3339Iff | sesh/src/lib.rs:40-41 | The `ts` field, read through the RFC 3339 deserializer, is accepted exactly when it is present and is a string that parses. |
| Sesh.TextIff | sesh/src/lib.rs:42-47 | A required `String` field is accepted exactly when it is present and is a string. |
| Sesh.Unsigned64Iff | sesh/src/lib.rs:44-45 | `ms_played` is accepted exactly when it is present and is an integer in `0..=u64::MAX`. |
| Sesh.OptionalTextIff | sesh/src/lib.rs:50-64 | An `Option<String>` field is accepted when it is absent, `null`, or a string, and only then. |
| Sesh.OptionalIpIff | sesh/src/lib.rs:48-49 | `ip_addr_decrypted` is accepted when it is absent, `null`, or a string that parses as an IP address, and only then. |
| Sesh.OptionalFlagIff | sesh/src/lib.rs:65-70 | An `Option<bool>` field is accepted when it is absent, `null`, or a boolean, and only then. |
| Sesh.OfflineMillisIff | sesh/src/lib.rs:68-69 | `offline_timestamp` is accepted exactly when it is present and is an `i128` that is either 0 or whose wrapped nanosecond count lies in the date range. |
| Sesh.UnknownKeyRejected | sesh/src/lib.rs:37 | Any key that is not one of the 21 field names makes the record fail to decode. |
| Sesh.MissingMandatoryRejected | sesh/src/lib.rs:38-47 | If `ts`, `username`, `platform`, `ms_played`, `conn_country` or `offline_timestamp` is absent, decoding fails. |
| Sesh.OfflineTimestampNotOptional | sesh/src/lib.rs:68-69 | Although its type is `Option`, an absent or `null` `offline_timestamp` makes decoding fail; `with` replaces serde's default for a missing field. |
| Sesh.DecodedFields | sesh/src/lib.rs:36-71 | An accepted object decodes to its own values. Required fields are copied. `ts` is the parse of its string. An absent or `null` `Option` field is `None`, and a present one is `Some` of its value. `offline_timestamp` is the sentinel decode of its value. |
| Sesh.Playtime | sesh/src/lib.rs:73-76 | `Duration::from_millis(ms_played)` has a nanosecond part below one second and totals exactly `ms_played × 10^6` nanoseconds. |
| Sesh.PlaytimeUnique | sesh/src/lib.rs:73-76 | Only one canonical duration has that length, so `Playtime` is it. |
| ZipScan.EndsWith | sesh/src/zip.rs:29 | `ends_with` holds exactly when the suffix is no longer than the name and equals the name's last characters. |
| ZipScan.Contains | sesh/src/zip.rs:29 | `contains` holds exactly when the needle occurs at some index of the name. |
| ZipScan.FirstError | sesh/src/zip.rs:26-33 | The stopping point of the scan: every event before it is a record, and the event at it, if any, is an error. |
| ZipScan.ReadZip | sesh/src/zip.rs:17-37 | The callback ends in the state reached by folding `cb` over exactly the records met before the first error, and the result is `Ok` or that first error: `Io` from opening the file, `Zip` from reading the archive or opening an entry, or the error of a failed item of a history entry, converted to `Io` or `Serde` by its kind. |
| ZipScan.ReadZipToEnd | sesh/src/zip.rs:39-43 | `Ok` exactly when the scan passes, and then the vector is exactly the forwarded records. Otherwise the result is the scan's error. |
| ZipScan.PushCollects | sesh/src/zip.rs:41 | Pushing the records one by one onto an empty vector rebuilds them in order. |
| ZipScan.ScanPassesIff | sesh/src/zip.rs:26-36 | Scanning an opened archive returns `Ok` exactly when every entry opens and every item of every history entry is a record. |
| ZipScan.ScanDeliversAll | sesh/src/zip.rs:26-33 | When the scan passes, the callback has received every record of every history entry, in entry order and then item order. |
| ZipScan.SkippedEntryIgnored | sesh/src/zip.rs:29 | An entry that opens but whose name is not `….json` containing `Audio` contributes nothing to the scan. |
| ZipScan.OpenErrorAborts | sesh/src/zip.rs:27 | An entry whose `by_index` fails, with only readable entries before it, aborts the scan with that `Zip` error. The callback has then received exactly the records of the earlier entries. |
| ZipScan.ItemErrorAborts | sesh/src/zip.rs:30-31 | The first failed item aborts the scan with that item's error (`Io` for a read failure, `Serde` for a decode failure). The callback has then received the records of the earlier entries plus the items of its own entry that came before it. |
| ZipScan.EventsOkIff | sesh/src/zip.rs:26-33 | The scan meets no error exactly when every entry is readable. |
| ZipScan.RecordsOfEvents | sesh/src/zip.rs:26-33 | The records met by the scan are the records of the history entries, in order. |
| ZipScan.StopsAtFailure | sesh/src/zip.rs:27-31 | After readable events, the first error decides the verdict, and only the records before it are forwarded. |
| ZipScan.VerdictPassIff | sesh/src/zip.rs:36 | The scan returns `Ok` exactly when it meets no error. |
| Cli.GetTrackInfo | sesh-cli/src/main.rs:19-26 | `Some` exactly when the record has both a track name and an album artist name, and then it holds copies of both. |
| Cli.Count | sesh-cli/src/main.rs:35-42 | A record with a track URI adds one play to that URI and no other, and replaces that URI's info when the record has a name and an artist; a record without one changes nothing. `TallyCounts` and `EpisodesIgnored` state what the fold of it over a whole scan gives. |
| Cli.TallyCounts | sesh-cli/src/main.rs:32-42 | After the callback has seen a sequence of records, the count map has a key exactly for each URI played at least once, with the number of its plays. The info map has a key exactly for each URI some play of which carried a name and an artist, with the info of the last such play. |
| Cli.InfoImpliesPlayed | sesh-cli/src/main.rs:36-40 | A URI with recorded info has been played at least once. |
| Cli.EpisodesIgnored | sesh-cli/src/main.rs:36 | A record without a track URI (a podcast episode) leaves both maps unchanged. |
| Cli.Collect | sesh-cli/src/main.rs:44 | The vector lists every entry of the count map exactly once, each with its own count. |
| Cli.SortByCount | sesh-cli/src/main.rs:45 | Afterwards the vector is in ascending order of count and is a permutation of the original. |
| Cli.PermutationKeeps | sesh-cli/src/main.rs:44-45 | A permutation of a vector that lists each map entry once with its count also lists each map entry once with its count. |
| Cli.TakeListed | sesh-cli/src/main.rs:50-54 | Walking the sorted vector from its end, keeping tracks with info and stopping after `n`, gives a top-`n` listing. |
| Cli.TopTracks | sesh-cli/src/main.rs:44-54 | The rows are a top-`n` listing. Each row is a track with info, shown with its own count and info. No track is listed twice. Counts do not increase down the listing. There are `min(n, tracks with info)` rows. No unlisted track with info has a count above any listed row. |
| Cli.TopSize | sesh-cli/src/main.rs:54 | A walk that stops at `n` rows, or earlier only after listing every track with info, has `min(n, tracks with info)` rows. |
| Cli.MostPlayed | sesh-cli/src/main.rs:28-54 | A failed scan yields its error. Otherwise the rows are a top-`n` listing of the tally of the forwarded records: each row's count is that URI's number of plays, and its info is the info of the URI's last play that had one. |

## Left out

- The JSON array iterator `iter_json_array` (declared by `mod json` at `sesh/src/lib.rs:11`) is not part of this model. Each entry's contents are given as the sequence of items it yields, each a decoded record or an error. JSON text, nested arrays and objects, and number syntax are not modelled.
- ZipScan.Item: the iterator's error type is not part of this model, so an item's error carries its kind (`ItemIo` for bytes that could not be read, `ItemSerde` for an element that did not decode) and `?` at `sesh/src/zip.rs:31` maps it to the matching `ReadZipError` variant. If the iterator reports every failure as one type, only one of the two kinds occurs.
- File I/O, paths, `BufReader` and the zip format are left out. The archive is given as the outcomes of `File::open`, `ZipArchive::new` and `by_index`, and the error values are reduced to their messages.
- Sesh.DecodeStream: the unknown-key check comes first. serde reports the first offending key in input order, and a JSON object here is a map with no order, so when several fields are wrong the model may pick a different error than serde does. Which objects are accepted is unaffected.
- Sesh.DecodeStream: duplicate keys in one JSON object are not modelled, because a map holds one value per key.
- Sesh.OfflineTimestamp: in a debug build, `ms * 1_000_000` panics on `i128` overflow. The model follows a release build and wraps (`WrapI128`).
- Sesh.Env: RFC 3339 parsing, IP address parsing and the exact bounds of `OffsetDateTime` are foreign code and are parameters. The RFC 3339 parser may return an instant with any UTC offset, which `ts` keeps; `offline_timestamp` is always in UTC, as in the source.
- Sesh.Playtime: `Duration` is a pair of whole seconds and sub-second nanoseconds.
- The `Error` enum at `sesh/src/lib.rs:13-16` is never constructed and is not modelled.
- Cli.Count: the per-track count is a `u32` in the source. The model uses unbounded naturals, so it does not model the overflow after 2^32 − 1 plays.
- Cli.Collect: `HashMap` iteration order is unspecified. The model picks any order, so the relative order of tracks with equal counts is left unspecified too. `sort_by_key` is stable, but that only keeps this arbitrary order.
- Cli.SortByCount: the source uses the standard library's stable sort. The model uses an insertion sort with the same ascending-order and permutation contract.
- Command-line parsing (`clap`, default `n = 100`), `TabWriter` formatting, the header line and writing to stdout are I/O and are not modelled. `Cli.MostPlayed` returns the rows that would be printed.
