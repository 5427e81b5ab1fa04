/** The listening-history record of `sesh/src/lib.rs`: the strict schema that
    serde derives for `Stream` (`deny_unknown_fields`, five required fields,
    fifteen `Option` fields and the custom `offline_timestamp` field), the
    zero-as-absent decoder of `offline_timestamp`, and `Stream::playtime`.

    An input object is a map from field name to a JSON value. The foreign
    parsers (RFC 3339 timestamps, IP addresses) and the date range accepted by
    `OffsetDateTime::from_unix_timestamp_nanos` are parameters (`Env`). */
module Sesh {
  import opened Wrappers

  /** A JSON value as a field decoder sees it. No field accepts a nested array
      or object, so their contents are not modelled; `Float` is any number
      literal with a fraction or exponent part (`1.0` and `1e2` included),
      which the integer fields reject. */
  datatype Json = Null | Bool(b: bool) | Int(i: int) | Float | Str(s: string) | Array | Object

  /** `time::OffsetDateTime`: an instant, in nanoseconds since the Unix epoch,
      and a UTC offset in seconds. */
  datatype OffsetDateTime = OffsetDateTime(unixNanos: int, offsetSeconds: int)

  /** `std::net::IpAddr`. */
  datatype IpAddr = V4(octets: seq<int>) | V6(segments: seq<int>)

  /** The collaborators the decoder delegates to: the RFC 3339 parser of the
      `time` crate, the `IpAddr` parser of the standard library, and the
      inclusive range of nanosecond counts that
      `OffsetDateTime::from_unix_timestamp_nanos` accepts. */
  datatype Env = Env(
    rfc3339: string -> Option<OffsetDateTime>,
    parseIp: string -> Option<IpAddr>,
    minNanos: int,
    maxNanos: int)

  const I128Min: int := -0x8000_0000_0000_0000_0000_0000_0000_0000
  const I128Max: int := 0x7fff_ffff_ffff_ffff_ffff_ffff_ffff_ffff
  const I128Modulus: int := 0x1_0000_0000_0000_0000_0000_0000_0000_0000
  /** The largest magnitude of milliseconds whose nanosecond count fits an `i128`. */
  const MaxExactMillis: int := I128Max / 1_000_000
  const U64Max: int := 0xffff_ffff_ffff_ffff

  type U64 = n: int | 0 <= n <= U64Max

  /** Why one field failed to decode (serde's `missing field`, `invalid type`
      and `invalid value` errors, the last also for parse and range failures). */
  datatype Reason = MissingField | InvalidType | InvalidValue

  /** A per-element decode error. */
  datatype DecodeError =
    | UnknownFields(names: set<string>)
    | FieldError(field: string, reason: Reason)

  /** One playback event: the `Stream` struct. */
  datatype Stream = Stream(
    ts: OffsetDateTime,
    username: string,
    platform: string,
    msPlayed: U64,
    connCountry: string,
    ipAddrDecrypted: Option<IpAddr>,
    userAgentDecrypted: Option<string>,
    masterMetadataTrackName: Option<string>,
    masterMetadataAlbumArtistName: Option<string>,
    masterMetadataAlbumAlbumName: Option<string>,
    spotifyTrackUri: Option<string>,
    episodeName: Option<string>,
    episodeShowName: Option<string>,
    spotifyEpisodeUri: Option<string>,
    reasonStart: Option<string>,
    reasonEnd: Option<string>,
    shuffle: Option<bool>,
    skipped: Option<bool>,
    offline: Option<bool>,
    offlineTimestamp: Option<OffsetDateTime>,
    incognitoMode: Option<bool>)

  /** The 21 field names of `Stream` as they appear on the wire. */
  const FieldNames: set<string> := {
    "ts", "username", "platform", "ms_played", "conn_country",
    "ip_addr_decrypted", "user_agent_decrypted",
    "master_metadata_track_name", "master_metadata_album_artist_name",
    "master_metadata_album_album_name", "spotify_track_uri",
    "episode_name", "episode_show_name", "spotify_episode_uri",
    "reason_start", "reason_end", "shuffle", "skipped", "offline",
    "offline_timestamp", "incognito_mode"
  }

  // ---------------------------------------------------------------------------
  // Decoders of single values (serde_json's impls for the field types)
  // ---------------------------------------------------------------------------

  function DecodeString(v: Json): Result<string, Reason> {
    if v.Str? then Success(v.s) else Failure(InvalidType)
  }

  function DecodeBool(v: Json): Result<bool, Reason> {
    if v.Bool? then Success(v.b) else Failure(InvalidType)
  }

  function DecodeU64(v: Json): Result<U64, Reason> {
    if !v.Int? then Failure(InvalidType)
    else if 0 <= v.i <= U64Max then Success(v.i)
    else Failure(InvalidValue)
  }

  function DecodeI128(v: Json): Result<int, Reason> {
    if !v.Int? then Failure(InvalidType)
    else if I128Min <= v.i <= I128Max then Success(v.i)
    else Failure(InvalidValue)
  }

  /** `#[serde(with = "time::serde::rfc3339")]`, with the parser of `env`. */
  function DecodeRfc3339(env: Env): Json -> Result<OffsetDateTime, Reason> {
    (v: Json) =>
      if !v.Str? then Failure(InvalidType)
      else match env.rfc3339(v.s)
        case Some(t) => Success(t)
        case None => Failure(InvalidValue)
  }

  /** `IpAddr`'s deserializer, with the parser of `env`. */
  function DecodeIp(env: Env): Json -> Result<IpAddr, Reason> {
    (v: Json) =>
      if !v.Str? then Failure(InvalidType)
      else match env.parseIp(v.s)
        case Some(a) => Success(a)
        case None => Failure(InvalidValue)
  }

  // ---------------------------------------------------------------------------
  // offline_timestamp_serde::deserialize
  // ---------------------------------------------------------------------------

  /** Two's-complement wrap-around of `i128` multiplication (the product at
      lib.rs:29 is unchecked in a release build). */
  function WrapI128(x: int): (r: int)
    ensures I128Min <= r <= I128Max
    ensures (r - x) % I128Modulus == 0
    ensures I128Min <= x <= I128Max ==> r == x
  {
    (x - I128Min) % I128Modulus + I128Min
  }

  /** Below this bound the product at lib.rs:29 does not overflow. */
  lemma MillisToNanosFits(ms: int)
    requires -MaxExactMillis <= ms <= MaxExactMillis
    ensures I128Min <= ms * 1_000_000 <= I128Max
  {
    assert MaxExactMillis == 170141183460469231731687303715884;
  }

  /** `OffsetDateTime::from_unix_timestamp_nanos`: the instant in UTC, or a
      range error outside the representable dates. */
  function FromUnixTimestampNanos(nanos: int, env: Env): Result<OffsetDateTime, Reason> {
    if env.minNanos <= nanos <= env.maxNanos then Success(OffsetDateTime(nanos, 0))
    else Failure(InvalidValue)
  }

  /** Milliseconds since the epoch, read as an `i128`; exactly 0 means "absent".
      Only 0 is the sentinel, a non-integer (`null` included) is an error, and
      an instant outside the date range is an error rather than a clamped value. */
  function OfflineTimestamp(v: Json, env: Env): (r: Result<Option<OffsetDateTime>, Reason>)
    ensures v == Int(0) <==> r == Success(None)
    ensures !v.Int? ==> r == Failure(InvalidType)
    ensures v.Int? && v.i != 0 && -MaxExactMillis <= v.i <= MaxExactMillis ==>
      (r.Success? <==> env.minNanos <= v.i * 1_000_000 <= env.maxNanos) &&
      (r.Success? ==> r.value == Some(OffsetDateTime(v.i * 1_000_000, 0)))
  {
    var ms :- DecodeI128(v);
    if ms == 0 then Success(None)
    else
      assert -MaxExactMillis <= ms <= MaxExactMillis ==> WrapI128(ms * 1_000_000) == ms * 1_000_000 by {
        if -MaxExactMillis <= ms <= MaxExactMillis { MillisToNanosFits(ms); }
      }
      match FromUnixTimestampNanos(WrapI128(ms * 1_000_000), env)
      case Success(t) => Success(Some(t))
      case Failure(e) => Failure(e)
  }

  /** `#[serde(with = "offline_timestamp_serde")]`. */
  function DecodeOfflineTimestamp(env: Env): Json -> Result<Option<OffsetDateTime>, Reason> {
    (v: Json) => OfflineTimestamp(v, env)
  }

  // ---------------------------------------------------------------------------
  // The derived `Deserialize` for `Stream`
  // ---------------------------------------------------------------------------

  /** A field whose type is not an `Option`: absence is a `missing field` error. */
  function Required<T>(obj: map<string, Json>, name: string, decode: Json -> Result<T, Reason>): Result<T, DecodeError> {
    if name !in obj then Failure(FieldError(name, MissingField))
    else match decode(obj[name])
      case Success(x) => Success(x)
      case Failure(e) => Failure(FieldError(name, e))
  }

  /** An `Option` field: absent and `null` both give `None`. */
  function Optional<T>(obj: map<string, Json>, name: string, decode: Json -> Result<T, Reason>): Result<Option<T>, DecodeError> {
    if name !in obj || obj[name].Null? then Success(None)
    else match decode(obj[name])
      case Success(x) => Success(Some(x))
      case Failure(e) => Failure(FieldError(name, e))
  }

  /** Decodes one JSON object into a `Stream`. Unknown keys are checked first;
      every other field is then decoded in declaration order. A decoded object
      has no unknown key, has every mandatory field, and its plain fields are
      copied; `DecodeStreamIff` and `DecodedFields` give the whole story. */
  function DecodeStream(obj: map<string, Json>, env: Env): (r: Result<Stream, DecodeError>)
    ensures r.Success? ==> obj.Keys <= FieldNames
    ensures r.Success? ==>
      && "ts" in obj && "username" in obj && "platform" in obj
      && "ms_played" in obj && "conn_country" in obj && "offline_timestamp" in obj
    ensures r.Success? ==>
      && obj["username"] == Str(r.value.username)
      && obj["platform"] == Str(r.value.platform)
      && obj["ms_played"] == Int(r.value.msPlayed)
      && obj["conn_country"] == Str(r.value.connCountry)
  {
    if !(obj.Keys <= FieldNames) then Failure(UnknownFields(obj.Keys - FieldNames))
    else
      var ts :- Required(obj, "ts", DecodeRfc3339(env));
      var username :- Required(obj, "username", DecodeString);
      var platform :- Required(obj, "platform", DecodeString);
      var msPlayed :- Required(obj, "ms_played", DecodeU64);
      var connCountry :- Required(obj, "conn_country", DecodeString);
      var ipAddr :- Optional(obj, "ip_addr_decrypted", DecodeIp(env));
      var userAgent :- Optional(obj, "user_agent_decrypted", DecodeString);
      var trackName :- Optional(obj, "master_metadata_track_name", DecodeString);
      var artistName :- Optional(obj, "master_metadata_album_artist_name", DecodeString);
      var albumName :- Optional(obj, "master_metadata_album_album_name", DecodeString);
      var trackUri :- Optional(obj, "spotify_track_uri", DecodeString);
      var episodeName :- Optional(obj, "episode_name", DecodeString);
      var showName :- Optional(obj, "episode_show_name", DecodeString);
      var episodeUri :- Optional(obj, "spotify_episode_uri", DecodeString);
      var reasonStart :- Optional(obj, "reason_start", DecodeString);
      var reasonEnd :- Optional(obj, "reason_end", DecodeString);
      var shuffle :- Optional(obj, "shuffle", DecodeBool);
      var skipped :- Optional(obj, "skipped", DecodeBool);
      var offline :- Optional(obj, "offline", DecodeBool);
      var offlineTimestamp :- Required(obj, "offline_timestamp", DecodeOfflineTimestamp(env));
      var incognito :- Optional(obj, "incognito_mode", DecodeBool);
      Success(Stream(ts, username, platform, msPlayed, connCountry, ipAddr, userAgent,
                     trackName, artistName, albumName, trackUri, episodeName, showName,
                     episodeUri, reasonStart, reasonEnd, shuffle, skipped, offline,
                     offlineTimestamp, incognito))
  }

  // ---------------------------------------------------------------------------
  // The schema as a table, and what the decoder accepts in its terms
  // ---------------------------------------------------------------------------

  datatype FieldType = Rfc3339 | Text | Unsigned64 | Ip | Flag | OfflineMillis

  /** `Mandatory`: the key must be present (a plain field, or one with a custom
      `with` deserializer). `Nullable`: an `Option` field, where an absent key
      and `null` both mean `None`. */
  datatype Presence = Mandatory | Nullable

  datatype FieldSpec = FieldSpec(ty: FieldType, presence: Presence)

  /** The declared fields of `Stream`, in declaration order. */
  datatype Field =
    | Ts
    | Username
    | Platform
    | MsPlayed
    | ConnCountry
    | IpAddrDecrypted
    | UserAgentDecrypted
    | MasterMetadataTrackName
    | MasterMetadataAlbumArtistName
    | MasterMetadataAlbumAlbumName
    | SpotifyTrackUri
    | EpisodeName
    | EpisodeShowName
    | SpotifyEpisodeUri
    | ReasonStart
    | ReasonEnd
    | Shuffle
    | Skipped
    | Offline
    | OfflineTimestampField
    | IncognitoMode

  function WireName(f: Field): string {
    match f
    case Ts => "ts"
    case Username => "username"
    case Platform => "platform"
    case MsPlayed => "ms_played"
    case ConnCountry => "conn_country"
    case IpAddrDecrypted => "ip_addr_decrypted"
    case UserAgentDecrypted => "user_agent_decrypted"
    case MasterMetadataTrackName => "master_metadata_track_name"
    case MasterMetadataAlbumArtistName => "master_metadata_album_artist_name"
    case MasterMetadataAlbumAlbumName => "master_metadata_album_album_name"
    case SpotifyTrackUri => "spotify_track_uri"
    case EpisodeName => "episode_name"
    case EpisodeShowName => "episode_show_name"
    case SpotifyEpisodeUri => "spotify_episode_uri"
    case ReasonStart => "reason_start"
    case ReasonEnd => "reason_end"
    case Shuffle => "shuffle"
    case Skipped => "skipped"
    case Offline => "offline"
    case OfflineTimestampField => "offline_timestamp"
    case IncognitoMode => "incognito_mode"
  }

  /** The declared type and presence of each field of `Stream`. */
  function SchemaOf(f: Field): FieldSpec {
    match f
    case Ts => FieldSpec(Rfc3339, Mandatory)
    case Username => FieldSpec(Text, Mandatory)
    case Platform => FieldSpec(Text, Mandatory)
    case MsPlayed => FieldSpec(Unsigned64, Mandatory)
    case ConnCountry => FieldSpec(Text, Mandatory)
    case IpAddrDecrypted => FieldSpec(Ip, Nullable)
    case UserAgentDecrypted => FieldSpec(Text, Nullable)
    case MasterMetadataTrackName => FieldSpec(Text, Nullable)
    case MasterMetadataAlbumArtistName => FieldSpec(Text, Nullable)
    case MasterMetadataAlbumAlbumName => FieldSpec(Text, Nullable)
    case SpotifyTrackUri => FieldSpec(Text, Nullable)
    case EpisodeName => FieldSpec(Text, Nullable)
    case EpisodeShowName => FieldSpec(Text, Nullable)
    case SpotifyEpisodeUri => FieldSpec(Text, Nullable)
    case ReasonStart => FieldSpec(Text, Nullable)
    case ReasonEnd => FieldSpec(Text, Nullable)
    case Shuffle => FieldSpec(Flag, Nullable)
    case Skipped => FieldSpec(Flag, Nullable)
    case Offline => FieldSpec(Flag, Nullable)
    case OfflineTimestampField => FieldSpec(OfflineMillis, Mandatory)
    case IncognitoMode => FieldSpec(Flag, Nullable)
  }

  /** The JSON values a field of the given type accepts. */
  ghost predicate Fits(ty: FieldType, v: Json, env: Env) {
    match ty
    case Rfc3339 => v.Str? && env.rfc3339(v.s).Some?
    case Text => v.Str?
    case Unsigned64 => v.Int? && 0 <= v.i <= U64Max
    case Ip => v.Str? && env.parseIp(v.s).Some?
    case Flag => v.Bool?
    case OfflineMillis =>
      v.Int? && I128Min <= v.i <= I128Max &&
      (v.i == 0 || env.minNanos <= WrapI128(v.i * 1_000_000) <= env.maxNanos)
  }

  ghost predicate Accepts(spec: FieldSpec, v: Json, env: Env) {
    (spec.presence == Nullable && v.Null?) || Fits(spec.ty, v, env)
  }

  /** One declared field is acceptable: present with an acceptable value, or
      absent and nullable. */
  ghost predicate FieldOk(obj: map<string, Json>, f: Field, env: Env) {
    if WireName(f) in obj then Accepts(SchemaOf(f), obj[WireName(f)], env)
    else SchemaOf(f).presence == Nullable
  }

  /** An object that the strict schema accepts: no unknown key, and every
      declared field acceptable. */
  ghost predicate Conforms(obj: map<string, Json>, env: Env) {
    && obj.Keys <= FieldNames
    && (forall f: Field :: FieldOk(obj, f, env))
  }

  // ---------------------------------------------------------------------------
  // What the decoder accepts
  // ---------------------------------------------------------------------------

  lemma Rfc3339Iff(obj: map<string, Json>, f: Field, env: Env)
    requires SchemaOf(f) == FieldSpec(Rfc3339, Mandatory)
    ensures Required(obj, WireName(f), DecodeRfc3339(env)).Success? <==> FieldOk(obj, f, env)
  {
  }

  lemma TextIff(obj: map<string, Json>, f: Field, env: Env)
    requires SchemaOf(f) == FieldSpec(Text, Mandatory)
    ensures Required(obj, WireName(f), DecodeString).Success? <==> FieldOk(obj, f, env)
  {
  }

  lemma Unsigned64Iff(obj: map<string, Json>, f: Field, env: Env)
    requires SchemaOf(f) == FieldSpec(Unsigned64, Mandatory)
    ensures Required(obj, WireName(f), DecodeU64).Success? <==> FieldOk(obj, f, env)
  {
  }

  lemma OfflineMillisIff(obj: map<string, Json>, f: Field, env: Env)
    requires SchemaOf(f) == FieldSpec(OfflineMillis, Mandatory)
    ensures Required(obj, WireName(f), DecodeOfflineTimestamp(env)).Success? <==> FieldOk(obj, f, env)
  {
  }

  lemma OptionalTextIff(obj: map<string, Json>, f: Field, env: Env)
    requires SchemaOf(f) == FieldSpec(Text, Nullable)
    ensures Optional(obj, WireName(f), DecodeString).Success? <==> FieldOk(obj, f, env)
  {
  }

  lemma OptionalIpIff(obj: map<string, Json>, f: Field, env: Env)
    requires SchemaOf(f) == FieldSpec(Ip, Nullable)
    ensures Optional(obj, WireName(f), DecodeIp(env)).Success? <==> FieldOk(obj, f, env)
  {
  }

  lemma OptionalFlagIff(obj: map<string, Json>, f: Field, env: Env)
    requires SchemaOf(f) == FieldSpec(Flag, Nullable)
    ensures Optional(obj, WireName(f), DecodeBool).Success? <==> FieldOk(obj, f, env)
  {
  }

  /** Step `f` of `DecodeStream` succeeds. */
  ghost predicate StepOk(obj: map<string, Json>, f: Field, env: Env) {
    match f
    case Ts => Required(obj, "ts", DecodeRfc3339(env)).Success?
    case Username => Required(obj, "username", DecodeString).Success?
    case Platform => Required(obj, "platform", DecodeString).Success?
    case MsPlayed => Required(obj, "ms_played", DecodeU64).Success?
    case ConnCountry => Required(obj, "conn_country", DecodeString).Success?
    case IpAddrDecrypted => Optional(obj, "ip_addr_decrypted", DecodeIp(env)).Success?
    case UserAgentDecrypted => Optional(obj, "user_agent_decrypted", DecodeString).Success?
    case MasterMetadataTrackName => Optional(obj, "master_metadata_track_name", DecodeString).Success?
    case MasterMetadataAlbumArtistName => Optional(obj, "master_metadata_album_artist_name", DecodeString).Success?
    case MasterMetadataAlbumAlbumName => Optional(obj, "master_metadata_album_album_name", DecodeString).Success?
    case SpotifyTrackUri => Optional(obj, "spotify_track_uri", DecodeString).Success?
    case EpisodeName => Optional(obj, "episode_name", DecodeString).Success?
    case EpisodeShowName => Optional(obj, "episode_show_name", DecodeString).Success?
    case SpotifyEpisodeUri => Optional(obj, "spotify_episode_uri", DecodeString).Success?
    case ReasonStart => Optional(obj, "reason_start", DecodeString).Success?
    case ReasonEnd => Optional(obj, "reason_end", DecodeString).Success?
    case Shuffle => Optional(obj, "shuffle", DecodeBool).Success?
    case Skipped => Optional(obj, "skipped", DecodeBool).Success?
    case Offline => Optional(obj, "offline", DecodeBool).Success?
    case OfflineTimestampField => Required(obj, "offline_timestamp", DecodeOfflineTimestamp(env)).Success?
    case IncognitoMode => Optional(obj, "incognito_mode", DecodeBool).Success?
  }

  lemma StepOkIff(obj: map<string, Json>, f: Field, env: Env)
    ensures StepOk(obj, f, env) <==> FieldOk(obj, f, env)
  {
    match f
    case Ts => Rfc3339Iff(obj, Ts, env);
    case Username => TextIff(obj, Username, env);
    case Platform => TextIff(obj, Platform, env);
    case MsPlayed => Unsigned64Iff(obj, MsPlayed, env);
    case ConnCountry => TextIff(obj, ConnCountry, env);
    case IpAddrDecrypted => OptionalIpIff(obj, IpAddrDecrypted, env);
    case UserAgentDecrypted => OptionalTextIff(obj, UserAgentDecrypted, env);
    case MasterMetadataTrackName => OptionalTextIff(obj, MasterMetadataTrackName, env);
    case MasterMetadataAlbumArtistName => OptionalTextIff(obj, MasterMetadataAlbumArtistName, env);
    case MasterMetadataAlbumAlbumName => OptionalTextIff(obj, MasterMetadataAlbumAlbumName, env);
    case SpotifyTrackUri => OptionalTextIff(obj, SpotifyTrackUri, env);
    case EpisodeName => OptionalTextIff(obj, EpisodeName, env);
    case EpisodeShowName => OptionalTextIff(obj, EpisodeShowName, env);
    case SpotifyEpisodeUri => OptionalTextIff(obj, SpotifyEpisodeUri, env);
    case ReasonStart => OptionalTextIff(obj, ReasonStart, env);
    case ReasonEnd => OptionalTextIff(obj, ReasonEnd, env);
    case Shuffle => OptionalFlagIff(obj, Shuffle, env);
    case Skipped => OptionalFlagIff(obj, Skipped, env);
    case Offline => OptionalFlagIff(obj, Offline, env);
    case OfflineTimestampField => OfflineMillisIff(obj, OfflineTimestampField, env);
    case IncognitoMode => OptionalFlagIff(obj, IncognitoMode, env);
  }

  lemma DecodeStreamChain(obj: map<string, Json>, env: Env)
    ensures DecodeStream(obj, env).Success? <==> obj.Keys <= FieldNames && StepsSucceed(obj, env)
  {
  }

  /** Every step of `DecodeStream` after the unknown-key check succeeds
      (grouped five fields or four at a time). */
  ghost predicate StepsSucceed(obj: map<string, Json>, env: Env) {
    && RequiredStepsSucceed(obj, env)
    && ClientStepsSucceed(obj, env)
    && MetadataStepsSucceed(obj, env)
    && EpisodeStepsSucceed(obj, env)
    && FlagStepsSucceed(obj, env)
  }

  ghost predicate RequiredStepsSucceed(obj: map<string, Json>, env: Env) {
    && Required(obj, "ts", DecodeRfc3339(env)).Success?
    && Required(obj, "username", DecodeString).Success?
    && Required(obj, "platform", DecodeString).Success?
    && Required(obj, "ms_played", DecodeU64).Success?
    && Required(obj, "conn_country", DecodeString).Success?
  }

  ghost predicate ClientStepsSucceed(obj: map<string, Json>, env: Env) {
    && Optional(obj, "ip_addr_decrypted", DecodeIp(env)).Success?
    && Optional(obj, "user_agent_decrypted", DecodeString).Success?
    && Optional(obj, "master_metadata_track_name", DecodeString).Success?
    && Optional(obj, "master_metadata_album_artist_name", DecodeString).Success?
  }

  ghost predicate MetadataStepsSucceed(obj: map<string, Json>, env: Env) {
    && Optional(obj, "master_metadata_album_album_name", DecodeString).Success?
    && Optional(obj, "spotify_track_uri", DecodeString).Success?
    && Optional(obj, "episode_name", DecodeString).Success?
    && Optional(obj, "episode_show_name", DecodeString).Success?
  }

  ghost predicate EpisodeStepsSucceed(obj: map<string, Json>, env: Env) {
    && Optional(obj, "spotify_episode_uri", DecodeString).Success?
    && Optional(obj, "reason_start", DecodeString).Success?
    && Optional(obj, "reason_end", DecodeString).Success?
    && Optional(obj, "shuffle", DecodeBool).Success?
  }

  ghost predicate FlagStepsSucceed(obj: map<string, Json>, env: Env) {
    && Optional(obj, "skipped", DecodeBool).Success?
    && Optional(obj, "offline", DecodeBool).Success?
    && Required(obj, "offline_timestamp", DecodeOfflineTimestamp(env)).Success?
    && Optional(obj, "incognito_mode", DecodeBool).Success?
  }

  lemma EveryStep(obj: map<string, Json>, env: Env)
    ensures StepsSucceed(obj, env) <==> forall f: Field :: StepOk(obj, f, env)
  {
    EveryStepFrom(obj, env);
    EveryStepTo(obj, env);
  }

  lemma EveryStepFrom(obj: map<string, Json>, env: Env)
    ensures StepsSucceed(obj, env) ==> forall f: Field :: StepOk(obj, f, env)
  {
    if StepsSucceed(obj, env) {
      forall f: Field ensures StepOk(obj, f, env) {
        match f
        case Ts =>
        case Username =>
        case Platform =>
        case MsPlayed =>
        case ConnCountry =>
        case IpAddrDecrypted =>
        case UserAgentDecrypted =>
        case MasterMetadataTrackName =>
        case MasterMetadataAlbumArtistName =>
        case MasterMetadataAlbumAlbumName =>
        case SpotifyTrackUri =>
        case EpisodeName =>
        case EpisodeShowName =>
        case SpotifyEpisodeUri =>
        case ReasonStart =>
        case ReasonEnd =>
        case Shuffle =>
        case Skipped =>
        case Offline =>
        case OfflineTimestampField =>
        case IncognitoMode =>
      }
    }
  }

  lemma EveryStepTo(obj: map<string, Json>, env: Env)
    ensures (forall f: Field :: StepOk(obj, f, env)) ==> StepsSucceed(obj, env)
  {
    if forall f: Field :: StepOk(obj, f, env) {
      RequiredStepsFrom(obj, env);
      ClientStepsFrom(obj, env);
      MetadataStepsFrom(obj, env);
      EpisodeStepsFrom(obj, env);
      FlagStepsFrom(obj, env);
    }
  }

  lemma RequiredStepsFrom(obj: map<string, Json>, env: Env)
    requires forall f: Field :: StepOk(obj, f, env)
    ensures RequiredStepsSucceed(obj, env)
  {
    assert StepOk(obj, Ts, env);
    assert StepOk(obj, Username, env);
    assert StepOk(obj, Platform, env);
    assert StepOk(obj, MsPlayed, env);
    assert StepOk(obj, ConnCountry, env);
  }

  lemma ClientStepsFrom(obj: map<string, Json>, env: Env)
    requires forall f: Field :: StepOk(obj, f, env)
    ensures ClientStepsSucceed(obj, env)
  {
    assert StepOk(obj, IpAddrDecrypted, env);
    assert StepOk(obj, UserAgentDecrypted, env);
    assert StepOk(obj, MasterMetadataTrackName, env);
    assert StepOk(obj, MasterMetadataAlbumArtistName, env);
  }

  lemma MetadataStepsFrom(obj: map<string, Json>, env: Env)
    requires forall f: Field :: StepOk(obj, f, env)
    ensures MetadataStepsSucceed(obj, env)
  {
    assert StepOk(obj, MasterMetadataAlbumAlbumName, env);
    assert StepOk(obj, SpotifyTrackUri, env);
    assert StepOk(obj, EpisodeName, env);
    assert StepOk(obj, EpisodeShowName, env);
  }

  lemma EpisodeStepsFrom(obj: map<string, Json>, env: Env)
    requires forall f: Field :: StepOk(obj, f, env)
    ensures EpisodeStepsSucceed(obj, env)
  {
    assert StepOk(obj, SpotifyEpisodeUri, env);
    assert StepOk(obj, ReasonStart, env);
    assert StepOk(obj, ReasonEnd, env);
    assert StepOk(obj, Shuffle, env);
  }

  lemma FlagStepsFrom(obj: map<string, Json>, env: Env)
    requires forall f: Field :: StepOk(obj, f, env)
    ensures FlagStepsSucceed(obj, env)
  {
    assert StepOk(obj, Skipped, env);
    assert StepOk(obj, Offline, env);
    assert StepOk(obj, OfflineTimestampField, env);
    assert StepOk(obj, IncognitoMode, env);
  }

  /** The derived decoder accepts exactly the objects the schema table allows. */
  lemma DecodeStreamIff(obj: map<string, Json>, env: Env)
    ensures DecodeStream(obj, env).Success? <==> Conforms(obj, env)
  {
    DecodeStreamChain(obj, env);
    EveryStep(obj, env);
    forall f: Field ensures StepOk(obj, f, env) <==> FieldOk(obj, f, env) {
      StepOkIff(obj, f, env);
    }
  }
  /** An unknown key makes the whole element fail (`deny_unknown_fields`). */
  lemma UnknownKeyRejected(obj: map<string, Json>, env: Env, key: string)
    requires key in obj && key !in FieldNames
    ensures DecodeStream(obj, env).Failure?
  {
    DecodeStreamIff(obj, env);
  }

  /** A missing `ts`, `username`, `platform`, `ms_played`, `conn_country` or
      `offline_timestamp` makes the element fail. */
  lemma MissingMandatoryRejected(obj: map<string, Json>, env: Env, f: Field)
    requires SchemaOf(f).presence == Mandatory && WireName(f) !in obj
    ensures DecodeStream(obj, env).Failure?
  {
    DecodeStreamIff(obj, env);
    assert !FieldOk(obj, f, env);
  }

  /** `offline_timestamp` is effectively required: absent or `null`, the
      element fails instead of decoding to `None`. */
  lemma OfflineTimestampNotOptional(obj: map<string, Json>, env: Env)
    requires "offline_timestamp" !in obj || obj["offline_timestamp"].Null?
    ensures DecodeStream(obj, env).Failure?
  {
    DecodeStreamIff(obj, env);
    assert !FieldOk(obj, OfflineTimestampField, env);
  }

  // ---------------------------------------------------------------------------
  // What an accepted object decodes to
  // ---------------------------------------------------------------------------

  /** The value of an `Option<String>` field of an accepted object. */
  ghost function TextOrNone(obj: map<string, Json>, name: string): Option<string> {
    if name in obj && obj[name].Str? then Some(obj[name].s) else None
  }

  /** The value of an `Option<bool>` field of an accepted object. */
  ghost function FlagOrNone(obj: map<string, Json>, name: string): Option<bool> {
    if name in obj && obj[name].Bool? then Some(obj[name].b) else None
  }

  /** The value of the `Option<IpAddr>` field of an accepted object. */
  ghost function IpOrNone(obj: map<string, Json>, name: string, env: Env): Option<IpAddr> {
    if name in obj && obj[name].Str? then env.parseIp(obj[name].s) else None
  }

  lemma RequiredValue<T>(obj: map<string, Json>, name: string, decode: Json -> Result<T, Reason>)
    requires Required(obj, name, decode).Success?
    ensures name in obj && decode(obj[name]) == Success(Required(obj, name, decode).value)
  {
  }

  lemma OptionalTextValue(obj: map<string, Json>, name: string)
    requires Optional(obj, name, DecodeString).Success?
    ensures Optional(obj, name, DecodeString).value == TextOrNone(obj, name)
  {
  }

  lemma OptionalFlagValue(obj: map<string, Json>, name: string)
    requires Optional(obj, name, DecodeBool).Success?
    ensures Optional(obj, name, DecodeBool).value == FlagOrNone(obj, name)
  {
  }

  lemma OptionalIpValue(obj: map<string, Json>, name: string, env: Env)
    requires Optional(obj, name, DecodeIp(env)).Success?
    ensures Optional(obj, name, DecodeIp(env)).value == IpOrNone(obj, name, env)
  {
  }

  /** Each field of the decoded record is the value of its step. */
  lemma DecodedFromSteps(obj: map<string, Json>, env: Env)
    requires DecodeStream(obj, env).Success?
    ensures var r := DecodeStream(obj, env).value;
      && r.ts == Required(obj, "ts", DecodeRfc3339(env)).value
      && r.username == Required(obj, "username", DecodeString).value
      && r.platform == Required(obj, "platform", DecodeString).value
      && r.msPlayed == Required(obj, "ms_played", DecodeU64).value
      && r.connCountry == Required(obj, "conn_country", DecodeString).value
      && r.ipAddrDecrypted == Optional(obj, "ip_addr_decrypted", DecodeIp(env)).value
      && r.userAgentDecrypted == Optional(obj, "user_agent_decrypted", DecodeString).value
      && r.masterMetadataTrackName == Optional(obj, "master_metadata_track_name", DecodeString).value
      && r.masterMetadataAlbumArtistName == Optional(obj, "master_metadata_album_artist_name", DecodeString).value
      && r.masterMetadataAlbumAlbumName == Optional(obj, "master_metadata_album_album_name", DecodeString).value
      && r.spotifyTrackUri == Optional(obj, "spotify_track_uri", DecodeString).value
      && r.episodeName == Optional(obj, "episode_name", DecodeString).value
      && r.episodeShowName == Optional(obj, "episode_show_name", DecodeString).value
      && r.spotifyEpisodeUri == Optional(obj, "spotify_episode_uri", DecodeString).value
      && r.reasonStart == Optional(obj, "reason_start", DecodeString).value
      && r.reasonEnd == Optional(obj, "reason_end", DecodeString).value
      && r.shuffle == Optional(obj, "shuffle", DecodeBool).value
      && r.skipped == Optional(obj, "skipped", DecodeBool).value
      && r.offline == Optional(obj, "offline", DecodeBool).value
      && r.offlineTimestamp == Required(obj, "offline_timestamp", DecodeOfflineTimestamp(env)).value
      && r.incognitoMode == Optional(obj, "incognito_mode", DecodeBool).value
  {
  }

  /** An accepted object decodes to its own values: required fields are copied,
      an absent or `null` `Option` field is `None`, a present one is `Some` of
      its value, and `offline_timestamp` goes through the sentinel decoder. */
  lemma DecodedFields(obj: map<string, Json>, env: Env)
    requires DecodeStream(obj, env).Success?
    ensures var r := DecodeStream(obj, env).value;
      && "ts" in obj && obj["ts"].Str? && env.rfc3339(obj["ts"].s) == Some(r.ts)
      && "username" in obj && obj["username"] == Str(r.username)
      && "platform" in obj && obj["platform"] == Str(r.platform)
      && "ms_played" in obj && obj["ms_played"] == Int(r.msPlayed)
      && "conn_country" in obj && obj["conn_country"] == Str(r.connCountry)
      && "offline_timestamp" in obj && OfflineTimestamp(obj["offline_timestamp"], env) == Success(r.offlineTimestamp)
      && r.ipAddrDecrypted == IpOrNone(obj, "ip_addr_decrypted", env)
      && r.userAgentDecrypted == TextOrNone(obj, "user_agent_decrypted")
      && r.masterMetadataTrackName == TextOrNone(obj, "master_metadata_track_name")
      && r.masterMetadataAlbumArtistName == TextOrNone(obj, "master_metadata_album_artist_name")
      && r.masterMetadataAlbumAlbumName == TextOrNone(obj, "master_metadata_album_album_name")
      && r.spotifyTrackUri == TextOrNone(obj, "spotify_track_uri")
      && r.episodeName == TextOrNone(obj, "episode_name")
      && r.episodeShowName == TextOrNone(obj, "episode_show_name")
      && r.spotifyEpisodeUri == TextOrNone(obj, "spotify_episode_uri")
      && r.reasonStart == TextOrNone(obj, "reason_start")
      && r.reasonEnd == TextOrNone(obj, "reason_end")
      && r.shuffle == FlagOrNone(obj, "shuffle")
      && r.skipped == FlagOrNone(obj, "skipped")
      && r.offline == FlagOrNone(obj, "offline")
      && r.incognitoMode == FlagOrNone(obj, "incognito_mode")
  {
    DecodedFromSteps(obj, env);
    RequiredValue(obj, "ts", DecodeRfc3339(env));
    RequiredValue(obj, "username", DecodeString);
    RequiredValue(obj, "platform", DecodeString);
    RequiredValue(obj, "ms_played", DecodeU64);
    RequiredValue(obj, "conn_country", DecodeString);
    RequiredValue(obj, "offline_timestamp", DecodeOfflineTimestamp(env));
    OptionalIpValue(obj, "ip_addr_decrypted", env);
    OptionalTextValue(obj, "user_agent_decrypted");
    OptionalTextValue(obj, "master_metadata_track_name");
    OptionalTextValue(obj, "master_metadata_album_artist_name");
    OptionalTextValue(obj, "master_metadata_album_album_name");
    OptionalTextValue(obj, "spotify_track_uri");
    OptionalTextValue(obj, "episode_name");
    OptionalTextValue(obj, "episode_show_name");
    OptionalTextValue(obj, "spotify_episode_uri");
    OptionalTextValue(obj, "reason_start");
    OptionalTextValue(obj, "reason_end");
    OptionalFlagValue(obj, "shuffle");
    OptionalFlagValue(obj, "skipped");
    OptionalFlagValue(obj, "offline");
    OptionalFlagValue(obj, "incognito_mode");
  }

  // ---------------------------------------------------------------------------
  // Stream::playtime
  // ---------------------------------------------------------------------------

  /** `std::time::Duration`: whole seconds and a sub-second nanosecond part. */
  datatype Duration = Duration(secs: nat, nanos: nat)

  const NanosPerSec: nat := 1_000_000_000

  /** `Duration::from_millis(ms_played)`: a canonical duration (nanoseconds
      below one second) of exactly `ms_played` milliseconds. */
  function Playtime(s: Stream): (d: Duration)
    ensures d.nanos < NanosPerSec
    ensures d.secs * NanosPerSec + d.nanos == s.msPlayed * 1_000_000
  {
    Duration(s.msPlayed / 1000, (s.msPlayed % 1000) * 1_000_000)
  }

  /** The canonical duration of a given length is unique, so `Playtime` is the
      only duration of `ms_played` milliseconds with nanoseconds below 10^9. */
  lemma {:induction false} PlaytimeUnique(s: Stream, d: Duration)
    requires d.nanos < NanosPerSec
    requires d.secs * NanosPerSec + d.nanos == s.msPlayed * 1_000_000
    ensures d == Playtime(s)
  {
  }
}
