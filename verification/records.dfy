/** The values the Last.fm client passes around: errors, and the records a
    decoded response page carries. Field renaming, empty-string-as-absent and
    the loose boolean and timestamp decoding are done by the JSON decoder, so
    here every record is already in its decoded form. */
module Records {

  datatype Option<+T> = None | Some(value: T)

  /** The client's errors. `AuthError` and `RequestError` are the client's own;
      `TransportError` stands for an HTTP or JSON error that `authenticate`
      passes on unchanged to its caller. */
  datatype Error = AuthError | RequestError | TransportError

  /** What an operation without a value returns. */
  datatype Outcome = Pass | Fail(error: Error)

  /** A point in time: the display string and the seconds since the Unix epoch. */
  datatype Date = Date(prettyString: string, datetime: int)

  datatype ImageSize = Small | Medium | Large | ExtraLarge

  datatype Image = Image(url: Option<string>, size: ImageSize)

  datatype Artist = Artist(name: string, mbid: Option<string>)

  datatype Album = Album(name: string, mbid: Option<string>)

  datatype TrackAttributes = TrackAttributes(nowPlaying: bool)

  /** One entry of the scrobble history. */
  datatype Track = Track(
    attributes: Option<TrackAttributes>,
    artist: Artist,
    album: Option<Album>,
    name: string,
    image: seq<Image>,
    date: Option<Date>,
    url: string,
    mbid: Option<string>)

  /** The `@attr` block of every paginated response. */
  datatype RequestAttributes = RequestAttributes(
    page: nat,
    perPage: nat,
    total: nat,
    totalPages: nat,
    username: string)

  datatype RecentTracks = RecentTracks(attributes: RequestAttributes, tracks: seq<Track>)

  datatype RecentTracksResponse = RecentTracksResponse(recentTracks: RecentTracks)

  datatype LovedArtist = LovedArtist(name: string, mbid: Option<string>)

  /** One loved track: a track without an album. */
  datatype LovedTrack = LovedTrack(
    attributes: Option<TrackAttributes>,
    artist: LovedArtist,
    name: string,
    image: seq<Image>,
    date: Option<Date>,
    url: string,
    mbid: Option<string>)

  datatype LovedTracks = LovedTracks(attributes: RequestAttributes, tracks: seq<LovedTrack>)

  datatype LovedTracksResponse = LovedTracksResponse(lovedTracks: LovedTracks)

  datatype RegisterDate = RegisterDate(prettyString: string, datetime: int)

  datatype Friend = Friend(
    name: string,
    image: seq<Image>,
    country: string,
    url: string,
    subscriber: bool,
    realName: Option<string>,
    registered: RegisterDate)

  datatype Friends = Friends(attributes: RequestAttributes, friends: seq<Friend>)

  datatype FriendsResponse = FriendsResponse(friends: Friends)
}
