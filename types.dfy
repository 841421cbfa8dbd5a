/** The console's records and enumerations (src/types/index.ts): values only, no behaviour. */
module Types {

  datatype Option<+T> = None | Some(value: T)

  datatype Role = ADMIN | CLIENT

  /** The twelve platforms a video can come from. */
  datatype VideoSource =
    | YOUTUBE | VIMEO | FACEBOOK | SOUNDCLOUD | STREAMABLE | WISTIA
    | TWITCH | DAILYMOTION | MIXCLOUD | VIDYARD | KALTURA | FILE

  /** The four screen arrangements a layout can have. */
  datatype LayoutType = FULLSCREEN | SPLIT_HORIZONTAL | SPLIT_VERTICAL | PIP

  datatype User = User(
    id: string,
    email: Option<string>,
    loginId: Option<string>,
    role: Role,
    name: Option<string>,
    createdAt: string,
    updatedAt: string)

  /** A video; `duration` is in seconds when the backend knows it. */
  datatype Video = Video(
    id: string,
    url: string,
    title: string,
    duration: Option<real>,
    thumbnail: Option<string>,
    source: VideoSource,
    createdAt: string,
    updatedAt: string)

  /**
   * A playlist. `videoIds` is the serialised order list kept by the backend;
   * `videos` is the list of videos the backend resolves from it, when it does.
   */
  datatype Sequence = Sequence(
    id: string,
    name: string,
    description: Option<string>,
    videoIds: string,
    isActive: bool,
    startDate: Option<string>,
    endDate: Option<string>,
    activeHours: Option<string>,
    createdAt: string,
    updatedAt: string,
    videos: Option<seq<Video>>)

  datatype Layout = Layout(
    id: string,
    name: string,
    kind: LayoutType,
    config: string,
    createdAt: string,
    updatedAt: string)

  /** A display device. */
  datatype Client = Client(
    id: string,
    name: string,
    description: Option<string>,
    location: Option<string>,
    isOnline: bool,
    lastSeen: Option<string>,
    userId: string,
    layoutId: Option<string>,
    sequenceId: Option<string>,
    createdAt: string,
    updatedAt: string)

  datatype PageMeta = PageMeta(total: int, page: int, limit: int, totalPages: int)

  /** One page of a list endpoint's rows. */
  datatype PaginatedResponse<T> = PaginatedResponse(data: seq<T>, meta: PageMeta)

  // Request bodies of the mutation endpoints

  datatype CreateClientRequest = CreateClientRequest(
    name: string,
    description: Option<string>,
    location: Option<string>,
    loginId: string,
    password: string,
    layoutId: Option<string>,
    sequenceId: Option<string>)

  datatype UpdateClientRequest = UpdateClientRequest(
    name: Option<string>,
    description: Option<string>,
    location: Option<string>,
    password: Option<string>,
    layoutId: Option<string>,
    sequenceId: Option<string>)

  datatype CreateVideoRequest = CreateVideoRequest(
    url: string,
    title: string,
    duration: Option<real>,
    thumbnail: Option<string>,
    source: Option<VideoSource>)

  datatype UpdateVideoRequest = UpdateVideoRequest(
    url: Option<string>,
    title: Option<string>,
    duration: Option<real>,
    thumbnail: Option<string>,
    source: Option<VideoSource>)

  /** The body of a sequence create; the wire form of `videoIds` is the JSON array of these identifiers. */
  datatype CreateSequenceRequest = CreateSequenceRequest(
    name: string,
    description: Option<string>,
    videoIds: seq<string>,
    isActive: Option<bool>,
    startDate: Option<string>,
    endDate: Option<string>,
    activeHours: Option<string>)

  datatype UpdateSequenceRequest = UpdateSequenceRequest(
    name: Option<string>,
    description: Option<string>,
    videoIds: Option<seq<string>>,
    isActive: Option<bool>,
    startDate: Option<string>,
    endDate: Option<string>,
    activeHours: Option<string>)

  datatype AssignSequenceRequest = AssignSequenceRequest(clientIds: seq<string>)

  datatype CreateLayoutRequest = CreateLayoutRequest(
    name: string,
    kind: Option<LayoutType>,
    config: Option<string>)

  datatype UpdateLayoutRequest = UpdateLayoutRequest(
    name: Option<string>,
    kind: Option<LayoutType>,
    config: Option<string>)
}
