/**
 * The video endpoints (src/app/api/videosApi.ts): the addresses the two
 * queries read, the requests the three mutations send, and the cache tags
 * each provides or invalidates.
 */
module VideosApi {

  import opened Types
  import opened Strings
  import opened ApiTags

  const Resource: string := "videos"

  /** The identifiers of the returned rows, in row order. */
  function RowIds(rows: seq<Video>): (ids: seq<string>)
    ensures |ids| == |rows|
    ensures forall k :: 0 <= k < |rows| ==> ids[k] == rows[k].id
  {
    seq(|rows|, k requires 0 <= k < |rows| => rows[k].id)
  }

  /** The address of one page of videos; it reads back as the page and limit asked for, 1 and 10 when left out. */
  function GetVideos(page: Option<int>, limit: Option<int>): (url: string)
    ensures ParseListUrl(Resource, url) == Some((OrDefault(page, 1), OrDefault(limit, 10)))
  {
    ListUrlRoundTrip(Resource, page, limit);
    ListUrl(Resource, page, limit)
  }

  /** The tags of a page of videos: the collection tag and one per returned video, nothing else. */
  function GetVideosTags(result: Option<PaginatedResponse<Video>>): (tags: seq<Tag>)
    ensures forall x :: x in tags <==>
              x.tagType == VideoTag && (x.id == ListId || (result.Some? && x.id in RowIds(result.value.data)))
  {
    ListProvides(VideoTag, if result.Some? then Some(RowIds(result.value.data)) else None)
  }

  /** The address of one video: `/admin/videos/` followed by the identifier. */
  function GetVideo(id: string): (url: string)
    ensures IsPrefix("/admin/videos/", url) && url[|"/admin/videos/"|..] == id
  {
    ItemUrl(Resource, id)
  }

  function GetVideoTags(id: string): seq<Tag> {
    [Tag(VideoTag, id)]
  }

  function CreateVideo(body: CreateVideoRequest): Request<CreateVideoRequest> {
    Request(CollectionUrl(Resource), POST, Some(body))
  }

  const CreateVideoInvalidates: seq<Tag> := [ListTag(VideoTag)]

  function UpdateVideo(id: string, data: UpdateVideoRequest): Request<UpdateVideoRequest> {
    Request(ItemUrl(Resource, id), PATCH, Some(data))
  }

  function UpdateVideoInvalidates(id: string): seq<Tag> {
    [Tag(VideoTag, id), ListTag(VideoTag)]
  }

  function DeleteVideo(id: string): Request<()> {
    Request(ItemUrl(Resource, id), DELETE, None)
  }

  const DeleteVideoInvalidates: seq<Tag> := [ListTag(VideoTag)]

  /** Two video addresses are equal only for the same identifier. */
  lemma GetVideoInjective(a: string, b: string)
    ensures GetVideo(a) == GetVideo(b) <==> a == b
  {
    if GetVideo(a) == GetVideo(b) {
      assert a == GetVideo(a)[|"/admin/videos/"|..];
    }
  }

  /**
   * The update and delete mutations send to the address the item
   * query reads, with the method
   * and body the source gives them; create posts to the collection.
   */
  lemma MutationRequests(id: string, body: CreateVideoRequest, data: UpdateVideoRequest)
    ensures CreateVideo(body).url == "/admin/videos" && CreateVideo(body).verb == POST && CreateVideo(body).body == Some(body)
    ensures UpdateVideo(id, data).url == GetVideo(id) && UpdateVideo(id, data).verb == PATCH && UpdateVideo(id, data).body == Some(data)
    ensures DeleteVideo(id).url == GetVideo(id) && DeleteVideo(id).verb == DELETE && DeleteVideo(id).body.None?
  {
  }

  /** Creating a video refreshes every cached page of videos and, of the item queries, only one whose identifier is "LIST". */
  lemma CreateVideoInvalidation(result: Option<PaginatedResponse<Video>>, other: string)
    ensures Intersects(CreateVideoInvalidates, GetVideosTags(result))
    ensures Intersects(CreateVideoInvalidates, GetVideoTags(other)) <==> other == ListId
  {
    assert ListTag(VideoTag) in GetVideosTags(result);
    ReachesItemQuery(CreateVideoInvalidates, VideoTag, other);
  }

  /** Updating video `id` refreshes every cached page of videos and exactly the item queries for `id` (and "LIST"). */
  lemma UpdateVideoInvalidation(id: string, result: Option<PaginatedResponse<Video>>, other: string)
    ensures Intersects(UpdateVideoInvalidates(id), GetVideosTags(result))
    ensures Intersects(UpdateVideoInvalidates(id), GetVideoTags(other)) <==> other == id || other == ListId
  {
    assert ListTag(VideoTag) in GetVideosTags(result);
    ReachesItemQuery(UpdateVideoInvalidates(id), VideoTag, other);
  }

  /**
   * Deleting a video refreshes every cached page of videos, but not the
   * deleted video's own item query (unless its identifier is "LIST").
   */
  lemma DeleteVideoInvalidation(id: string, result: Option<PaginatedResponse<Video>>, other: string)
    ensures Intersects(DeleteVideoInvalidates, GetVideosTags(result))
    ensures Intersects(DeleteVideoInvalidates, GetVideoTags(other)) <==> other == ListId
    ensures id != ListId ==> !Intersects(DeleteVideoInvalidates, GetVideoTags(id))
  {
    assert ListTag(VideoTag) in GetVideosTags(result);
    ReachesItemQuery(DeleteVideoInvalidates, VideoTag, other);
    ReachesItemQuery(DeleteVideoInvalidates, VideoTag, id);
  }
}
