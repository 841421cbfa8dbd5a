/**
 * The layout endpoints (src/app/api/layoutsApi.ts): the addresses the two
 * queries read, the requests the three mutations send, and the cache tags
 * each provides or invalidates.
 */
module LayoutsApi {

  import opened Types
  import opened Strings
  import opened ApiTags

  const Resource: string := "layouts"

  /** The identifiers of the returned rows, in row order. */
  function RowIds(rows: seq<Layout>): (ids: seq<string>)
    ensures |ids| == |rows|
    ensures forall k :: 0 <= k < |rows| ==> ids[k] == rows[k].id
  {
    seq(|rows|, k requires 0 <= k < |rows| => rows[k].id)
  }

  /** The address of one page of layouts; it reads back as the page and limit asked for, 1 and 10 when left out. */
  function GetLayouts(page: Option<int>, limit: Option<int>): (url: string)
    ensures ParseListUrl(Resource, url) == Some((OrDefault(page, 1), OrDefault(limit, 10)))
  {
    ListUrlRoundTrip(Resource, page, limit);
    ListUrl(Resource, page, limit)
  }

  /** The tags of a page of layouts: the collection tag and one per returned layout, nothing else. */
  function GetLayoutsTags(result: Option<PaginatedResponse<Layout>>): (tags: seq<Tag>)
    ensures forall x :: x in tags <==>
              x.tagType == LayoutTag && (x.id == ListId || (result.Some? && x.id in RowIds(result.value.data)))
  {
    ListProvides(LayoutTag, if result.Some? then Some(RowIds(result.value.data)) else None)
  }

  /** The address of one layout: `/admin/layouts/` followed by the identifier. */
  function GetLayout(id: string): (url: string)
    ensures IsPrefix("/admin/layouts/", url) && url[|"/admin/layouts/"|..] == id
  {
    ItemUrl(Resource, id)
  }

  function GetLayoutTags(id: string): seq<Tag> {
    [Tag(LayoutTag, id)]
  }

  function CreateLayout(body: CreateLayoutRequest): Request<CreateLayoutRequest> {
    Request(CollectionUrl(Resource), POST, Some(body))
  }

  const CreateLayoutInvalidates: seq<Tag> := [ListTag(LayoutTag)]

  function UpdateLayout(id: string, data: UpdateLayoutRequest): Request<UpdateLayoutRequest> {
    Request(ItemUrl(Resource, id), PATCH, Some(data))
  }

  function UpdateLayoutInvalidates(id: string): seq<Tag> {
    [Tag(LayoutTag, id), ListTag(LayoutTag)]
  }

  function DeleteLayout(id: string): Request<()> {
    Request(ItemUrl(Resource, id), DELETE, None)
  }

  const DeleteLayoutInvalidates: seq<Tag> := [ListTag(LayoutTag)]

  /** Two layout addresses are equal only for the same identifier. */
  lemma GetLayoutInjective(a: string, b: string)
    ensures GetLayout(a) == GetLayout(b) <==> a == b
  {
    if GetLayout(a) == GetLayout(b) {
      assert a == GetLayout(a)[|"/admin/layouts/"|..];
    }
  }

  /**
   * The update and delete mutations send to the address the item
   * query reads, with the method
   * and body the source gives them; create posts to the collection.
   */
  lemma MutationRequests(id: string, body: CreateLayoutRequest, data: UpdateLayoutRequest)
    ensures CreateLayout(body).url == "/admin/layouts" && CreateLayout(body).verb == POST && CreateLayout(body).body == Some(body)
    ensures UpdateLayout(id, data).url == GetLayout(id) && UpdateLayout(id, data).verb == PATCH && UpdateLayout(id, data).body == Some(data)
    ensures DeleteLayout(id).url == GetLayout(id) && DeleteLayout(id).verb == DELETE && DeleteLayout(id).body.None?
  {
  }

  /** Creating a layout refreshes every cached page of layouts and, of the item queries, only one whose identifier is "LIST". */
  lemma CreateLayoutInvalidation(result: Option<PaginatedResponse<Layout>>, other: string)
    ensures Intersects(CreateLayoutInvalidates, GetLayoutsTags(result))
    ensures Intersects(CreateLayoutInvalidates, GetLayoutTags(other)) <==> other == ListId
  {
    assert ListTag(LayoutTag) in GetLayoutsTags(result);
    ReachesItemQuery(CreateLayoutInvalidates, LayoutTag, other);
  }

  /** Updating layout `id` refreshes every cached page of layouts and exactly the item queries for `id` (and "LIST"). */
  lemma UpdateLayoutInvalidation(id: string, result: Option<PaginatedResponse<Layout>>, other: string)
    ensures Intersects(UpdateLayoutInvalidates(id), GetLayoutsTags(result))
    ensures Intersects(UpdateLayoutInvalidates(id), GetLayoutTags(other)) <==> other == id || other == ListId
  {
    assert ListTag(LayoutTag) in GetLayoutsTags(result);
    ReachesItemQuery(UpdateLayoutInvalidates(id), LayoutTag, other);
  }

  /**
   * Deleting a layout refreshes every cached page of layouts, but not the
   * deleted layout's own item query (unless its identifier is "LIST").
   */
  lemma DeleteLayoutInvalidation(id: string, result: Option<PaginatedResponse<Layout>>, other: string)
    ensures Intersects(DeleteLayoutInvalidates, GetLayoutsTags(result))
    ensures Intersects(DeleteLayoutInvalidates, GetLayoutTags(other)) <==> other == ListId
    ensures id != ListId ==> !Intersects(DeleteLayoutInvalidates, GetLayoutTags(id))
  {
    assert ListTag(LayoutTag) in GetLayoutsTags(result);
    ReachesItemQuery(DeleteLayoutInvalidates, LayoutTag, other);
    ReachesItemQuery(DeleteLayoutInvalidates, LayoutTag, id);
  }
}
