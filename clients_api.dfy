/**
 * The client endpoints (src/app/api/clientsApi.ts): the addresses the two
 * queries read, the requests the four mutations send, and the cache tags
 * each provides or invalidates.
 */
module ClientsApi {

  import opened Types
  import opened Strings
  import opened ApiTags

  const Resource: string := "clients"

  /** The identifiers of the returned rows, in row order. */
  function RowIds(rows: seq<Client>): (ids: seq<string>)
    ensures |ids| == |rows|
    ensures forall k :: 0 <= k < |rows| ==> ids[k] == rows[k].id
  {
    seq(|rows|, k requires 0 <= k < |rows| => rows[k].id)
  }

  /** The address of one page of clients; it reads back as the page and limit asked for, 1 and 10 when left out. */
  function GetClients(page: Option<int>, limit: Option<int>): (url: string)
    ensures ParseListUrl(Resource, url) == Some((OrDefault(page, 1), OrDefault(limit, 10)))
  {
    ListUrlRoundTrip(Resource, page, limit);
    ListUrl(Resource, page, limit)
  }

  /** The tags of a page of clients: the collection tag and one per returned client, nothing else. */
  function GetClientsTags(result: Option<PaginatedResponse<Client>>): (tags: seq<Tag>)
    ensures forall x :: x in tags <==>
              x.tagType == ClientTag && (x.id == ListId || (result.Some? && x.id in RowIds(result.value.data)))
  {
    ListProvides(ClientTag, if result.Some? then Some(RowIds(result.value.data)) else None)
  }

  /** The address of one client: `/admin/clients/` followed by the identifier. */
  function GetClient(id: string): (url: string)
    ensures IsPrefix("/admin/clients/", url) && url[|"/admin/clients/"|..] == id
  {
    ItemUrl(Resource, id)
  }

  function GetClientTags(id: string): seq<Tag> {
    [Tag(ClientTag, id)]
  }

  function CreateClient(body: CreateClientRequest): Request<CreateClientRequest> {
    Request(CollectionUrl(Resource), POST, Some(body))
  }

  const CreateClientInvalidates: seq<Tag> := [ListTag(ClientTag)]

  function UpdateClient(id: string, data: UpdateClientRequest): Request<UpdateClientRequest> {
    Request(ItemUrl(Resource, id), PATCH, Some(data))
  }

  function UpdateClientInvalidates(id: string): seq<Tag> {
    [Tag(ClientTag, id), ListTag(ClientTag)]
  }

  function DeleteClient(id: string): Request<()> {
    Request(ItemUrl(Resource, id), DELETE, None)
  }

  const DeleteClientInvalidates: seq<Tag> := [ListTag(ClientTag)]

  function ForceRefreshClient(id: string): Request<()> {
    Request(ItemUrl(Resource, id) + "/refresh", POST, None)
  }

  /** The refresh mutation declares no invalidation. */
  const ForceRefreshClientInvalidates: seq<Tag> := []

  /** Two client addresses are equal only for the same identifier. */
  lemma GetClientInjective(a: string, b: string)
    ensures GetClient(a) == GetClient(b) <==> a == b
  {
    if GetClient(a) == GetClient(b) {
      assert a == GetClient(a)[|"/admin/clients/"|..];
    }
  }

  /**
   * The update, delete and refresh mutations send to the address the item
   * query reads (the refresh to its `/refresh` sub-address), with the method
   * and body the source gives them; create posts to the collection.
   */
  lemma MutationRequests(id: string, body: CreateClientRequest, data: UpdateClientRequest)
    ensures CreateClient(body).url == "/admin/clients" && CreateClient(body).verb == POST && CreateClient(body).body == Some(body)
    ensures UpdateClient(id, data).url == GetClient(id) && UpdateClient(id, data).verb == PATCH && UpdateClient(id, data).body == Some(data)
    ensures DeleteClient(id).url == GetClient(id) && DeleteClient(id).verb == DELETE && DeleteClient(id).body.None?
    ensures ForceRefreshClient(id).url == GetClient(id) + "/refresh" && ForceRefreshClient(id).verb == POST && ForceRefreshClient(id).body.None?
  {
  }

  /** Creating a client refreshes every cached page of clients and, of the item queries, only one whose identifier is "LIST". */
  lemma CreateClientInvalidation(result: Option<PaginatedResponse<Client>>, other: string)
    ensures Intersects(CreateClientInvalidates, GetClientsTags(result))
    ensures Intersects(CreateClientInvalidates, GetClientTags(other)) <==> other == ListId
  {
    assert ListTag(ClientTag) in GetClientsTags(result);
    ReachesItemQuery(CreateClientInvalidates, ClientTag, other);
  }

  /** Updating client `id` refreshes every cached page of clients and exactly the item queries for `id` (and "LIST"). */
  lemma UpdateClientInvalidation(id: string, result: Option<PaginatedResponse<Client>>, other: string)
    ensures Intersects(UpdateClientInvalidates(id), GetClientsTags(result))
    ensures Intersects(UpdateClientInvalidates(id), GetClientTags(other)) <==> other == id || other == ListId
  {
    assert ListTag(ClientTag) in GetClientsTags(result);
    ReachesItemQuery(UpdateClientInvalidates(id), ClientTag, other);
  }

  /**
   * Deleting a client refreshes every cached page of clients, but not the
   * deleted client's own item query (unless its identifier is "LIST").
   */
  lemma DeleteClientInvalidation(id: string, result: Option<PaginatedResponse<Client>>, other: string)
    ensures Intersects(DeleteClientInvalidates, GetClientsTags(result))
    ensures Intersects(DeleteClientInvalidates, GetClientTags(other)) <==> other == ListId
    ensures id != ListId ==> !Intersects(DeleteClientInvalidates, GetClientTags(id))
  {
    assert ListTag(ClientTag) in GetClientsTags(result);
    ReachesItemQuery(DeleteClientInvalidates, ClientTag, other);
    ReachesItemQuery(DeleteClientInvalidates, ClientTag, id);
  }

  /** Forcing a client to refresh leaves every cached query in place. */
  lemma ForceRefreshClientInvalidation(tags: seq<Tag>)
    ensures !Intersects(ForceRefreshClientInvalidates, tags)
  {
  }
}
