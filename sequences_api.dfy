/**
 * The sequence endpoints (src/app/api/sequencesApi.ts): the addresses the two
 * queries read, the requests the four mutations send, and the cache tags
 * each provides or invalidates. Assigning a sequence to clients is the one
 * mutation whose invalidation reaches another resource type's queries.
 */
module SequencesApi {

  import opened Types
  import opened Strings
  import opened ApiTags
  import ClientsApi

  const Resource: string := "sequences"

  /** The identifiers of the returned rows, in row order. */
  function RowIds(rows: seq<Sequence>): (ids: seq<string>)
    ensures |ids| == |rows|
    ensures forall k :: 0 <= k < |rows| ==> ids[k] == rows[k].id
  {
    seq(|rows|, k requires 0 <= k < |rows| => rows[k].id)
  }

  /** The address of one page of sequences; it reads back as the page and limit asked for, 1 and 10 when left out. */
  function GetSequences(page: Option<int>, limit: Option<int>): (url: string)
    ensures ParseListUrl(Resource, url) == Some((OrDefault(page, 1), OrDefault(limit, 10)))
  {
    ListUrlRoundTrip(Resource, page, limit);
    ListUrl(Resource, page, limit)
  }

  /** The tags of a page of sequences: the collection tag and one per returned sequence, nothing else. */
  function GetSequencesTags(result: Option<PaginatedResponse<Sequence>>): (tags: seq<Tag>)
    ensures forall x :: x in tags <==>
              x.tagType == SequenceTag && (x.id == ListId || (result.Some? && x.id in RowIds(result.value.data)))
  {
    ListProvides(SequenceTag, if result.Some? then Some(RowIds(result.value.data)) else None)
  }

  /** The address of one sequence: `/admin/sequences/` followed by the identifier. */
  function GetSequence(id: string): (url: string)
    ensures IsPrefix("/admin/sequences/", url) && url[|"/admin/sequences/"|..] == id
  {
    ItemUrl(Resource, id)
  }

  function GetSequenceTags(id: string): seq<Tag> {
    [Tag(SequenceTag, id)]
  }

  function CreateSequence(body: CreateSequenceRequest): Request<CreateSequenceRequest> {
    Request(CollectionUrl(Resource), POST, Some(body))
  }

  const CreateSequenceInvalidates: seq<Tag> := [ListTag(SequenceTag)]

  function UpdateSequence(id: string, data: UpdateSequenceRequest): Request<UpdateSequenceRequest> {
    Request(ItemUrl(Resource, id), PATCH, Some(data))
  }

  function UpdateSequenceInvalidates(id: string): seq<Tag> {
    [Tag(SequenceTag, id), ListTag(SequenceTag)]
  }

  function AssignSequence(id: string, data: AssignSequenceRequest): Request<AssignSequenceRequest> {
    Request(ItemUrl(Resource, id) + "/assign", POST, Some(data))
  }

  /** The assigned sequence's own tag and the client collection tag. */
  function AssignSequenceInvalidates(id: string): seq<Tag> {
    [Tag(SequenceTag, id), ListTag(ClientTag)]
  }

  function DeleteSequence(id: string): Request<()> {
    Request(ItemUrl(Resource, id), DELETE, None)
  }

  const DeleteSequenceInvalidates: seq<Tag> := [ListTag(SequenceTag)]

  /** Two sequence addresses are equal only for the same identifier. */
  lemma GetSequenceInjective(a: string, b: string)
    ensures GetSequence(a) == GetSequence(b) <==> a == b
  {
    if GetSequence(a) == GetSequence(b) {
      assert a == GetSequence(a)[|"/admin/sequences/"|..];
    }
  }

  /**
   * The update, delete and assign mutations send to the address the item
   * query reads (the assignment to its `/assign` sub-address), with the method
   * and body the source gives them; create posts to the collection.
   */
  lemma MutationRequests(id: string, body: CreateSequenceRequest, data: UpdateSequenceRequest, assignment: AssignSequenceRequest)
    ensures CreateSequence(body).url == "/admin/sequences" && CreateSequence(body).verb == POST && CreateSequence(body).body == Some(body)
    ensures UpdateSequence(id, data).url == GetSequence(id) && UpdateSequence(id, data).verb == PATCH && UpdateSequence(id, data).body == Some(data)
    ensures DeleteSequence(id).url == GetSequence(id) && DeleteSequence(id).verb == DELETE && DeleteSequence(id).body.None?
    ensures AssignSequence(id, assignment).url == GetSequence(id) + "/assign" && AssignSequence(id, assignment).verb == POST
    ensures AssignSequence(id, assignment).body == Some(assignment)
  {
  }

  /** Creating a sequence refreshes every cached page of sequences and, of the item queries, only one whose identifier is "LIST". */
  lemma CreateSequenceInvalidation(result: Option<PaginatedResponse<Sequence>>, other: string)
    ensures Intersects(CreateSequenceInvalidates, GetSequencesTags(result))
    ensures Intersects(CreateSequenceInvalidates, GetSequenceTags(other)) <==> other == ListId
  {
    assert ListTag(SequenceTag) in GetSequencesTags(result);
    ReachesItemQuery(CreateSequenceInvalidates, SequenceTag, other);
  }

  /** Updating sequence `id` refreshes every cached page of sequences and exactly the item queries for `id` (and "LIST"). */
  lemma UpdateSequenceInvalidation(id: string, result: Option<PaginatedResponse<Sequence>>, other: string)
    ensures Intersects(UpdateSequenceInvalidates(id), GetSequencesTags(result))
    ensures Intersects(UpdateSequenceInvalidates(id), GetSequenceTags(other)) <==> other == id || other == ListId
  {
    assert ListTag(SequenceTag) in GetSequencesTags(result);
    ReachesItemQuery(UpdateSequenceInvalidates(id), SequenceTag, other);
  }

  /**
   * Deleting a sequence refreshes every cached page of sequences, but not the
   * deleted sequence's own item query (unless its identifier is "LIST").
   */
  lemma DeleteSequenceInvalidation(id: string, result: Option<PaginatedResponse<Sequence>>, other: string)
    ensures Intersects(DeleteSequenceInvalidates, GetSequencesTags(result))
    ensures Intersects(DeleteSequenceInvalidates, GetSequenceTags(other)) <==> other == ListId
    ensures id != ListId ==> !Intersects(DeleteSequenceInvalidates, GetSequenceTags(id))
  {
    assert ListTag(SequenceTag) in GetSequencesTags(result);
    ReachesItemQuery(DeleteSequenceInvalidates, SequenceTag, other);
    ReachesItemQuery(DeleteSequenceInvalidates, SequenceTag, id);
  }

  /**
   * Assigning sequence `id` refreshes every cached page of clients (whatever
   * it holds) but no single-client query other than one for "LIST"; of the
   * sequence queries it refreshes the item query for `id` and a cached page
   * of sequences only when that page returned `id`. It does not carry the
   * sequence collection tag, so a page without `id` stays cached.
   */
  lemma AssignSequenceInvalidation(id: string, clients: Option<PaginatedResponse<Client>>, clientId: string,
                                   sequences: Option<PaginatedResponse<Sequence>>, other: string)
    ensures Intersects(AssignSequenceInvalidates(id), ClientsApi.GetClientsTags(clients))
    ensures Intersects(AssignSequenceInvalidates(id), ClientsApi.GetClientTags(clientId)) <==> clientId == ListId
    ensures Intersects(AssignSequenceInvalidates(id), GetSequenceTags(other)) <==> other == id
    ensures Intersects(AssignSequenceInvalidates(id), GetSequencesTags(sequences)) <==>
              id == ListId || (sequences.Some? && id in RowIds(sequences.value.data))
  {
    var a := AssignSequenceInvalidates(id);
    assert ListTag(ClientTag) in ClientsApi.GetClientsTags(clients);
    ReachesItemQuery(a, ClientTag, clientId);
    ReachesItemQuery(a, SequenceTag, other);
    if Intersects(a, GetSequencesTags(sequences)) {
      var x :| x in a && x in GetSequencesTags(sequences);
      assert x == Tag(SequenceTag, id);
    }
    if id == ListId || (sequences.Some? && id in RowIds(sequences.value.data)) {
      assert Tag(SequenceTag, id) in GetSequencesTags(sequences);
    }
  }
}
