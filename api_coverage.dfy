/**
 * Every mutation of the four endpoint modules side by side, with the tags it
 * invalidates and the resource type it belongs to, so that statements about
 * all of them at once can be made: which invalidations stay within their own
 * type, which refresh their own collection, and which refresh nothing.
 */
module ApiCoverage {

  import opened Types
  import opened ApiTags
  import ClientsApi
  import VideosApi
  import SequencesApi
  import LayoutsApi

  datatype Mutation =
    | CreateClient | UpdateClient(id: string) | DeleteClient(id: string) | ForceRefreshClient(id: string)
    | CreateVideo | UpdateVideo(id: string) | DeleteVideo(id: string)
    | CreateSequence | UpdateSequence(id: string) | DeleteSequence(id: string) | AssignSequence(id: string)
    | CreateLayout | UpdateLayout(id: string) | DeleteLayout(id: string)

  /** The resource type whose endpoint module declares the mutation. */
  function Owner(m: Mutation): TagType {
    match m
    case CreateClient | UpdateClient(_) | DeleteClient(_) | ForceRefreshClient(_) => ClientTag
    case CreateVideo | UpdateVideo(_) | DeleteVideo(_) => VideoTag
    case CreateSequence | UpdateSequence(_) | DeleteSequence(_) | AssignSequence(_) => SequenceTag
    case CreateLayout | UpdateLayout(_) | DeleteLayout(_) => LayoutTag
  }

  /** The mutation's `invalidatesTags`, as its module declares it. */
  function Invalidates(m: Mutation): seq<Tag> {
    match m
    case CreateClient => ClientsApi.CreateClientInvalidates
    case UpdateClient(id) => ClientsApi.UpdateClientInvalidates(id)
    case DeleteClient(_) => ClientsApi.DeleteClientInvalidates
    case ForceRefreshClient(_) => ClientsApi.ForceRefreshClientInvalidates
    case CreateVideo => VideosApi.CreateVideoInvalidates
    case UpdateVideo(id) => VideosApi.UpdateVideoInvalidates(id)
    case DeleteVideo(_) => VideosApi.DeleteVideoInvalidates
    case CreateSequence => SequencesApi.CreateSequenceInvalidates
    case UpdateSequence(id) => SequencesApi.UpdateSequenceInvalidates(id)
    case DeleteSequence(_) => SequencesApi.DeleteSequenceInvalidates
    case AssignSequence(id) => SequencesApi.AssignSequenceInvalidates(id)
    case CreateLayout => LayoutsApi.CreateLayoutInvalidates
    case UpdateLayout(id) => LayoutsApi.UpdateLayoutInvalidates(id)
    case DeleteLayout(_) => LayoutsApi.DeleteLayoutInvalidates
  }

  /** Assigning a sequence is the only mutation that invalidates a tag of another type, and that tag is the client collection. */
  lemma OnlyAssignCrossesTypes(m: Mutation, x: Tag)
    requires x in Invalidates(m)
    ensures x.tagType != Owner(m) <==> m.AssignSequence? && x == ListTag(ClientTag)
  {
  }

  /** Every mutation except the client refresh and the assignment invalidates its own type's collection, so every cached page of that type. */
  lemma OwnCollectionRefreshed(m: Mutation, rowIds: Option<seq<string>>)
    ensures ListTag(Owner(m)) in Invalidates(m) <==> !m.ForceRefreshClient? && !(m.AssignSequence? && m.id != ListId)
    ensures !m.ForceRefreshClient? && !m.AssignSequence? ==> Intersects(Invalidates(m), ListProvides(Owner(m), rowIds))
  {
    if !m.ForceRefreshClient? && !m.AssignSequence? {
      ListTagReachesListQuery(Invalidates(m), Owner(m), rowIds);
    }
  }

  /** The client refresh is the only mutation that leaves every cached query in place. */
  lemma OnlyRefreshInvalidatesNothing(m: Mutation)
    ensures Invalidates(m) == [] <==> m.ForceRefreshClient?
  {
  }

  /**
   * Only the update mutations and the assignment invalidate the tag of one
   * item, and it is the item they were given.
   */
  lemma ItemTagsOnlyForTarget(m: Mutation, x: Tag)
    requires x in Invalidates(m) && x.id != ListId
    ensures (m.UpdateClient? || m.UpdateVideo? || m.UpdateSequence? || m.UpdateLayout? || m.AssignSequence?)
    ensures x == Tag(Owner(m), m.id)
  {
  }
}
