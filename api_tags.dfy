/**
 * What the endpoint declarations of the four resource kinds have in common:
 * the cache tags they name, the list and item addresses they build, and the
 * request descriptors of their mutations. A tag is a resource type and an
 * identifier; the collection of a type is tagged with the identifier "LIST",
 * compared as a plain string like every other identifier.
 */
module ApiTags {

  import opened Types
  import opened Strings

  /** The four cache tag types the endpoints use. */
  datatype TagType = ClientTag | VideoTag | SequenceTag | LayoutTag

  /** The tag's `type` string as it appears in the source. */
  function TypeName(t: TagType): string {
    match t
    case ClientTag => "Client"
    case VideoTag => "Video"
    case SequenceTag => "Sequence"
    case LayoutTag => "Layout"
  }

  datatype Tag = Tag(tagType: TagType, id: string)

  const ListId: string := "LIST"

  /** `{ type, id: 'LIST' }`: the tag of a whole collection. */
  function ListTag(t: TagType): Tag {
    Tag(t, ListId)
  }

  /** The two tag lists share a tag, which is what makes an invalidation reach a cached query. */
  predicate Intersects(a: seq<Tag>, b: seq<Tag>) {
    exists x :: x in a && x in b
  }

  /** `rows.map(({ id }) => ({ type, id }))`, given the rows' identifiers. */
  function ItemTags(t: TagType, rowIds: seq<string>): (r: seq<Tag>)
    ensures |r| == |rowIds|
    ensures forall k :: 0 <= k < |rowIds| ==> r[k] == Tag(t, rowIds[k])
    ensures forall x :: x in r <==> x.tagType == t && x.id in rowIds
  {
    var r := seq(|rowIds|, k requires 0 <= k < |rowIds| => Tag(t, rowIds[k]));
    assert forall x: Tag :: x.tagType == t && x.id in rowIds ==> x in r by {
      forall x: Tag | x.tagType == t && x.id in rowIds ensures x in r {
        var k :| 0 <= k < |rowIds| && rowIds[k] == x.id;
        assert r[k] == x;
      }
    }
    r
  }

  /**
   * `providesTags` of a list query: one tag per returned row in row order,
   * then the collection tag; only the collection tag when there is no result.
   * Such a query is covered by its type's collection tag and by the tag of
   * each row it returned, and by nothing else.
   */
  function ListProvides(t: TagType, rowIds: Option<seq<string>>): (r: seq<Tag>)
    ensures rowIds.None? ==> r == [ListTag(t)]
    ensures rowIds.Some? ==> |r| == |rowIds.value| + 1 && r[|rowIds.value|] == ListTag(t)
    ensures rowIds.Some? ==> forall k :: 0 <= k < |rowIds.value| ==> r[k] == Tag(t, rowIds.value[k])
    ensures forall x :: x in r <==> x.tagType == t && (x.id == ListId || (rowIds.Some? && x.id in rowIds.value))
  {
    if rowIds.None? then [ListTag(t)] else ItemTags(t, rowIds.value) + [ListTag(t)]
  }

  /** A tag list holding the collection tag reaches every list query of that type. */
  lemma ListTagReachesListQuery(a: seq<Tag>, t: TagType, rowIds: Option<seq<string>>)
    requires ListTag(t) in a
    ensures Intersects(a, ListProvides(t, rowIds))
  {
    assert ListTag(t) in ListProvides(t, rowIds);
  }

  /** A tag list reaches an item query exactly when it holds that item's tag. */
  lemma ReachesItemQuery(a: seq<Tag>, t: TagType, id: string)
    ensures Intersects(a, [Tag(t, id)]) <==> Tag(t, id) in a
  {
    if Tag(t, id) in a {
      assert Tag(t, id) in [Tag(t, id)];
    }
  }

  /** A tag list reaches a list query exactly when it holds a tag of a returned row or the collection tag. */
  lemma ReachesListQuery(a: seq<Tag>, t: TagType, rowIds: Option<seq<string>>)
    ensures Intersects(a, ListProvides(t, rowIds)) <==>
              exists x :: x in a && x.tagType == t && (x.id == ListId || (rowIds.Some? && x.id in rowIds.value))
  {
    if Intersects(a, ListProvides(t, rowIds)) {
      var x :| x in a && x in ListProvides(t, rowIds);
    }
    if exists x :: x in a && x.tagType == t && (x.id == ListId || (rowIds.Some? && x.id in rowIds.value)) {
      var x :| x in a && x.tagType == t && (x.id == ListId || (rowIds.Some? && x.id in rowIds.value));
      assert x in ListProvides(t, rowIds);
    }
  }

  /** Nothing is reached by an empty tag list. */
  lemma EmptyReachesNothing(b: seq<Tag>)
    ensures !Intersects([], b)
  {
  }

  // ---- addresses and request descriptors

  /** `/admin/<resource>`. */
  function CollectionUrl(resource: string): string {
    "/admin/" + resource
  }

  /** `/admin/<resource>/<id>`: the collection address, a slash, then the identifier unchanged. */
  function ItemUrl(resource: string, id: string): (r: string)
    ensures IsPrefix(CollectionUrl(resource) + "/", r)
    ensures r[|CollectionUrl(resource)| + 1..] == id
  {
    var r := CollectionUrl(resource) + "/" + id;
    assert r[..|CollectionUrl(resource)| + 1] == CollectionUrl(resource) + "/";
    r
  }

  /** A parameter of the list queries: the given value, or the default when it is left out. */
  function OrDefault(x: Option<int>, default: int): int {
    if x.Some? then x.value else default
  }

  /** `/admin/<resource>?page=${page}&limit=${limit}` with `page = 1, limit = 10` as defaults. */
  function ListUrl(resource: string, page: Option<int>, limit: Option<int>): string {
    CollectionUrl(resource) + "?page=" + IntToString(OrDefault(page, 1)) + "&limit=" + IntToString(OrDefault(limit, 10))
  }

  /** Reads the page and limit back out of a list address of the given resource. */
  function ParseListUrl(resource: string, url: string): Option<(int, int)> {
    var head := CollectionUrl(resource) + "?page=";
    if !IsPrefix(head, url) then None
    else
      var parts := Split(url[|head|..], '&');
      if |parts| == 2 && IsPrefix("limit=", parts[1]) then
        var page, limit := ParseInt(parts[0]), ParseInt(parts[1][6..]);
        if page.Some? && limit.Some? then Some((page.value, limit.value)) else None
      else None
  }

  lemma NoAmpersandInInt(i: int)
    ensures '&' !in IntToString(i)
  {
    var s := IntToString(i);
    forall k | 0 <= k < |s| ensures s[k] != '&' {
      if i < 0 && k > 0 { assert s[k] == s[1..][k - 1]; }
    }
  }

  /** After its head, a list address splits at `&` into the printed page and the `limit=` field. */
  lemma ListUrlFields(resource: string, page: int, limit: int)
    ensures IsPrefix(CollectionUrl(resource) + "?page=", ListUrl(resource, Some(page), Some(limit)))
    ensures Split(ListUrl(resource, Some(page), Some(limit))[|CollectionUrl(resource) + "?page="|..], '&')
            == [IntToString(page), "limit=" + IntToString(limit)]
  {
    var head := CollectionUrl(resource) + "?page=";
    var P, L := IntToString(page), IntToString(limit);
    var url := ListUrl(resource, Some(page), Some(limit));
    assert url == head + (P + ['&'] + ("limit=" + L));
    assert url[..|head|] == head;
    assert url[|head|..] == P + ['&'] + ("limit=" + L);
    NoAmpersandInInt(page);
    NoAmpersandInInt(limit);
    assert '&' !in "limit=" + L;
    SplitAt(P, '&', "limit=" + L);
    SplitNoSep("limit=" + L, '&');
  }

  /** The list address keeps the page and limit it was built from, with the defaults filled in. */
  lemma ListUrlRoundTrip(resource: string, page: Option<int>, limit: Option<int>)
    ensures ParseListUrl(resource, ListUrl(resource, page, limit)) == Some((OrDefault(page, 1), OrDefault(limit, 10)))
  {
    var p, l := OrDefault(page, 1), OrDefault(limit, 10);
    assert ListUrl(resource, page, limit) == ListUrl(resource, Some(p), Some(l));
    ListUrlFields(resource, p, l);
    var L := IntToString(l);
    assert ("limit=" + L)[..6] == "limit=";
    assert ("limit=" + L)[6..] == L;
    IntToStringRoundTrip(p);
    IntToStringRoundTrip(l);
  }

  /**
   * Two list addresses of a resource are equal exactly when their page and
   * limit agree once the defaults are filled in, so a left-out parameter and
   * its default build the same request address.
   */
  lemma ListUrlSameAddress(resource: string, p1: Option<int>, l1: Option<int>, p2: Option<int>, l2: Option<int>)
    ensures ListUrl(resource, p1, l1) == ListUrl(resource, p2, l2) <==>
              OrDefault(p1, 1) == OrDefault(p2, 1) && OrDefault(l1, 10) == OrDefault(l2, 10)
  {
    ListUrlRoundTrip(resource, p1, l1);
    ListUrlRoundTrip(resource, p2, l2);
  }

  datatype HttpMethod = GET | POST | PATCH | DELETE

  /** `{ url, method, body }` as a mutation's `query` returns it; `verb` is its `method`. */
  datatype Request<B> = Request(url: string, verb: HttpMethod, body: Option<B>)
}
