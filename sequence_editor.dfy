/**
 * The playlist editor of a sequence (src/pages/SequenceEditorPage.tsx): the
 * ordered list of selected videos, the three ways of changing it (add, remove,
 * drag to a new place), loading a stored sequence into the form, and the save
 * step that validates the form and builds the create or update request.
 * Each operation returns the new list, as the page replaces its state array.
 */
module SequenceEditor {

  import opened Types
  import opened Strings

  /** `videos.map((v) => v.id)`. */
  function Ids(videos: seq<Video>): (ids: seq<string>)
    ensures |ids| == |videos|
    ensures forall k :: 0 <= k < |videos| ==> ids[k] == videos[k].id
  {
    seq(|videos|, k requires 0 <= k < |videos| => videos[k].id)
  }

  /** No two entries of the list share an identifier. */
  predicate DistinctIds(videos: seq<Video>) {
    forall i, j :: 0 <= i < j < |videos| ==> videos[i].id != videos[j].id
  }

  predicate Distinct(ids: seq<string>) {
    forall i, j :: 0 <= i < j < |ids| ==> ids[i] != ids[j]
  }

  lemma InIds(videos: seq<Video>, id: string)
    ensures id in Ids(videos) <==> exists k :: 0 <= k < |videos| && videos[k].id == id
  {
    if id in Ids(videos) {
      var k :| 0 <= k < |videos| && Ids(videos)[k] == id;
    }
  }

  // ---- addVideo

  /** Appends `video` unless an entry with its identifier is already selected. */
  function AddVideo(videos: seq<Video>, video: Video): (r: seq<Video>)
    ensures video.id in Ids(r)
    ensures |r| >= |videos| && r[..|videos|] == videos
    ensures video.id in Ids(videos) ==> r == videos
    ensures video.id !in Ids(videos) ==> |r| == |videos| + 1 && r[|videos|] == video
    ensures DistinctIds(videos) ==> DistinctIds(r)
  {
    InIds(videos, video.id);
    if video.id in Ids(videos) then videos
    else
      assert (videos + [video])[|videos|] == video;
      InIds(videos + [video], video.id);
      videos + [video]
  }

  /** Adding the same video a second time changes nothing. */
  lemma AddVideoIdempotent(videos: seq<Video>, video: Video)
    ensures AddVideo(AddVideo(videos, video), video) == AddVideo(videos, video)
  {
  }

  // ---- removeVideo

  /** `a` is `b` with some entries left out, the rest in their original order. */
  predicate Subsequence<T(==)>(a: seq<T>, b: seq<T>)
    decreases |b|
  {
    a == [] || (b != [] && if a[0] == b[0] then Subsequence(a[1..], b[1..]) else Subsequence(a, b[1..]))
  }

  /** `videos.filter((v) => v.id !== videoId)`. */
  function RemoveVideo(videos: seq<Video>, videoId: string): (r: seq<Video>)
    ensures forall v :: v in r <==> v in videos && v.id != videoId
    ensures Subsequence(r, videos)
  {
    if videos == [] then []
    else
      var rest := RemoveVideo(videos[1..], videoId);
      assert forall v :: v in videos <==> v == videos[0] || v in videos[1..];
      if videos[0].id != videoId then
        assert ([videos[0]] + rest)[1..] == rest;
        [videos[0]] + rest
      else
        rest
  }

  /** An entry of a subsequence is an entry of the original list at a later or equal index. */
  lemma {:induction false} SubsequenceKeepsDistinctIds(a: seq<Video>, b: seq<Video>)
    requires Subsequence(a, b) && DistinctIds(b)
    ensures DistinctIds(a)
    decreases |b|
  {
    if a != [] {
      assert b != [];
      if a[0] == b[0] {
        SubsequenceKeepsDistinctIds(a[1..], b[1..]);
        SubsequenceMembers(a[1..], b[1..]);
        forall i, j | 0 <= i < j < |a| ensures a[i].id != a[j].id {
          if i == 0 {
            assert a[j] == a[1..][j - 1];
            assert a[1..][j - 1] in a[1..];
            var k :| 0 <= k < |b[1..]| && b[1..][k] == a[j];
            assert b[k + 1] == a[j];
          } else {
            assert a[i] == a[1..][i - 1] && a[j] == a[1..][j - 1];
          }
        }
      } else {
        SubsequenceKeepsDistinctIds(a, b[1..]);
      }
    }
  }

  lemma {:induction false} SubsequenceMembers<T>(a: seq<T>, b: seq<T>)
    requires Subsequence(a, b)
    ensures forall x :: x in a ==> x in b
    decreases |b|
  {
    if a != [] {
      if a[0] == b[0] {
        SubsequenceMembers(a[1..], b[1..]);
        assert forall x :: x in a ==> x == a[0] || x in a[1..];
      } else {
        SubsequenceMembers(a, b[1..]);
      }
    }
  }

  /**
   * The removal keeps every copy of each entry with another identifier and no
   * entry with the removed one, so repeated entries are all kept.
   */
  lemma {:induction false} RemoveVideoCounts(videos: seq<Video>, videoId: string)
    ensures forall v :: multiset(RemoveVideo(videos, videoId))[v] == if v.id != videoId then multiset(videos)[v] else 0
    decreases |videos|
  {
    if videos != [] {
      RemoveVideoCounts(videos[1..], videoId);
      assert videos == [videos[0]] + videos[1..];
      var rest := RemoveVideo(videos[1..], videoId);
      if videos[0].id != videoId {
        assert RemoveVideo(videos, videoId) == [videos[0]] + rest;
      } else {
        assert RemoveVideo(videos, videoId) == rest;
      }
    }
  }

  /** Removing an identifier no entry has leaves the list as it is. */
  lemma {:induction false} RemoveAbsent(videos: seq<Video>, videoId: string)
    requires videoId !in Ids(videos)
    ensures RemoveVideo(videos, videoId) == videos
  {
    if videos != [] {
      InIds(videos, videoId);
      InIds(videos[1..], videoId);
      RemoveAbsent(videos[1..], videoId);
      assert videos == [videos[0]] + videos[1..];
    }
  }

  /** After removal no entry has the identifier, and identifiers that were distinct stay distinct. */
  lemma RemoveVideoSpec(videos: seq<Video>, videoId: string)
    ensures videoId !in Ids(RemoveVideo(videos, videoId))
    ensures DistinctIds(videos) ==> DistinctIds(RemoveVideo(videos, videoId))
  {
    var r := RemoveVideo(videos, videoId);
    InIds(r, videoId);
    if DistinctIds(videos) {
      SubsequenceKeepsDistinctIds(r, videos);
    }
  }

  lemma RemoveAppend(videos: seq<Video>, v: Video, videoId: string)
    ensures RemoveVideo(videos + [v], videoId) == RemoveVideo(videos, videoId) + (if v.id == videoId then [] else [v])
    decreases |videos|
  {
    if videos == [] {
      assert [v][1..] == [];
    } else {
      assert (videos + [v])[1..] == videos[1..] + [v];
      RemoveAppend(videos[1..], v, videoId);
    }
  }

  /** Removing a video just added to a list without it gives back the list. */
  lemma RemoveUndoesAdd(videos: seq<Video>, video: Video)
    requires video.id !in Ids(videos)
    ensures RemoveVideo(AddVideo(videos, video), video.id) == videos
  {
    RemoveAppend(videos, video, video.id);
    RemoveAbsent(videos, video.id);
  }

  // ---- handleDragEnd

  /** `items.findIndex((item) => item.id === id)`: the first index with that identifier, or -1. */
  function FindIndex(items: seq<Video>, id: string): (r: int)
    ensures -1 <= r < |items|
    ensures r == -1 <==> id !in Ids(items)
    ensures r >= 0 ==> items[r].id == id && forall k :: 0 <= k < r ==> items[k].id != id
  {
    if items == [] then -1
    else
      IdsCons(items);
      if items[0].id == id then 0
      else
        var r := FindIndex(items[1..], id);
        assert forall k :: 0 < k < |items| ==> items[k] == items[1..][k - 1];
        if r == -1 then -1 else r + 1
  }

  /** The identifiers of a non-empty list: the first entry's, then the rest's. */
  lemma IdsCons(items: seq<Video>)
    requires items != []
    ensures Ids(items) == [items[0].id] + Ids(items[1..])
  {
    assert forall k :: 0 < k < |items| ==> items[1..][k - 1] == items[k];
  }

  /**
   * `arrayMove(items, from, to)` of the drag-and-drop library: takes the entry
   * at `from` out and puts it back in at `to`.
   */
  function ArrayMove<T>(items: seq<T>, from: nat, to: nat): (r: seq<T>)
    requires from < |items| && to < |items|
    ensures |r| == |items|
    ensures r[to] == items[from]
    ensures multiset(r) == multiset(items)
  {
    var rest := items[..from] + items[from + 1..];
    assert items == items[..from] + [items[from]] + items[from + 1..];
    assert rest == rest[..to] + rest[to..];
    assert multiset(items) == multiset(rest) + multiset{items[from]};
    rest[..to] + [items[from]] + rest[to..]
  }

  /** The index of `items` that entry `k` of `ArrayMove(items, from, to)` comes from. */
  function MovedFrom(from: nat, to: nat, k: nat): nat {
    if k == to then from
    else if from < to && from <= k < to then k + 1
    else if to < from && to < k <= from then k - 1
    else k
  }

  /** Entries between the two positions shift by one; all others stay where they were. */
  lemma ArrayMoveAt<T>(items: seq<T>, from: nat, to: nat, k: nat)
    requires from < |items| && to < |items| && k < |items|
    ensures MovedFrom(from, to, k) < |items|
    ensures ArrayMove(items, from, to)[k] == items[MovedFrom(from, to, k)]
  {
  }

  lemma MovedFromInjective(from: nat, to: nat, j: nat, k: nat)
    requires j != k
    ensures MovedFrom(from, to, j) != MovedFrom(from, to, k)
  {
  }

  /** Moving an entry back to where it came from restores the list. */
  lemma ArrayMoveInverse<T>(items: seq<T>, from: nat, to: nat)
    requires from < |items| && to < |items|
    ensures ArrayMove(ArrayMove(items, from, to), to, from) == items
  {
    var r := ArrayMove(items, from, to);
    var back := ArrayMove(r, to, from);
    forall k | 0 <= k < |items| ensures back[k] == items[k] {
      ArrayMoveAt(r, to, from, k);
      var j := MovedFrom(to, from, k);
      ArrayMoveAt(items, from, to, j);
      MovedFromInverse(from, to, k);
    }
  }

  /** The index maps of a move and of the move back undo each other. */
  lemma MovedFromInverse(from: nat, to: nat, k: nat)
    ensures MovedFrom(from, to, MovedFrom(to, from, k)) == k
  {
  }

  lemma ArrayMoveSamePlace<T>(items: seq<T>, i: nat)
    requires i < |items|
    ensures ArrayMove(items, i, i) == items
  {
    forall k | 0 <= k < |items| ensures ArrayMove(items, i, i)[k] == items[k] {
      ArrayMoveAt(items, i, i, k);
    }
  }

  lemma ArrayMoveExample<T>(a: T, b: T, c: T)
    ensures ArrayMove([a, b, c], 0, 2) == [b, c, a]
  {
  }

  lemma ArrayMoveKeepsDistinctIds(items: seq<Video>, from: nat, to: nat)
    requires from < |items| && to < |items|
    ensures DistinctIds(items) ==> DistinctIds(ArrayMove(items, from, to))
  {
    var r := ArrayMove(items, from, to);
    forall i, j | 0 <= i < j < |r| && DistinctIds(items) ensures r[i].id != r[j].id {
      ArrayMoveAt(items, from, to, i);
      ArrayMoveAt(items, from, to, j);
      MovedFromInjective(from, to, i, j);
      var a, b := MovedFrom(from, to, i), MovedFrom(from, to, j);
      if a < b { assert items[a].id != items[b].id; } else { assert items[b].id != items[a].id; }
    }
  }

  /** What the drag-and-drop library reports at the end of a drag: the dragged id and the id it was dropped on. */
  datatype DragEndEvent = DragEndEvent(active: string, over: Option<string>)

  /**
   * Moves the dragged entry to the place of the entry it was dropped on. The
   * sortable area lists exactly the selected ids, so both ids the library
   * reports belong to the list.
   */
  function HandleDragEnd(items: seq<Video>, event: DragEndEvent): (r: seq<Video>)
    requires event.active in Ids(items)
    requires event.over.Some? ==> event.over.value in Ids(items)
    ensures event.over.None? || event.over.value == event.active ==> r == items
    ensures |r| == |items| && multiset(r) == multiset(items)
    ensures event.over.Some? ==> r[FindIndex(items, event.over.value)] == items[FindIndex(items, event.active)]
    ensures DistinctIds(items) ==> DistinctIds(r)
  {
    if event.over.Some? && event.active != event.over.value then
      var oldIndex := FindIndex(items, event.active);
      var newIndex := FindIndex(items, event.over.value);
      ArrayMoveKeepsDistinctIds(items, oldIndex, newIndex);
      ArrayMove(items, oldIndex, newIndex)
    else
      items
  }

  // ---- loading and saving

  /** The editor's form fields. */
  datatype EditorForm = EditorForm(
    name: string,
    description: string,
    isActive: bool,
    startDate: string,
    endDate: string,
    selected: seq<Video>)

  /** The form of a new sequence. */
  const EmptyForm := EditorForm("", "", true, "", "", [])

  /** `x || ''` for a nullable string. */
  function OrEmpty(x: Option<string>): string {
    if x.Some? then x.value else ""
  }

  /**
   * Fills the form from a stored sequence. The selected list is the backend's
   * resolved `videos`, taken when the stored order list is non-empty.
   */
  function LoadSequence(form: EditorForm, s: Sequence): (r: EditorForm)
    ensures r.name == s.name && r.isActive == s.isActive
    ensures r.description == OrEmpty(s.description)
    ensures r.startDate == OrEmpty(s.startDate) && r.endDate == OrEmpty(s.endDate)
    ensures r.selected == if s.videoIds != "" && s.videos.Some? then s.videos.value else form.selected
  {
    form.(
      name := s.name,
      description := OrEmpty(s.description),
      isActive := s.isActive,
      startDate := OrEmpty(s.startDate),
      endDate := OrEmpty(s.endDate),
      selected := if s.videoIds != "" && s.videos.Some? then s.videos.value else form.selected)
  }

  /** `!id || id === 'new'`: the route names no stored sequence. */
  predicate IsNew(routeId: Option<string>) {
    routeId.None? || routeId.value == "" || routeId.value == "new"
  }

  datatype ValidationError = EmptyName | EmptyPlaylist

  /** What pressing save does: nothing but an alert, a create request, or an update request for the route's id. */
  datatype SaveAction =
    | Rejected(error: ValidationError)
    | Create(request: CreateSequenceRequest)
    | Update(id: string, changes: UpdateSequenceRequest)

  /** `x || undefined`: an empty field is left out of the request. */
  function OrUndefined(x: string): (r: Option<string>)
    ensures r.None? <==> x == ""
    ensures r.Some? ==> r.value == x
  {
    if x == "" then None else Some(x)
  }

  /** The request body built from the form; the order list is the selected ids in order. */
  function Payload(form: EditorForm): CreateSequenceRequest {
    CreateSequenceRequest(
      form.name,
      OrUndefined(form.description),
      Ids(form.selected),
      Some(form.isActive),
      OrUndefined(form.startDate),
      OrUndefined(form.endDate),
      None)
  }

  /** The same body sent to the update endpoint, where every field is optional. */
  function AsUpdate(b: CreateSequenceRequest): UpdateSequenceRequest {
    UpdateSequenceRequest(Some(b.name), b.description, Some(b.videoIds), b.isActive, b.startDate, b.endDate, b.activeHours)
  }

  function HandleSave(routeId: Option<string>, form: EditorForm): SaveAction {
    if Trim(form.name) == "" then Rejected(EmptyName)
    else if |form.selected| == 0 then Rejected(EmptyPlaylist)
    else if IsNew(routeId) then Create(Payload(form))
    else Update(routeId.value, AsUpdate(Payload(form)))
  }

  /**
   * The guard chain: a blank name is reported first, then an empty list; no
   * request is made in either case. Otherwise a new sequence is created, or
   * the route's sequence is updated.
   */
  lemma HandleSaveSpec(routeId: Option<string>, form: EditorForm)
    ensures HandleSave(routeId, form) == Rejected(EmptyName) <==> AllWhitespace(form.name)
    ensures HandleSave(routeId, form) == Rejected(EmptyPlaylist) <==>
              !AllWhitespace(form.name) && form.selected == []
    ensures HandleSave(routeId, form).Create? <==>
              !AllWhitespace(form.name) && form.selected != [] && IsNew(routeId)
    ensures HandleSave(routeId, form).Update? <==>
              !AllWhitespace(form.name) && form.selected != [] && !IsNew(routeId)
    ensures HandleSave(routeId, form).Update? ==>
              routeId.Some? && HandleSave(routeId, form).id == routeId.value
              && routeId.value != "" && routeId.value != "new"
    ensures HandleSave(routeId, form).Create? ==> HandleSave(routeId, form).request == Payload(form)
    ensures HandleSave(routeId, form).Update? ==> HandleSave(routeId, form).changes == AsUpdate(Payload(form))
  {
    TrimEmptyIff(form.name);
  }

  /**
   * The request body: name and active flag as entered, the empty optional
   * fields left out, and the order list holding the selected ids in list order.
   */
  lemma PayloadSpec(form: EditorForm)
    ensures Payload(form).name == form.name && Payload(form).isActive == Some(form.isActive)
    ensures Payload(form).description.None? <==> form.description == ""
    ensures Payload(form).description.Some? ==> Payload(form).description.value == form.description
    ensures Payload(form).startDate.None? <==> form.startDate == ""
    ensures Payload(form).startDate.Some? ==> Payload(form).startDate.value == form.startDate
    ensures Payload(form).endDate.None? <==> form.endDate == ""
    ensures Payload(form).endDate.Some? ==> Payload(form).endDate.value == form.endDate
    ensures Payload(form).activeHours.None?
    ensures |Payload(form).videoIds| == |form.selected|
    ensures forall k :: 0 <= k < |form.selected| ==> Payload(form).videoIds[k] == form.selected[k].id
    ensures DistinctIds(form.selected) ==> Distinct(Payload(form).videoIds)
  {
  }

  /** The update body keeps every field of the create body, the required ones wrapped as given. */
  lemma AsUpdateKeepsFields(b: CreateSequenceRequest)
    ensures AsUpdate(b).name == Some(b.name) && AsUpdate(b).videoIds == Some(b.videoIds)
    ensures AsUpdate(b).description == b.description && AsUpdate(b).isActive == b.isActive
    ensures AsUpdate(b).startDate == b.startDate && AsUpdate(b).endDate == b.endDate
    ensures AsUpdate(b).activeHours == b.activeHours
  {
  }

  /** An update carries the same fields as a create would, each as given on the form. */
  lemma UpdateCarriesPayload(routeId: Option<string>, form: EditorForm)
    requires HandleSave(routeId, form).Update?
    ensures HandleSave(routeId, form).changes.videoIds == Some(Ids(form.selected))
    ensures HandleSave(routeId, form).changes.name == Some(form.name)
    ensures HandleSave(routeId, form).changes.isActive == Some(form.isActive)
    ensures HandleSave(routeId, form).changes.description == OrUndefined(form.description)
    ensures HandleSave(routeId, form).changes.startDate == OrUndefined(form.startDate)
    ensures HandleSave(routeId, form).changes.endDate == OrUndefined(form.endDate)
    ensures HandleSave(routeId, form).changes.activeHours.None?
  {
  }

  /**
   * Saving a freshly loaded sequence unchanged sends back the order of the
   * videos the backend resolved, without duplicates when they had none.
   */
  lemma LoadThenSave(routeId: Option<string>, s: Sequence)
    requires s.videoIds != "" && s.videos.Some? && s.videos.value != []
    requires !AllWhitespace(s.name)
    ensures var a := HandleSave(routeId, LoadSequence(EmptyForm, s));
      && (a.Create? || a.Update?)
      && (a.Create? ==> a.request.videoIds == Ids(s.videos.value))
      && (a.Update? ==> a.changes.videoIds == Some(Ids(s.videos.value)))
    ensures DistinctIds(s.videos.value) ==> Distinct(Ids(s.videos.value))
  {
    HandleSaveSpec(routeId, LoadSequence(EmptyForm, s));
  }
}
