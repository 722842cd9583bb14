/**
 * The recipe and tag viewsets: every query is scoped to the requesting
 * user, recipes come newest first and tags by descending name, and a
 * detail action on a row outside the caller's queryset is "not found".
 * Authentication is outside the model; `user` is the authenticated caller.
 */
module Views {
  import opened Models
  import Serializers

  /** The viewset actions the router dispatches to. */
  datatype Action = List | Create | Retrieve | Update | PartialUpdate | Destroy

  /** The outcome of an action: done, no such row for the caller, or a
      request body the serializer refused. */
  datatype Status = Ok | NotFound | Invalid

  /** `RecipeViewSet.get_serializer_class`. */
  function SerializerClass(action: Action): (k: Serializers.SerializerKind)
    ensures k == Serializers.RecipeSummary <==> action == List
    ensures Scalar(Description) in Serializers.Fields(k) <==> action != List
  {
    if action == List then Serializers.RecipeSummary else Serializers.RecipeDetails
  }

  /** The ids in `keep` below `hi`, largest first. */
  function DescendingIds(keep: set<nat>, hi: nat): (ids: seq<nat>)
    ensures forall i :: 0 <= i < |ids| ==> ids[i] in keep && ids[i] < hi
    ensures forall id :: id in keep && id < hi ==> id in ids
    ensures forall i, j :: 0 <= i < j < |ids| ==> ids[i] > ids[j]
    decreases hi
  {
    if hi == 0 then []
    else (if hi - 1 in keep then [hi - 1] else []) + DescendingIds(keep, hi - 1)
  }

  /** `RecipeViewSet.get_queryset`: the caller's recipes, `order_by('-id')`. */
  function RecipeQueryset(s: Snapshot, user: UserId): (ids: seq<RecipeId>)
    requires s.Valid()
    ensures forall id :: id in ids <==> id in s.recipes && s.recipes[id].owner == user
    ensures forall i, j :: 0 <= i < j < |ids| ==> ids[i] > ids[j]
  {
    var owned := set id | id in s.recipes && s.recipes[id].owner == user;
    DescendingIds(owned, s.nextRecipeId)
  }

  /** A freshly created recipe heads its owner's list (`order_by('-id')`). */
  lemma CreatedRecipeListedFirst(s: Snapshot, user: UserId, data: Serializers.Payload)
    requires s.Valid()
    ensures var c := Serializers.CreateSpec(s, user, data);
            var q := RecipeQueryset(c.state, user);
            |q| > 0 && q[0] == c.id
  {
    var c := Serializers.CreateSpec(s, user, data);
    var q := RecipeQueryset(c.state, user);
    assert c.state.nextRecipeId == c.id + 1;
    assert c.id in q;
  }

  /** Another user's recipe list is the same before and after a create. */
  lemma CreateHiddenFromOthers(s: Snapshot, user: UserId, other: UserId, data: Serializers.Payload)
    requires s.Valid() && other != user
    ensures RecipeQueryset(Serializers.CreateSpec(s, user, data).state, other) == RecipeQueryset(s, other)
  {
    var c := Serializers.CreateSpec(s, user, data);
    var before := set id | id in s.recipes && s.recipes[id].owner == other;
    var after := set id | id in c.state.recipes && c.state.recipes[id].owner == other;
    assert after == before;
    assert c.id == s.nextRecipeId && c.state.nextRecipeId == c.id + 1;
    assert c.id !in before;
    assert DescendingIds(after, c.state.nextRecipeId) == DescendingIds(before, s.nextRecipeId);
  }

  /** Code-point lexicographic order on names: `a` sorts at or before `b`. */
  predicate NameAtMost(a: string, b: string)
    decreases |a|
  {
    a == [] || (b != [] && (a[0] < b[0] || (a[0] == b[0] && NameAtMost(a[1..], b[1..]))))
  }

  lemma {:induction false} NameAtMostTotal(a: string, b: string)
    ensures NameAtMost(a, b) || NameAtMost(b, a)
    decreases |a|
  {
    if a != [] && b != [] && a[0] == b[0] {
      NameAtMostTotal(a[1..], b[1..]);
    }
  }

  lemma {:induction false} NameAtMostTrans(a: string, b: string, c: string)
    requires NameAtMost(a, b) && NameAtMost(b, c)
    ensures NameAtMost(a, c)
    decreases |a|
  {
    if a != [] && a[0] == b[0] && b[0] == c[0] {
      NameAtMostTrans(a[1..], b[1..], c[1..]);
    }
  }

  predicate AllIn(tags: TagTable, ids: seq<TagId>) {
    forall i :: 0 <= i < |ids| ==> ids[i] in tags
  }

  /** Every tag's name is at or after the names of the tags that follow it. */
  predicate SortedByNameDesc(tags: TagTable, ids: seq<TagId>)
    requires AllIn(tags, ids)
  {
    forall i, j :: 0 <= i < j < |ids| ==> NameAtMost(tags[ids[j]].name, tags[ids[i]].name)
  }

  /** Every listed tag's name sorts at or before `top`. */
  predicate AllAtMost(tags: TagTable, ids: seq<TagId>, top: string)
    requires AllIn(tags, ids)
  {
    forall j :: 0 <= j < |ids| ==> NameAtMost(tags[ids[j]].name, top)
  }

  /** A list headed by `a` is sorted exactly when its tail is and `a` tops it. */
  lemma SortedCons(tags: TagTable, a: TagId, ids: seq<TagId>)
    requires a in tags && AllIn(tags, ids)
    ensures AllIn(tags, [a] + ids)
    ensures SortedByNameDesc(tags, [a] + ids) <==>
            AllAtMost(tags, ids, tags[a].name) && SortedByNameDesc(tags, ids)
  {
    var r := [a] + ids;
    if AllAtMost(tags, ids, tags[a].name) && SortedByNameDesc(tags, ids) {
      forall i, j | 0 <= i < j < |r| ensures NameAtMost(tags[r[j]].name, tags[r[i]].name) {
        if i == 0 {
          assert r[j] == ids[j - 1];
        } else {
          assert r[i] == ids[i - 1] && r[j] == ids[j - 1];
        }
      }
    }
    if SortedByNameDesc(tags, r) {
      forall j | 0 <= j < |ids| ensures NameAtMost(tags[ids[j]].name, tags[a].name) {
        assert r[0] == a && r[j + 1] == ids[j];
        assert 0 < j + 1 < |r|;
      }
      forall i, j | 0 <= i < j < |ids| ensures NameAtMost(tags[ids[j]].name, tags[ids[i]].name) {
        assert r[i + 1] == ids[i] && r[j + 1] == ids[j];
      }
    }
  }

  /** Being topped by a name depends only on which tags are listed. */
  lemma AllAtMostPerm(tags: TagTable, ids: seq<TagId>, other: seq<TagId>, top: string)
    requires AllIn(tags, ids) && AllIn(tags, other) && multiset(ids) == multiset(other)
    requires AllAtMost(tags, other, top)
    ensures AllAtMost(tags, ids, top)
  {
    forall j | 0 <= j < |ids| ensures NameAtMost(tags[ids[j]].name, top) {
      assert ids[j] in multiset(other);
      var k :| 0 <= k < |other| && other[k] == ids[j];
    }
  }

  /** Put one tag into a list kept in descending name order. */
  function InsertByName(tags: TagTable, x: TagId, ids: seq<TagId>): (r: seq<TagId>)
    requires x in tags && AllIn(tags, ids)
    ensures AllIn(tags, r) && multiset(r) == multiset(ids) + multiset{x}
  {
    if ids == [] then [x]
    else if NameAtMost(tags[ids[0]].name, tags[x].name) then [x] + ids
    else
      assert ids == [ids[0]] + ids[1..];
      [ids[0]] + InsertByName(tags, x, ids[1..])
  }

  lemma {:induction false} InsertByNameSorted(tags: TagTable, x: TagId, ids: seq<TagId>)
    requires x in tags && AllIn(tags, ids) && SortedByNameDesc(tags, ids)
    ensures SortedByNameDesc(tags, InsertByName(tags, x, ids))
  {
    if ids == [] {
    } else {
      var hd, tl := ids[0], ids[1..];
      assert ids == [hd] + tl;
      SortedCons(tags, hd, tl);
      if NameAtMost(tags[hd].name, tags[x].name) {
        forall j | 0 <= j < |ids| ensures NameAtMost(tags[ids[j]].name, tags[x].name) {
          if j == 0 {
          } else {
            assert ids[j] == tl[j - 1];
            NameAtMostTrans(tags[ids[j]].name, tags[hd].name, tags[x].name);
          }
        }
        SortedCons(tags, x, ids);
      } else {
        var rest := InsertByName(tags, x, tl);
        InsertByNameSorted(tags, x, tl);
        NameAtMostTotal(tags[hd].name, tags[x].name);
        var both := tl + [x];
        forall j | 0 <= j < |both| ensures NameAtMost(tags[both[j]].name, tags[hd].name) {
          if j == |tl| {
          } else {
            assert both[j] == tl[j];
          }
        }
        assert multiset(both) == multiset(rest);
        AllAtMostPerm(tags, rest, both, tags[hd].name);
        SortedCons(tags, hd, rest);
      }
    }
  }

  /** `order_by('-name')`: insertion sort by descending name. */
  function SortByName(tags: TagTable, ids: seq<TagId>): (r: seq<TagId>)
    requires AllIn(tags, ids)
    ensures AllIn(tags, r) && multiset(r) == multiset(ids)
    ensures SortedByNameDesc(tags, r)
  {
    if ids == [] then []
    else
      assert ids == [ids[0]] + ids[1..];
      var rest := SortByName(tags, ids[1..]);
      InsertByNameSorted(tags, ids[0], rest);
      InsertByName(tags, ids[0], rest)
  }

  /** The caller's tag ids, largest first, before sorting by name. */
  function OwnedTagIds(s: Snapshot, user: UserId): (ids: seq<TagId>)
    requires s.Valid()
    ensures AllIn(s.tags, ids)
    ensures forall id :: id in ids <==> id in s.tags && s.tags[id].owner == user
  {
    var mine := set id | id in s.tags && s.tags[id].owner == user;
    DescendingIds(mine, s.nextTagId)
  }

  /** `TagViewSet.get_queryset`: the caller's tags, `order_by('-name')`. */
  function TagQueryset(s: Snapshot, user: UserId): (ids: seq<TagId>)
    requires s.Valid()
    ensures AllIn(s.tags, ids)
    ensures forall id :: id in ids <==> id in s.tags && s.tags[id].owner == user
    ensures SortedByNameDesc(s.tags, ids)
  {
    var owned := OwnedTagIds(s, user);
    var r := SortByName(s.tags, owned);
    assert forall id :: id in r <==> id in multiset(r);
    assert forall id :: id in owned <==> id in multiset(owned);
    r
  }

  /** `get_object` on the recipe viewset: a row outside the queryset is not found. */
  function RecipeDetail(s: Snapshot, user: UserId, id: RecipeId): (r: Option<Recipe>)
    requires s.Valid()
    ensures r.Some? <==> id in s.recipes && s.recipes[id].owner == user
    ensures r.Some? ==> r.value == s.recipes[id]
  {
    if id in RecipeQueryset(s, user) then Some(s.recipes[id]) else None
  }

  /** `get_object` on the tag viewset. */
  function TagDetail(s: Snapshot, user: UserId, id: TagId): (r: Option<Tag>)
    requires s.Valid()
    ensures r.Some? <==> id in s.tags && s.tags[id].owner == user
    ensures r.Some? ==> r.value == s.tags[id]
  {
    if id in TagQueryset(s, user) then Some(s.tags[id]) else None
  }

  /**
   * `create` on the recipe viewset: validate with the details serializer
   * (an invalid body is refused and nothing is written), then
   * `perform_create` saves it with the caller as owner.
   */
  method PerformCreate(db: Database, user: UserId, req: Serializers.Request) returns (status: Status, id: RecipeId)
    requires db.Valid()
    modifies db
    ensures db.Valid()
    ensures status != NotFound
    ensures status == Invalid <==> Serializers.Validate(SerializerClass(Create), req).None?
    ensures status == Invalid ==> db.State() == old(db.State())
    ensures status == Ok ==>
              Serializers.Created(db.State(), id) ==
              Serializers.CreateSpec(old(db.State()), user, Serializers.Validate(SerializerClass(Create), req).value)
    ensures status == Ok ==> id in db.recipes && db.recipes[id].owner == user
    ensures old(db.State()).TagsOwnedByRecipeOwner() ==> db.State().TagsOwnedByRecipeOwner()
  {
    ghost var s0 := db.State();
    var data := Serializers.Validate(SerializerClass(Create), req);
    if data.None? {
      return Invalid, 0;
    }
    id := Serializers.Create(db, user, data.value);
    if s0.TagsOwnedByRecipeOwner() {
      Serializers.CreateKeepsOwnership(s0, user, data.value);
    }
    status := Ok;
  }

  /**
   * `update` (PUT) and `partial_update` (PATCH) on the recipe viewset: look
   * the recipe up in the caller's queryset, validate the body with the
   * details serializer, then let it update the recipe.
   */
  method RecipeUpdate(db: Database, user: UserId, id: RecipeId, partial: bool, req: Serializers.Request)
    returns (status: Status)
    requires db.Valid()
    modifies db
    ensures db.Valid()
    ensures status == NotFound <==> RecipeDetail(old(db.State()), user, id).None?
    ensures status == Invalid <==>
              RecipeDetail(old(db.State()), user, id).Some? && Serializers.Validate(Serializers.RecipeDetails, req).None?
    ensures status != Ok ==> db.State() == old(db.State())
    ensures status == Ok ==>
              db.State() == Serializers.UpdateSpec(old(db.State()), user, id,
                                                   Serializers.Validate(Serializers.RecipeDetails, req).value)
    ensures old(db.State()).TagsOwnedByRecipeOwner() ==> db.State().TagsOwnedByRecipeOwner()
  {
    ghost var s0 := db.State();
    var action := if partial then PartialUpdate else Update;
    var found := RecipeDetail(db.State(), user, id);
    if found.None? {
      return NotFound;
    }
    var data := Serializers.Validate(SerializerClass(action), req);
    if data.None? {
      return Invalid;
    }
    Serializers.Update(db, user, id, data.value);
    if s0.TagsOwnedByRecipeOwner() {
      Serializers.UpdateKeepsOwnership(s0, user, id, data.value);
    }
    status := Ok;
  }

  /** `destroy` on the recipe viewset. */
  method RecipeDestroy(db: Database, user: UserId, id: RecipeId) returns (status: Status)
    requires db.Valid()
    modifies db
    ensures db.Valid()
    ensures status != Invalid
    ensures status == Ok <==> RecipeDetail(old(db.State()), user, id).Some?
    ensures status == NotFound ==> db.State() == old(db.State())
    ensures status == Ok ==> db.State() == old(db.State()).(recipes := old(db.recipes) - {id})
    ensures old(db.State()).TagsOwnedByRecipeOwner() ==> db.State().TagsOwnedByRecipeOwner()
  {
    var found := RecipeDetail(db.State(), user, id);
    if found.None? {
      return NotFound;
    }
    db.DeleteRecipe(id);
    status := Ok;
  }

  /** `destroy` on the tag viewset: the tag row goes and is detached everywhere. */
  method TagDestroy(db: Database, user: UserId, id: TagId) returns (status: Status)
    requires db.Valid()
    modifies db
    ensures db.Valid()
    ensures status != Invalid
    ensures status == Ok <==> TagDetail(old(db.State()), user, id).Some?
    ensures status == NotFound ==> db.State() == old(db.State())
    ensures status == Ok ==>
              db.State() == old(db.State()).(tags := old(db.tags) - {id},
                                             recipes := map r | r in old(db.recipes) :: old(db.recipes[r]).(tags := old(db.recipes[r].tags) - {id}))
    ensures old(db.State()).TagsOwnedByRecipeOwner() ==> db.State().TagsOwnedByRecipeOwner()
  {
    var found := TagDetail(db.State(), user, id);
    if found.None? {
      return NotFound;
    }
    db.DeleteTag(id);
    status := Ok;
  }
}
