/**
 * The recipe serializers: which fields a client may write, how the nested
 * list of tag names is resolved against the caller's tags (get-or-create),
 * and what creating and updating a recipe does to the store.
 *
 * The serializer instance's context (the request user) and the `user`
 * passed to `save()` by the view are parameters here.
 */
module Serializers {
  import opened Models

  /** `RecipeSerializer` (list) and `RecipeDetailsSerializer` (everything else). */
  datatype SerializerKind = RecipeSummary | RecipeDetails

  /** `TagSerializer.Meta.fields`. */
  const TagSerializerFields: seq<Field> := [Id, Name]

  /**
   * A nested tag element writes its name and nothing else: `id` is
   * read-only, so `TagInput` carries `id` only to show it is ignored.
   */
  lemma NestedTagWritesOnlyName()
    ensures forall f :: f in TagSerializerFields && f !in ReadOnlyFields <==> f == Name
  {
  }

  /** `RecipeSerializer.Meta.fields`. */
  const RecipeSerializerFields: seq<Field> :=
    [Id, Scalar(Title), Scalar(TimeMinutes), Scalar(Price), Scalar(Link), Tags]

  /** `read_only_fields` of every serializer here. */
  const ReadOnlyFields: set<Field> := {Id}

  /** The fields a recipe serializer shows; the details serializer adds `description`. */
  function Fields(kind: SerializerKind): (fs: seq<Field>)
    ensures Id in fs && Scalar(Title) in fs && Tags in fs
    ensures Scalar(Description) in fs <==> kind == RecipeDetails
    ensures User !in fs
  {
    match kind
    case RecipeSummary => RecipeSerializerFields
    case RecipeDetails => RecipeSerializerFields + [Scalar(Description)]
  }

  const AllColumns: seq<Column> := [Title, TimeMinutes, Price, Link, Description]

  lemma ColumnListed(c: Column)
    ensures c in AllColumns
  {
    match c
    case Title => assert AllColumns[0] == c;
    case TimeMinutes => assert AllColumns[1] == c;
    case Price => assert AllColumns[2] == c;
    case Link => assert AllColumns[3] == c;
    case Description => assert AllColumns[4] == c;
  }

  /** The scalar columns a client can write through a serializer of this kind. */
  function WritableScalars(kind: SerializerKind): (cs: set<Column>)
    ensures forall c :: c in cs <==> c != Description || kind == RecipeDetails
  {
    var fs := Fields(kind);
    assert fs[1] == Scalar(Title) && fs[2] == Scalar(TimeMinutes) && fs[3] == Scalar(Price) && fs[4] == Scalar(Link);
    var cs := set c | c in AllColumns && Scalar(c) in fs && Scalar(c) !in ReadOnlyFields;
    forall c: Column ensures c in cs <==> c != Description || kind == RecipeDetails {
      ColumnListed(c);
      if c != Description {
        assert Scalar(c) in fs;
      }
    }
    cs
  }

  /** Python's `str.isspace()`: the characters `str.strip()` removes. */
  predicate IsSpace(c: char) {
    var n := c as int;
    n == 0x20 || 0x09 <= n <= 0x0D || 0x1C <= n <= 0x1F || n == 0x85 || n == 0xA0 ||
    n == 0x1680 || 0x2000 <= n <= 0x200A || n == 0x2028 || n == 0x2029 ||
    n == 0x202F || n == 0x205F || n == 0x3000
  }

  /** `s.lstrip()`: drop the leading whitespace and nothing else. */
  function TrimStart(s: string): (r: string)
    ensures |r| <= |s| && r == s[|s| - |r|..]
    ensures forall i :: 0 <= i < |s| - |r| ==> IsSpace(s[i])
    ensures r != [] ==> !IsSpace(r[0])
  {
    if s != [] && IsSpace(s[0]) then TrimStart(s[1..]) else s
  }

  /** `s.rstrip()`: drop the trailing whitespace and nothing else. */
  function TrimEnd(s: string): (r: string)
    ensures |r| <= |s| && r == s[..|r|]
    ensures forall i :: |r| <= i < |s| ==> IsSpace(s[i])
    ensures r != [] ==> !IsSpace(r[|r| - 1])
  {
    if s != [] && IsSpace(s[|s| - 1]) then TrimEnd(s[..|s| - 1]) else s
  }

  /** `s.strip()`, which a serializer `CharField` applies to its input. */
  function Trim(s: string): (r: string)
    ensures r != [] ==> !IsSpace(r[0]) && !IsSpace(r[|r| - 1])
  {
    TrimEnd(TrimStart(s))
  }

  /** Stripping twice is stripping once. */
  lemma TrimIdempotent(s: string)
    ensures Trim(Trim(s)) == Trim(s)
  {
    var r := Trim(s);
    assert TrimStart(r) == r;
  }

  /** Leading whitespace does not change what a name strips to. */
  lemma {:induction false} TrimIgnoresPadding(s: string, pad: string)
    requires forall i :: 0 <= i < |pad| ==> IsSpace(pad[i])
    ensures TrimStart(pad + s) == TrimStart(s) && Trim(pad + s) == Trim(s)
    decreases |pad|
  {
    if pad == [] {
      assert pad + s == s;
    } else {
      assert (pad + s)[0] == pad[0];
      assert (pad + s)[1..] == pad[1..] + s;
      TrimIgnoresPadding(s, pad[1..]);
      assert TrimStart(pad + s) == TrimStart(pad[1..] + s);
    }
  }

  /** One element of the nested `tags` list as the client sent it; `name`
      is `None` when the element has no `name` key. */
  datatype TagInput = TagInput(id: Option<TagId>, name: Option<string>)

  /** A request body as the client sent it: any fields, including ones no
      serializer declares (`user`, `id`), and an optional `tags` list. */
  datatype Request = Request(values: map<Field, Value>, tags: Option<seq<TagInput>>)

  /** `validated_data`: only declared, writable columns survive, and the tag
      names as the nested serializer cleaned them. */
  datatype Payload = Payload(values: map<Column, Value>, tags: Option<seq<string>>)

  /**
   * The `name` field `TagSerializer` generates for the tag model refuses a
   * missing name, a name that is blank once stripped, and a name holding a
   * NUL character.
   */
  predicate BadTagName(name: Option<string>) {
    name.None? || Trim(name.value) == [] || '\0' in name.value
  }

  /**
   * Field-level validation of a request body (`is_valid`). Undeclared and
   * read-only keys are dropped, so neither the owner nor the id reaches
   * `create`/`update`. A nested tag keeps only its stripped `name`, since
   * `id` is read-only on `TagSerializer`; one bad name fails the whole
   * request, and then nothing is saved.
   */
  function Validate(kind: SerializerKind, req: Request): (p: Option<Payload>)
    ensures p.None? <==>
              req.tags.Some? && exists i :: 0 <= i < |req.tags.value| && BadTagName(req.tags.value[i].name)
    ensures p.Some? ==> forall c :: c in p.value.values <==> c in WritableScalars(kind) && Scalar(c) in req.values
    ensures p.Some? ==> forall c :: c in p.value.values ==> p.value.values[c] == req.values[Scalar(c)]
    ensures p.Some? ==> (p.value.tags.Some? <==> req.tags.Some?)
    ensures p.Some? && p.value.tags.Some? ==>
              |p.value.tags.value| == |req.tags.value| &&
              forall i :: 0 <= i < |p.value.tags.value| ==>
                req.tags.value[i].name.Some? && p.value.tags.value[i] == Trim(req.tags.value[i].name.value) &&
                p.value.tags.value[i] != []
  {
    var values := map c | c in WritableScalars(kind) && Scalar(c) in req.values :: req.values[Scalar(c)];
    match req.tags
    case None => Some(Payload(values, None))
    case Some(ts) =>
      var names := CleanTags(ts);
      if names.None? then None else Some(Payload(values, names))
  }

  /** The nested `TagSerializer(many=True)`: every element must carry a good
      name, and each is cleaned to its stripped name. */
  function CleanTags(ts: seq<TagInput>): (r: Option<seq<string>>)
    ensures r.None? <==> exists i :: 0 <= i < |ts| && BadTagName(ts[i].name)
    ensures r.Some? ==>
              |r.value| == |ts| &&
              forall i :: 0 <= i < |ts| ==>
                ts[i].name.Some? && r.value[i] == Trim(ts[i].name.value) && r.value[i] != []
  {
    if exists i :: 0 <= i < |ts| && BadTagName(ts[i].name) then None
    else Some(seq(|ts|, i requires 0 <= i < |ts| => Trim(ts[i].name.value)))
  }

  /** A good name with leading whitespace is still good and strips alike. */
  lemma PaddedNameCleansAlike(name: string, pad: string)
    requires forall i :: 0 <= i < |pad| ==> IsSpace(pad[i])
    requires !BadTagName(Some(name))
    ensures !BadTagName(Some(pad + name)) && Trim(pad + name) == Trim(name)
  {
    TrimIgnoresPadding(name, pad);
    NoNulInWhitespace(pad);
    assert forall c :: c in pad + name <==> c in pad || c in name;
  }

  lemma NoNulInWhitespace(pad: string)
    requires forall i :: 0 <= i < |pad| ==> IsSpace(pad[i])
    ensures '\0' !in pad
  {
    forall i | 0 <= i < |pad| ensures pad[i] != '\0' {
      assert IsSpace(pad[i]);
    }
  }

  /**
   * Two nested tags whose names differ only by leading whitespace are
   * validated to the same name, so they resolve to one tag.
   */
  lemma ValidateMergesPaddedNames(kind: SerializerKind, values: map<Field, Value>, name: string, pad: string)
    requires forall i :: 0 <= i < |pad| ==> IsSpace(pad[i])
    requires !BadTagName(Some(name))
    ensures var p := Validate(kind, Request(values, Some([TagInput(None, Some(name)), TagInput(None, Some(pad + name))])));
            && p.Some? && p.value.tags.Some? && |p.value.tags.value| == 2
            && p.value.tags.value[0] == p.value.tags.value[1] == Trim(name)
  {
    var ts := [TagInput(None, Some(name)), TagInput(None, Some(pad + name))];
    PaddedNameCleansAlike(name, pad);
    forall i | 0 <= i < |ts| ensures !BadTagName(ts[i].name) {
      if i == 1 {
        assert ts[i].name == Some(pad + name);
      }
    }
    var names := CleanTags(ts);
    assert names.Some? && names.value[0] == Trim(name) && names.value[1] == Trim(pad + name);
  }

  /**
   * The nested tags as the source validates them. When the root serializer
   * is partial (PATCH), a missing `name` is skipped instead of refused, so
   * the element reaches `create`/`update` with no name at all.
   */
  function CleanTagsAsWritten(partial: bool, ts: seq<TagInput>): (r: Option<seq<Option<string>>>)
    ensures r.None? <==>
              exists i :: 0 <= i < |ts| && (if ts[i].name.None? then !partial else BadTagName(ts[i].name))
    ensures r.Some? ==>
              |r.value| == |ts| &&
              forall i :: 0 <= i < |ts| ==>
                (r.value[i].None? <==> ts[i].name.None?) &&
                (r.value[i].Some? ==> r.value[i].value == Trim(ts[i].name.value) && r.value[i].value != [])
  {
    if exists i :: 0 <= i < |ts| && (if ts[i].name.None? then !partial else BadTagName(ts[i].name)) then None
    else Some(seq(|ts|, i requires 0 <= i < |ts| =>
                if ts[i].name.None? then None else Some(Trim(ts[i].name.value))))
  }

  /** What `Tag.objects.get_or_create` does with the keyword arguments it gets. */
  datatype Lookup = Found(id: TagId) | Inserted(id: TagId, tag: Tag) | MultipleObjectsReturned

  /** The caller's tags, whatever their name. */
  function OwnedTags(tags: TagTable, user: UserId): set<TagId> {
    set id | id in tags && tags[id].owner == user
  }

  /**
   * `get_or_create(user=user, **tag)` as written: a nested tag with no name
   * filters on the owner alone, and an insert without a name stores the
   * column's default, the empty string.
   */
  ghost function GetOrCreateAsWritten(tags: TagTable, nextId: nat, user: UserId, name: Option<string>): (r: Lookup)
    ensures r.Found? ==> r.id in tags && tags[r.id].owner == user && (name.Some? ==> tags[r.id].name == name.value)
    ensures r.Inserted? <==> (if name.None? then OwnedTags(tags, user) else Matching(tags, user, name.value)) == {}
    ensures r.Inserted? ==> r.id == nextId && r.tag == Tag(user, name.GetOr(""))
    ensures r.Found? ==>
              |if name.None? then OwnedTags(tags, user) else Matching(tags, user, name.value)| == 1
    ensures r.MultipleObjectsReturned? <==>
              |if name.None? then OwnedTags(tags, user) else Matching(tags, user, name.value)| >= 2
  {
    var hits := if name.None? then OwnedTags(tags, user) else Matching(tags, user, name.value);
    if hits == {} then Inserted(nextId, Tag(user, name.GetOr("")))
    else if |hits| == 1 then
      var id :| id in hits;
      Found(id)
    else MultipleObjectsReturned
  }

  /**
   * A PATCH whose nested tag has no name passes validation, and for a
   * caller with no tags it inserts a tag with the blank name that the
   * `name` field refuses everywhere else.
   */
  lemma PatchNamelessTagCreatesBlankName(user: UserId)
    ensures CleanTagsAsWritten(true, [TagInput(None, None)]) == Some([None])
    ensures GetOrCreateAsWritten(map[], FirstId, user, None) == Inserted(FirstId, Tag(user, ""))
    ensures BadTagName(Some(""))
    ensures CleanTags([TagInput(None, None)]).None?
  {
    var ts := [TagInput(None, None)];
    var r := CleanTagsAsWritten(true, ts);
    assert r.Some? && |r.value| == 1 && r.value[0].None?;
    assert r.value == [r.value[0]];
    assert OwnedTags(map[], user) == {};
    assert BadTagName(ts[0].name);
  }

  /**
   * The same PATCH for a caller with two tags makes `get_or_create` raise,
   * after `update` has already cleared the recipe's tags.
   */
  lemma PatchNamelessTagFailsWithTwoTags(user: UserId)
    ensures GetOrCreateAsWritten(map[1 := Tag(user, "a"), 2 := Tag(user, "b")], 3, user, None) == MultipleObjectsReturned
  {
    var tags := map[1 := Tag(user, "a"), 2 := Tag(user, "b")];
    assert OwnedTags(tags, user) == {1, 2};
  }

  /** What `get_or_create` returns: the store's tag table afterwards and the tag's id. */
  datatype Resolved = Resolved(tags: TagTable, nextId: nat, id: TagId)

  /**
   * `Tag.objects.get_or_create(user=user, name=name)`: reuse the caller's tag
   * of that name if there is one, otherwise insert it under a fresh id.
   */
  ghost function GetOrCreate(tags: TagTable, nextId: nat, user: UserId, name: string): (r: Resolved)
    requires IdsBelow(tags, nextId)
    ensures r.id in r.tags && r.tags[r.id] == Tag(user, name)
    ensures IdsBelow(r.tags, r.nextId) && nextId <= r.nextId
    ensures Matching(tags, user, name) != {} ==> r.id in tags && r.tags == tags && r.nextId == nextId
    ensures Matching(tags, user, name) == {} ==> r.id !in tags && r.tags == tags[r.id := Tag(user, name)]
    ensures UniqueTagNames(tags) ==> UniqueTagNames(r.tags)
  {
    var found := Matching(tags, user, name);
    if found == {} then
      InsertKeepsUnique(tags, nextId, Tag(user, name));
      Resolved(tags[nextId := Tag(user, name)], nextId + 1, nextId)
    else
      var id :| id in found;
      Resolved(tags, nextId, id)
  }

  /** Inserting a row under a fresh id keeps tag rows unique when no row equals it. */
  lemma InsertKeepsUnique(tags: TagTable, id: TagId, t: Tag)
    requires id !in tags && Matching(tags, t.owner, t.name) == {}
    ensures UniqueTagNames(tags) ==> UniqueTagNames(tags[id := t])
  {
    forall a | a in tags ensures tags[a] != t {
      assert a !in Matching(tags, t.owner, t.name);
    }
  }

  /** The store after reconciling a list of names, and the ids it resolved to. */
  datatype Reconciled = Reconciled(tags: TagTable, nextId: nat, ids: set<TagId>)

  /**
   * `_get_or_create_tags`: get-or-create each name in order and collect the
   * resolved ids (the ids the loop adds to the recipe's tag relation).
   */
  ghost function Reconcile(tags: TagTable, nextId: nat, user: UserId, names: seq<string>): (r: Reconciled)
    requires IdsBelow(tags, nextId)
    ensures IdsBelow(r.tags, r.nextId) && nextId <= r.nextId
    ensures forall id :: id in tags ==> id in r.tags && r.tags[id] == tags[id]
    ensures forall id :: id in r.tags && id !in tags ==> r.tags[id].owner == user && r.tags[id].name in names
    ensures forall id :: id in r.ids ==> id in r.tags && r.tags[id].owner == user && r.tags[id].name in names
    ensures forall n :: n in names ==> Matching(r.tags, user, n) != {}
    ensures UniqueTagNames(tags) ==> UniqueTagNames(r.tags)
    decreases |names|
  {
    if names == [] then
      Reconciled(tags, nextId, {})
    else
      var prefix, last := names[..|names| - 1], names[|names| - 1];
      assert names == prefix + [last];
      assert forall n :: n in names <==> n in prefix || n == last;
      var prev := Reconcile(tags, nextId, user, prefix);
      var g := GetOrCreate(prev.tags, prev.nextId, user, last);
      MatchesPersist(prev.tags, prev.nextId, user, last, prefix);
      Reconciled(g.tags, g.nextId, prev.ids + {g.id})
  }

  /** Reconciling one more name is one more get-or-create. */
  lemma ReconcileSnoc(tags: TagTable, nextId: nat, user: UserId, names: seq<string>, name: string)
    requires IdsBelow(tags, nextId)
    ensures var prev := Reconcile(tags, nextId, user, names);
            var g := GetOrCreate(prev.tags, prev.nextId, user, name);
            Reconcile(tags, nextId, user, names + [name]) == Reconciled(g.tags, g.nextId, prev.ids + {g.id})
  {
    var s := names + [name];
    assert s[..|s| - 1] == names && s[|s| - 1] == name;
  }

  /** The same step, stated on the prefixes of one list. */
  lemma ReconcileStep(tags: TagTable, nextId: nat, user: UserId, names: seq<string>, i: nat)
    requires IdsBelow(tags, nextId) && i < |names|
    ensures var prev := Reconcile(tags, nextId, user, names[..i]);
            var g := GetOrCreate(prev.tags, prev.nextId, user, names[i]);
            Reconcile(tags, nextId, user, names[..i + 1]) == Reconciled(g.tags, g.nextId, prev.ids + {g.id})
  {
    assert names[..i + 1] == names[..i] + [names[i]];
    ReconcileSnoc(tags, nextId, user, names[..i], names[i]);
  }

  lemma UpdateTwice<K, V>(m: map<K, V>, k: K, a: V, b: V)
    ensures m[k := a][k := b] == m[k := b]
  {
  }

  lemma UnionAssoc<T>(a: set<T>, b: set<T>, x: T)
    ensures a + b + {x} == a + (b + {x})
  {
  }

  /** A name that had a tag of `user` still has one after a get-or-create. */
  lemma MatchesPersist(tags: TagTable, nextId: nat, user: UserId, name: string, names: seq<string>)
    requires IdsBelow(tags, nextId)
    requires forall n :: n in names ==> Matching(tags, user, n) != {}
    ensures var g := GetOrCreate(tags, nextId, user, name);
            forall n :: n in names || n == name ==> Matching(g.tags, user, n) != {}
  {
    var g := GetOrCreate(tags, nextId, user, name);
    assert g.id in Matching(g.tags, user, name);
    forall n | n in names ensures Matching(g.tags, user, n) != {} {
      var id :| id in Matching(tags, user, n);
      assert id in Matching(g.tags, user, n);
    }
  }

  /** The caller's tags whose name appears in `names`. */
  ghost function OwnedNamed(tags: TagTable, user: UserId, names: seq<string>): set<TagId> {
    set id | id in tags && tags[id].owner == user && tags[id].name in names
  }

  /** The distinct names of a list. */
  ghost function Distinct(names: seq<string>): set<string> {
    set n | n in names
  }

  /**
   * Reconciliation resolves a list to exactly the caller's tags that carry
   * one of its names: each listed name is attached, nothing else is, and a
   * same-named tag of another user is never picked.
   */
  lemma {:induction false} ReconcileResolves(tags: TagTable, nextId: nat, user: UserId, names: seq<string>)
    requires IdsBelow(tags, nextId) && UniqueTagNames(tags)
    ensures var r := Reconcile(tags, nextId, user, names);
            r.ids == OwnedNamed(r.tags, user, names)
    decreases |names|
  {
    if names == [] {
      assert OwnedNamed(tags, user, names) == {};
    } else {
      var prefix, last := names[..|names| - 1], names[|names| - 1];
      assert names == prefix + [last];
      ReconcileResolves(tags, nextId, user, prefix);
      ReconcileSnoc(tags, nextId, user, prefix, last);
      var prev := Reconcile(tags, nextId, user, prefix);
      ResolveStep(prev.tags, prev.nextId, user, prefix, last);
    }
  }

  /** One get-or-create extends "the caller's tags named in the list" by the resolved tag. */
  lemma ResolveStep(tags: TagTable, nextId: nat, user: UserId, names: seq<string>, name: string)
    requires IdsBelow(tags, nextId) && UniqueTagNames(tags)
    ensures var g := GetOrCreate(tags, nextId, user, name);
            OwnedNamed(tags, user, names) + {g.id} == OwnedNamed(g.tags, user, names + [name])
  {
    var g := GetOrCreate(tags, nextId, user, name);
    forall id | id in g.tags && g.tags[id].owner == user && g.tags[id].name in names + [name]
      ensures id in OwnedNamed(tags, user, names) + {g.id}
    {
      if g.tags[id].name == name {
        assert g.tags[id] == g.tags[g.id];
      } else {
        assert id in tags;
      }
    }
  }

  /** When every listed name already has a tag of the caller, nothing is created. */
  lemma {:induction false} ReconcileReusesAll(tags: TagTable, nextId: nat, user: UserId, names: seq<string>)
    requires IdsBelow(tags, nextId)
    requires forall n :: n in names ==> Matching(tags, user, n) != {}
    ensures var r := Reconcile(tags, nextId, user, names);
            r.tags == tags && r.nextId == nextId
    decreases |names|
  {
    if names != [] {
      var prefix, last := names[..|names| - 1], names[|names| - 1];
      assert names == prefix + [last];
      ReconcileReusesAll(tags, nextId, user, prefix);
    }
  }

  /**
   * Reconciling the same list again for the same user creates no tag and
   * resolves to the same ids.
   */
  lemma ReconcileIdempotent(tags: TagTable, nextId: nat, user: UserId, names: seq<string>)
    requires IdsBelow(tags, nextId) && UniqueTagNames(tags)
    ensures var r := Reconcile(tags, nextId, user, names);
            Reconcile(r.tags, r.nextId, user, names) == r
  {
    var r := Reconcile(tags, nextId, user, names);
    ReconcileReusesAll(r.tags, r.nextId, user, names);
    ReconcileResolves(tags, nextId, user, names);
    ReconcileResolves(r.tags, r.nextId, user, names);
  }

  /**
   * One resolved tag per distinct name: a name listed twice yields a single
   * attached tag.
   */
  lemma {:induction false} ReconcileCount(tags: TagTable, nextId: nat, user: UserId, names: seq<string>)
    requires IdsBelow(tags, nextId) && UniqueTagNames(tags)
    ensures |Reconcile(tags, nextId, user, names).ids| == |Distinct(names)|
    decreases |names|
  {
    if names == [] {
      assert Distinct(names) == {};
    } else {
      var prefix, last := names[..|names| - 1], names[|names| - 1];
      assert names == prefix + [last];
      var prev := Reconcile(tags, nextId, user, prefix);
      var g := GetOrCreate(prev.tags, prev.nextId, user, last);
      ReconcileCount(tags, nextId, user, prefix);
      ReconcileSnoc(tags, nextId, user, prefix, last);
      DistinctSnoc(prefix, last);
      assert g.id in prev.ids <==> last in prefix by {
        ReconcileResolves(tags, nextId, user, prefix);
        if last in prefix {
          assert g.id in OwnedNamed(prev.tags, user, prefix);
        }
      }
      AddOne(prev.ids, g.id);
      AddOne(Distinct(prefix), last);
    }
  }

  lemma AddOne<T>(s: set<T>, x: T)
    ensures |s + {x}| == if x in s then |s| else |s| + 1
  {
    if x in s {
      assert s + {x} == s;
    }
  }

  lemma DistinctSnoc(names: seq<string>, name: string)
    ensures Distinct(names + [name]) == Distinct(names) + {name}
  {
    assert forall n :: n in names + [name] <==> n in names || n == name;
  }

  /**
   * Two users reconciling in turn never share a resolved tag, and the first
   * user's tags keep their owner.
   */
  lemma ReconcileSeparatesUsers(tags: TagTable, nextId: nat, u1: UserId, names1: seq<string>, u2: UserId, names2: seq<string>)
    requires IdsBelow(tags, nextId) && u1 != u2
    ensures var r1 := Reconcile(tags, nextId, u1, names1);
            var r2 := Reconcile(r1.tags, r1.nextId, u2, names2);
            r1.ids !! r2.ids && forall id :: id in r1.ids ==> r2.tags[id].owner == u1
  {
    var r1 := Reconcile(tags, nextId, u1, names1);
    var r2 := Reconcile(r1.tags, r1.nextId, u2, names2);
    forall id | id in r1.ids ensures id in r2.tags && r2.tags[id].owner == u1 && id !in r2.ids {
      assert r2.tags[id] == r1.tags[id];
    }
  }

  /** The store after `create`, and the new recipe's id. */
  datatype Created = Created(state: Snapshot, id: RecipeId)

  /**
   * `create`: pop `tags` (default empty), insert the recipe with the owner
   * given to `save()`, then reconcile the names onto it.
   */
  ghost function CreateSpec(s: Snapshot, user: UserId, data: Payload): (c: Created)
    requires s.Valid()
    ensures c.state.Valid()
    ensures c.id !in s.recipes && c.id in c.state.recipes
    ensures c.state.recipes[c.id].owner == user && c.state.recipes[c.id].values == data.values
    ensures c.state.recipes.Keys == s.recipes.Keys + {c.id}
    ensures forall id :: id in s.recipes ==> c.state.recipes[id] == s.recipes[id]
    ensures forall t :: t in s.tags ==> t in c.state.tags && c.state.tags[t] == s.tags[t]
    ensures forall t :: t in c.state.recipes[c.id].tags ==> c.state.tags[t].owner == user
    ensures data.tags.None? ==> c.state.recipes[c.id].tags == {} && c.state.tags == s.tags
  {
    var id := s.nextRecipeId;
    var rc := Reconcile(s.tags, s.nextTagId, user, data.tags.GetOr([]));
    Created(Snapshot(rc.tags, s.recipes[id := Recipe(user, data.values, rc.ids)], rc.nextId, id + 1), id)
  }

  /**
   * After `create`, the recipe's tags are exactly the caller's tags named in
   * the payload; a tag the caller already had under a listed name is the one
   * attached.
   */
  lemma CreateAttachesNamedTags(s: Snapshot, user: UserId, data: Payload)
    requires s.Valid()
    ensures var c := CreateSpec(s, user, data);
            && c.state.recipes[c.id].tags == OwnedNamed(c.state.tags, user, data.tags.GetOr([]))
            && forall t :: t in s.tags && s.tags[t].owner == user && s.tags[t].name in data.tags.GetOr([]) ==>
                 t in c.state.recipes[c.id].tags
  {
    ReconcileResolves(s.tags, s.nextTagId, user, data.tags.GetOr([]));
  }

  /** `create` keeps every attached tag owned by its recipe's owner. */
  lemma CreateKeepsOwnership(s: Snapshot, user: UserId, data: Payload)
    requires s.Valid() && s.TagsOwnedByRecipeOwner()
    ensures CreateSpec(s, user, data).state.TagsOwnedByRecipeOwner()
  {
    var c := CreateSpec(s, user, data);
    forall r, t | r in c.state.recipes && t in c.state.recipes[r].tags
      ensures t in c.state.tags && c.state.tags[t].owner == c.state.recipes[r].owner
    {
      if r != c.id {
        assert c.state.tags[t] == s.tags[t];
      }
    }
  }

  /** Creating with names the caller already has as tags adds no tag row. */
  lemma CreateWithExistingTagsAddsNone(s: Snapshot, user: UserId, data: Payload)
    requires s.Valid()
    requires forall n :: n in data.tags.GetOr([]) ==> Matching(s.tags, user, n) != {}
    ensures CreateSpec(s, user, data).state.tags == s.tags
  {
    ReconcileReusesAll(s.tags, s.nextTagId, user, data.tags.GetOr([]));
  }

  /**
   * `update`: when `tags` is present, clear the relation and reconcile the
   * new list; then overwrite the scalar fields present in the payload.
   */
  ghost function UpdateSpec(s: Snapshot, user: UserId, id: RecipeId, data: Payload): (s': Snapshot)
    requires s.Valid() && id in s.recipes
    ensures s'.Valid()
    ensures s'.recipes.Keys == s.recipes.Keys && s'.nextRecipeId == s.nextRecipeId
    ensures forall r :: r in s.recipes && r != id ==> s'.recipes[r] == s.recipes[r]
    ensures s'.recipes[id].owner == s.recipes[id].owner
    ensures forall f :: f in data.values ==> f in s'.recipes[id].values && s'.recipes[id].values[f] == data.values[f]
    ensures forall f :: f !in data.values ==>
              (f in s'.recipes[id].values <==> f in s.recipes[id].values) &&
              (f in s.recipes[id].values ==> s'.recipes[id].values[f] == s.recipes[id].values[f])
    ensures forall t :: t in s.tags ==> t in s'.tags && s'.tags[t] == s.tags[t]
    ensures data.tags.None? ==> s'.tags == s.tags && s'.recipes[id].tags == s.recipes[id].tags
  {
    var r := s.recipes[id];
    var retagged :=
      match data.tags
      case None => s
      case Some(names) =>
        var rc := Reconcile(s.tags, s.nextTagId, user, names);
        s.(tags := rc.tags, nextTagId := rc.nextId, recipes := s.recipes[id := r.(tags := rc.ids)]);
    retagged.(recipes := retagged.recipes[id := retagged.recipes[id].(values := r.values + data.values)])
  }

  /**
   * An update carrying `tags` replaces the relation: afterwards it holds
   * exactly the caller's tags named in the list, so an empty list leaves
   * none, and a detached tag still exists as a row.
   */
  lemma UpdateReplacesTags(s: Snapshot, user: UserId, id: RecipeId, data: Payload)
    requires s.Valid() && id in s.recipes && data.tags.Some?
    ensures var s' := UpdateSpec(s, user, id, data);
            && s'.recipes[id].tags == OwnedNamed(s'.tags, user, data.tags.value)
            && (data.tags.value == [] ==> s'.recipes[id].tags == {})
            && forall t :: t in s.recipes[id].tags && t !in s'.recipes[id].tags ==> t in s'.tags
  {
    ReconcileResolves(s.tags, s.nextTagId, user, data.tags.value);
  }

  /**
   * An update by the recipe's owner keeps every attached tag owned by its
   * recipe's owner; the views only hand the serializer such recipes.
   */
  lemma UpdateKeepsOwnership(s: Snapshot, user: UserId, id: RecipeId, data: Payload)
    requires s.Valid() && id in s.recipes && s.recipes[id].owner == user
    requires s.TagsOwnedByRecipeOwner()
    ensures UpdateSpec(s, user, id, data).TagsOwnedByRecipeOwner()
  {
    var s' := UpdateSpec(s, user, id, data);
    forall r, t | r in s'.recipes && t in s'.recipes[r].tags
      ensures t in s'.tags && s'.tags[t].owner == s'.recipes[r].owner
    {
      if r != id || data.tags.None? {
        assert s'.tags[t] == s.tags[t];
      }
    }
  }

  /** `_get_or_create_tags` for a single name: the ORM's get-or-create. */
  method GetOrCreateTag(db: Database, user: UserId, name: string) returns (id: TagId)
    requires db.Valid()
    modifies db
    ensures db.Valid()
    ensures db.recipes == old(db.recipes) && db.nextRecipeId == old(db.nextRecipeId)
    ensures Resolved(db.tags, db.nextTagId, id) == GetOrCreate(old(db.tags), old(db.nextTagId), user, name)
  {
    ghost var g := GetOrCreate(db.tags, db.nextTagId, user, name);
    var found := Matching(db.tags, user, name);
    if found == {} {
      id := db.InsertTag(user, name);
    } else {
      id :| id in found;
      assert db.tags[id] == db.tags[g.id];
    }
  }

  /**
   * `_get_or_create_tags`: for each name in order, get-or-create the
   * caller's tag and add it to the recipe's tag relation.
   */
  method GetOrCreateTags(db: Database, user: UserId, names: seq<string>, recipe: RecipeId)
    requires db.Valid() && recipe in db.recipes
    modifies db
    ensures db.Valid()
    ensures db.nextRecipeId == old(db.nextRecipeId)
    ensures var rc := Reconcile(old(db.tags), old(db.nextTagId), user, names);
            && db.tags == rc.tags && db.nextTagId == rc.nextId
            && db.recipes == old(db.recipes)[recipe := old(db.recipes[recipe]).(tags := old(db.recipes[recipe].tags) + rc.ids)]
  {
    ghost var tags0, next0, recipes0, attached0 := db.tags, db.nextTagId, db.recipes, db.recipes[recipe].tags;
    ghost var rc := Reconciled(tags0, next0, {});
    assert names[..0] == [];
    assert recipes0[recipe].(tags := attached0 + {}) == recipes0[recipe];
    for i := 0 to |names|
      invariant db.Valid() && recipe in db.recipes
      invariant db.nextRecipeId == old(db.nextRecipeId)
      invariant rc == Reconcile(tags0, next0, user, names[..i])
      invariant db.tags == rc.tags && db.nextTagId == rc.nextId
      invariant db.recipes == recipes0[recipe := recipes0[recipe].(tags := attached0 + rc.ids)]
    {
      ReconcileStep(tags0, next0, user, names, i);
      var id := GetOrCreateTag(db, user, names[i]);
      db.AddRecipeTag(recipe, id);
      UnionAssoc(attached0, rc.ids, id);
      UpdateTwice(recipes0, recipe, recipes0[recipe].(tags := attached0 + rc.ids), recipes0[recipe].(tags := attached0 + (rc.ids + {id})));
      rc := Reconciled(db.tags, db.nextTagId, rc.ids + {id});
    }
    assert names[..|names|] == names;
  }

  /**
   * The `setattr` loop of `update`: assign every payload field on the
   * instance; fields missing from the payload keep their value.
   */
  method AssignFields(values: map<Column, Value>, data: map<Column, Value>) returns (fields: map<Column, Value>)
    ensures fields == values + data
    ensures forall f :: f in data ==> f in fields && fields[f] == data[f]
    ensures forall f :: f !in data ==> (f in fields <==> f in values) && (f in values ==> fields[f] == values[f])
  {
    fields := values;
    var pending := data.Keys;
    while pending != {}
      invariant pending <= data.Keys
      invariant fields == values + map f | f in data && f !in pending :: data[f]
      decreases pending
    {
      var f :| f in pending;
      fields := fields[f := data[f]];
      pending := pending - {f};
    }
    assert (map f | f in data && f !in pending :: data[f]) == data;
  }

  /**
   * `create`, with the owner that `perform_create` passes to `save()`.
   * Returns the new recipe's id.
   */
  method Create(db: Database, user: UserId, data: Payload) returns (id: RecipeId)
    requires db.Valid()
    modifies db
    ensures db.Valid()
    ensures Created(db.State(), id) == CreateSpec(old(db.State()), user, data)
  {
    ghost var s0 := db.State();
    var tags := data.tags.GetOr([]);
    id := db.InsertRecipe(user, data.values);
    GetOrCreateTags(db, user, tags, id);
    ghost var rc := Reconcile(s0.tags, s0.nextTagId, user, tags);
    assert {} + rc.ids == rc.ids;
    UpdateTwice(s0.recipes, id, Recipe(user, data.values, {}), Recipe(user, data.values, rc.ids));
  }

  /**
   * `update`: replace the tag relation when `tags` is present, then assign
   * each remaining payload field and save the row.
   */
  method Update(db: Database, user: UserId, id: RecipeId, data: Payload)
    requires db.Valid() && id in db.recipes
    modifies db
    ensures db.Valid()
    ensures db.State() == UpdateSpec(old(db.State()), user, id, data)
  {
    ghost var s0 := db.State();
    if data.tags.Some? {
      ghost var rc := Reconcile(s0.tags, s0.nextTagId, user, data.tags.value);
      db.ClearRecipeTags(id);
      GetOrCreateTags(db, user, data.tags.value, id);
      assert {} + rc.ids == rc.ids;
      UpdateTwice(s0.recipes, id, s0.recipes[id].(tags := {}), s0.recipes[id].(tags := rc.ids));
    }
    var values := AssignFields(db.recipes[id].values, data.values);
    db.SaveRecipeValues(id, values);
  }
}
