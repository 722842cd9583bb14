# Recipe API: tags, recipes and per-user scoping

This project models the write path and the query scoping of a Django REST
recipe API. Authenticated users own recipes and tags. A recipe has scalar
columns (title, preparation time, price, link, description) and a
many-to-many relation to tags. A client sends a recipe with a nested list of
tag names. The serializer resolves each name to the caller's tag of that
name. It reuses the tag if it exists and creates it otherwise
(get-or-create), then attaches it to the recipe.

There are three modules:

- `Models` is the store. It holds the datatypes of the rows and a `Snapshot`
  value of the whole store with its invariant: ids lie below the
  auto-increment counters, `(owner, name)` tag pairs are unique, and every
  attached tag exists. `Database` is a class whose fields the ORM
  primitives update in place.
- `Serializers` holds the field lists and field-level validation. The
  validation includes the nested tag names. The generated `name` field
  strips each name and refuses one that is blank or holds a NUL. The model
  also refuses a nested tag with no `name` at all, including under PATCH,
  where the source lets it through (see "## Findings"). It also
  holds ghost specification functions for get-or-create, for reconciling a
  name list, and for `create` and `update`, with lemmas about them. The
  imperative methods that mirror the source's loops are proved equal to
  those functions.
- `Views` holds the recipe and tag querysets (filtered to the caller, then
  sorted), the serializer choice per action, and the scoped create, update
  and destroy actions. An action on a row outside the caller's queryset
  returns `NotFound` and leaves the store unchanged. A body the serializer
  refuses returns `Invalid`, and nothing is written.

The request user is a parameter. In the source it is the serializer's
context user and the `user` the view passes to `save()`. Both are the
authenticated caller.

## Model

| member | source | states |
|---|---|---|
| Models.Database.InsertTag | app/recipe/serializers.py:28-31 | The create branch of get-or-create inserts `Tag(owner, name)` under the next id. The store invariant, including unique `(owner, name)` pairs, is kept, and the recipe table is untouched. |
| Models.Database.InsertRecipe | app/recipe/serializers.py:37 | `Recipe.objects.create` adds a row with no tags under a fresh id. Nothing else changes. |
| Models.Database.AddRecipeTag | app/recipe/serializers.py:32 | `recipe.tags.add` adds exactly one tag to one recipe's relation. Tag rows are unchanged. |
| Models.Database.ClearRecipeTags | app/recipe/serializers.py:45 | `instance.tags.clear()` empties one recipe's relation. The tag rows themselves stay. |
| Models.Database.SaveRecipeValues | app/recipe/serializers.py:49 | `instance.save()` writes the scalar columns of one row. Owner, tags and other rows are unchanged. |
| Models.Database.DeleteRecipe | app/recipe/views.py:9-18 | Deleting a recipe removes exactly that row. Tags stay. |
| Models.Database.DeleteTag | app/recipe/views.py:31-42 | Deleting a tag removes the row and detaches it from every recipe. Nothing else changes. |
| Serializers.NestedTagWritesOnlyName | app/recipe/serializers.py:6-12 | `TagSerializer` declares `id` and `name` with `id` read-only, so `name` is the one field a nested tag element writes. |
| Serializers.Fields | app/recipe/serializers.py:15-22 | Both recipe serializers show `id`, `title` and `tags`. Only the details serializer shows `description`. Neither shows the owner. |
| Serializers.WritableScalars | app/recipe/serializers.py:19-22 | The writable columns are title, time, price and link, plus `description` exactly when the serializer is the details one. `id` is read-only, and `tags` is handled apart. |
| Serializers.Validate | app/recipe/serializers.py:6-22 | `is_valid` keeps exactly the request's scalar columns that the serializer declares writable, with their values. The owner and the id cannot survive, because the payload holds only columns. `tags` is present iff the request sent it. The request is refused iff some nested tag's name is missing, blank once stripped, or holds a NUL. Under PATCH a missing name is refused too, which is the corrected behaviour of "## Findings". Otherwise each nested tag becomes its stripped name (`id` is read-only on `TagSerializer`). |
| Serializers.CleanTags | app/recipe/serializers.py:6-17 | The nested `TagSerializer(many=True)` fails iff some element has a bad name. Otherwise it yields, position by position, each element's stripped, non-empty name. |
| Serializers.CleanTagsAsWritten | app/recipe/serializers.py:6-17 | The nested tags as the source validates them. The list fails iff some element has a bad name, or has no name and the root serializer is not partial. Otherwise each element keeps its stripped, non-empty name, or no name when it sent none (PATCH). |
| Serializers.GetOrCreateAsWritten | app/recipe/serializers.py:28-31 | `get_or_create(user=user, **tag)` with the arguments it gets. It inserts iff nothing matches. Without a name the filter is the owner alone, and the insert stores the empty name. A found tag is the caller's, with the given name if there is one, and is the only match. Two or more matches raise `MultipleObjectsReturned`, and only then. |
| Serializers.PatchNamelessTagCreatesBlankName | app/recipe/serializers.py:28-31 | A PATCH tag element with no name validates to an unnamed element. For a caller with no tags, get-or-create then inserts `Tag(user, "")`, a name the field refuses elsewhere. The corrected `CleanTags` refuses the element. |
| Serializers.PatchNamelessTagFailsWithTwoTags | app/recipe/serializers.py:28-31 | For a caller with two tags, the unnamed lookup raises "several rows returned". |
| Serializers.Trim | app/recipe/serializers.py:6-12 | The generated `name` field strips its input. The result is empty or starts and ends with a non-whitespace character. |
| Serializers.TrimStart | app/recipe/serializers.py:6-12 | The leading strip drops exactly a whitespace prefix, and the result starts with a non-whitespace character. |
| Serializers.TrimEnd | app/recipe/serializers.py:6-12 | The trailing strip drops exactly a whitespace suffix, and the result ends with a non-whitespace character. |
| Serializers.TrimIdempotent | app/recipe/serializers.py:6-12 | Stripping an already stripped name changes nothing. |
| Serializers.TrimIgnoresPadding | app/recipe/serializers.py:6-12 | Leading whitespace does not change what a name strips to. |
| Serializers.ValidateMergesPaddedNames | app/recipe/serializers.py:17-31 | Two nested tags whose names differ only by leading whitespace validate to the same stripped name, so get-or-create sees one name. |
| Serializers.GetOrCreate | app/recipe/serializers.py:28-31 | The result is a tag of the caller with that exact name. If one existed, it is reused and the store is unchanged. Otherwise exactly one row is inserted under a fresh id. Uniqueness is kept. |
| Serializers.GetOrCreateTag | app/recipe/serializers.py:28-31 | The imperative get-or-create leaves the store equal to `GetOrCreate` and returns its id. |
| Serializers.Reconcile | app/recipe/serializers.py:24-32 | Existing tag rows are never altered. New rows belong to the caller and carry listed names. Every resolved id is the caller's tag with a listed name. Every listed name ends with a matching tag. |
| Serializers.ReconcileResolves | app/recipe/serializers.py:26-32 | The resolved ids are exactly the caller's tags whose name is in the list. A same-named tag of another user is never picked. |
| Serializers.ReconcileReusesAll | app/recipe/serializers.py:27-32 | When every listed name already has a tag of the caller, no tag is created. |
| Serializers.ReconcileIdempotent | app/recipe/serializers.py:27-32 | Reconciling the same list a second time for the same user changes nothing and resolves to the same ids. |
| Serializers.ReconcileCount | app/recipe/serializers.py:27-32 | The number of resolved tags equals the number of distinct names. A duplicated name attaches one tag. |
| Serializers.ReconcileSeparatesUsers | app/recipe/serializers.py:26-30 | Two users reconciling in turn never share a resolved tag. The first user's tags keep their owner. |
| Serializers.GetOrCreateTags | app/recipe/serializers.py:24-32 | The loop over the names leaves the tag table equal to `Reconcile`'s. Its resolved ids are added to the recipe's relation, and no other recipe changes. |
| Serializers.CreateSpec | app/recipe/serializers.py:34-39 | `create` adds one recipe under a fresh id, owned by the saving user and holding the payload's columns. Other recipes and existing tag rows are unchanged. Attached tags are the user's. Without `tags`, the recipe has none and no tag row is added. |
| Serializers.CreateAttachesNamedTags | app/recipe/serializers.py:34-39 | After `create`, the recipe's tags are exactly the caller's tags named in the payload. A pre-existing tag of that name is the one attached. |
| Serializers.CreateWithExistingTagsAddsNone | app/recipe/serializers.py:27-32 | Creating with names the caller already has as tags leaves the tag table unchanged. |
| Serializers.CreateKeepsOwnership | app/recipe/serializers.py:34-39 | `create` preserves the invariant that every attached tag belongs to its recipe's owner. |
| Serializers.Create | app/recipe/serializers.py:34-39 | The imperative `create` leaves the store equal to `CreateSpec` and returns its id. |
| Serializers.UpdateSpec | app/recipe/serializers.py:41-50 | `update` keeps the set of recipes, the other recipes and the owner. Payload fields are overwritten and every other field is kept as it was. Tag rows are kept. Without `tags`, the relation and the tag table are untouched. |
| Serializers.UpdateReplacesTags | app/recipe/serializers.py:43-46 | With `tags` present, the relation becomes exactly the caller's tags named in the list. An empty list leaves none. A detached tag still exists as a row. |
| Serializers.UpdateKeepsOwnership | app/recipe/serializers.py:41-50 | An update of the caller's own recipe preserves the ownership invariant of attached tags. |
| Serializers.AssignFields | app/recipe/serializers.py:47-48 | The `setattr` loop sets every payload field to its payload value. Fields not in the payload keep their value. |
| Serializers.Update | app/recipe/serializers.py:41-50 | The imperative `update` leaves the store equal to `UpdateSpec`. |
| Views.SerializerClass | app/recipe/views.py:20-24 | `list` selects the summary serializer, which lacks `description`. Every other action selects the details serializer, which has it. |
| Views.RecipeQueryset | app/recipe/views.py:16-18 | The queryset holds exactly the caller's recipes, in strictly descending id order. |
| Views.CreatedRecipeListedFirst | app/recipe/views.py:16-18 | A freshly created recipe is the first entry of its owner's list. |
| Views.CreateHiddenFromOthers | app/recipe/views.py:16-18 | Another user's recipe list is identical before and after a create. |
| Views.SortByName | app/recipe/views.py:42 | `order_by('-name')` yields a permutation of its input, sorted by descending name. |
| Views.TagQueryset | app/recipe/views.py:41-42 | The tag queryset holds exactly the caller's tags, sorted by descending name. |
| Views.RecipeDetail | app/recipe/views.py:16-18 | A recipe lookup succeeds iff the recipe exists and the caller owns it. |
| Views.TagDetail | app/recipe/views.py:41-42 | A tag lookup succeeds iff the tag exists and the caller owns it. |
| Views.PerformCreate | app/recipe/views.py:26-28 | A body the details serializer refuses is `Invalid` and writes nothing. Otherwise `perform_create` leaves the store equal to `CreateSpec` of the validated payload with the caller as owner. The new recipe belongs to the caller, and the ownership invariant is kept. |
| Views.RecipeUpdate | app/recipe/views.py:16-24 | An update of a recipe outside the caller's queryset is not-found. An update whose body the details serializer refuses is invalid. Neither writes anything. Otherwise the store is `UpdateSpec` of the validated payload, and the ownership invariant is kept. |
| Views.RecipeDestroy | app/recipe/views.py:16-18 | Destroy never reports an invalid body. It succeeds iff the caller owns the recipe, and then exactly that recipe goes. Otherwise it is not-found, and the recipe still exists. |
| Views.TagDestroy | app/recipe/views.py:31-42 | Destroy never reports an invalid body. It succeeds iff the caller owns the tag. Then the new store is the old one with exactly that tag row gone and detached from every recipe, and the id counters are unchanged. Otherwise it is not-found and nothing changes. |

## Left out

- Ingredients: no ingredient serializer or viewset exists in the modelled code, so there is nothing to model.
- Waiting for the database at start-up: it is I/O polling with sleeps.
- Users, registration, tokens and the admin site are framework responsibilities. A user is an id here.
- HTTP status codes, authentication classes and URL routing: "not in the caller's queryset" is the `NotFound` result.
- Required-field, length, decimal and URL validation of scalars: the model definitions (`core/models.py`) are not part of this model. Scalars are opaque values, and PUT and PATCH validate alike.
- Serializers.Validate: follows the corrected behaviour of "## Findings". A nested tag without a name under PATCH is refused, with nothing written. The source instead clears the recipe's tags and runs an owner-only get-or-create, which `Serializers.GetOrCreateAsWritten` models.
- Serializers.BadTagName: does not check a tag name's maximum length, because that limit lives in the tag model, which is not part of this model. A name longer than the limit is accepted here, while the source refuses it.
- Tag rename through the tag viewset's update action: it goes through the generic mixin and the tag model, which are not part of this model. Renaming a tag to a name its owner already has would break the `(owner, name)` uniqueness the model keeps.
- Concurrent get-or-create, retries and transactions: the code has none. Each action is modelled as running alone.
- Database collation: names are ordered by code point, and ties in `order_by('-name')` can only come from equal names.
- Serializers.GetOrCreate: the model keeps `(owner, name)` tag pairs unique as a store invariant. This rules out the "several rows returned" error of `get_or_create`, so the model picks the single match. In the source that error is reachable: a tag renamed through the tag viewset's update action to a name its owner already has gives two rows with that pair, unless the tag model declares a uniqueness constraint. The tag model is not part of this model. A PATCH whose nested tag has no name is a second path to that error in the source (see "## Findings").
- The retrieve and list actions return serialized representations. The model returns the rows or ids they would render, not JSON.

## Findings

| source | as written | input that shows it | evidently intended | confidence | as-written member | corrected member |
|---|---|---|---|---|---|---|
| app/recipe/serializers.py:17-31 | Under PATCH the root serializer is partial, so the nested tag's required `name` is skipped when absent. `update` then clears the tags and calls `get_or_create(user=user)` with no name. | PATCH with `{"tags": [{}]}`. A caller with no tags gets `Tag(user, "")` attached. A caller with two tags gets "several rows returned" after the tags were cleared. | A nested tag without a name is refused on every method, so every stored tag name is non-blank. | medium, not executed | Serializers.PatchNamelessTagCreatesBlankName | Serializers.CleanTags |
