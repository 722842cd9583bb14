/**
 * The persistent store the recipe API works on: users own tags and recipes,
 * a recipe carries opaque scalar columns and a many-to-many set of tag ids.
 * The object-relational mapper is modelled as two tables (maps from an
 * auto-increment id to a record) held by one Database object.
 */
module Models {

  datatype Option<+T> = None | Some(value: T) {
    function GetOr(default: T): T {
      match this
      case Some(v) => v
      case None => default
    }
  }

  type UserId = nat
  type TagId = nat
  type RecipeId = nat

  /** The scalar columns of a recipe row. */
  datatype Column = Title | TimeMinutes | Price | Link | Description

  /** Names of the fields a serializer declares or a client may send. */
  datatype Field = Id | Name | User | Tags | Scalar(column: Column)

  /** Scalar column values; the model never looks inside them. */
  datatype Value = Text(text: string) | Integer(n: int) | Decimal(unscaled: int, places: nat)

  datatype Tag = Tag(owner: UserId, name: string)

  /** A recipe row: its owner, its scalar columns by field, and its tag relation. */
  datatype Recipe = Recipe(owner: UserId, values: map<Column, Value>, tags: set<TagId>)

  type TagTable = map<TagId, Tag>
  type RecipeTable = map<RecipeId, Recipe>

  /** The first id an auto-increment primary key hands out. */
  const FirstId: nat := 1

  /** Every key of the table lies below the next id the table will hand out. */
  predicate IdsBelow<T>(m: map<nat, T>, bound: nat) {
    forall id :: id in m ==> id < bound
  }

  /** No two tag rows share an (owner, name) pair. */
  ghost predicate UniqueTagNames(tags: TagTable) {
    forall a, b :: a in tags && b in tags && tags[a] == tags[b] ==> a == b
  }

  /** The ids of the tags `Tag.objects.filter(user=user, name=name)` would return. */
  function Matching(tags: TagTable, user: UserId, name: string): set<TagId> {
    set id | id in tags && tags[id] == Tag(user, name)
  }

  /** The whole store as a value. */
  datatype Snapshot = Snapshot(tags: TagTable, recipes: RecipeTable, nextTagId: nat, nextRecipeId: nat) {

    /** What the store guarantees at all times: fresh ids, unique (owner, name)
        tag pairs, and a tag relation that only points at existing tags. */
    ghost predicate Valid() {
      && IdsBelow(tags, nextTagId)
      && IdsBelow(recipes, nextRecipeId)
      && UniqueTagNames(tags)
      && forall r :: r in recipes ==> recipes[r].tags <= tags.Keys
    }

    /** Every tag attached to a recipe belongs to that recipe's owner. */
    ghost predicate TagsOwnedByRecipeOwner() {
      forall r, t :: r in recipes && t in recipes[r].tags ==> t in tags && tags[t].owner == recipes[r].owner
    }
  }

  /** The database: the tag table, the recipe table and their id sequences. */
  class Database {
    var tags: TagTable
    var recipes: RecipeTable
    var nextTagId: nat
    var nextRecipeId: nat

    function State(): Snapshot
      reads this
    {
      Snapshot(tags, recipes, nextTagId, nextRecipeId)
    }

    ghost predicate Valid()
      reads this
    {
      State().Valid()
    }

    constructor ()
      ensures Valid() && State().TagsOwnedByRecipeOwner()
      ensures State() == Snapshot(map[], map[], FirstId, FirstId)
    {
      tags, recipes := map[], map[];
      nextTagId, nextRecipeId := FirstId, FirstId;
    }

    /** `Tag.objects.create(user=owner, name=name)`. The model keeps
        (owner, name) pairs unique, so callers look for a match first. */
    method InsertTag(owner: UserId, name: string) returns (id: TagId)
      requires Valid() && Matching(tags, owner, name) == {}
      modifies this
      ensures Valid()
      ensures id == old(nextTagId) && id !in old(tags)
      ensures tags == old(tags)[id := Tag(owner, name)] && nextTagId == id + 1
      ensures recipes == old(recipes) && nextRecipeId == old(nextRecipeId)
    {
      id := nextTagId;
      forall a | a in tags ensures tags[a] != Tag(owner, name) {
        assert a !in Matching(tags, owner, name);
      }
      tags := tags[id := Tag(owner, name)];
      nextTagId := id + 1;
    }

    /** `Recipe.objects.create(user=owner, **values)`: a new row with no tags. */
    method InsertRecipe(owner: UserId, values: map<Column, Value>) returns (id: RecipeId)
      requires Valid()
      modifies this
      ensures Valid()
      ensures id == old(nextRecipeId) && id !in old(recipes)
      ensures recipes == old(recipes)[id := Recipe(owner, values, {})] && nextRecipeId == id + 1
      ensures tags == old(tags) && nextTagId == old(nextTagId)
    {
      id := nextRecipeId;
      recipes := recipes[id := Recipe(owner, values, {})];
      nextRecipeId := id + 1;
    }

    /** `recipe.tags.add(tag)`: add one pair to the many-to-many relation. */
    method AddRecipeTag(recipe: RecipeId, tag: TagId)
      requires Valid() && recipe in recipes && tag in tags
      modifies this
      ensures Valid()
      ensures recipes == old(recipes)[recipe := old(recipes[recipe]).(tags := old(recipes[recipe].tags) + {tag})]
      ensures tags == old(tags) && nextTagId == old(nextTagId) && nextRecipeId == old(nextRecipeId)
    {
      recipes := recipes[recipe := recipes[recipe].(tags := recipes[recipe].tags + {tag})];
    }

    /** `recipe.tags.clear()`: drop every pair of this recipe, keep the tag rows. */
    method ClearRecipeTags(recipe: RecipeId)
      requires Valid() && recipe in recipes
      modifies this
      ensures Valid()
      ensures recipes == old(recipes)[recipe := old(recipes[recipe]).(tags := {})]
      ensures tags == old(tags) && nextTagId == old(nextTagId) && nextRecipeId == old(nextRecipeId)
    {
      recipes := recipes[recipe := recipes[recipe].(tags := {})];
    }

    /** `instance.delete()` on a recipe: the row and its tag pairs go, the tags stay. */
    method DeleteRecipe(recipe: RecipeId)
      requires Valid()
      modifies this
      ensures Valid()
      ensures recipes == old(recipes) - {recipe}
      ensures tags == old(tags) && nextTagId == old(nextTagId) && nextRecipeId == old(nextRecipeId)
    {
      recipes := recipes - {recipe};
    }

    /** `instance.delete()` on a tag: the row goes and every recipe loses the pair. */
    method DeleteTag(tag: TagId)
      requires Valid()
      modifies this
      ensures Valid()
      ensures tags == old(tags) - {tag}
      ensures recipes == map r | r in old(recipes) :: old(recipes[r]).(tags := old(recipes[r].tags) - {tag})
      ensures nextTagId == old(nextTagId) && nextRecipeId == old(nextRecipeId)
    {
      tags := tags - {tag};
      recipes := map r | r in recipes :: recipes[r].(tags := recipes[r].tags - {tag});
    }

    /** `instance.save()`: write the instance's scalar columns back to its row. */
    method SaveRecipeValues(recipe: RecipeId, values: map<Column, Value>)
      requires Valid() && recipe in recipes
      modifies this
      ensures Valid()
      ensures recipes == old(recipes)[recipe := old(recipes[recipe]).(values := values)]
      ensures tags == old(tags) && nextTagId == old(nextTagId) && nextRecipeId == old(nextRecipeId)
    {
      recipes := recipes[recipe := recipes[recipe].(values := values)];
    }
  }
}
