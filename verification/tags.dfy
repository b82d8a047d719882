/** The two statics of the Tag model. */
module Tags {
  import opened Documents
  import opened RefLists

  /** `Tag.deleteMultipleTags(tagIds)`: every tag whose id is listed is
      deleted; every other tag, and every other collection, is untouched. */
  function DeleteMultipleTags(db: Db, tagIds: seq<Id>): (r: Db)
    ensures forall id :: id in r.tags <==> id in db.tags && id !in tagIds
    ensures forall id :: id in r.tags ==> r.tags[id] == db.tags[id]
    ensures r == db.(tags := r.tags)
  {
    db.(tags := map id | id in db.tags && id !in tagIds :: db.tags[id])
  }

  /** The tag with `recipeId` pulled from its recipes. */
  function WithoutRecipe(t: Tag, recipeId: Id): (r: Tag)
  {
    t.(recipes := Pull(t.recipes, recipeId))
  }

  /** `Tag.removeRecipeFromMultipleTags(tagIds, recipeId)`: the listed tags
      no longer refer to the recipe, and keep their name and the rest of
      their recipes in order; the other tags are untouched and no tag is
      created or deleted. */
  function RemoveRecipeFromMultipleTags(db: Db, tagIds: seq<Id>, recipeId: Id): (r: Db)
    ensures r.tags.Keys == db.tags.Keys
    ensures forall id :: id in db.tags && id in tagIds ==>
              && r.tags[id].name == db.tags[id].name
              && recipeId !in r.tags[id].recipes
              && multiset(r.tags[id].recipes) == multiset(db.tags[id].recipes)[recipeId := 0]
    ensures forall id :: id in db.tags && id !in tagIds ==> r.tags[id] == db.tags[id]
    ensures r == db.(tags := r.tags)
  {
    db.(tags := map id | id in db.tags :: if id in tagIds then WithoutRecipe(db.tags[id], recipeId) else db.tags[id])
  }

  /** The recipes left on a listed tag are its old recipes, in their old order. */
  lemma RemoveRecipeKeepsOrder(db: Db, tagIds: seq<Id>, recipeId: Id, id: Id)
    requires id in db.tags && id in tagIds
    ensures IsSubsequence(RemoveRecipeFromMultipleTags(db, tagIds, recipeId).tags[id].recipes, db.tags[id].recipes)
  {
    PullIsSubsequence(db.tags[id].recipes, recipeId);
  }

  /** Removing a recipe from the same tags twice is removing it once. */
  lemma RemoveRecipeIdempotent(db: Db, tagIds: seq<Id>, recipeId: Id)
    ensures var once := RemoveRecipeFromMultipleTags(db, tagIds, recipeId);
            RemoveRecipeFromMultipleTags(once, tagIds, recipeId) == once
  {
    var once := RemoveRecipeFromMultipleTags(db, tagIds, recipeId);
    var twice := RemoveRecipeFromMultipleTags(once, tagIds, recipeId);
    forall id | id in db.tags && id in tagIds ensures twice.tags[id] == once.tags[id] {
      PullIdempotent(db.tags[id].recipes, recipeId);
    }
    assert twice.tags == once.tags;
  }

  /** Deleting the same tags twice is deleting them once. */
  lemma DeleteMultipleTagsIdempotent(db: Db, tagIds: seq<Id>)
    ensures DeleteMultipleTags(DeleteMultipleTags(db, tagIds), tagIds) == DeleteMultipleTags(db, tagIds)
  {
    var once := DeleteMultipleTags(db, tagIds);
    assert DeleteMultipleTags(once, tagIds).tags == once.tags;
  }

  /** Both statics keep every stored document valid. */
  lemma TagStaticsKeepValid(db: Db, tagIds: seq<Id>, recipeId: Id)
    requires Valid(db)
    ensures Valid(DeleteMultipleTags(db, tagIds))
    ensures Valid(RemoveRecipeFromMultipleTags(db, tagIds, recipeId))
  {
    var r := RemoveRecipeFromMultipleTags(db, tagIds, recipeId);
    assert TagsValid(r.tags) by {
      forall id | id in r.tags ensures ValidTag(r.tags[id]) {
        assert r.tags[id].name == db.tags[id].name;
      }
    }
  }
}
