/** The cleanup helpers shared by the controllers.  Each runs one write and
    rethrows a failure as a plain `Error` with the driver's message; a failed
    write changes nothing. */
module GeneralHelpers {
  import opened Outcomes
  import opened Documents
  import opened RefLists
  import Steps
  import Tags
  import Users

  /** `deleteAllStepsFromRecipe(ids)`: the listed steps are deleted. */
  function DeleteAllStepsFromRecipe(db: Db, ids: seq<Id>, faults: Faults): (r: Run<()>)
    ensures r.result.Fail? <==> DeleteSteps in faults
    ensures r.result.Fail? ==> r.db == db && r.result.error == Error(PlainError, faults[DeleteSteps])
    ensures r.result.Ok? ==>
              && (forall id :: id in r.db.steps <==> id in db.steps && id !in ids)
              && (forall id :: id in r.db.steps ==> r.db.steps[id] == db.steps[id])
              && r.db == db.(steps := r.db.steps)
  {
    if DeleteSteps in faults then Run(db, Fail(Rethrow(Fault(faults, DeleteSteps))))
    else Run(Steps.DeleteMultipleSteps(db, ids), Ok(()))
  }

  /** `removeRecipeFromMultipleTags(tagIds, recipeId)`: the listed tags no
      longer refer to the recipe. */
  function RemoveRecipeFromMultipleTags(db: Db, tagIds: seq<Id>, recipeId: Id, faults: Faults): (r: Run<()>)
    ensures r.result.Fail? <==> PullTagRecipes in faults
    ensures r.result.Fail? ==> r.db == db && r.result.error == Error(PlainError, faults[PullTagRecipes])
    ensures r.result.Ok? ==>
              && r.db.tags.Keys == db.tags.Keys
              && (forall id :: id in db.tags && id in tagIds ==> recipeId !in r.db.tags[id].recipes)
              && (forall id :: id in db.tags && id in tagIds ==>
                    r.db.tags[id] == db.tags[id].(recipes := Pull(db.tags[id].recipes, recipeId)))
              && (forall id :: id in db.tags && id !in tagIds ==> r.db.tags[id] == db.tags[id])
              && r.db == db.(tags := r.db.tags)
  {
    if PullTagRecipes in faults then Run(db, Fail(Rethrow(Fault(faults, PullTagRecipes))))
    else Run(Tags.RemoveRecipeFromMultipleTags(db, tagIds, recipeId), Ok(()))
  }

  /** `removeRecipeFromUserRecipes(userId, recipeId)`: the user no longer
      lists the recipe among their recipes. */
  function RemoveRecipeFromUserRecipes(db: Db, userId: Id, recipeId: Id, faults: Faults): (r: Run<()>)
    ensures r.result.Fail? <==> PullUserRecipe in faults
    ensures r.result.Fail? ==> r.db == db && r.result.error == Error(PlainError, faults[PullUserRecipe])
    ensures r.result.Ok? ==>
              && r.db.users.Keys == db.users.Keys
              && (userId in db.users ==> recipeId !in r.db.users[userId].recipes)
              && (userId in db.users ==>
                    r.db.users[userId] == db.users[userId].(recipes := Pull(db.users[userId].recipes, recipeId)))
              && (forall id :: id in db.users && id != userId ==> r.db.users[id] == db.users[id])
              && r.db == db.(users := r.db.users)
  {
    if PullUserRecipe in faults then Run(db, Fail(Rethrow(Fault(faults, PullUserRecipe))))
    else Run(Users.PullFrom(db, userId, Users.Recipes, recipeId), Ok(()))
  }

  /** Pulling a recipe from the same tags twice is pulling it once: the
      second call succeeds and changes nothing. */
  lemma RemoveRecipeFromMultipleTagsIdempotent(db: Db, tagIds: seq<Id>, recipeId: Id, faults: Faults)
    requires PullTagRecipes !in faults
    ensures var once := RemoveRecipeFromMultipleTags(db, tagIds, recipeId, faults).db;
            RemoveRecipeFromMultipleTags(once, tagIds, recipeId, faults) == Run(once, Ok(()))
  {
    Tags.RemoveRecipeIdempotent(db, tagIds, recipeId);
  }

  /** Pulling a recipe from its owner twice is pulling it once: the second
      call succeeds and changes nothing. */
  lemma RemoveRecipeFromUserRecipesIdempotent(db: Db, userId: Id, recipeId: Id, faults: Faults)
    requires PullUserRecipe !in faults
    ensures var once := RemoveRecipeFromUserRecipes(db, userId, recipeId, faults).db;
            RemoveRecipeFromUserRecipes(once, userId, recipeId, faults) == Run(once, Ok(()))
  {
    Users.PullFromIdempotent(db, userId, Users.Recipes, recipeId);
  }

  /** Each helper keeps every stored document valid, whether its write
      succeeds or fails. */
  lemma DeleteAllStepsFromRecipeKeepsValid(db: Db, ids: seq<Id>, faults: Faults)
    requires Valid(db)
    ensures Valid(DeleteAllStepsFromRecipe(db, ids, faults).db)
  {
    Steps.DeleteMultipleStepsKeepsValid(db, ids);
  }

  lemma RemoveRecipeFromMultipleTagsKeepsValid(db: Db, tagIds: seq<Id>, recipeId: Id, faults: Faults)
    requires Valid(db)
    ensures Valid(RemoveRecipeFromMultipleTags(db, tagIds, recipeId, faults).db)
  {
    Tags.TagStaticsKeepValid(db, tagIds, recipeId);
  }

  lemma RemoveRecipeFromUserRecipesKeepsValid(db: Db, userId: Id, recipeId: Id, faults: Faults)
    requires Valid(db)
    ensures Valid(RemoveRecipeFromUserRecipes(db, userId, recipeId, faults).db)
  {
    Users.PullFromKeepsValid(db, userId, Users.Recipes, recipeId);
  }

  /** Together the three helpers detach a recipe from everything that points
      at it: once its steps are deleted and it is pulled from its tags and
      its owner, no listed step survives, no listed tag and not the owner
      still refers to it. */
  lemma DetachRecipe(db: Db, stepIds: seq<Id>, tagIds: seq<Id>, userId: Id, recipeId: Id)
    ensures var r1 := DeleteAllStepsFromRecipe(db, stepIds, map[]).db;
            var r2 := RemoveRecipeFromMultipleTags(r1, tagIds, recipeId, map[]).db;
            var r3 := RemoveRecipeFromUserRecipes(r2, userId, recipeId, map[]).db;
            && (forall id :: id in stepIds ==> id !in r3.steps)
            && (forall id :: id in tagIds && id in r3.tags ==> recipeId !in r3.tags[id].recipes)
            && (userId in r3.users ==> recipeId !in r3.users[userId].recipes)
            && r3.recipes == db.recipes && r3.reports == db.reports && r3.next == db.next
  {
  }
}
