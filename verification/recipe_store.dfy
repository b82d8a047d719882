/** `Recipe.store(req)`: creating a recipe with its steps and tags.  The
    writes run one after the other; a failure at any point deletes the media
    uploaded so far (as far as the rollback list knows of them) and rethrows
    the error as a plain `Error`, but nothing already written to the
    database is undone. */
module RecipeStore {
  import opened Outcomes
  import opened Media
  import opened RefLists
  import opened Documents
  import opened RecipeInput
  import Users

  const ImageRequired := "Recipe image is required!!"
  const VideoUploadFailure := "Error uploading video to Cloudinary"
  const StepUploadFailure := "error uploading step image"

  /** The fields of `req.body` a new recipe is made from. */
  datatype StoreInput = StoreInput(
    title: string,
    description: string,
    preparation_time: int,
    difficulty_level: int,
    ingredients: seq<string>,
    user: Id,
    steps: seq<StepInput>,
    tags: TagsInput)

  /** `Tag.find({ name: { $in: names } })` over the ids in `[from, bound)`:
      every tag whose name is asked for, once each, in insertion order. */
  function FindTagsNamed(tags: map<Id, Tag>, names: seq<string>, from: nat, bound: nat): (ids: seq<Id>)
    ensures forall id :: id in ids <==> from <= id < bound && id in tags && tags[id].name in names
    ensures forall i, j :: 0 <= i < j < |ids| ==> ids[i] < ids[j]
    decreases bound - from
  {
    if from >= bound then []
    else
      var rest := FindTagsNamed(tags, names, from + 1, bound);
      assert forall j :: 0 <= j < |rest| ==> rest[j] in rest;
      (if from in tags && tags[from].name in names then [from] else []) + rest
  }

  /** One of the found tags carries the name. */
  predicate Named(tags: map<Id, Tag>, found: seq<Id>, name: string)
  {
    exists id :: id in found && id in tags && tags[id].name == name
  }

  /** `tagNames.filter(name => !existingTags.find(tag => tag.name === name))`:
      the names no found tag carries, in order and with repetitions kept. */
  function NewNames(tags: map<Id, Tag>, found: seq<Id>, names: seq<string>): (r: seq<string>)
    ensures forall n :: n in r <==> n in names && !Named(tags, found, n)
    decreases |names|
  {
    if |names| == 0 then []
    else
      assert forall n :: n in names <==> n == names[0] || n in names[1..];
      (if Named(tags, found, names[0]) then [] else [names[0]]) + NewNames(tags, found, names[1..])
  }

  /** The filter keeps every repetition of a name no found tag carries, and
      none of the others. */
  lemma {:induction false} NewNamesCounts(tags: map<Id, Tag>, found: seq<Id>, names: seq<string>)
    ensures forall n :: multiset(NewNames(tags, found, names))[n] == if Named(tags, found, n) then 0 else multiset(names)[n]
    decreases |names|
  {
    if |names| > 0 {
      NewNamesCounts(tags, found, names[1..]);
      assert names == [names[0]] + names[1..];
    }
  }

  /** The filter keeps the names in request order. */
  lemma {:induction false} NewNamesInOrder(tags: map<Id, Tag>, found: seq<Id>, names: seq<string>)
    ensures IsSubsequence(NewNames(tags, found, names), names)
    decreases |names|
  {
    if |names| > 0 {
      NewNamesInOrder(tags, found, names[1..]);
      var rest := NewNames(tags, found, names[1..]);
      if Named(tags, found, names[0]) {
        assert NewNames(tags, found, names) == rest;
        SubsequenceOfTail(rest, names);
      } else {
        assert NewNames(tags, found, names)[1..] == rest;
      }
    }
  }

  /** The tags found for a request, in a store whose counter is `db.next`. */
  function FoundTags(db: Db, names: seq<string>): seq<Id>
  {
    FindTagsNamed(db.tags, names, 0, db.next)
  }

  /** The tag names that get a new tag. */
  function FreshNames(db: Db, names: seq<string>): seq<string>
  {
    NewNames(db.tags, FoundTags(db, names), names)
  }

  /** `new Tag({ name, recipes: [recipe._id] })` for each name. */
  function NewTags(names: seq<string>, rid: Id): (r: seq<Tag>)
    ensures |r| == |names|
    ensures forall k :: 0 <= k < |r| ==> r[k] == Tag(names[k], [rid])
  {
    seq(|names|, k requires 0 <= k < |names| => Tag(names[k], [rid]))
  }

  /** `Step.insertMany(steps)` with the steps' ids starting right after the
      recipe's. */
  function AddSteps(db: Db, steps: seq<Step>): (r: Db)
    ensures r == db.(steps := r.steps, next := db.next + 1 + |steps|)
    ensures forall id :: id in r.steps <==> id in db.steps || db.next + 1 <= id < db.next + 1 + |steps|
    ensures forall k :: 0 <= k < |steps| ==> r.steps[db.next + 1 + k] == steps[k]
    ensures forall id :: id in db.steps && !(db.next + 1 <= id < db.next + 1 + |steps|) ==> r.steps[id] == db.steps[id]
  {
    db.(steps := InsertAll(db.steps, db.next + 1, steps), next := db.next + 1 + |steps|)
  }

  /** `Tag.insertMany(tags)` under fresh ids. */
  function AddTags(db: Db, tags: seq<Tag>): (r: Db)
    ensures r == db.(tags := r.tags, next := db.next + |tags|)
    ensures forall id :: id in r.tags <==> id in db.tags || db.next <= id < db.next + |tags|
    ensures forall k :: 0 <= k < |tags| ==> r.tags[db.next + k] == tags[k]
    ensures forall id :: id in db.tags && !(db.next <= id < db.next + |tags|) ==> r.tags[id] == db.tags[id]
  {
    db.(tags := InsertAll(db.tags, db.next, tags), next := db.next + |tags|)
  }

  /** The `$push: { recipes: rid }` bulk write on the listed tags: each listed
      tag gains the recipe at the end of its recipes, the others are left alone. */
  function PushRecipe(db: Db, ids: seq<Id>, rid: Id): (r: Db)
    ensures r == db.(tags := r.tags)
    ensures r.tags.Keys == db.tags.Keys
    ensures forall id :: id in db.tags ==>
              r.tags[id] == db.tags[id].(recipes := if id in ids then Push(db.tags[id].recipes, rid) else db.tags[id].recipes)
  {
    db.(tags := map id | id in db.tags ::
                  if id in ids then db.tags[id].(recipes := Push(db.tags[id].recipes, rid)) else db.tags[id])
  }

  /** The schema check `insertMany` runs on every document before writing any. */
  predicate AllValidSteps(steps: seq<Step>)
  {
    forall k :: 0 <= k < |steps| ==> ValidStep(steps[k])
  }

  predicate AllValidTags(tags: seq<Tag>)
  {
    forall k :: 0 <= k < |tags| ==> ValidTag(tags[k])
  }

  /** The step insert goes through: every step passes its schema check, and
      either there is no step, so `insertMany` returns without a driver call,
      or the driver call succeeds. */
  predicate StepsInserted(steps: seq<Step>, faults: Faults)
  {
    AllValidSteps(steps) && (|steps| == 0 || InsertSteps !in faults)
  }

  /** The same for the insert of the new tags. */
  predicate TagsInserted(newTags: seq<Tag>, faults: Faults)
  {
    AllValidTags(newTags) && (|newTags| == 0 || InsertTags !in faults)
  }

  /** The bulk write is only sent when there is a found tag to update. */
  function LinkTags(db: Db, found: seq<Id>, rid: Id): Db
  {
    if |found| > 0 then PushRecipe(db, found, rid) else db
  }

  /** The database writes of `store`, after every upload has succeeded:
      insert the steps, find the tags, save the recipe, insert the new tags,
      push the recipe onto the found tags and onto its owner.  `recipe` is
      the recipe as built from the request, to be stored under `db.next`. */
  function Persist(db: Db, recipe: Recipe, steps: seq<Step>, names: seq<string>, faults: Faults): (r: Run<Stored<Recipe>>)
    ensures r.result.Ok? ==> r.result.value.id == db.next
  {
    if !AllValidSteps(steps) then Run(db, Fail(Invalid("Step")))
    else if |steps| > 0 && InsertSteps in faults then Run(db, Fail(Fault(faults, InsertSteps)))
    else SaveRecipeStage(AddSteps(db, steps), db.next, recipe.(steps := IdRange(db.next + 1, |steps|)), names, faults)
  }

  /** Find the tags and save the recipe, with the tags it is given. */
  function SaveRecipeStage(db: Db, rid: Id, recipe: Recipe, names: seq<string>, faults: Faults): (r: Run<Stored<Recipe>>)
    ensures r.result.Ok? ==> r.result.value.id == rid
  {
    if FindTags in faults then Run(db, Fail(Fault(faults, FindTags)))
    else
      var found := FoundTags(db, names);
      var unmatched := FreshNames(db, names);
      var saved := recipe.(tags := found + IdRange(db.next, |unmatched|));
      if !ValidRecipe(saved) then Run(db, Fail(Invalid("Recipe")))
      else if SaveRecipe in faults then Run(db, Fail(Fault(faults, SaveRecipe)))
      else LinkStage(db.(recipes := db.recipes[rid := saved]), rid, saved, found, NewTags(unmatched, rid), faults)
  }

  /** Insert the new tags and push the saved recipe onto the found tags and
      onto its owner. */
  function LinkStage(db: Db, rid: Id, saved: Recipe, found: seq<Id>, newTags: seq<Tag>, faults: Faults): (r: Run<Stored<Recipe>>)
    ensures r.result.Ok? ==> r.result == Ok(Stored(rid, saved))
  {
    if !AllValidTags(newTags) then Run(db, Fail(Invalid("Tag")))
    else if |newTags| > 0 && InsertTags in faults then Run(db, Fail(Fault(faults, InsertTags)))
    else
      var withTags := AddTags(db, newTags);
      if |found| > 0 && PushTagRecipes in faults then Run(withTags, Fail(Fault(faults, PushTagRecipes)))
      else
        var linked := LinkTags(withTags, found, rid);
        if PushUserRecipe in faults then Run(linked, Fail(Fault(faults, PushUserRecipe)))
        else Run(Users.PushTo(linked, saved.user, Users.Recipes, rid), Ok(Stored(rid, saved)))
  }

  /** The outcome of `store`: the store, the result, the media requests sent
      before the outcome was known, and the rollback list at that point.  On
      failure the rollback list is then deleted entry by entry. */
  datatype StoreRun = StoreRun(db: Db, result: Result<Stored<Recipe>>, sent: seq<MediaRequest>, rollback: seq<Pending>)
  {
    /** Every media request, in order. */
    function Media(): seq<MediaRequest>
    {
      if result.Fail? then sent + Cleanup(rollback) else sent
    }
  }

  /** The catch block: clean up the rollback list and rethrow as a plain `Error`. */
  function Abort(db: Db, e: Error, sent: seq<MediaRequest>, rollback: seq<Pending>): StoreRun
  {
    StoreRun(db, Fail(Rethrow(e)), sent, rollback)
  }

  /** `Recipe.store(req)`. */
  function Store(db: Db, files: Files, input: StoreInput, faults: Faults): (r: StoreRun)
    ensures FileAt(files, ImageField).None? ==>
              r.db == db && r.result == Fail(Raise(ImageRequired)) && r.Media() == []
    ensures FileAt(files, ImageField).Some? && FileAt(files, VideoField).Some? && FileAt(files, VideoField).value.hostReply.None? ==>
              r.db == db && r.result == Fail(Raise(VideoUploadFailure)) && r.rollback == []
    ensures && FileAt(files, ImageField).Some? && FileAt(files, ImageField).value.hostReply.None?
            && (FileAt(files, VideoField).Some? ==> FileAt(files, VideoField).value.hostReply.Some?) ==>
              r.db == db && r.result == Fail(Raise(UploadFailure)) && r.rollback == []
    ensures r.result.Fail? ==> r.result.error.name == PlainError
    ensures forall q :: q in r.sent ==> q.UploadRequest?
    ensures r.result.Ok? ==> r.result.value.id == db.next
  {
    var imageFile := FileAt(files, ImageField);
    if imageFile.None? then Abort(db, Raise(ImageRequired), [], [])
    else
      var videoFile := FileAt(files, VideoField);
      var upImage := Upload(imageFile, Image);
      var upVideo := Upload(videoFile, Video);
      var uploads := upImage.requests + upVideo.requests;
      if videoFile.Some? && upVideo.url.None? then Abort(db, Raise(VideoUploadFailure), uploads, [])
      else if upImage.url.None? then Abort(db, Raise(UploadFailure), uploads, [])
      else
        var rid := db.next;
        var built := BuildSteps(rid, input.steps, files);
        var sent := uploads + built.media;
        var mainRollback := [Pending(upImage.url, Image), Pending(upVideo.url, Video)];
        if built.failed then Abort(db, Raise(StepUploadFailure), sent, mainRollback)
        else
          var rollback := mainRollback + StepRollback(built.steps);
          var recipe := Recipe(input.title, upImage.url.value, upVideo.url, input.description,
                               input.preparation_time, input.difficulty_level, input.ingredients,
                               input.user, 0, [], []);
          var p := Persist(db, recipe, built.steps, TagNames(input.tags), faults);
          if p.result.Fail? then Abort(p.db, p.result.error, sent, rollback)
          else StoreRun(p.db, p.result, sent, rollback)
  }

  /** In a store whose ids are all below the counter, the tags found are
      exactly the stored tags carrying an asked-for name. */
  lemma FoundTagsMatch(db: Db, names: seq<string>)
    requires Fresh(db)
    ensures forall id :: id in FoundTags(db, names) <==> id in db.tags && db.tags[id].name in names
  {
  }

  /** In such a store, a name gets a new tag exactly when it is asked for and
      no stored tag carries it. */
  lemma FreshNamesAreNew(db: Db, names: seq<string>)
    requires Fresh(db)
    ensures forall n :: n in FreshNames(db, names) <==>
              n in names && forall id :: id in db.tags ==> db.tags[id].name != n
  {
    var found := FoundTags(db, names);
    forall n | n in names
      ensures Named(db.tags, found, n) <==> exists id :: id in db.tags && db.tags[id].name == n
    {
      if id :| id in db.tags && db.tags[id].name == n {
        assert id in found;
      }
    }
  }

  /** The steps of a request are all valid: each has a description and a
      sequence number between 1 and 15. */
  predicate StepsValid(inputs: seq<StepInput>)
  {
    forall k :: 0 <= k < |inputs| ==> inputs[k].description != "" && 1 <= inputs[k].sequence_number <= 15
  }

  /** The writes after the steps, when they all succeed. */
  lemma LinkStageOk(db: Db, rid: Id, saved: Recipe, found: seq<Id>, newTags: seq<Tag>, faults: Faults)
    requires LinkStage(db, rid, saved, found, newTags, faults).result.Ok?
    ensures AllValidTags(newTags)
    ensures LinkStage(db, rid, saved, found, newTags, faults).db
            == Users.PushTo(LinkTags(AddTags(db, newTags), found, rid), saved.user, Users.Recipes, rid)
  {
  }

  /** Saving the recipe and what follows, when they all succeed. */
  lemma SaveRecipeStageOk(db: Db, rid: Id, recipe: Recipe, names: seq<string>, faults: Faults)
    requires SaveRecipeStage(db, rid, recipe, names, faults).result.Ok?
    ensures var saved := recipe.(tags := FoundTags(db, names) + IdRange(db.next, |FreshNames(db, names)|));
            && ValidRecipe(saved)
            && SaveRecipeStage(db, rid, recipe, names, faults)
               == LinkStage(db.(recipes := db.recipes[rid := saved]), rid, saved, FoundTags(db, names),
                            NewTags(FreshNames(db, names), rid), faults)
  {
  }

  /** The writes of `store`, when they all succeed. */
  lemma PersistOk(db: Db, recipe: Recipe, steps: seq<Step>, names: seq<string>, faults: Faults)
    requires Persist(db, recipe, steps, names, faults).result.Ok?
    ensures AllValidSteps(steps)
    ensures Persist(db, recipe, steps, names, faults)
            == SaveRecipeStage(AddSteps(db, steps), db.next, recipe.(steps := IdRange(db.next + 1, |steps|)), names, faults)
  {
    PersistChecks(db, recipe, steps, names, faults);
    PersistUnfold(db, recipe, steps, names, faults);
  }

  lemma PersistChecks(db: Db, recipe: Recipe, steps: seq<Step>, names: seq<string>, faults: Faults)
    requires Persist(db, recipe, steps, names, faults).result.Ok?
    ensures StepsInserted(steps, faults)
  {
  }

  lemma PersistUnfold(db: Db, recipe: Recipe, steps: seq<Step>, names: seq<string>, faults: Faults)
    requires StepsInserted(steps, faults)
    ensures Persist(db, recipe, steps, names, faults)
            == SaveRecipeStage(AddSteps(db, steps), db.next, recipe.(steps := IdRange(db.next + 1, |steps|)), names, faults)
  {
  }

  /** The recipe `store` builds from the request before any write. */
  function Built(db: Db, files: Files, input: StoreInput): Recipe
    requires FileAt(files, ImageField).Some? && FileAt(files, ImageField).value.hostReply.Some?
  {
    Recipe(input.title, FileAt(files, ImageField).value.hostReply.value,
           Upload(FileAt(files, VideoField), Video).url, input.description,
           input.preparation_time, input.difficulty_level, input.ingredients,
           input.user, 0, [], [])
  }

  /** The stages `store` goes through when every upload and write succeeds. */
  lemma StoreOkPath(db: Db, files: Files, input: StoreInput, faults: Faults)
    requires Store(db, files, input, faults).result.Ok?
    ensures var rid := db.next;
            var built := BuildSteps(rid, input.steps, files);
            var r := Store(db, files, input, faults);
            && FileAt(files, ImageField).Some? && FileAt(files, ImageField).value.hostReply.Some?
            && (FileAt(files, VideoField).Some? ==> FileAt(files, VideoField).value.hostReply.Some?)
            && !built.failed
            && Persist(db, Built(db, files, input), built.steps, TagNames(input.tags), faults) == Run(r.db, r.result)
            && r.sent == Upload(FileAt(files, ImageField), Image).requests
                         + Upload(FileAt(files, VideoField), Video).requests + built.media
  {
  }

  /** The store and the recipe a successful `store` leaves, stage by stage. */
  lemma StoreOutcome(db: Db, files: Files, input: StoreInput, faults: Faults)
    requires Store(db, files, input, faults).result.Ok?
    ensures var rid := db.next;
            var built := BuildSteps(rid, input.steps, files);
            var names := TagNames(input.tags);
            var withSteps := AddSteps(db, built.steps);
            var found := FoundTags(withSteps, names);
            var unmatched := FreshNames(withSteps, names);
            var r := Store(db, files, input, faults);
            && FileAt(files, ImageField).Some? && FileAt(files, ImageField).value.hostReply.Some?
            && !built.failed
            && AllValidSteps(built.steps)
            && r.result.value.doc == Built(db, files, input).(steps := IdRange(rid + 1, |built.steps|),
                                                             tags := found + IdRange(withSteps.next, |unmatched|))
            && ValidRecipe(r.result.value.doc)
            && AllValidTags(NewTags(unmatched, rid))
            && r.db == Users.PushTo(LinkTags(AddTags(withSteps.(recipes := withSteps.recipes[rid := r.result.value.doc]),
                                                     NewTags(unmatched, rid)), found, rid),
                                    input.user, Users.Recipes, rid)
  {
    var built := BuildSteps(db.next, input.steps, files);
    StoreOkPath(db, files, input, faults);
    PersistSavesRecipe(db, Built(db, files, input), built.steps, TagNames(input.tags), faults);
    PersistWrites(db, Built(db, files, input), built.steps, TagNames(input.tags), faults);
  }

  /** The recipe the writes of a successful `store` save: the built recipe
      with the new steps' ids and the tags' ids, found ones first. */
  lemma PersistSavesRecipe(db: Db, recipe: Recipe, steps: seq<Step>, names: seq<string>, faults: Faults)
    requires Persist(db, recipe, steps, names, faults).result.Ok?
    ensures var withSteps := AddSteps(db, steps);
            var doc := Persist(db, recipe, steps, names, faults).result.value.doc;
            && AllValidSteps(steps)
            && doc == recipe.(steps := IdRange(db.next + 1, |steps|),
                              tags := FoundTags(withSteps, names) + IdRange(withSteps.next, |FreshNames(withSteps, names)|))
            && ValidRecipe(doc)
  {
    PersistOk(db, recipe, steps, names, faults);
    var withSteps := AddSteps(db, steps);
    SaveRecipeStageOk(withSteps, db.next, recipe.(steps := IdRange(db.next + 1, |steps|)), names, faults);
  }

  /** The store the writes of a successful `store` leave: the steps, the
      saved recipe and the new tags inserted, the recipe pushed onto the
      found tags and onto its owner. */
  lemma PersistWrites(db: Db, recipe: Recipe, steps: seq<Step>, names: seq<string>, faults: Faults)
    requires Persist(db, recipe, steps, names, faults).result.Ok?
    ensures var rid := db.next;
            var withSteps := AddSteps(db, steps);
            var found := FoundTags(withSteps, names);
            var newTags := NewTags(FreshNames(withSteps, names), rid);
            var p := Persist(db, recipe, steps, names, faults);
            && AllValidTags(newTags)
            && p.db == Users.PushTo(LinkTags(AddTags(withSteps.(recipes := withSteps.recipes[rid := p.result.value.doc]),
                                                     newTags), found, rid),
                                    recipe.user, Users.Recipes, rid)
  {
    var rid := db.next;
    var withSteps := AddSteps(db, steps);
    var found := FoundTags(withSteps, names);
    var saved := SavedRecipe(db, recipe, steps, names);
    var newTags := NewTags(FreshNames(withSteps, names), rid);
    PersistReachesLink(db, recipe, steps, names, faults);
    LinkStageOk(withSteps.(recipes := withSteps.recipes[rid := saved]), rid, saved, found, newTags, faults);
  }

  /** The recipe as the writes of `store` save it. */
  function SavedRecipe(db: Db, recipe: Recipe, steps: seq<Step>, names: seq<string>): (saved: Recipe)
    ensures saved.user == recipe.user
  {
    var withSteps := AddSteps(db, steps);
    recipe.(steps := IdRange(db.next + 1, |steps|),
            tags := FoundTags(withSteps, names) + IdRange(withSteps.next, |FreshNames(withSteps, names)|))
  }

  /** The store once the steps are inserted and the recipe is saved. */
  function WithRecipe(db: Db, recipe: Recipe, steps: seq<Step>, names: seq<string>): (d: Db)
    ensures d.recipes == AddSteps(db, steps).recipes[db.next := SavedRecipe(db, recipe, steps, names)]
  {
    var withSteps := AddSteps(db, steps);
    withSteps.(recipes := withSteps.recipes[db.next := SavedRecipe(db, recipe, steps, names)])
  }

  /** The new tags the writes of `store` insert. */
  function NewTagsFor(db: Db, steps: seq<Step>, names: seq<string>): seq<Tag>
  {
    NewTags(FreshNames(AddSteps(db, steps), names), db.next)
  }

  /** The tags found once the steps are inserted. */
  function FoundFor(db: Db, steps: seq<Step>, names: seq<string>): seq<Id>
  {
    FoundTags(AddSteps(db, steps), names)
  }

  /** Once the steps are inserted and the recipe saved, the writes of
      `store` go on with the tag insert and the two pushes. */
  lemma PersistLinks(db: Db, recipe: Recipe, steps: seq<Step>, names: seq<string>, faults: Faults)
    requires StepsInserted(steps, faults)
    requires FindTags !in faults && ValidRecipe(SavedRecipe(db, recipe, steps, names)) && SaveRecipe !in faults
    ensures Persist(db, recipe, steps, names, faults)
            == LinkStage(WithRecipe(db, recipe, steps, names), db.next, SavedRecipe(db, recipe, steps, names),
                         FoundFor(db, steps, names), NewTagsFor(db, steps, names), faults)
  {
    PersistUnfold(db, recipe, steps, names, faults);
    var withSteps := AddSteps(db, steps);
    var stepped := recipe.(steps := IdRange(db.next + 1, |steps|));
    assert stepped.(tags := FoundTags(withSteps, names) + IdRange(withSteps.next, |FreshNames(withSteps, names)|))
           == SavedRecipe(db, recipe, steps, names);
  }

  /** Successful writes of `store` end with the tag and owner links of the
      saved recipe. */
  lemma PersistReachesLink(db: Db, recipe: Recipe, steps: seq<Step>, names: seq<string>, faults: Faults)
    requires Persist(db, recipe, steps, names, faults).result.Ok?
    ensures var withSteps := AddSteps(db, steps);
            var saved := SavedRecipe(db, recipe, steps, names);
            Persist(db, recipe, steps, names, faults)
            == LinkStage(withSteps.(recipes := withSteps.recipes[db.next := saved]), db.next, saved,
                         FoundTags(withSteps, names), NewTags(FreshNames(withSteps, names), db.next), faults)
  {
    PersistSavesRecipe(db, recipe, steps, names, faults);
    PersistChecks(db, recipe, steps, names, faults);
    PersistSaveChecks(db, recipe, steps, names, faults);
    PersistLinks(db, recipe, steps, names, faults);
  }

  lemma PersistSaveChecks(db: Db, recipe: Recipe, steps: seq<Step>, names: seq<string>, faults: Faults)
    requires Persist(db, recipe, steps, names, faults).result.Ok?
    ensures FindTags !in faults && SaveRecipe !in faults
  {
    PersistOk(db, recipe, steps, names, faults);
  }

  /** The first write of `store` fails (the steps' schema check or the step
      insert): nothing is written. */
  lemma PersistStepWriteFails(db: Db, recipe: Recipe, steps: seq<Step>, names: seq<string>, faults: Faults)
    requires !StepsInserted(steps, faults)
    ensures Persist(db, recipe, steps, names, faults)
            == Run(db, Fail(if AllValidSteps(steps) then Fault(faults, InsertSteps) else Invalid("Step")))
  {
  }

  /** The tag lookup or the recipe save fails: the steps are stored, the
      recipe is not. */
  lemma PersistRecipeWriteFails(db: Db, recipe: Recipe, steps: seq<Step>, names: seq<string>, faults: Faults)
    requires StepsInserted(steps, faults)
    requires FindTags in faults || !ValidRecipe(SavedRecipe(db, recipe, steps, names)) || SaveRecipe in faults
    ensures var p := Persist(db, recipe, steps, names, faults);
            && p.db == AddSteps(db, steps)
            && p.result.Fail?
            && (FindTags in faults ==> p.result.error == Fault(faults, FindTags))
            && (FindTags !in faults && !ValidRecipe(SavedRecipe(db, recipe, steps, names)) ==>
                  p.result.error == Invalid("Recipe"))
            && (FindTags !in faults && ValidRecipe(SavedRecipe(db, recipe, steps, names)) ==>
                  p.result.error == Fault(faults, SaveRecipe))
  {
    PersistUnfold(db, recipe, steps, names, faults);
    var withSteps := AddSteps(db, steps);
    var stepped := recipe.(steps := IdRange(db.next + 1, |steps|));
    assert stepped.(tags := FoundTags(withSteps, names) + IdRange(withSteps.next, |FreshNames(withSteps, names)|))
           == SavedRecipe(db, recipe, steps, names);
  }

  /** The new tags' schema check or their insert fails: the steps and the
      recipe are stored, no new tag is. */
  lemma PersistTagInsertFails(db: Db, recipe: Recipe, steps: seq<Step>, names: seq<string>, faults: Faults)
    requires StepsInserted(steps, faults)
    requires FindTags !in faults && ValidRecipe(SavedRecipe(db, recipe, steps, names)) && SaveRecipe !in faults
    requires !TagsInserted(NewTagsFor(db, steps, names), faults)
    ensures Persist(db, recipe, steps, names, faults)
            == Run(WithRecipe(db, recipe, steps, names),
                   Fail(if AllValidTags(NewTagsFor(db, steps, names)) then Fault(faults, InsertTags) else Invalid("Tag")))
  {
    PersistLinks(db, recipe, steps, names, faults);
  }

  /** The bulk write onto the found tags fails: the steps, the recipe and
      the new tags are stored, no found tag lists the recipe yet. */
  lemma PersistTagPushFails(db: Db, recipe: Recipe, steps: seq<Step>, names: seq<string>, faults: Faults)
    requires StepsInserted(steps, faults)
    requires FindTags !in faults && ValidRecipe(SavedRecipe(db, recipe, steps, names)) && SaveRecipe !in faults
    requires TagsInserted(NewTagsFor(db, steps, names), faults)
    requires |FoundFor(db, steps, names)| > 0 && PushTagRecipes in faults
    ensures Persist(db, recipe, steps, names, faults)
            == Run(AddTags(WithRecipe(db, recipe, steps, names), NewTagsFor(db, steps, names)),
                   Fail(Fault(faults, PushTagRecipes)))
  {
    PersistLinks(db, recipe, steps, names, faults);
  }

  /** The push onto the owner fails: everything but the owner's link is
      written, and no user changes. */
  lemma PersistOwnerPushFails(db: Db, recipe: Recipe, steps: seq<Step>, names: seq<string>, faults: Faults)
    requires StepsInserted(steps, faults)
    requires FindTags !in faults && ValidRecipe(SavedRecipe(db, recipe, steps, names)) && SaveRecipe !in faults
    requires TagsInserted(NewTagsFor(db, steps, names), faults)
    requires |FoundFor(db, steps, names)| == 0 || PushTagRecipes !in faults
    requires PushUserRecipe in faults
    ensures var p := Persist(db, recipe, steps, names, faults);
            && p == Run(LinkTags(AddTags(WithRecipe(db, recipe, steps, names), NewTagsFor(db, steps, names)),
                                 FoundFor(db, steps, names), db.next),
                        Fail(Fault(faults, PushUserRecipe)))
            && p.db.users == db.users
  {
    PersistLinks(db, recipe, steps, names, faults);
  }

  /** A successful `store` saves the recipe built from the request under a
      fresh id: the uploaded image and video, no views yet, the new steps'
      ids in request order, and leaves every other recipe alone. */
  lemma StoreCreatesRecipe(db: Db, files: Files, input: StoreInput, faults: Faults)
    requires Fresh(db)
    requires Store(db, files, input, faults).result.Ok?
    ensures var r := Store(db, files, input, faults);
            var recipe := r.result.value.doc;
            && r.result.value.id == db.next
            && r.db.recipes == db.recipes[db.next := recipe]
            && db.next !in db.recipes
            && ValidRecipe(recipe)
            && recipe.title == input.title && recipe.description == input.description
            && recipe.preparation_time == input.preparation_time
            && recipe.difficulty_level == input.difficulty_level
            && recipe.ingredients == input.ingredients && recipe.user == input.user
            && recipe.views == 0
            && FileAt(files, ImageField).Some? && Some(recipe.image) == FileAt(files, ImageField).value.hostReply
            && recipe.video == (if FileAt(files, VideoField).Some? then FileAt(files, VideoField).value.hostReply else None)
            && recipe.steps == IdRange(db.next + 1, |input.steps|)
            && r.db.reports == db.reports
            && forall q :: q in r.Media() ==> q.UploadRequest?
  {
    StoreOutcome(db, files, input, faults);
  }

  /** `after` holds the steps of `before` unchanged and, under the ids
      following `rid`, one step per request step pointing at recipe `rid`
      with its description, sequence number and uploaded image. */
  ghost predicate CreatesSteps(before: map<Id, Step>, after: map<Id, Step>, rid: Id, inputs: seq<StepInput>, files: Files)
  {
    && (forall id :: id in after <==> id in before || rid + 1 <= id < rid + 1 + |inputs|)
    && (forall id :: id in before ==> after[id] == before[id])
    && forall k :: 0 <= k < |inputs| ==>
         var file := StepFile(files, inputs[k].sequence_number);
         after[rid + 1 + k]
         == Step(rid, inputs[k].description, inputs[k].sequence_number,
                 if file.Some? then file.value.hostReply else None)
  }

  /** A successful `store` inserts one step per request step under the ids
      following the recipe's, each pointing at the recipe with its
      description, sequence number and uploaded image, and leaves every
      stored step alone. */
  lemma StoreCreatesSteps(db: Db, files: Files, input: StoreInput, faults: Faults)
    requires Fresh(db)
    requires Store(db, files, input, faults).result.Ok?
    ensures CreatesSteps(db.steps, Store(db, files, input, faults).db.steps, db.next, input.steps, files)
  {
    StoreStepsOutcome(db, files, input, faults);
    StepInsertCreatesSteps(db, input.steps, files);
  }

  /** Inserting the steps built for recipe `db.next` creates them. */
  lemma StepInsertCreatesSteps(db: Db, inputs: seq<StepInput>, files: Files)
    requires IdsBelow(db.steps, db.next)
    ensures CreatesSteps(db.steps, AddSteps(db, BuildSteps(db.next, inputs, files).steps).steps, db.next, inputs, files)
  {
  }

  /** The steps a successful `store` leaves are those of the step insert. */
  lemma StoreStepsOutcome(db: Db, files: Files, input: StoreInput, faults: Faults)
    requires Store(db, files, input, faults).result.Ok?
    ensures Store(db, files, input, faults).db.steps == AddSteps(db, BuildSteps(db.next, input.steps, files).steps).steps
  {
    StoreOutcome(db, files, input, faults);
  }

  /** The tags a successful `store` leaves are those of the tag insert and
      the bulk write. */
  lemma StoreTagsOutcome(db: Db, files: Files, input: StoreInput, faults: Faults)
    requires Store(db, files, input, faults).result.Ok?
    ensures var names := TagNames(input.tags);
            var withSteps := AddSteps(db, BuildSteps(db.next, input.steps, files).steps);
            Store(db, files, input, faults).db.tags
            == LinkTags(AddTags(withSteps, NewTags(FreshNames(withSteps, names), db.next)),
                        FoundTags(withSteps, names), db.next).tags
  {
    StoreOutcome(db, files, input, faults);
  }

  /** A successful `store` gives the recipe the stored tags carrying one of
      the requested names, then one new tag per requested name no stored
      tag carries, in request order and with repetitions kept. */
  lemma StoreChoosesTags(db: Db, files: Files, input: StoreInput, faults: Faults)
    requires Fresh(db)
    requires Store(db, files, input, faults).result.Ok?
    ensures var r := Store(db, files, input, faults);
            var names := TagNames(input.tags);
            var withSteps := AddSteps(db, BuildSteps(db.next, input.steps, files).steps);
            var found := FoundTags(withSteps, names);
            var unmatched := FreshNames(withSteps, names);
            && r.result.value.doc.tags == found + IdRange(withSteps.next, |unmatched|)
            && (forall id :: id in found <==> id in db.tags && db.tags[id].name in names)
            && (forall n :: n in unmatched <==> n in names && forall id :: id in db.tags ==> db.tags[id].name != n)
            && (forall n :: n in names && (forall id :: id in db.tags ==> db.tags[id].name != n) ==>
                  multiset(unmatched)[n] == multiset(names)[n])
            && IsSubsequence(unmatched, names)
  {
    StoreOutcome(db, files, input, faults);
    var names := TagNames(input.tags);
    var withSteps := AddSteps(db, BuildSteps(db.next, input.steps, files).steps);
    assert Fresh(withSteps);
    FoundTagsMatch(withSteps, names);
    FreshNamesAreNew(withSteps, names);
    NewNamesCounts(withSteps.tags, FoundTags(withSteps, names), names);
    NewNamesInOrder(withSteps.tags, FoundTags(withSteps, names), names);
  }

  /** `after` holds the tags of `before`, the one in `found` with `rid`
      appended to their recipes, and under the ids from `first` one new tag
      per name of `unmatched`, listing only `rid`. */
  ghost predicate WritesTags(before: map<Id, Tag>, after: map<Id, Tag>, found: seq<Id>, first: Id,
                       unmatched: seq<string>, rid: Id)
  {
    && (forall id :: id in after <==> id in before || first <= id < first + |unmatched|)
    && (forall k :: 0 <= k < |unmatched| ==> after[first + k] == Tag(unmatched[k], [rid]))
    && (forall id :: id in before ==>
          after[id] == before[id].(recipes := if id in found then before[id].recipes + [rid] else before[id].recipes))
  }

  /** A successful `store` stores each new tag listing only the recipe, and
      appends the recipe to the recipes of every found tag; no other tag
      changes. */
  lemma StoreWritesTags(db: Db, files: Files, input: StoreInput, faults: Faults)
    requires Fresh(db)
    requires Store(db, files, input, faults).result.Ok?
    ensures var names := TagNames(input.tags);
            var withSteps := AddSteps(db, BuildSteps(db.next, input.steps, files).steps);
            WritesTags(db.tags, Store(db, files, input, faults).db.tags, FoundTags(withSteps, names),
                       withSteps.next, FreshNames(withSteps, names), db.next)
  {
    var names := TagNames(input.tags);
    var withSteps := AddSteps(db, BuildSteps(db.next, input.steps, files).steps);
    StoreTagsOutcome(db, files, input, faults);
    FoundTagsMatch(withSteps, names);
    TagWrites(withSteps, FoundTags(withSteps, names), FreshNames(withSteps, names), db.next);
  }

  /** What the tag writes of `store` do to the tags. */
  lemma TagWrites(d: Db, found: seq<Id>, unmatched: seq<string>, rid: Id)
    requires IdsBelow(d.tags, d.next)
    requires forall id :: id in found ==> id in d.tags
    ensures WritesTags(d.tags, LinkTags(AddTags(d, NewTags(unmatched, rid)), found, rid).tags, found, d.next, unmatched, rid)
  {
    var newTags := NewTags(unmatched, rid);
    var added := AddTags(d, newTags);
    assert forall id :: id in added.tags <==> id in d.tags || d.next <= id < d.next + |unmatched| by {
      assert |newTags| == |unmatched|;
    }
    assert forall k :: 0 <= k < |unmatched| ==> added.tags[d.next + k] == Tag(unmatched[k], [rid]);
    assert forall id :: id in d.tags ==> added.tags[id] == d.tags[id];
    LinkTagsEffect(added, found, rid);
  }

  lemma LinkTagsEffect(d: Db, found: seq<Id>, rid: Id)
    ensures LinkTags(d, found, rid).tags.Keys == d.tags.Keys
    ensures forall id :: id in d.tags ==>
              LinkTags(d, found, rid).tags[id]
              == (if id in found then d.tags[id].(recipes := d.tags[id].recipes + [rid]) else d.tags[id])
  {
  }

  /** A successful `store` appends the recipe to its owner's recipes, and to
      no other user; an owner id that matches no user changes nothing. */
  lemma StoreLinksOwner(db: Db, files: Files, input: StoreInput, faults: Faults)
    requires Store(db, files, input, faults).result.Ok?
    ensures var r := Store(db, files, input, faults);
            && r.db.users.Keys == db.users.Keys
            && (input.user in db.users ==>
                  r.db.users[input.user] == db.users[input.user].(recipes := db.users[input.user].recipes + [db.next]))
            && forall id :: id in db.users && id != input.user ==> r.db.users[id] == db.users[id]
  {
    StoreOutcome(db, files, input, faults);
  }

  /** When the video is attached but gets no URL, `store` fails before
      anything is on the rollback list: the image upload that was sent
      alongside is never destroyed. */
  lemma StoreVideoFailureKeepsImage(db: Db, files: Files, input: StoreInput, faults: Faults)
    requires FileAt(files, ImageField).Some?
    requires FileAt(files, VideoField).Some? && FileAt(files, VideoField).value.hostReply.None?
    ensures var r := Store(db, files, input, faults);
            && r.result == Fail(Raise(VideoUploadFailure))
            && r.db == db
            && r.rollback == []
            && r.Media() == [UploadRequest(FileAt(files, ImageField).value, Image),
                             UploadRequest(FileAt(files, VideoField).value, Video)]
  {
  }

  /** Once the image (and any video) is uploaded, the rollback list holds
      them, in that order, followed by the step images.  A failed step upload
      leaves the step images out of the list, so the ones that did upload are
      never destroyed; a later failure puts every uploaded step image on it. */
  lemma StoreRollbackList(db: Db, files: Files, input: StoreInput, faults: Faults)
    requires FileAt(files, ImageField).Some? && FileAt(files, ImageField).value.hostReply.Some?
    requires FileAt(files, VideoField).Some? ==> FileAt(files, VideoField).value.hostReply.Some?
    ensures var r := Store(db, files, input, faults);
            var built := BuildSteps(db.next, input.steps, files);
            && r.rollback == [Pending(FileAt(files, ImageField).value.hostReply, Image),
                              Pending(Upload(FileAt(files, VideoField), Video).url, Video)]
                             + (if built.failed then [] else StepRollback(built.steps))
            && (built.failed ==> r.result == Fail(Raise(StepUploadFailure)) && r.db == db)
  {
    if BuildSteps(db.next, input.steps, files).failed {
      StoreStepUploadFails(db, files, input, faults);
    } else {
      StoreAfterUploads(db, files, input, faults);
    }
  }

  /** Every failure after the uploads destroys the image and the video, in
      that order, then the step images on the rollback list. */
  lemma StoreFailureRollsBack(db: Db, files: Files, input: StoreInput, faults: Faults)
    requires FileAt(files, ImageField).Some? && FileAt(files, ImageField).value.hostReply.Some?
    requires FileAt(files, VideoField).Some? ==> FileAt(files, VideoField).value.hostReply.Some?
    requires Store(db, files, input, faults).result.Fail?
    ensures var r := Store(db, files, input, faults);
            var built := BuildSteps(db.next, input.steps, files);
            r.Media() == r.sent + Delete(FileAt(files, ImageField).value.hostReply, Image)
                         + Delete(Upload(FileAt(files, VideoField), Video).url, Video)
                         + Cleanup(if built.failed then [] else StepRollback(built.steps))
  {
    var built := BuildSteps(db.next, input.steps, files);
    StoreRollbackList(db, files, input, faults);
    FailedRunMedia(Store(db, files, input, faults),
                   Pending(FileAt(files, ImageField).value.hostReply, Image),
                   Pending(Upload(FileAt(files, VideoField), Video).url, Video),
                   if built.failed then [] else StepRollback(built.steps));
  }

  lemma FailedRunMedia(r: StoreRun, a: Pending, b: Pending, rest: seq<Pending>)
    requires r.result.Fail? && r.rollback == [a, b] + rest
    ensures r.Media() == r.sent + Delete(a.url, a.kind) + Delete(b.url, b.kind) + Cleanup(rest)
  {
    CleanupPairThen(a, b, rest);
    ConcatAssoc(r.sent, Delete(a.url, a.kind), Delete(b.url, b.kind), Cleanup(rest));
  }

  /** Regrouping a concatenation. */
  lemma ConcatAssoc<T>(s: seq<T>, x: seq<T>, y: seq<T>, z: seq<T>)
    ensures s + (x + y + z) == s + x + y + z
  {
  }

  lemma StoreStepUploadFails(db: Db, files: Files, input: StoreInput, faults: Faults)
    requires FileAt(files, ImageField).Some? && FileAt(files, ImageField).value.hostReply.Some?
    requires FileAt(files, VideoField).Some? ==> FileAt(files, VideoField).value.hostReply.Some?
    requires BuildSteps(db.next, input.steps, files).failed
    ensures var r := Store(db, files, input, faults);
            && r.db == db && r.result == Fail(Raise(StepUploadFailure))
            && r.rollback == [Pending(FileAt(files, ImageField).value.hostReply, Image),
                              Pending(Upload(FileAt(files, VideoField), Video).url, Video)]
  {
  }

  /** The request's recipe fields pass the schema check. */
  predicate RecipeFieldsValid(input: StoreInput)
  {
    && input.title != "" && input.description != ""
    && input.preparation_time >= 3 && 1 <= input.difficulty_level <= 10
  }

  /** `store` after its uploads have succeeded is the writes of `Persist`. */
  lemma StoreAfterUploads(db: Db, files: Files, input: StoreInput, faults: Faults)
    requires FileAt(files, ImageField).Some? && FileAt(files, ImageField).value.hostReply.Some?
    requires FileAt(files, VideoField).Some? ==> FileAt(files, VideoField).value.hostReply.Some?
    requires !BuildSteps(db.next, input.steps, files).failed
    ensures var r := Store(db, files, input, faults);
            var built := BuildSteps(db.next, input.steps, files);
            var p := Persist(db, Built(db, files, input), built.steps, TagNames(input.tags), faults);
            && r.db == p.db
            && r.result == (if p.result.Fail? then Fail(Rethrow(p.result.error)) else p.result)
            && r.rollback == [Pending(FileAt(files, ImageField).value.hostReply, Image),
                              Pending(Upload(FileAt(files, VideoField), Video).url, Video)]
                             + StepRollback(built.steps)
  {
  }

  /** A failure after the recipe is saved (here, the tag insert, or the
      schema check of the new tags just before it) leaves the recipe stored,
      pointing at an image that the rollback destroys. */
  lemma StoreFailureAfterSaveKeepsRecipe(db: Db, files: Files, input: StoreInput, faults: Faults)
    requires FileAt(files, ImageField).Some? && FileAt(files, ImageField).value.hostReply.Some?
    requires FileAt(files, VideoField).Some? ==> FileAt(files, VideoField).value.hostReply.Some?
    requires !BuildSteps(db.next, input.steps, files).failed
    requires StepsValid(input.steps) && RecipeFieldsValid(input)
    requires InsertSteps !in faults && FindTags !in faults && SaveRecipe !in faults
    requires !TagsInserted(NewTagsFor(db, StoreSteps(db, files, input), TagNames(input.tags)), faults)
    ensures var r := Store(db, files, input, faults);
            var image := FileAt(files, ImageField).value.hostReply;
            && r.result.Fail?
            && db.next in r.db.recipes
            && Some(r.db.recipes[db.next].image) == image
            && |r.rollback| > 0 && r.rollback[0] == Pending(image, Image)
  {
    var built := BuildSteps(db.next, input.steps, files);
    assert AllValidSteps(built.steps);
    StoreAfterUploads(db, files, input, faults);
    PersistTagFailureKeepsRecipe(db, Built(db, files, input), built.steps, TagNames(input.tags), faults);
  }

  /** The writes of `store` when the new tags fail their schema check or
      their insert: the recipe is already saved under `db.next`. */
  lemma PersistTagFailureKeepsRecipe(db: Db, recipe: Recipe, steps: seq<Step>, names: seq<string>, faults: Faults)
    requires AllValidSteps(steps) && ValidRecipe(recipe)
    requires InsertSteps !in faults && FindTags !in faults && SaveRecipe !in faults
    requires !TagsInserted(NewTagsFor(db, steps, names), faults)
    ensures var p := Persist(db, recipe, steps, names, faults);
            && p.result.Fail?
            && db.next in p.db.recipes && p.db.recipes[db.next].image == recipe.image
  {
    PersistUnfold(db, recipe, steps, names, faults);
    var withSteps := AddSteps(db, steps);
    var stepped := recipe.(steps := IdRange(db.next + 1, |steps|));
    var unmatched := FreshNames(withSteps, names);
    var saved := stepped.(tags := FoundTags(withSteps, names) + IdRange(withSteps.next, |unmatched|));
    assert ValidRecipe(saved);
    var d := withSteps.(recipes := withSteps.recipes[db.next := saved]);
    assert SaveRecipeStage(withSteps, db.next, stepped, names, faults)
           == LinkStage(d, db.next, saved, FoundTags(withSteps, names), NewTags(unmatched, db.next), faults);
  }

  /** The image and, when attached, the video both got a URL. */
  predicate UploadsOk(files: Files)
  {
    && FileAt(files, ImageField).Some? && FileAt(files, ImageField).value.hostReply.Some?
    && (FileAt(files, VideoField).Some? ==> FileAt(files, VideoField).value.hostReply.Some?)
  }

  /** The step documents `store` builds for the request. */
  function StoreSteps(db: Db, files: Files, input: StoreInput): seq<Step>
  {
    BuildSteps(db.next, input.steps, files).steps
  }

  /** The recipe as `store` saves it. */
  function StoreSaved(db: Db, files: Files, input: StoreInput): Recipe
    requires UploadsOk(files)
  {
    SavedRecipe(db, Built(db, files, input), StoreSteps(db, files, input), TagNames(input.tags))
  }

  /** When the image is attached but gets no URL (and the video, if any,
      got one), `store` fails before anything is on the rollback list: no
      upload is ever destroyed and nothing is written. */
  lemma StoreImageFailureDestroysNothing(db: Db, files: Files, input: StoreInput, faults: Faults)
    requires FileAt(files, ImageField).Some? && FileAt(files, ImageField).value.hostReply.None?
    requires FileAt(files, VideoField).Some? ==> FileAt(files, VideoField).value.hostReply.Some?
    ensures var r := Store(db, files, input, faults);
            && r.result == Fail(Raise(UploadFailure))
            && r.db == db
            && r.rollback == []
            && r.Media() == [UploadRequest(FileAt(files, ImageField).value, Image)]
                            + Upload(FileAt(files, VideoField), Video).requests
  {
  }

  /** The steps' schema check or the step insert fails: nothing is written. */
  lemma StoreStepWriteFails(db: Db, files: Files, input: StoreInput, faults: Faults)
    requires UploadsOk(files) && !BuildSteps(db.next, input.steps, files).failed
    requires !StepsInserted(StoreSteps(db, files, input), faults)
    ensures var r := Store(db, files, input, faults);
            && r.db == db
            && r.result == Fail(Rethrow(if AllValidSteps(StoreSteps(db, files, input)) then Fault(faults, InsertSteps)
                                        else Invalid("Step")))
  {
    StoreAfterUploads(db, files, input, faults);
    PersistStepWriteFails(db, Built(db, files, input), StoreSteps(db, files, input), TagNames(input.tags), faults);
  }

  /** The tag lookup, the recipe's schema check or the recipe save fails:
      the steps are stored and the recipe is not. */
  lemma StoreRecipeWriteFails(db: Db, files: Files, input: StoreInput, faults: Faults)
    requires UploadsOk(files) && !BuildSteps(db.next, input.steps, files).failed
    requires StepsInserted(StoreSteps(db, files, input), faults)
    requires FindTags in faults || !ValidRecipe(StoreSaved(db, files, input)) || SaveRecipe in faults
    ensures var r := Store(db, files, input, faults);
            && r.db == AddSteps(db, StoreSteps(db, files, input))
            && r.db.recipes == db.recipes && r.db.tags == db.tags && r.db.users == db.users
            && r.result.Fail?
            && (FindTags in faults ==> r.result.error == Rethrow(Fault(faults, FindTags)))
            && (FindTags !in faults && !ValidRecipe(StoreSaved(db, files, input)) ==>
                  r.result.error == Rethrow(Invalid("Recipe")))
            && (FindTags !in faults && ValidRecipe(StoreSaved(db, files, input)) ==>
                  r.result.error == Rethrow(Fault(faults, SaveRecipe)))
  {
    StoreAfterUploads(db, files, input, faults);
    PersistRecipeWriteFails(db, Built(db, files, input), StoreSteps(db, files, input), TagNames(input.tags), faults);
  }

  /** The new tags' schema check or their insert fails: the steps and the
      recipe are stored, no new tag is and no found tag or user changes. */
  lemma StoreTagInsertFails(db: Db, files: Files, input: StoreInput, faults: Faults)
    requires UploadsOk(files) && !BuildSteps(db.next, input.steps, files).failed
    requires StepsInserted(StoreSteps(db, files, input), faults)
    requires FindTags !in faults && ValidRecipe(StoreSaved(db, files, input)) && SaveRecipe !in faults
    requires var newTags := NewTagsFor(db, StoreSteps(db, files, input), TagNames(input.tags));
             !TagsInserted(newTags, faults)
    ensures var r := Store(db, files, input, faults);
            var newTags := NewTagsFor(db, StoreSteps(db, files, input), TagNames(input.tags));
            && r.db == WithRecipe(db, Built(db, files, input), StoreSteps(db, files, input), TagNames(input.tags))
            && r.db.tags == db.tags && r.db.users == db.users
            && r.result == Fail(Rethrow(if AllValidTags(newTags) then Fault(faults, InsertTags) else Invalid("Tag")))
  {
    StoreAfterUploads(db, files, input, faults);
    PersistTagInsertFails(db, Built(db, files, input), StoreSteps(db, files, input), TagNames(input.tags), faults);
  }

  /** The bulk write onto the found tags fails: the steps, the recipe and
      the new tags are stored, but no found tag and no user lists the recipe. */
  lemma StoreTagPushFails(db: Db, files: Files, input: StoreInput, faults: Faults)
    requires UploadsOk(files) && !BuildSteps(db.next, input.steps, files).failed
    requires StepsInserted(StoreSteps(db, files, input), faults)
    requires FindTags !in faults && ValidRecipe(StoreSaved(db, files, input)) && SaveRecipe !in faults
    requires TagsInserted(NewTagsFor(db, StoreSteps(db, files, input), TagNames(input.tags)), faults)
    requires |FoundFor(db, StoreSteps(db, files, input), TagNames(input.tags))| > 0 && PushTagRecipes in faults
    ensures var r := Store(db, files, input, faults);
            var steps := StoreSteps(db, files, input);
            var names := TagNames(input.tags);
            && r.db == AddTags(WithRecipe(db, Built(db, files, input), steps, names), NewTagsFor(db, steps, names))
            && r.db.users == db.users
            && r.result == Fail(Rethrow(Fault(faults, PushTagRecipes)))
  {
    StoreAfterUploads(db, files, input, faults);
    PersistTagPushFails(db, Built(db, files, input), StoreSteps(db, files, input), TagNames(input.tags), faults);
  }

  /** The push onto the owner fails: every other write is done, and no user
      changes. */
  lemma StoreOwnerPushFails(db: Db, files: Files, input: StoreInput, faults: Faults)
    requires UploadsOk(files) && !BuildSteps(db.next, input.steps, files).failed
    requires StepsInserted(StoreSteps(db, files, input), faults)
    requires FindTags !in faults && ValidRecipe(StoreSaved(db, files, input)) && SaveRecipe !in faults
    requires TagsInserted(NewTagsFor(db, StoreSteps(db, files, input), TagNames(input.tags)), faults)
    requires |FoundFor(db, StoreSteps(db, files, input), TagNames(input.tags))| == 0 || PushTagRecipes !in faults
    requires PushUserRecipe in faults
    ensures var r := Store(db, files, input, faults);
            var steps := StoreSteps(db, files, input);
            var names := TagNames(input.tags);
            && r.db == LinkTags(AddTags(WithRecipe(db, Built(db, files, input), steps, names), NewTagsFor(db, steps, names)),
                                FoundFor(db, steps, names), db.next)
            && r.db.users == db.users
            && r.result == Fail(Rethrow(Fault(faults, PushUserRecipe)))
  {
    StoreAfterUploads(db, files, input, faults);
    PersistOwnerPushFails(db, Built(db, files, input), StoreSteps(db, files, input), TagNames(input.tags), faults);
  }

  /** `store` succeeds when every upload gets a URL, the recipe passes its
      schema check and every database write it makes goes through. */
  lemma StoreSucceeds(db: Db, files: Files, input: StoreInput, faults: Faults)
    requires UploadsOk(files) && !BuildSteps(db.next, input.steps, files).failed
    requires StepsInserted(StoreSteps(db, files, input), faults)
    requires FindTags !in faults && ValidRecipe(StoreSaved(db, files, input)) && SaveRecipe !in faults
    requires TagsInserted(NewTagsFor(db, StoreSteps(db, files, input), TagNames(input.tags)), faults)
    requires |FoundFor(db, StoreSteps(db, files, input), TagNames(input.tags))| == 0 || PushTagRecipes !in faults
    requires PushUserRecipe !in faults
    ensures Store(db, files, input, faults).result == Ok(Stored(db.next, StoreSaved(db, files, input)))
  {
    StoreAfterUploads(db, files, input, faults);
    PersistLinks(db, Built(db, files, input), StoreSteps(db, files, input), TagNames(input.tags), faults);
  }

  /** Whatever `store` ends with, success or a failure part-way through the
      writes, every stored document still passes its schema check and every
      id is still below the counter: each write runs the schema check first
      and takes its ids from the counter. */
  lemma StoreKeepsValid(db: Db, files: Files, input: StoreInput, faults: Faults)
    requires Valid(db)
    ensures Valid(Store(db, files, input, faults).db)
  {
    if && FileAt(files, ImageField).Some? && FileAt(files, ImageField).value.hostReply.Some?
       && (FileAt(files, VideoField).Some? ==> FileAt(files, VideoField).value.hostReply.Some?)
    {
      var built := BuildSteps(db.next, input.steps, files);
      if built.failed {
        StoreStepUploadFails(db, files, input, faults);
      } else {
        StoreAfterUploads(db, files, input, faults);
        PersistKeepsValid(db, Built(db, files, input), built.steps, TagNames(input.tags), faults);
      }
    }
  }

  lemma PersistKeepsValid(db: Db, recipe: Recipe, steps: seq<Step>, names: seq<string>, faults: Faults)
    requires Valid(db)
    ensures Valid(Persist(db, recipe, steps, names, faults).db)
  {
    if StepsInserted(steps, faults) {
      var d := AddSteps(db, steps);
      assert Documents.StepsValid(d.steps) by {
        forall id | id in d.steps ensures ValidStep(d.steps[id]) {
          if db.next + 1 <= id < db.next + 1 + |steps| {
            assert d.steps[id] == steps[id - db.next - 1];
          }
        }
      }
      PersistUnfold(db, recipe, steps, names, faults);
      SaveRecipeStageKeepsValid(d, db.next, recipe.(steps := IdRange(db.next + 1, |steps|)), names, faults);
    }
  }

  lemma SaveRecipeStageKeepsValid(db: Db, rid: Id, recipe: Recipe, names: seq<string>, faults: Faults)
    requires Valid(db) && rid < db.next
    ensures Valid(SaveRecipeStage(db, rid, recipe, names, faults).db)
  {
    if FindTags !in faults {
      var found := FoundTags(db, names);
      var unmatched := FreshNames(db, names);
      var saved := recipe.(tags := found + IdRange(db.next, |unmatched|));
      if ValidRecipe(saved) && SaveRecipe !in faults {
        var d := db.(recipes := db.recipes[rid := saved]);
        assert Valid(d);
        LinkStageKeepsValid(d, rid, saved, found, NewTags(unmatched, rid), faults);
      }
    }
  }

  lemma LinkStageKeepsValid(db: Db, rid: Id, saved: Recipe, found: seq<Id>, newTags: seq<Tag>, faults: Faults)
    requires Valid(db)
    ensures Valid(LinkStage(db, rid, saved, found, newTags, faults).db)
  {
    if TagsInserted(newTags, faults) {
      var withTags := AddTags(db, newTags);
      AddTagsKeepsValid(db, newTags);
      var linked := LinkTags(withTags, found, rid);
      LinkTagsKeepsValid(withTags, found, rid);
      Users.PushToKeepsValid(linked, saved.user, Users.Recipes, rid);
    }
  }

  /** Inserting tags that pass their schema check keeps every document valid. */
  lemma AddTagsKeepsValid(db: Db, newTags: seq<Tag>)
    requires Valid(db) && AllValidTags(newTags)
    ensures Valid(AddTags(db, newTags))
  {
    var withTags := AddTags(db, newTags);
    forall id | id in withTags.tags ensures ValidTag(withTags.tags[id]) {
      if db.next <= id < db.next + |newTags| {
        assert withTags.tags[id] == newTags[id - db.next];
      }
    }
  }

  /** Pushing the recipe onto found tags keeps every document valid. */
  lemma LinkTagsKeepsValid(db: Db, found: seq<Id>, rid: Id)
    requires Valid(db)
    ensures Valid(LinkTags(db, found, rid))
  {
  }
}
