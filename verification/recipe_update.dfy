/** `Recipe.update(req)`: editing a stored recipe.  Steps and tags the
    request lists by id are kept as they are; the ones it lists without an
    id are created.  Nothing is rolled back on failure: new steps already
    saved stay saved, and no uploaded file is ever deleted. */
module RecipeUpdate {
  import opened Outcomes
  import opened Media
  import opened Documents
  import opened RecipeInput
  import RecipeStore

  const NotFound := "recipe to be updated not found"
  const StepImageFailure := "step image upload failed"
  /** The start of the `TypeError` thrown when a new step's image is looked
      up in a request that carries no file at all. */
  const NoFilesError := "Cannot read properties of undefined"

  /** One entry of `req.body.steps`: a stored step, by id, or a new one. */
  datatype StepEntry = KeptStep(id: Id) | NewStep(description: string, sequence_number: int)

  /** One entry of `req.body.tags`: a stored tag, by id, or a new name. */
  datatype TagEntry = KeptTag(id: Id) | NewTag(name: string)

  /** The fields of `req.body` an update reads. */
  datatype UpdateInput = UpdateInput(
    id: Id,
    title: string,
    description: string,
    ingredients: seq<string>,
    preparation_time: int,
    difficulty_level: int,
    steps: seq<StepEntry>,
    tags: seq<TagEntry>)

  /** What happened to one step entry: the step document saved for it, if
      any, the error it threw, if any, and the uploads it sent. */
  datatype StepAttempt = StepAttempt(saved: Option<Step>, error: Option<Error>, media: seq<MediaRequest>)

  /** The callback for an entry goes through: a kept entry always does; a
      new one when the request carries files, its image, if attached, gets a
      URL, the step passes its schema check and its save succeeds. */
  predicate StepGoesThrough(rid: Id, entry: StepEntry, files: Files, faults: Faults, index: nat)
  {
    entry.KeptStep? ||
    (&& files.Some? && !ImageFails(files, StepInput(entry.description, entry.sequence_number))
     && ValidStep(Step(rid, entry.description, entry.sequence_number,
                       Upload(StepFile(files, entry.sequence_number), Image).url))
     && SaveStep(index) !in faults)
  }

  /** The callback `req.body.steps.map` runs for the entry at `index`: a
      kept entry is returned as it is; a new one reads its image from the
      request's files (a `TypeError` when there are none), uploads it when
      attached (a missing URL fails), then saves the step, which runs the
      schema check first. */
  function Attempt(rid: Id, entry: StepEntry, files: Files, faults: Faults, index: nat): (a: StepAttempt)
    ensures entry.KeptStep? ==> a == StepAttempt(None, None, [])
    ensures a.saved.Some? <==> a.error.None? && entry.NewStep?
    ensures a.saved.Some? ==>
              && files.Some? && SaveStep(index) !in faults && ValidStep(a.saved.value)
              && a.saved.value == Step(rid, entry.description, entry.sequence_number,
                                       Upload(StepFile(files, entry.sequence_number), Image).url)
    ensures entry.NewStep? && files.None? ==> a == StepAttempt(None, Some(Raise(NoFilesError)), [])
    ensures entry.NewStep? && files.Some? ==> a.media == Upload(StepFile(files, entry.sequence_number), Image).requests
    ensures entry.NewStep? && files.Some? && ImageFails(files, StepInput(entry.description, entry.sequence_number)) ==>
              a.saved.None? && a.error == Some(Raise(StepImageFailure))
    ensures && entry.NewStep? && files.Some? && !ImageFails(files, StepInput(entry.description, entry.sequence_number))
            && !ValidStep(Step(rid, entry.description, entry.sequence_number,
                               Upload(StepFile(files, entry.sequence_number), Image).url)) ==>
              a.error == Some(Invalid("Step"))
    ensures && entry.NewStep? && files.Some? && !ImageFails(files, StepInput(entry.description, entry.sequence_number))
            && ValidStep(Step(rid, entry.description, entry.sequence_number,
                              Upload(StepFile(files, entry.sequence_number), Image).url))
            && SaveStep(index) in faults ==>
              a.error == Some(Fault(faults, SaveStep(index)))
    ensures a.error.None? <==> StepGoesThrough(rid, entry, files, faults, index)
    ensures forall q :: q in a.media ==> q.UploadRequest? && q.kind == Image
  {
    match entry
    case KeptStep(_) => StepAttempt(None, None, [])
    case NewStep(description, sequence_number) =>
      if files.None? then StepAttempt(None, Some(Raise(NoFilesError)), [])
      else
        var file := StepFile(files, sequence_number);
        var up := Upload(file, Image);
        if file.Some? && up.url.None? then StepAttempt(None, Some(Raise(StepImageFailure)), up.requests)
        else
          var step := Step(rid, description, sequence_number, up.url);
          if !ValidStep(step) then StepAttempt(None, Some(Invalid("Step")), up.requests)
          else if SaveStep(index) in faults then StepAttempt(None, Some(Fault(faults, SaveStep(index))), up.requests)
          else StepAttempt(Some(step), None, up.requests)
  }

  /** The callback for the entry at index `j`. */
  function AttemptAt(rid: Id, entries: seq<StepEntry>, files: Files, faults: Faults, j: nat): StepAttempt
    requires j < |entries|
  {
    Attempt(rid, entries[j], files, faults, j)
  }

  /** The callback at index `j` saves its step. */
  predicate SavesAt(rid: Id, entries: seq<StepEntry>, files: Files, faults: Faults, j: nat)
    requires j < |entries|
  {
    AttemptAt(rid, entries, files, faults, j).saved.Some?
  }

  /** The steps stored once the callbacks from index `k` on have run, the
      new step at index `j` being saved under `first + j`.  Every callback
      runs to its end whatever the others do, so each successful save is
      kept. */
  function SavedSteps(steps: map<Id, Step>, rid: Id, entries: seq<StepEntry>, files: Files, faults: Faults,
                      first: Id, k: nat): (r: map<Id, Step>)
    requires k <= |entries|
    decreases |entries| - k
  {
    if k == |entries| then steps
    else
      var a := AttemptAt(rid, entries, files, faults, k);
      var with := if a.saved.Some? then steps[first + k := a.saved.value] else steps;
      SavedSteps(with, rid, entries, files, faults, first, k + 1)
  }

  /** The step stage from index `k` on keeps every stored step, stores the
      step of each callback that saves one under `first + j`, whatever the
      other callbacks do, and stores nothing else. */
  lemma {:induction false} SavedStepsKeepsEachSave(steps: map<Id, Step>, rid: Id, entries: seq<StepEntry>,
                                                    files: Files, faults: Faults, first: Id, k: nat)
    requires k <= |entries|
    ensures var r := SavedSteps(steps, rid, entries, files, faults, first, k);
            && (forall id :: id in steps ==> id in r)
            && (forall id :: id in r ==> id in steps || first + k <= id < first + |entries|)
            && (forall j :: k <= j < |entries| ==>
                  (first + j in r <==> first + j in steps || SavesAt(rid, entries, files, faults, j)))
            && (forall j :: k <= j < |entries| && SavesAt(rid, entries, files, faults, j) ==>
                  first + j in r && r[first + j] == AttemptAt(rid, entries, files, faults, j).saved.value)
            && (forall id :: id in steps && !(first + k <= id < first + |entries|) ==> r[id] == steps[id])
            && (forall j :: k <= j < |entries| && first + j in steps && !SavesAt(rid, entries, files, faults, j) ==>
                  r[first + j] == steps[first + j])
    decreases |entries| - k
  {
    if k < |entries| {
      var a := AttemptAt(rid, entries, files, faults, k);
      var with := if a.saved.Some? then steps[first + k := a.saved.value] else steps;
      SavedStepsKeepsEachSave(with, rid, entries, files, faults, first, k + 1);
      assert a.saved.Some? <==> SavesAt(rid, entries, files, faults, k);
      assert forall id :: id in with <==> id in steps || (id == first + k && a.saved.Some?);
    }
  }

  /** The error `Promise.all` rejects with: the first one in request order
      among the callbacks from index `k` on. */
  function FirstError(rid: Id, entries: seq<StepEntry>, files: Files, faults: Faults, k: nat): (r: Option<Error>)
    requires k <= |entries|
    decreases |entries| - k
  {
    if k == |entries| then None
    else if AttemptAt(rid, entries, files, faults, k).error.Some? then AttemptAt(rid, entries, files, faults, k).error
    else FirstError(rid, entries, files, faults, k + 1)
  }

  /** The step stage from index `k` on fails exactly when one of its
      callbacks fails, and then with the error of the first failing one. */
  lemma {:induction false} FirstErrorIsFirst(rid: Id, entries: seq<StepEntry>, files: Files, faults: Faults, k: nat)
    requires k <= |entries|
    ensures var r := FirstError(rid, entries, files, faults, k);
            && (r.None? <==> forall j :: k <= j < |entries| ==> AttemptAt(rid, entries, files, faults, j).error.None?)
            && (r.Some? ==>
                  exists j :: && k <= j < |entries| && AttemptAt(rid, entries, files, faults, j).error == r
                              && forall i :: k <= i < j ==> AttemptAt(rid, entries, files, faults, i).error.None?)
    decreases |entries| - k
  {
    if k < |entries| && AttemptAt(rid, entries, files, faults, k).error.None? {
      FirstErrorIsFirst(rid, entries, files, faults, k + 1);
      var r := FirstError(rid, entries, files, faults, k);
      if r.Some? {
        var j :| && k + 1 <= j < |entries| && AttemptAt(rid, entries, files, faults, j).error == r
                 && forall i :: k + 1 <= i < j ==> AttemptAt(rid, entries, files, faults, i).error.None?;
        assert forall i :: k <= i < j ==> AttemptAt(rid, entries, files, faults, i).error.None?;
      }
    }
  }

  /** The step image uploads of the callbacks from index `k` on, in order. */
  function StepUploads(rid: Id, entries: seq<StepEntry>, files: Files, faults: Faults, k: nat): (r: seq<MediaRequest>)
    requires k <= |entries|
    ensures forall q :: q in r ==> q.UploadRequest? && q.kind == Image
    ensures files.None? ==> r == []
    decreases |entries| - k
  {
    if k == |entries| then []
    else AttemptAt(rid, entries, files, faults, k).media + StepUploads(rid, entries, files, faults, k + 1)
  }

  /** `steps.map(step => step._id)`: a kept entry's own id, or the id the new
      step at that index was given. */
  function StepIds(entries: seq<StepEntry>, first: Id): (ids: seq<Id>)
    ensures |ids| == |entries|
    ensures forall k :: 0 <= k < |entries| ==> ids[k] == if entries[k].KeptStep? then entries[k].id else first + k
  {
    seq(|entries|, k requires 0 <= k < |entries| => if entries[k].KeptStep? then entries[k].id else first + k)
  }

  /** The ids of the tag entries that carry one, in order. */
  function KeptTagIds(entries: seq<TagEntry>): (ids: seq<Id>)
    ensures forall id :: id in ids <==> KeptTag(id) in entries
    decreases |entries|
  {
    if |entries| == 0 then []
    else
      assert forall e :: e in entries <==> e == entries[0] || e in entries[1..];
      (if entries[0].KeptTag? then [entries[0].id] else []) + KeptTagIds(entries[1..])
  }

  /** The names of the tag entries without an id, in order. */
  function NewTagNames(entries: seq<TagEntry>): (names: seq<string>)
    ensures forall n :: n in names <==> NewTag(n) in entries
    ensures |KeptTagIds(entries)| + |names| == |entries|
    decreases |entries|
  {
    if |entries| == 0 then []
    else
      assert forall e :: e in entries <==> e == entries[0] || e in entries[1..];
      (if entries[0].NewTag? then [entries[0].name] else []) + NewTagNames(entries[1..])
  }

  /** The recipe as `update` sets it before saving: an uploaded image or
      video replaces the stored one, the request's fields replace the rest,
      and owner and views are kept. */
  function Edited(recipe: Recipe, input: UpdateInput, image: Option<Url>, video: Option<Url>,
                  stepFirst: Id, tagFirst: Id): Recipe
  {
    recipe.(title := input.title, description := input.description, ingredients := input.ingredients,
            preparation_time := input.preparation_time, difficulty_level := input.difficulty_level,
            image := if image.Some? then image.value else recipe.image,
            video := if video.Some? then video else recipe.video,
            steps := StepIds(input.steps, stepFirst),
            tags := KeptTagIds(input.tags) + IdRange(tagFirst, |NewTagNames(input.tags)|))
  }

  /** The recipe an update of the stored one at `input.id` saves: the new
      steps take the ids from the counter on, the new tags the ids after
      them. */
  function EditedFor(db: Db, input: UpdateInput, files: Files): Recipe
    requires input.id in db.recipes
  {
    Edited(db.recipes[input.id], input, MainUpload(files, ImageField, Image).url,
           MainUpload(files, VideoField, Video).url, db.next, db.next + |input.steps|)
  }

  /** The uploads of the recipe's own image and video, only sent when the
      request carries files. */
  function MainUpload(files: Files, key: FileKey, kind: MediaKind): (u: Uploaded)
    ensures files.None? ==> u == Uploaded(None, [])
    ensures forall q :: q in u.requests ==> q.UploadRequest? && q.kind == kind
  {
    if files.Some? then Upload(FileAt(files, key), kind) else Uploaded(None, [])
  }

  /** After the steps: `Tag.insertMany` of the new tags under the ids from
      the counter on, which is not awaited, so that neither its schema check
      nor its failure reaches the caller; then the save of the recipe. */
  function Finish(db: Db, rid: Id, edited: Recipe, names: seq<string>, faults: Faults,
                  media: seq<MediaRequest>): (r: MediaRun<Stored<Recipe>>)
    ensures r.media == media
    ensures r.result.Fail? ==> r.result.error.name == PlainError
    ensures r.result.Ok? <==> ValidRecipe(edited) && SaveRecipe !in faults
    ensures r.result.Ok? ==> r.result.value == Stored(rid, edited)
    ensures r.db.recipes == if r.result.Ok? then db.recipes[rid := edited] else db.recipes
    ensures r.db == db.(recipes := r.db.recipes, tags := r.db.tags, next := db.next + |names|)
    ensures InsertTags in faults ==> r.db.tags == db.tags
    ensures forall id :: id in db.tags && !(db.next <= id < db.next + |names|) ==>
              id in r.db.tags && r.db.tags[id] == db.tags[id]
  {
    var d := db.(tags := InsertedTags(db.tags, db.next, names, rid, faults), next := db.next + |names|);
    if !ValidRecipe(edited) then MediaRun(d, Fail(Rethrow(Invalid("Recipe"))), media)
    else if SaveRecipe in faults then MediaRun(d, Fail(Rethrow(Fault(faults, SaveRecipe))), media)
    else MediaRun(d.(recipes := d.recipes[rid := edited]), Ok(Stored(rid, edited)), media)
  }

  /** The tags once `Tag.insertMany` of the new tags, each listing only the
      recipe, has run: all of them under the ids from `first` on when they
      all pass the schema check and the insert does not fail, none of them
      otherwise. */
  function InsertedTags(tags: map<Id, Tag>, first: Id, names: seq<string>, rid: Id, faults: Faults): (r: map<Id, Tag>)
    ensures InsertTags in faults ==> r == tags
    ensures forall id :: id in tags && !(first <= id < first + |names|) ==> id in r && r[id] == tags[id]
    ensures forall id :: id in r && id !in tags ==> first <= id < first + |names|
    ensures r == tags || forall k :: 0 <= k < |names| ==> first + k in r && r[first + k] == Tag(names[k], [rid])
  {
    var newTags := RecipeStore.NewTags(names, rid);
    if RecipeStore.AllValidTags(newTags) && InsertTags !in faults then InsertAll(tags, first, newTags) else tags
  }

  /** The tag insert only stores tags that pass the schema check. */
  lemma InsertedTagsValid(tags: map<Id, Tag>, first: Id, names: seq<string>, rid: Id, faults: Faults)
    requires TagsValid(tags)
    ensures TagsValid(InsertedTags(tags, first, names, rid, faults))
  {
    var newTags := RecipeStore.NewTags(names, rid);
    var r := InsertedTags(tags, first, names, rid, faults);
    if RecipeStore.AllValidTags(newTags) && InsertTags !in faults {
      forall id | id in r ensures ValidTag(r[id]) {
        if first <= id < first + |names| {
          assert r[id] == newTags[id - first];
        }
      }
    }
  }

  /** The store once every step callback has run: the saved steps, and the
      counter past the ids the new steps were given. */
  function AfterSteps(db: Db, input: UpdateInput, files: Files, faults: Faults): (d: Db)
    ensures d == db.(steps := d.steps, next := db.next + |input.steps|)
  {
    db.(steps := SavedSteps(db.steps, input.id, input.steps, files, faults, db.next, 0),
        next := db.next + |input.steps|)
  }

  /** Every upload `update` sends: the recipe's image and video, then the
      step images. */
  function UpdateUploads(input: UpdateInput, files: Files, faults: Faults): (media: seq<MediaRequest>)
    ensures forall q :: q in media ==> q.UploadRequest?
    ensures files.None? ==> media == []
  {
    MainUpload(files, ImageField, Image).requests + MainUpload(files, VideoField, Video).requests
    + StepUploads(input.id, input.steps, files, faults, 0)
  }

  /** `Recipe.update(req)`. */
  function Update(db: Db, input: UpdateInput, files: Files, faults: Faults): (r: MediaRun<Stored<Recipe>>)
    ensures FindRecipe in faults ==> r == MediaRun(db, Fail(Rethrow(Fault(faults, FindRecipe))), [])
    ensures FindRecipe !in faults && input.id !in db.recipes ==> r == MediaRun(db, Fail(Raise(NotFound)), [])
    ensures FindRecipe !in faults && input.id in db.recipes ==> r.media == UpdateUploads(input, files, faults)
    ensures r.result.Fail? ==> r.result.error.name == PlainError
    ensures r.result.Ok? ==> r.result.value.id == input.id && input.id in db.recipes
  {
    if FindRecipe in faults then MediaRun(db, Fail(Rethrow(Fault(faults, FindRecipe))), [])
    else if input.id !in db.recipes then MediaRun(db, Fail(Raise(NotFound)), [])
    else
      var rid := input.id;
      var media := UpdateUploads(input, files, faults);
      var d := AfterSteps(db, input, files, faults);
      var error := FirstError(rid, input.steps, files, faults, 0);
      if error.Some? then MediaRun(d, Fail(Rethrow(error.value)), media)
      else
        Finish(d, rid, EditedFor(db, input, files), NewTagNames(input.tags), faults, media)
  }

  /** An update succeeds exactly when the recipe is found, every step
      callback goes through, and the edited recipe passes its schema check
      and is saved; it then returns the edited recipe. */
  lemma UpdateSucceeds(db: Db, input: UpdateInput, files: Files, faults: Faults)
    ensures Update(db, input, files, faults).result.Ok? <==>
              && FindRecipe !in faults && input.id in db.recipes
              && (forall j :: 0 <= j < |input.steps| ==> StepGoesThrough(input.id, input.steps[j], files, faults, j))
              && ValidRecipe(EditedFor(db, input, files)) && SaveRecipe !in faults
    ensures Update(db, input, files, faults).result.Ok? ==>
              Update(db, input, files, faults).result.value == Stored(input.id, EditedFor(db, input, files))
  {
    if FindRecipe !in faults && input.id in db.recipes {
      var error := FirstError(input.id, input.steps, files, faults, 0);
      FirstErrorIsFirst(input.id, input.steps, files, faults, 0);
      EveryStepGoesThrough(input.id, input.steps, files, faults);
      UpdateStages(db, input, files, faults);
    }
  }

  /** Every step callback goes through exactly when none of them errs. */
  lemma EveryStepGoesThrough(rid: Id, entries: seq<StepEntry>, files: Files, faults: Faults)
    ensures (forall j :: 0 <= j < |entries| ==> StepGoesThrough(rid, entries[j], files, faults, j))
            <==> (forall j :: 0 <= j < |entries| ==> AttemptAt(rid, entries, files, faults, j).error.None?)
  {
    forall j | 0 <= j < |entries|
      ensures AttemptAt(rid, entries, files, faults, j).error.None? <==> StepGoesThrough(rid, entries[j], files, faults, j)
    {
    }
  }

  /** `update` once the recipe is found: the store after the steps, and what
      follows. */
  lemma UpdateStages(db: Db, input: UpdateInput, files: Files, faults: Faults)
    requires FindRecipe !in faults && input.id in db.recipes
    ensures var r := Update(db, input, files, faults);
            var d := AfterSteps(db, input, files, faults);
            var error := FirstError(input.id, input.steps, files, faults, 0);
            var media := UpdateUploads(input, files, faults);
            && (error.Some? ==> r == MediaRun(d, Fail(Rethrow(error.value)), media))
            && (error.None? ==>
                  r == Finish(d, input.id, EditedFor(db, input, files), NewTagNames(input.tags), faults, media))
  {
  }

  /** A successful update stores the edited recipe under its own id and
      changes no other recipe: the request's title, description,
      ingredients, time and difficulty; an uploaded image or video in place
      of the stored one, the stored one otherwise; the listed steps in
      request order; the listed tags followed by the new ones; owner and
      views untouched. */
  lemma UpdateEditsRecipe(db: Db, input: UpdateInput, files: Files, faults: Faults)
    requires Update(db, input, files, faults).result.Ok?
    ensures var r := Update(db, input, files, faults);
            var doc := r.result.value.doc;
            && r.db.recipes == db.recipes[input.id := doc]
            && ValidRecipe(doc)
            && EditsAsRequested(db.recipes[input.id], doc, input, MainUpload(files, ImageField, Image).url,
                                MainUpload(files, VideoField, Video).url, db.next)
  {
    UpdateOkOutcome(db, input, files, faults);
    EditedFields(db, input, files);
  }

  /** `doc` is `stored` edited as the request asks: its title, description,
      ingredients, time and difficulty; an uploaded image or video in place
      of the stored one, the stored one otherwise; the listed steps in
      request order, new ones numbered from `first`; the listed tags followed
      by the new ones, numbered after the steps; owner and views untouched. */
  predicate EditsAsRequested(stored: Recipe, doc: Recipe, input: UpdateInput, image: Option<Url>,
                             video: Option<Url>, first: Id)
  {
    && doc.title == input.title && doc.description == input.description
    && doc.ingredients == input.ingredients
    && doc.preparation_time == input.preparation_time && doc.difficulty_level == input.difficulty_level
    && doc.user == stored.user && doc.views == stored.views
    && doc.image == (if image.Some? then image.value else stored.image)
    && doc.video == (if video.Some? then video else stored.video)
    && doc.steps == StepIds(input.steps, first)
    && doc.tags == KeptTagIds(input.tags) + IdRange(first + |input.steps|, |NewTagNames(input.tags)|)
  }

  lemma EditedFields(db: Db, input: UpdateInput, files: Files)
    requires input.id in db.recipes
    ensures EditsAsRequested(db.recipes[input.id], EditedFor(db, input, files), input,
                             MainUpload(files, ImageField, Image).url, MainUpload(files, VideoField, Video).url, db.next)
  {
  }

  /** A successful update saves the edited recipe, which passes its schema
      check, and touches no other recipe. */
  lemma UpdateOkOutcome(db: Db, input: UpdateInput, files: Files, faults: Faults)
    requires Update(db, input, files, faults).result.Ok?
    ensures var r := Update(db, input, files, faults);
            var doc := EditedFor(db, input, files);
            && input.id in db.recipes
            && r.result.value.doc == doc
            && r.db.recipes == db.recipes[input.id := doc]
            && ValidRecipe(doc)
  {
    var r := Update(db, input, files, faults);
    assert FindRecipe !in faults && input.id in db.recipes;
    UpdateStages(db, input, files, faults);
    var d := AfterSteps(db, input, files, faults);
    assert FirstError(input.id, input.steps, files, faults, 0).None?;
    var doc := EditedFor(db, input, files);
    var f := Finish(d, input.id, doc, NewTagNames(input.tags), faults, UpdateUploads(input, files, faults));
    assert d.next == db.next + |input.steps| && d.recipes == db.recipes;
    assert r == f;
    assert f.result.Ok? && ValidRecipe(doc) && f.result.value.doc == doc;
    assert f.db.recipes == d.recipes[input.id := doc];
  }

  /** `after` keeps every step of `before` and adds exactly the steps whose
      own callback saves them, each under the id `first + k` of its entry. */
  predicate SavesEachNewStep(before: map<Id, Step>, after: map<Id, Step>, rid: Id, entries: seq<StepEntry>,
                             files: Files, faults: Faults, first: Id)
  {
    && (forall id :: id in before ==> id in after && after[id] == before[id])
    && (forall k :: 0 <= k < |entries| && SavesAt(rid, entries, files, faults, k) ==>
          first + k in after && after[first + k] == AttemptAt(rid, entries, files, faults, k).saved.value)
    && (forall id :: id in after && id !in before ==> first <= id < first + |entries|)
    && (forall k :: 0 <= k < |entries| && first + k in after && first + k !in before ==>
          SavesAt(rid, entries, files, faults, k))
  }

  /** Once the recipe is found, every new step whose own callback succeeds
      is stored under its fresh id, whatever happens to the other steps and
      to the rest of the update; the steps already stored are left alone,
      the kept ones included, and no other step is stored. */
  lemma UpdateSavesEachNewStep(db: Db, input: UpdateInput, files: Files, faults: Faults)
    requires Fresh(db)
    requires FindRecipe !in faults && input.id in db.recipes
    ensures SavesEachNewStep(db.steps, Update(db, input, files, faults).db.steps,
                             input.id, input.steps, files, faults, db.next)
  {
    UpdateSteps(db, input, files, faults);
    SavedStepsFromFresh(db.steps, input.id, input.steps, files, faults, db.next);
  }

  /** The step stage started on ids below `first` keeps every stored step
      and adds exactly the successful saves, each under its own id. */
  lemma SavedStepsFromFresh(steps: map<Id, Step>, rid: Id, entries: seq<StepEntry>, files: Files,
                            faults: Faults, first: Id)
    requires forall id :: id in steps ==> id < first
    ensures SavesEachNewStep(steps, SavedSteps(steps, rid, entries, files, faults, first, 0),
                             rid, entries, files, faults, first)
  {
    SavedStepsKeepsEachSave(steps, rid, entries, files, faults, first, 0);
  }

  /** Once the recipe is found, the steps an update leaves are those the
      step stage saved, whatever the outcome. */
  lemma UpdateSteps(db: Db, input: UpdateInput, files: Files, faults: Faults)
    requires FindRecipe !in faults && input.id in db.recipes
    ensures Update(db, input, files, faults).db.steps
            == SavedSteps(db.steps, input.id, input.steps, files, faults, db.next, 0)
  {
    UpdateStages(db, input, files, faults);
  }

  /** Without any file in the request, an update with a new step fails with
      the `TypeError` and saves no step. */
  lemma UpdateWithoutFilesRejectsNewSteps(db: Db, input: UpdateInput, faults: Faults)
    requires FindRecipe !in faults && input.id in db.recipes
    requires exists k :: 0 <= k < |input.steps| && input.steps[k].NewStep?
    ensures var r := Update(db, input, None, faults);
            && r.result == Fail(Raise(NoFilesError))
            && r.db.steps == db.steps
            && r.media == []
  {
    UpdateStages(db, input, None, faults);
    NoFilesSavesNothing(db.steps, input.id, input.steps, faults, db.next);
    NoFilesFirstError(input.id, input.steps, faults);
  }

  lemma NoFilesSavesNothing(steps: map<Id, Step>, rid: Id, entries: seq<StepEntry>, faults: Faults, first: Id)
    ensures SavedSteps(steps, rid, entries, None, faults, first, 0) == steps
  {
    var saved := SavedSteps(steps, rid, entries, None, faults, first, 0);
    SavedStepsKeepsEachSave(steps, rid, entries, None, faults, first, 0);
    forall id | id in saved ensures id in steps && saved[id] == steps[id] {
      if first <= id < first + |entries| {
        var j := id - first;
        assert first + j == id;
        assert !SavesAt(rid, entries, None, faults, j);
      }
    }
  }

  lemma NoFilesFirstError(rid: Id, entries: seq<StepEntry>, faults: Faults)
    requires exists k :: 0 <= k < |entries| && entries[k].NewStep?
    ensures FirstError(rid, entries, None, faults, 0) == Some(Raise(NoFilesError))
  {
    var k :| 0 <= k < |entries| && entries[k].NewStep?;
    assert AttemptAt(rid, entries, None, faults, k).error.Some?;
    FirstErrorIsFirst(rid, entries, None, faults, 0);
    var error := FirstError(rid, entries, None, faults, 0);
    var j :| 0 <= j < |entries| && AttemptAt(rid, entries, None, faults, j).error == error;
    assert entries[j].NewStep?;
  }

  /** `update` never deletes a file from the media host, not even the image
      or video it replaces or the uploads of a failed update. */
  lemma UpdateNeverDestroys(db: Db, input: UpdateInput, files: Files, faults: Faults)
    ensures forall q :: q in Update(db, input, files, faults).media ==> !q.DestroyRequest?
  {
  }

  /** The stored tags are never written: a tag listed by id does not get the
      recipe appended, and a tag left out does not lose it. */
  lemma UpdateLeavesStoredTags(db: Db, input: UpdateInput, files: Files, faults: Faults)
    requires Fresh(db)
    ensures var r := Update(db, input, files, faults);
            forall id :: id in db.tags ==> id in r.db.tags && r.db.tags[id] == db.tags[id]
  {
    if FindRecipe !in faults && input.id in db.recipes {
      UpdateStages(db, input, files, faults);
    }
  }

  /** Because the tag insert is not awaited, an update whose new tags fail to
      be stored still succeeds, leaving the recipe listing tag ids that no
      tag is stored under. */
  lemma UpdateMayListMissingTags(db: Db, input: UpdateInput, files: Files, faults: Faults)
    requires Fresh(db)
    requires InsertTags in faults
    requires exists k :: 0 <= k < |input.tags| && input.tags[k].NewTag?
    requires Update(db, input, files, faults).result.Ok?
    ensures var r := Update(db, input, files, faults);
            exists t :: t in r.result.value.doc.tags && t !in r.db.tags
  {
    UpdateStages(db, input, files, faults);
    UpdateEditsRecipe(db, input, files, faults);
    var names := NewTagNames(input.tags);
    var k :| 0 <= k < |input.tags| && input.tags[k].NewTag?;
    assert input.tags[k] == NewTag(input.tags[k].name);
    assert input.tags[k].name in names;
    var tagFirst := db.next + |input.steps|;
    var doc := Update(db, input, files, faults).result.value.doc;
    assert doc.tags[|KeptTagIds(input.tags)|] == tagFirst;
    assert tagFirst !in Update(db, input, files, faults).db.tags;
  }

  /** Whatever its outcome, an update keeps every stored document valid:
      each new step and the recipe pass their schema check before they are
      written, the new tags are only inserted together when they all pass
      it, and every new id comes from the counter. */
  lemma UpdateKeepsValid(db: Db, input: UpdateInput, files: Files, faults: Faults)
    requires Valid(db)
    ensures Valid(Update(db, input, files, faults).db)
  {
    if FindRecipe !in faults && input.id in db.recipes {
      UpdateStages(db, input, files, faults);
      var d := AfterSteps(db, input, files, faults);
      SavedStepsValid(db.steps, input.id, input.steps, files, faults, db.next);
      assert Valid(d);
      if FirstError(input.id, input.steps, files, faults, 0).None? {
        var edited := EditedFor(db, input, files);
        FinishKeepsValid(d, input.id, edited, NewTagNames(input.tags), faults, UpdateUploads(input, files, faults));
      }
    }
  }

  /** The step stage started above every stored id keeps the steps valid
      and their ids below the counter it leaves. */
  lemma SavedStepsValid(steps: map<Id, Step>, rid: Id, entries: seq<StepEntry>, files: Files,
                        faults: Faults, first: Id)
    requires Documents.StepsValid(steps) && IdsBelow(steps, first)
    ensures var r := SavedSteps(steps, rid, entries, files, faults, first, 0);
            Documents.StepsValid(r) && IdsBelow(r, first + |entries|)
  {
    var r := SavedSteps(steps, rid, entries, files, faults, first, 0);
    SavedStepsFromFresh(steps, rid, entries, files, faults, first);
    forall id | id in r ensures ValidStep(r[id]) {
      if id !in steps {
        assert first <= id < first + |entries|;
        var k := id - first;
        assert first + k == id;
        assert SavesAt(rid, entries, files, faults, k);
        assert r[id] == AttemptAt(rid, entries, files, faults, k).saved.value;
      }
    }
  }

  lemma FinishKeepsValid(db: Db, rid: Id, edited: Recipe, names: seq<string>, faults: Faults,
                         media: seq<MediaRequest>)
    requires Valid(db) && rid < db.next
    ensures Valid(Finish(db, rid, edited, names, faults, media).db)
  {
    var r := Finish(db, rid, edited, names, faults, media);
    InsertedTagsValid(db.tags, db.next, names, rid, faults);
    assert r.db.tags == InsertedTags(db.tags, db.next, names, rid, faults);
    assert TagsValid(r.db.tags);
    assert IdsBelow(r.db.tags, r.db.next);
    assert RecipesValid(r.db.recipes);
  }
}
