/** The document store the models read and write: one map per collection
    from document id to document, and a counter that hands out fresh ids
    (ObjectIds are unique across collections).  Timestamps are left out. */
module Documents {
  import opened Outcomes
  import opened Media
  import opened Crypto

  type Id = nat

  /** A recipe document (`RecipeSchema`). */
  datatype Recipe = Recipe(
    title: string,
    image: Url,
    video: Option<Url>,
    description: string,
    preparation_time: int,
    difficulty_level: int,
    ingredients: seq<string>,
    user: Id,
    views: int,
    steps: seq<Id>,
    tags: seq<Id>)

  /** A step document (`StepSchema`). */
  datatype Step = Step(recipe_id: Id, description: string, sequence_number: int, image: Option<Url>)

  /** A tag document (`TagSchema`). */
  datatype Tag = Tag(name: string, recipes: seq<Id>)

  /** A user document (`UserSchema`); `role` is true for administrators. */
  datatype User = User(
    name: string,
    email: string,
    password: Option<Digest>,
    avatar: Option<Url>,
    role: bool,
    recipes: seq<Id>,
    comments: seq<Id>,
    followers: seq<Id>,
    followings: seq<Id>,
    saves: seq<Id>)

  /** A report document (`ReportSchema`). */
  datatype Report = Report(recipe: Id, comment: Option<Id>, body: string, is_comment_report: bool)

  datatype Db = Db(
    recipes: map<Id, Recipe>,
    steps: map<Id, Step>,
    tags: map<Id, Tag>,
    users: map<Id, User>,
    reports: map<Id, Report>,
    next: Id)

  /** The database calls that can fail, one per call site. */
  datatype DbOp =
    | InsertSteps | FindTags | SaveRecipe | InsertTags | PushTagRecipes | PushUserRecipe
    | FindRecipe | SaveStep(index: nat)
    | DeleteSteps | PullTagRecipes | PullUserRecipe
    | FindUser | SaveUser | PushFollower | PushFollowing | PullFollower | PullFollowing
    | PushSave | PullSave
    | SaveReport

  /** The calls that fail in a run, with the message the driver reports. */
  type Faults = map<DbOp, string>

  /** The error a failing database call throws. */
  function Fault(faults: Faults, op: DbOp): Error
    requires op in faults
  {
    Error(StoreError, faults[op])
  }

  /** The error a failing schema check throws; the per-path details Mongoose
      appends to the message are left out. */
  function Invalid(model: string): Error
  {
    Error(ValidationError, model + " validation failed")
  }

  /** A document as returned to the caller, with the id it is stored under. */
  datatype Stored<+T> = Stored(id: Id, doc: T)

  /** A document state together with the outcome of the call that produced it. */
  datatype Run<+T> = Run(db: Db, result: Result<T>)

  /** The same, for calls that also talk to the media host. */
  datatype MediaRun<+T> = MediaRun(db: Db, result: Result<T>, media: seq<MediaRequest>)

  // Schema checks, run by Mongoose on every save and insertMany.  A required
  // string rejects the empty string.

  /** `title`, `description` required; `preparation_time` at least 3;
      `difficulty_level` between 1 and 10. */
  predicate ValidRecipe(r: Recipe)
  {
    && |r.title| > 0
    && |r.description| > 0
    && r.preparation_time >= 3
    && 1 <= r.difficulty_level <= 10
  }

  /** `description` required; `sequence_number` between 1 and 15. */
  predicate ValidStep(s: Step)
  {
    |s.description| > 0 && 1 <= s.sequence_number <= 15
  }

  /** `name` required. */
  predicate ValidTag(t: Tag)
  {
    |t.name| > 0
  }

  /** `name` and `email` required. */
  predicate ValidUser(u: User)
  {
    |u.name| > 0 && |u.email| > 0
  }

  /** `body` required. */
  predicate ValidReport(r: Report)
  {
    |r.body| > 0
  }

  /** Every id in use in `m` is below `next`. */
  predicate IdsBelow<T>(m: map<Id, T>, next: Id)
  {
    forall id :: id in m ==> id < next
  }

  /** Every id in use is below the counter. */
  predicate Fresh(db: Db)
  {
    && IdsBelow(db.recipes, db.next)
    && IdsBelow(db.steps, db.next)
    && IdsBelow(db.tags, db.next)
    && IdsBelow(db.users, db.next)
    && IdsBelow(db.reports, db.next)
  }

  /** The unique index on `email`. */
  predicate EmailsUnique(users: map<Id, User>)
  {
    forall a, b :: a in users && b in users && users[a].email == users[b].email ==> a == b
  }

  predicate RecipesValid(m: map<Id, Recipe>) { forall id :: id in m ==> ValidRecipe(m[id]) }
  predicate StepsValid(m: map<Id, Step>) { forall id :: id in m ==> ValidStep(m[id]) }
  predicate TagsValid(m: map<Id, Tag>) { forall id :: id in m ==> ValidTag(m[id]) }
  predicate UsersValid(m: map<Id, User>) { forall id :: id in m ==> ValidUser(m[id]) }
  predicate ReportsValid(m: map<Id, Report>) { forall id :: id in m ==> ValidReport(m[id]) }

  /** What every stored document satisfies. */
  predicate Valid(db: Db)
  {
    && Fresh(db)
    && EmailsUnique(db.users)
    && RecipesValid(db.recipes)
    && StepsValid(db.steps)
    && TagsValid(db.tags)
    && UsersValid(db.users)
    && ReportsValid(db.reports)
  }

  /** `n` consecutive ids starting at `first`: the ids a batch of new
      documents gets. */
  function IdRange(first: Id, n: nat): (ids: seq<Id>)
    ensures |ids| == n
    ensures forall i :: 0 <= i < n ==> ids[i] == first + i
  {
    seq(n, i requires 0 <= i < n => first + i)
  }

  /** `insertMany(docs)`: the documents are stored under `first`, `first + 1`, ...;
      every other entry is kept. */
  function InsertAll<T>(m: map<Id, T>, first: Id, docs: seq<T>): (r: map<Id, T>)
    ensures forall id :: id in r <==> id in m || first <= id < first + |docs|
    ensures forall i :: 0 <= i < |docs| ==> r[first + i] == docs[i]
    ensures forall id :: id in m && !(first <= id < first + |docs|) ==> r[id] == m[id]
  {
    var added := set i | i in IdRange(first, |docs|);
    forall id | first <= id < first + |docs| ensures id in added {
      assert IdRange(first, |docs|)[id - first] == id;
    }
    map id | id in m.Keys + added :: if first <= id < first + |docs| then docs[id - first] else m[id]
  }
}
