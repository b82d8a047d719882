/** The one static of the Step model. */
module Steps {
  import opened Documents

  /** `Step.deleteMultipleSteps(stepIds)`: every step whose id is listed is
      deleted; every other step, and every other collection, is untouched. */
  function DeleteMultipleSteps(db: Db, stepIds: seq<Id>): (r: Db)
    ensures forall id :: id in r.steps <==> id in db.steps && id !in stepIds
    ensures forall id :: id in r.steps ==> r.steps[id] == db.steps[id]
    ensures r == db.(steps := r.steps)
  {
    db.(steps := map id | id in db.steps && id !in stepIds :: db.steps[id])
  }

  /** Deleting no steps changes nothing. */
  lemma DeleteNoSteps(db: Db)
    ensures DeleteMultipleSteps(db, []) == db
  {
    assert DeleteMultipleSteps(db, []).steps == db.steps;
  }

  /** Deleting the same steps twice is deleting them once. */
  lemma DeleteMultipleStepsIdempotent(db: Db, stepIds: seq<Id>)
    ensures DeleteMultipleSteps(DeleteMultipleSteps(db, stepIds), stepIds) == DeleteMultipleSteps(db, stepIds)
  {
    var once := DeleteMultipleSteps(db, stepIds);
    assert DeleteMultipleSteps(once, stepIds).steps == once.steps;
  }

  /** Deleting steps keeps every stored document valid. */
  lemma DeleteMultipleStepsKeepsValid(db: Db, stepIds: seq<Id>)
    requires Valid(db)
    ensures Valid(DeleteMultipleSteps(db, stepIds))
  {
  }
}
