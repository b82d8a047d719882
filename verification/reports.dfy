/** The Report model's one static. */
module Reports {
  import opened Outcomes
  import opened Documents

  /** `Report.store(body, recipeId, commentId)`: a report on a recipe, or on
      one of its comments when a comment id is given, flagged as a comment
      report exactly in that case.  An empty body fails the schema check;
      every error is rethrown as a plain `Error` and stores nothing. */
  function Store(db: Db, body: string, recipeId: Id, commentId: Option<Id>, faults: Faults): (r: Run<Stored<Report>>)
    ensures r.result.Ok? <==> body != "" && SaveReport !in faults
    ensures r.result.Fail? ==> r.db == db && r.result.error.name == PlainError
    ensures body == "" ==> r.result.error == Rethrow(Invalid("Report"))
    ensures r.result.Ok? ==>
              var report := r.result.value.doc;
              && report.body == body && report.recipe == recipeId && report.comment == commentId
              && (report.is_comment_report <==> commentId.Some?)
    ensures r.result.Ok? ==>
              && r.result.value.id == db.next
              && r.db == db.(reports := db.reports[db.next := r.result.value.doc], next := db.next + 1)
  {
    var report := Report(recipeId, commentId, body, commentId.Some?);
    if !ValidReport(report) then Run(db, Fail(Rethrow(Invalid("Report"))))
    else if SaveReport in faults then Run(db, Fail(Rethrow(Fault(faults, SaveReport))))
    else Run(db.(reports := db.reports[db.next := report], next := db.next + 1), Ok(Stored(db.next, report)))
  }

  /** Storing a report keeps every stored document valid. */
  lemma StoreKeepsValid(db: Db, body: string, recipeId: Id, commentId: Option<Id>, faults: Faults)
    requires Valid(db)
    ensures Valid(Store(db, body, recipeId, commentId, faults).db)
  {
    var r := Store(db, body, recipeId, commentId, faults);
    if r.result.Ok? {
      assert ReportsValid(r.db.reports);
      assert Fresh(r.db);
    }
  }
}
