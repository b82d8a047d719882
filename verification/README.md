# Burma Tasty House server: the model layer in Dafny

This project models the bookkeeping core of a recipe-sharing backend. It is written in TypeScript on Mongoose and Cloudinary. The model covers:

- creating a recipe with its steps, tags and uploaded media (`Recipe.store`), and the rollback of the media when any later write fails;
- editing a recipe (`Recipe.update`), which keeps the steps and tags sent by id and creates the rest;
- recovering a media object's public id from its secure URL, and the upload/delete helpers built on it;
- the `$push`/`$pull`/`deleteMany` maintenance of back-reference lists on tags, steps and users, and the cascade helpers;
- user registration, login, follow/unfollow, save/unsave and profile updates;
- storing a moderation report;
- the page/limit/skip/total-pages arithmetic of the admin report listing.

The database is one immutable value, `Documents.Db`: a map per collection from id to document, plus a counter that hands out fresh ids. Every operation is a pure function from a store and its inputs to a new store and a `Result`. Operations that talk to the media host also return the requests they sent, in order.

What the outside world does is supplied as data:

- Each attached file carries the host's reply to its upload (`File.hostReply`: a URL or nothing).
- Each database call of the models' operations that may fail has an entry in `faults` holding the driver's message. The `deleteMany` and `updateMany` of the Tag and Step statics are the exception (see "## Left out").
- bcrypt salts are parameters.
- Digests are symbolic (`Crypto`).

Mongoose's schema checks run before every save and every `insertMany`. `Documents.Valid` collects them together with email uniqueness and id freshness. Every operation that writes to the store is proved to preserve it, whether it succeeds or fails part-way: the `…KeepsValid` and `…KeepValid` lemmas cover `register`, the follow and save statics, the profile update, the tag, step and helper statics, `Report.store`, and recipe `store` and `update`.

Where the code behaves differently from what its messages or names suggest, the model follows the code:

- Tag names in `store` are trimmed and lower-cased but not de-duplicated, so a name given twice creates two tags (`RecipeStore.StoreChoosesTags`).
- The recipe is saved before its new tags are inserted. A later failure leaves it stored, although its media are destroyed (`RecipeStore.StoreFailureAfterSaveKeepsRecipe`).
- Uploads are put on the rollback list only after the image and the video have both been checked, and step images only after every step image has uploaded. A failed video or step-image upload therefore leaves earlier uploads on the media host (`RecipeStore.StoreVideoFailureKeepsImage`, `RecipeStore.StoreRollbackList`).
- Errors are rethrown as plain `Error`s with the original message, not as a dedicated creation error.
- `update` does not normalise tag names, does not push the recipe onto the tags it keeps, and does not await the insert of the new tags (`RecipeUpdate.UpdateLeavesStoredTags`, `RecipeUpdate.UpdateMayListMissingTags`).
- A profile update destroys the old avatar before it uploads the new one (`Users.UpdateAvatarFailureDestroysOldAvatar`).

## Model

| member | source | states |
|---|---|---|
| Documents.ValidRecipe | src/models/Recipe.ts:19-76 | the recipe schema: title and description required, preparation time at least 3, difficulty level between 1 and 10 |
| Documents.ValidStep | src/models/Step.ts:7-30 | the step schema: description required, sequence number between 1 and 15 |
| Documents.ValidTag | src/models/Tag.ts:9-19 | the tag schema: name required |
| Documents.ValidUser | src/models/User.ts:22-75 | the user schema: name and email required |
| Documents.ValidReport | src/models/Report.ts:8-27 | the report schema: body required |
| Documents.Valid | src/models/User.ts:28-32 | every stored document passes its schema, emails are unique, and every id in use is below the counter |
| Text.Split | src/helpers/extractPublicIdFromCloudinarySecureUrl.ts:20 | `split` on one character gives at least one piece, no piece holds the separator, and the first piece is everything before the first separator |
| Text.JoinSplit | src/helpers/extractPublicIdFromCloudinarySecureUrl.ts:38-47 | joining the pieces of a split with the separator gives the original string back |
| Text.SplitJoin | src/helpers/extractPublicIdFromCloudinarySecureUrl.ts:38-47 | splitting a join of separator-free pieces gives the pieces back, which is what lets the extractor's re-split see its own segments |
| Text.NonEmpty | src/helpers/extractPublicIdFromCloudinarySecureUrl.ts:20 | the kept segments are non-empty and all come from the input |
| Text.NonEmptyIsFilter | src/helpers/extractPublicIdFromCloudinarySecureUrl.ts:20 | the filter keeps every non-empty segment, as often as it occurs and in its original order, so it is the input without its empty segments |
| Text.IndexOf | src/helpers/extractPublicIdFromCloudinarySecureUrl.ts:48 | `indexOf` is -1 exactly when the value is absent, and otherwise the position of its first occurrence |
| Text.Trim | src/models/Recipe.ts:143 | `trim` returns an infix of the input: everything cut off at either end is white space, and the result neither starts nor ends with white space |
| Text.TrimOfTrimmed | src/models/Recipe.ts:143 | trimming a string without white space at its ends changes nothing |
| Text.Lower | src/models/Recipe.ts:143 | `toLowerCase` keeps the length and maps each character independently |
| Text.LowerCharFacts | src/models/Recipe.ts:143 | lower-casing leaves no capital letter, is idempotent, and neither creates nor removes white space |
| PublicId.Extract | src/helpers/extractPublicIdFromCloudinarySecureUrl.ts:14-59 | every failure of the extraction surfaces as the single "Unable to extract public ID from Cloudinary URL" error |
| PublicId.ExtractBySegments | src/helpers/extractPublicIdFromCloudinarySecureUrl.ts:20-54 | the join-and-resplit of the code equals a direct description on the path segments: fewer than two segments fail; otherwise the segments after the first two are searched, the last one cut at its first dot, and the result is what follows the first "upload" and the version segment after it |
| PublicId.ExtractInvertsSecurePath | src/helpers/extractPublicIdFromCloudinarySecureUrl.ts:14-59 | for the path of a secure URL the host builds for an object stored as `<folders>/<name>`, the extraction returns `<folders>/<name>` |
| Media.Upload | src/helpers/uploadFilesToCloudinary.ts:15-45 | a missing file gives null and sends nothing; otherwise exactly one upload is sent and its reply (a URL or null, never an error) is returned |
| Media.Delete | src/helpers/deleteFileFromCloudinary.ts:6-33 | a null URL sends nothing; a URL with an extractable public id sends exactly one destroy of that id and kind; a URL whose public id cannot be extracted sends nothing, the throw being caught before any destroy; it never fails |
| Media.DeleteOfSecureUrl | src/helpers/deleteFileFromCloudinary.ts:15-24 | deleting a URL the host handed out destroys the object stored under that upload's public id |
| Media.Cleanup | src/models/Recipe.ts:165-169 | the catch block deletes the rollback entries one by one, in list order; what that sends is stated by the two lemmas below |
| Media.CleanupOnlyDestroys | src/models/Recipe.ts:165-169 | cleaning up a rollback list sends only destroys, at most one per entry, each of the kind of some entry |
| Media.CleanupAppend | src/models/Recipe.ts:165-169 | cleaning up a concatenated rollback list cleans up each part in turn |
| RefLists.Pull | src/models/Tag.ts:25-27 | `$pull` removes every occurrence of the value and keeps the count of every other value |
| RefLists.PullIsSubsequence | src/models/Tag.ts:25-27 | `$pull` keeps the remaining elements in their original order |
| RefLists.PullAbsent | src/models/Tag.ts:25-27 | pulling a value the list does not hold changes nothing |
| RefLists.PullIdempotent | src/models/Tag.ts:25-27 | pulling twice is pulling once |
| RefLists.PullAppend | src/models/User.ts:135-146 | `$pull` distributes over concatenation |
| RefLists.PullAfterPush | src/models/User.ts:120-146 | a pull removes whatever a push of the same value added |
| RefLists.PushThenPullRestores | src/models/User.ts:120-146 | push then pull of a value the list did not hold restores the list |
| RefLists.Push | src/models/User.ts:120-155 | `$push` appends: the list grows by one, keeps its old elements as a prefix and ends with the value |
| Outcomes.Rethrow | src/models/Recipe.ts:171 | the catch blocks rethrow `new Error(message)`: the message is kept, the error name becomes the plain one |
| Tags.DeleteMultipleTags | src/models/Tag.ts:21-23 | exactly the listed tags are deleted; the remaining tags and every other collection are unchanged |
| Tags.RemoveRecipeFromMultipleTags | src/models/Tag.ts:25-27 | the listed tags no longer refer to the recipe and keep their names and the counts of their other recipes; unlisted tags are unchanged; no tag is created or deleted |
| Tags.RemoveRecipeKeepsOrder | src/models/Tag.ts:25-27 | the recipes left on a listed tag keep their original order |
| Tags.RemoveRecipeIdempotent | src/models/Tag.ts:25-27 | removing a recipe from the same tags twice equals doing it once |
| Tags.DeleteMultipleTagsIdempotent | src/models/Tag.ts:21-23 | deleting the same tags twice equals deleting them once |
| Tags.TagStaticsKeepValid | src/models/Tag.ts:9-27 | both tag statics keep every stored document valid (the tag's required name included) |
| Steps.DeleteMultipleSteps | src/models/Step.ts:32-34 | exactly the listed steps are deleted; everything else is unchanged |
| Steps.DeleteNoSteps | src/models/Step.ts:32-34 | deleting an empty list of steps is a no-op |
| Steps.DeleteMultipleStepsIdempotent | src/models/Step.ts:32-34 | deleting the same steps twice equals deleting them once |
| Steps.DeleteMultipleStepsKeepsValid | src/models/Step.ts:7-34 | deleting steps keeps every stored document valid |
| GeneralHelpers.DeleteAllStepsFromRecipe | src/helpers/generalHelpers.ts:6-13 | fails exactly when the delete fails, then with the driver's message as a plain error and nothing changed; otherwise exactly the listed steps are gone, every other step keeps its contents, and no other collection changes |
| GeneralHelpers.RemoveRecipeFromMultipleTags | src/helpers/generalHelpers.ts:15-22 | fails exactly when the update fails, changing nothing; otherwise each listed tag keeps its name and has its recipes replaced by their `$pull` of the recipe, unlisted tags are untouched, and no tag is created or deleted |
| GeneralHelpers.RemoveRecipeFromUserRecipes | src/helpers/generalHelpers.ts:24-31 | fails exactly when the update fails, changing nothing; otherwise the user's recipes are the `$pull` of the recipe from them, nothing else about the user changes, and every other user is untouched |
| GeneralHelpers.RemoveRecipeFromMultipleTagsIdempotent | src/helpers/generalHelpers.ts:15-22 | calling the tag helper a second time with the same arguments succeeds and changes nothing |
| GeneralHelpers.RemoveRecipeFromUserRecipesIdempotent | src/helpers/generalHelpers.ts:24-31 | calling the user helper a second time with the same arguments succeeds and changes nothing |
| GeneralHelpers.DeleteAllStepsFromRecipeKeepsValid | src/helpers/generalHelpers.ts:6-13 | the step helper keeps every document valid, whether its write succeeds or fails |
| GeneralHelpers.RemoveRecipeFromMultipleTagsKeepsValid | src/helpers/generalHelpers.ts:15-22 | the tag helper keeps every document valid, whether its write succeeds or fails |
| GeneralHelpers.RemoveRecipeFromUserRecipesKeepsValid | src/helpers/generalHelpers.ts:24-31 | the user helper keeps every document valid, whether its write succeeds or fails |
| GeneralHelpers.DetachRecipe | src/helpers/generalHelpers.ts:6-31 | run in turn, the three helpers leave no listed step, no listed tag and not the owner referring to the recipe, and touch neither recipes nor reports |
| Users.FindByEmail | src/models/User.ts:78 | `findOne({ email })` over an id range finds a user with that email when there is one in the range and reports none otherwise |
| Users.FindOne | src/models/User.ts:78-99 | in a store whose ids are below the counter, a user is found exactly when one has the email |
| Users.PushTo | src/models/User.ts:120-155 | `updateOne` with `$push` appends to that one list of that one user and changes nothing else; an unknown id changes nothing |
| Users.PullFrom | src/models/User.ts:135-164 | `updateOne` with `$pull` replaces that one list of that one user by its `$pull` (every copy of the value gone, the rest in order) and changes nothing else; an unknown id changes nothing |
| Users.PullFromIdempotent | src/models/User.ts:135-164 | pulling the same value twice from a user's list is pulling it once |
| Users.PullFromKeepsValid | src/models/User.ts:135-164 | a `$pull` from a user's list keeps every document valid |
| Users.Register | src/models/User.ts:77-94 | an existing email fails with the `RegisterUserExists` error and, with the other failures, changes nothing; success stores exactly one new user with the hashed password, the given role and empty lists, and is possible exactly when the email is free and name and email are given |
| Users.RegisterKeepsValid | src/models/User.ts:28-32 | registration keeps every document valid and emails unique |
| Users.LoginKeepingNames | src/models/User.ts:97-112 | a successful login returns the stored user with that email whose password matches; an unknown email fails with `LoginUserDoesNotExist` exactly when no user has it; with unique emails, for the user with that email, a matching password returns that user, a wrong one fails with `LoginIncorrectPassword`, and a missing hash fails as bcrypt does |
| Users.Login | src/models/User.ts:96-117 | login succeeds exactly when its try block does; every failure keeps the message but becomes a plain error |
| Users.LoginSucceeds | src/models/User.ts:98-107 | in a valid store, the right email and a password matching its hash log in and return that stored user |
| Users.LoginFailureIsAlwaysUnknown | src/controllers/UserController.ts:50-56 | as written, every failed login reaches the endpoint as "Unknown error occurred" |
| Users.LoginOfUnknownEmailSaysUnknown | src/controllers/UserController.ts:50-56 | concretely: a login on an empty store is a missing user in the try block but is reported as "Unknown error occurred" |
| Users.LoginKeepingNamesReportsCause | src/models/User.ts:101-111 | with the names kept, a missing user is reported as "user does not exists" and a wrong password as "incorrect password" |
| Users.AddFollowings | src/models/User.ts:120-133 | on success the follower is appended to the followed user's followers and the followed user to the follower's followings, and no other user or collection changes; a failure of the first write changes nothing and a failure of the second leaves the first in place |
| Users.RemoveFollowings | src/models/User.ts:135-146 | on success the follower is pulled from the followed user's followers and the followed user from the follower's followings, the rest of each list keeping its order, and no other user or collection changes; a failure of the second write leaves the first in place |
| Users.AddSaves | src/models/User.ts:148-155 | on success the recipe is appended to the user's saves and nothing else changes; a failure changes nothing |
| Users.RemoveSaves | src/models/User.ts:157-164 | on success the recipe is pulled from the user's saves, the rest keeping its order, and nothing else changes; a failure changes nothing |
| Users.AddFollowingsKeepsValid | src/models/User.ts:120-133 | following keeps every document valid, whichever of the two writes fail |
| Users.RemoveFollowingsKeepsValid | src/models/User.ts:135-146 | unfollowing keeps every document valid, whichever of the two writes fail |
| Users.SavesKeepValid | src/models/User.ts:148-164 | saving and unsaving a recipe keep every document valid, whether the write succeeds or fails |
| Users.PullUndoesPush | src/models/User.ts:120-164 | a push of a value the list does not hold followed by its pull restores the whole store |
| Users.UnfollowUndoesFollow | src/models/User.ts:120-146 | unfollowing right after following restores the store when the two were not linked before |
| Users.UnsaveUndoesSave | src/models/User.ts:148-164 | unsaving right after saving restores the store when the recipe was not saved before |
| Users.Update | src/models/User.ts:166-199 | without an authenticated id it fails with "not authenticated" and sends nothing; every failure leaves the store as it was; it succeeds exactly when the id is authenticated, the lookup succeeds and finds the user, a given old password matches a stored hash, an attached avatar gets a URL, the name and the stored email are non-empty and the save succeeds; no media request is sent unless the user is found and a given old password matches; success requires a matching old password when one is given, replaces the hash only for a new password, takes the uploaded avatar, overwrites the name and changes nothing else; the saved user passes its schema check; without an avatar file no media request is sent, and whenever a media request is sent, and on every success with an avatar file, the requests are exactly the destroy of the old avatar (none when it is null or has no public id) followed by the upload of the new one |
| Users.UpdateAvatarFailureDestroysOldAvatar | src/models/User.ts:182-186 | when the new avatar fails to upload, the update fails with the upload message, the stored user still refers to the old avatar, and the media requests are exactly the destroy of the old avatar followed by the upload of the new one |
| Users.UpdateKeepsValid | src/models/User.ts:166-199 | a profile update keeps every document valid and emails unique |
| Reports.Store | src/models/Report.ts:29-38 | a report is stored exactly when its body is given and the save succeeds; it copies body, recipe and comment and is a comment report exactly when a comment id is given; failures change nothing |
| Reports.StoreKeepsValid | src/models/Report.ts:8-27 | storing a report keeps every document valid |
| Pagination.GetPageAndLimit | src/controllers/admin/ReportController.ts:33-46 | a given limit or page is used as is; a missing one defaults to 5 and 1 |
| Pagination.Insert | src/controllers/admin/ReportController.ts:52 | inserting into a newest-first list keeps it newest first and adds exactly the one document |
| Pagination.SortNewestFirst | src/controllers/admin/ReportController.ts:52 | `sort({ createdAt: -1 })` is a permutation of the documents into newest-first order |
| Pagination.Window | src/controllers/admin/ReportController.ts:53-54 | `skip(n).limit(l)` returns consecutive documents starting at `n`: exactly the absolute value of `l` of them when that many remain, all that remain otherwise or when `l` is 0 |
| Pagination.Paginate | src/controllers/admin/ReportController.ts:48-60 | fails exactly when `(page - 1) * limit` is negative, with the refusal rethrown as a plain error; otherwise returns the documents of the newest-first order from position `(page - 1) * limit` on, as many as `Window` gives, themselves newest first and drawn from the input |
| Pagination.PaginateIsNextPage | src/controllers/admin/ReportController.ts:48-60 | with a positive limit, page `p` is what the first `p` pages hold beyond the first `p - 1`: consecutive pages follow each other through the newest-first order with no gap or overlap |
| Pagination.CeilDiv | src/controllers/admin/ReportController.ts:69 | `Math.ceil(a / b)` is the least integer not below the quotient, for either sign of the divisor |
| Pagination.GetPagination | src/controllers/admin/ReportController.ts:62-76 | the summary echoes page, total and limit; total pages are absent exactly for a zero limit, and for a positive limit they are the fewest pages that hold every document |
| Pagination.PagesPrefix | src/controllers/admin/ReportController.ts:50-54 | the first `n` pages, one after another, are the first `n * limit` documents |
| Pagination.PagesCoverAll | src/controllers/admin/ReportController.ts:50-70 | pages 1 to `totalPages` hold every document exactly once, in order, and the page after them is empty |
| Pagination.DefaultsGiveNewestFive | src/controllers/admin/ReportController.ts:33-60 | a request without parameters gets the five newest documents |
| RecipeInput.TagNames | src/models/Recipe.ts:143 | an array of names and a comma-separated string both give one name per element, each trimmed and lower-cased |
| RecipeInput.NormaliseIsNormal | src/models/Recipe.ts:143 | a normalised name has no white space at its ends and no capital letter |
| RecipeInput.TagNamesAreNormal | src/models/Recipe.ts:143 | every requested tag name is normal, and normalising it again changes nothing |
| RecipeInput.TagTextMatchesTagArray | src/models/Recipe.ts:143 | sending comma-free names as one comma-separated string asks for the same tags as sending them as an array |
| RecipeInput.BuildSteps | src/models/Recipe.ts:109-130 | one step per request step, in order, pointing at the recipe, with its description, sequence number and the URL of its `step_image_<n>` file (none without one); the uploads sent are, in step order, those of each step's image, and the build fails exactly when an attached image gets no URL |
| RecipeInput.BuildStepsUploadsEachImage | src/models/Recipe.ts:112-117 | every step image attached to the request is uploaded |
| RecipeInput.ImageIndices | src/models/Recipe.ts:134 | the filter on `step.image` keeps, in increasing order, exactly the positions of the steps that carry an image |
| RecipeInput.StepRollback | src/models/Recipe.ts:133-136 | one rollback entry per step that carries an image, in step order, each that step's image URL as an image: the step images, all of them and only them |
| RecipeStore.FindTagsNamed | src/models/Recipe.ts:144 | `Tag.find({ name: { $in } })` returns, once each and in insertion order, exactly the tags whose name is asked for |
| RecipeStore.NewNames | src/models/Recipe.ts:145 | a name is kept exactly when it is requested and no found tag carries it |
| RecipeStore.NewNamesCounts | src/models/Recipe.ts:145 | the filter keeps every repetition of a name no found tag carries, and drops every repetition of the others |
| RecipeStore.NewNamesInOrder | src/models/Recipe.ts:145 | the filter keeps the names in request order |
| RecipeStore.FoundTagsMatch | src/models/Recipe.ts:144 | in a store whose ids are below the counter, the found tags are exactly the stored tags carrying a requested name |
| RecipeStore.FreshNamesAreNew | src/models/Recipe.ts:145 | a name gets a new tag exactly when it is requested and no stored tag carries it |
| RecipeStore.AddSteps | src/models/Recipe.ts:139 | `Step.insertMany` stores the steps under the ids after the recipe's and keeps every stored step |
| RecipeStore.AddTags | src/models/Recipe.ts:152 | `Tag.insertMany` stores the new tags under fresh ids and keeps every stored tag |
| RecipeStore.PushRecipe | src/models/Recipe.ts:155-160 | the bulk write appends the recipe to each listed tag's recipes and leaves the other tags alone |
| RecipeStore.Persist | src/models/Recipe.ts:138-141 | the writes after the uploads start with the steps' schema check and insert, and an empty batch of steps makes no driver call and so cannot fail; the saved recipe gets the id `store` reserved for it |
| RecipeStore.SaveRecipeStage | src/models/Recipe.ts:142-149 | the tag lookup and the save of the recipe with the found tags' ids then the new ones'; the result, if any, is under the reserved id |
| RecipeStore.LinkStage | src/models/Recipe.ts:151-164 | the new tags' insert, which makes no driver call and cannot fail when there is no new tag, then the bulk write on the found tags and the owner's push; success returns the saved recipe |
| RecipeStore.PersistLinks | src/models/Recipe.ts:138-164 | once the steps are inserted and the recipe saved, the writes go on with the tag insert and the two pushes, from the store holding both |
| RecipeStore.PersistStepWriteFails | src/models/Recipe.ts:139 | a failing step check, or a failing insert of a non-empty batch of steps, writes nothing and reports that failure |
| RecipeStore.PersistRecipeWriteFails | src/models/Recipe.ts:144-149 | a failing tag lookup, recipe check or recipe save leaves exactly the steps inserted, and reports that failure |
| RecipeStore.PersistTagInsertFails | src/models/Recipe.ts:152 | a failing check of the new tags, or a failing insert when there is at least one, leaves the steps and the recipe stored and no new tag |
| RecipeStore.PersistTagPushFails | src/models/Recipe.ts:155-160 | a failing bulk write leaves the steps, the recipe and the new tags stored, no found tag updated |
| RecipeStore.PersistOwnerPushFails | src/models/Recipe.ts:163 | a failing owner push leaves every other write done and no user changed |
| RecipeStore.Store | src/models/Recipe.ts:78-175 | no image file fails with "Recipe image is required!!", changing nothing and sending nothing; an attached video without a URL fails with "Error uploading video to Cloudinary", and otherwise an image without a URL fails with "Error uploading files to Cloudinary", both with an empty rollback list and nothing written; every failure is a plain error; only uploads are sent before the outcome is known; success uses the next fresh id |
| RecipeStore.StoreCreatesRecipe | src/models/Recipe.ts:99-149 | a successful store saves, under a fresh id, a valid recipe built from the request with the uploaded image and video, no views, and the new steps' ids in request order; other recipes are untouched and no destroy is sent |
| RecipeStore.StoreCreatesSteps | src/models/Recipe.ts:109-140 | a successful store inserts one step per request step under the ids after the recipe's, each pointing at the recipe with its description, sequence number and image; stored steps are untouched |
| RecipeStore.StoreChoosesTags | src/models/Recipe.ts:143-148 | the recipe's tags are the stored tags carrying a requested name, then one new tag per requested name no stored tag carries, in order and with repetitions kept |
| RecipeStore.StoreWritesTags | src/models/Recipe.ts:145-160 | each new tag lists only the recipe, every found tag gets the recipe appended, and no other tag changes |
| RecipeStore.StoreLinksOwner | src/models/Recipe.ts:163 | the owner, and only the owner, gets the recipe appended to their recipes |
| RecipeStore.StoreVideoFailureKeepsImage | src/models/Recipe.ts:90-99 | an attached video without a URL fails with "Error uploading video to Cloudinary" while the rollback list is still empty, so the image uploaded alongside is never destroyed |
| RecipeStore.StoreImageFailureDestroysNothing | src/models/Recipe.ts:90-99 | an image without a URL (the video, if any, uploaded) fails with "Error uploading files to Cloudinary" before anything is on the rollback list: nothing is written and nothing destroyed |
| RecipeStore.StoreRollbackList | src/models/Recipe.ts:99-136 | after the main uploads the rollback list is the image, the video, then (unless a step upload failed, which aborts with "error uploading step image" and changes nothing) every step image |
| RecipeStore.StoreFailureRollsBack | src/models/Recipe.ts:165-171 | any failure after the main uploads destroys the image, then the video, then the step images on the rollback list |
| RecipeStore.StoreFailureAfterSaveKeepsRecipe | src/models/Recipe.ts:147-152 | a failing check or insert of the new tags after the recipe is saved leaves the recipe stored while its image is on the rollback list |
| RecipeStore.StoreStepWriteFails | src/models/Recipe.ts:139 | after the uploads, a failing step check, or a failing insert of a non-empty batch of steps, leaves the store as it was and reports that failure as a plain error |
| RecipeStore.StoreRecipeWriteFails | src/models/Recipe.ts:139-149 | once the steps are inserted, a failing tag lookup, recipe check or recipe save leaves the steps stored but no recipe, tag or user changed, and reports that failure |
| RecipeStore.StoreTagInsertFails | src/models/Recipe.ts:147-152 | once the recipe is saved, a failing check of the new tags, or a failing insert when there is at least one, leaves steps and recipe stored, every tag and user unchanged, and reports "Tag validation failed" or the insert's message |
| RecipeStore.StoreTagPushFails | src/models/Recipe.ts:152-160 | once the new tags are inserted, a failing bulk write leaves steps, recipe and new tags stored, no found tag and no user listing the recipe |
| RecipeStore.StoreOwnerPushFails | src/models/Recipe.ts:155-163 | a failing owner push comes after every other write, and leaves no user changed |
| RecipeStore.StoreSucceeds | src/models/Recipe.ts:78-164 | `store` returns the saved recipe under the fresh id when every upload gets a URL, the recipe passes its schema check and every database write it makes goes through |
| RecipeStore.StoreKeepsValid | src/models/Recipe.ts:19-76 | whatever its outcome, store keeps every document valid: each write runs the schema check first and takes its ids from the counter |
| RecipeUpdate.Attempt | src/models/Recipe.ts:206-226 | a kept step does nothing; a new step sends its image's upload and is saved exactly when nothing fails (the request carries files, an attached image gets a URL, the step passes its schema check and its save succeeds), then as a valid step of the recipe with its own description, sequence number and uploaded image; without any files it fails with the `TypeError`; an attached image without a URL fails with "step image upload failed"; otherwise a failing schema check gives "Step validation failed" and a failing save the driver's message |
| RecipeUpdate.SavedStepsKeepsEachSave | src/models/Recipe.ts:204-229 | every new step whose callback succeeds is stored under its fresh id, whatever the other callbacks do, and no other step changes |
| RecipeUpdate.FirstErrorIsFirst | src/models/Recipe.ts:204-229 | the step stage fails exactly when some callback fails, with the error of the first failing one |
| RecipeUpdate.StepUploads | src/models/Recipe.ts:212-216 | the step stage only sends image uploads, and none when the request has no files |
| RecipeUpdate.StepIds | src/models/Recipe.ts:243 | the recipe's steps are, in request order, each kept step's id or the new step's id |
| RecipeUpdate.KeptTagIds | src/models/Recipe.ts:237 | the kept tag ids are exactly the ids the tag entries carry |
| RecipeUpdate.NewTagNames | src/models/Recipe.ts:230 | the new tag names are exactly the names of the entries without id, and kept and new together account for every entry |
| RecipeUpdate.InsertedTags | src/models/Recipe.ts:230-234 | the unawaited insert adds each new tag, listing only the recipe, under the ids after the steps; when it fails nothing is stored; the stored tags are never touched |
| RecipeUpdate.UpdateSucceeds | src/models/Recipe.ts:177-246 | an update succeeds exactly when the recipe is found, every step callback goes through, and the edited recipe passes its schema check and is saved; it then returns the edited recipe under its id |
| RecipeUpdate.Finish | src/models/Recipe.ts:230-246 | the update succeeds exactly when the edited recipe passes its schema check and its save succeeds; only then is the recipe replaced; the tag insert's outcome never reaches the result |
| RecipeUpdate.Update | src/models/Recipe.ts:177-252 | a failed lookup is rethrown and a missing recipe fails with "recipe to be updated not found", both changing nothing and sending nothing; every other failure is a plain error; the media sent are the uploads only |
| RecipeUpdate.UpdateEditsRecipe | src/models/Recipe.ts:193-246 | a successful update replaces only that recipe: request fields overwritten, image and video replaced only by a non-null upload, the listed steps in order, the kept tags followed by the new ones, owner and views kept |
| RecipeUpdate.UpdateSavesEachNewStep | src/models/Recipe.ts:204-229 | each new step whose own callback succeeds stays saved even when the update fails; stored steps, the kept ones included, are untouched |
| RecipeUpdate.UpdateWithoutFilesRejectsNewSteps | src/models/Recipe.ts:212 | without any file, an update with a new step fails with the `TypeError`, saves no step and sends nothing |
| RecipeUpdate.UpdateNeverDestroys | src/models/Recipe.ts:193-201 | an update never deletes media, not even the image or video it replaces |
| RecipeUpdate.UpdateLeavesStoredTags | src/models/Recipe.ts:230-238 | no stored tag is written: kept tags do not get the recipe, dropped tags keep it |
| RecipeUpdate.UpdateMayListMissingTags | src/models/Recipe.ts:230-238 | when the tag insert fails the update still succeeds, and the recipe lists a tag id under which no tag is stored |
| RecipeUpdate.UpdateKeepsValid | src/models/Recipe.ts:177-252 | whatever its outcome, an update keeps every document valid |

## Left out

- Parsing: `new URL` parsing of secure URLs is left out; the model takes the parsed pathname (`Media.Url`). `Number()` parsing of query parameters, with its NaN and fraction cases, is floating point; `Pagination.PageQuery` holds integers already read.
- Input fields: the spread of extra `req.body` fields into new documents is left out, as are timestamps.
- External services: the media host, the database driver and bcrypt are replaced by data (`File.hostReply`, `faults`, the salt), and bcrypt digests are symbolic.
- Concurrency: the `Promise.all` fan-outs are modelled in request order, and so is the unawaited `Tag.insertMany` in `update`. The unhandled rejection that a failing unawaited insert raises in Node is left out.
- Tag and Step statics: `Tags.DeleteMultipleTags`, `Tags.RemoveRecipeFromMultipleTags` and `Steps.DeleteMultipleSteps` model `deleteMany` and `updateMany` without their driver failure. The `GeneralHelpers` functions that call them carry that failure in `faults`.
- Request plumbing: the controllers, routes, token handling (`getUserIdFromToken` becomes the `authId` parameter) and socket broadcasting are not part of this model.
- Recipe deletion: `Recipe.destroy` is not part of this model. `deleteSteps` in src/models/Recipe.ts:258-260 is an empty stub and is not modelled.
- `Step.insertMany` and `Tag.bulkWrite` are all-or-nothing in the model: a partly applied batch is left out.
- Users.FindOne: finds the least matching id below the counter. The "no user has this email" direction is stated only for stores whose ids are all below the counter.
- RecipeStore.FindTagsNamed: returns the found tags in ascending id order; `Tag.find` promises no order, so the order of the found ids in a new recipe's tags is the model's choice.
- Pagination.SortNewestFirst: documents created at the same instant keep their input order; the database promises nothing about their order.
- Pagination.Paginate: the server's refusal of a negative skip is modelled with an abstract message.
- Text.Lower: lower-cases ASCII letters only; Unicode case mapping is left out.
- Documents.Invalid: the per-field details Mongoose adds to a validation message are left out, as is the driver's error text (it comes from `faults`).
- RecipeUpdate.Attempt: the `TypeError` for a request without files is reduced to its fixed prefix, without the property name it mentions.
- RecipeUpdate.FirstErrorIsFirst: reports the first failure in request order. The source's `Promise.all` rejects with whichever failure settles first, which depends on timing.
- RecipeStore.StoreFailureAfterSaveKeepsRecipe: states only that the store fails; which error it reports is stated by `RecipeStore.StoreTagInsertFails`.
- Numbers in the request body: `preparation_time`, `difficulty_level` and `sequence_number` are Mongoose `Number`s, which also take fractions (3.5 passes the minimum of 3, 10.5 fails the maximum of 10) and cast numeric strings. The model takes them as integers already read, so it says nothing about fractional or string input.
- Schema checks: a required array accepts an empty array, as Mongoose does. Only the checks the models write are modelled: required strings, and the numeric bounds on preparation time, difficulty level and step sequence number.

## Findings

| source | as written | input that shows it | evidently intended | confidence | as-written member | corrected member |
|---|---|---|---|---|---|---|
| src/models/User.ts:113-116 | the catch of `login` rethrows `new Error(message)`, dropping the `LoginUserDoesNotExist` and `LoginIncorrectPassword` names set at lines 103 and 110; the endpoint (src/controllers/UserController.ts:52-56) keys its message on those names, so it always reports "Unknown error occurred" | a login on an empty store, or with an email no user has | the endpoint reports "user does not exists" for an unknown email and "incorrect password" for a wrong password | not executed | Users.Login, Users.LoginFailureIsAlwaysUnknown, Users.LoginOfUnknownEmailSaysUnknown | Users.LoginKeepingNames, Users.LoginKeepingNamesReportsCause |
