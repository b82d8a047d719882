/** The pieces of a recipe request the Recipe statics work from: the step
    and tag data in the body, the normalisation of tag names, and building
    the step documents together with their image uploads. */
module RecipeInput {
  import opened Outcomes
  import opened Text
  import opened Media
  import opened Documents

  /** One entry of `req.body.steps` when a recipe is created. */
  datatype StepInput = StepInput(description: string, sequence_number: int)

  /** `req.body.tags` when a recipe is created: an array of names or one
      comma-separated string. */
  datatype TagsInput = TagArray(names: seq<string>) | TagText(text: string)

  /** `tag.trim().toLowerCase()` */
  function Normalise(name: string): string
  {
    Lower(Trim(name))
  }

  /** The tag names a new recipe asks for, each trimmed and lower-cased; a
      string is first split at every comma. */
  function TagNames(tags: TagsInput): (names: seq<string>)
    ensures tags.TagArray? ==>
              |names| == |tags.names| && forall k :: 0 <= k < |names| ==> names[k] == Normalise(tags.names[k])
    ensures tags.TagText? ==>
              var raw := Split(tags.text, ',');
              |names| == |raw| && forall k :: 0 <= k < |names| ==> names[k] == Normalise(raw[k])
  {
    var raw := if tags.TagArray? then tags.names else Split(tags.text, ',');
    seq(|raw|, k requires 0 <= k < |raw| => Normalise(raw[k]))
  }

  /** A normalised name has no white space at either end and no ASCII
      capital letter. */
  predicate Normal(name: string)
  {
    && (|name| > 0 ==> !IsSpace(name[0]) && !IsSpace(name[|name| - 1]))
    && forall k :: 0 <= k < |name| ==> !('A' <= name[k] <= 'Z')
  }

  lemma NormaliseIsNormal(name: string)
    ensures Normal(Normalise(name))
  {
    var t := Trim(name);
    var r := Normalise(name);
    forall k | 0 <= k < |r| ensures !('A' <= r[k] <= 'Z') {
      LowerCharFacts(t[k]);
    }
    if |r| > 0 {
      LowerCharFacts(t[0]);
      LowerCharFacts(t[|t| - 1]);
    }
  }

  /** Every tag name a new recipe asks for is normalised, and normalising it
      again changes nothing. */
  lemma TagNamesAreNormal(tags: TagsInput)
    ensures forall k :: 0 <= k < |TagNames(tags)| ==> Normal(TagNames(tags)[k])
    ensures forall k :: 0 <= k < |TagNames(tags)| ==> Normalise(TagNames(tags)[k]) == TagNames(tags)[k]
  {
    var names := TagNames(tags);
    forall k | 0 <= k < |names|
      ensures Normal(names[k]) && Normalise(names[k]) == names[k]
    {
      var raw := if tags.TagArray? then tags.names else Split(tags.text, ',');
      NormaliseIsNormal(raw[k]);
      NormalIsFixed(names[k]);
    }
  }

  lemma NormalIsFixed(name: string)
    requires Normal(name)
    ensures Normalise(name) == name
  {
    TrimOfTrimmed(name);
    assert Lower(name) == name;
  }

  /** Sending the names as one comma-separated string asks for the same tags
      as sending them as an array, as long as no name holds a comma. */
  lemma TagTextMatchesTagArray(names: seq<string>)
    requires |names| >= 1
    requires forall k :: 0 <= k < |names| ==> ',' !in names[k]
    ensures TagNames(TagText(Join(names, ","))) == TagNames(TagArray(names))
  {
    SplitJoin(names, ',');
  }

  /** The step documents built from the request and what their image
      uploads sent; `failed` when an attached step image got no URL. */
  datatype Built = Built(steps: seq<Step>, media: seq<MediaRequest>, failed: bool)

  /** The image file attached for a step: `step_image_<sequence number>`. */
  function StepFile(files: Files, sequence_number: int): Option<File>
  {
    FileAt(files, StepImageField(sequence_number))
  }

  /** The image attached for the step is uploaded and the host gives no URL. */
  predicate ImageFails(files: Files, input: StepInput)
  {
    StepFile(files, input.sequence_number).Some? && StepFile(files, input.sequence_number).value.hostReply.None?
  }

  /** The step documents of a new recipe: each keeps its description and
      sequence number, points at the recipe, and carries the URL of its
      image when one is attached.  Every attached image is uploaded (the
      uploads run side by side); the build fails when any of them gets no
      URL. */
  function BuildSteps(rid: Id, inputs: seq<StepInput>, files: Files): (b: Built)
    ensures |b.steps| == |inputs|
    ensures forall k :: 0 <= k < |inputs| ==>
              && b.steps[k].recipe_id == rid
              && b.steps[k].description == inputs[k].description
              && b.steps[k].sequence_number == inputs[k].sequence_number
              && b.steps[k].image == (if StepFile(files, inputs[k].sequence_number).Some?
                                      then StepFile(files, inputs[k].sequence_number).value.hostReply else None)
    ensures b.failed <==> exists k :: 0 <= k < |inputs| && ImageFails(files, inputs[k])
    ensures b.media == Concat(StepUploadList(files, inputs))
    ensures forall q :: q in b.media ==> q.UploadRequest? && q.kind == Image
    decreases |inputs|
  {
    if |inputs| == 0 then Built([], [], false)
    else
      var input := inputs[0];
      var up := Upload(StepFile(files, input.sequence_number), Image);
      var step := Step(rid, input.description, input.sequence_number, up.url);
      var rest := BuildSteps(rid, inputs[1..], files);
      assert forall k :: 1 <= k < |inputs| ==> inputs[k] == inputs[1..][k - 1];
      FailsSomewhere(files, inputs);
      UploadListCons(files, inputs);
      var steps := [step] + rest.steps;
      assert steps[0] == step && forall k :: 1 <= k < |inputs| ==> steps[k] == rest.steps[k - 1];
      Built(steps, up.requests + rest.media, ImageFails(files, input) || rest.failed)
  }

  /** The requests the image upload of each step sends, one list per step. */
  function StepUploadList(files: Files, inputs: seq<StepInput>): (u: seq<seq<MediaRequest>>)
    ensures |u| == |inputs|
  {
    seq(|inputs|, k requires 0 <= k < |inputs| => Upload(StepFile(files, inputs[k].sequence_number), Image).requests)
  }

  /** The lists of a sequence of lists, one after the other. */
  function Concat<T>(ss: seq<seq<T>>): seq<T>
    decreases |ss|
  {
    if |ss| == 0 then [] else ss[0] + Concat(ss[1..])
  }

  lemma UploadListCons(files: Files, inputs: seq<StepInput>)
    requires |inputs| > 0
    ensures Concat(StepUploadList(files, inputs))
            == Upload(StepFile(files, inputs[0].sequence_number), Image).requests + Concat(StepUploadList(files, inputs[1..]))
  {
    assert StepUploadList(files, inputs)[1..] == StepUploadList(files, inputs[1..]);
  }

  /** Every element of every list is in their concatenation. */
  lemma {:induction false} ConcatHolds<T>(ss: seq<seq<T>>, k: nat, x: T)
    requires k < |ss| && x in ss[k]
    ensures x in Concat(ss)
    decreases |ss|
  {
    if k > 0 {
      assert ss[1..][k - 1] == ss[k];
      ConcatHolds(ss[1..], k - 1, x);
    }
  }

  /** Every step image attached to the request is uploaded. */
  lemma BuildStepsUploadsEachImage(rid: Id, inputs: seq<StepInput>, files: Files, k: nat)
    requires k < |inputs| && StepFile(files, inputs[k].sequence_number).Some?
    ensures UploadRequest(StepFile(files, inputs[k].sequence_number).value, Image) in BuildSteps(rid, inputs, files).media
  {
    ConcatHolds(StepUploadList(files, inputs), k, UploadRequest(StepFile(files, inputs[k].sequence_number).value, Image));
  }

  /** Some step image of a non-empty list fails when the first one does or
      one of the others does. */
  lemma FailsSomewhere(files: Files, inputs: seq<StepInput>)
    requires |inputs| > 0
    ensures (exists k :: 0 <= k < |inputs| && ImageFails(files, inputs[k]))
            <==> ImageFails(files, inputs[0]) || exists k :: 0 <= k < |inputs[1..]| && ImageFails(files, inputs[1..][k])
  {
    if exists k :: 0 <= k < |inputs| && ImageFails(files, inputs[k]) {
      var k :| 0 <= k < |inputs| && ImageFails(files, inputs[k]);
      if k > 0 {
        assert inputs[1..][k - 1] == inputs[k];
      }
    }
    if exists k :: 0 <= k < |inputs[1..]| && ImageFails(files, inputs[1..][k]) {
      var k :| 0 <= k < |inputs[1..]| && ImageFails(files, inputs[1..][k]);
      assert inputs[k + 1] == inputs[1..][k];
    }
  }

  /** `steps.filter(step => step.image)`, as positions: the indices from `k`
      on of the steps that carry an image, in increasing order. */
  function ImageIndices(steps: seq<Step>, k: nat): (idx: seq<nat>)
    requires k <= |steps|
    ensures forall i :: 0 <= i < |idx| ==> k <= idx[i] < |steps| && steps[idx[i]].image.Some?
    ensures forall i, j :: 0 <= i < j < |idx| ==> idx[i] < idx[j]
    ensures forall j :: k <= j < |steps| && steps[j].image.Some? ==> j in idx
    decreases |steps| - k
  {
    if k == |steps| then []
    else
      var rest := ImageIndices(steps, k + 1);
      if steps[k].image.None? then rest
      else
        PrependImageIndex(steps, k, rest);
        [k] + rest
  }

  /** Putting a step with an image in front of the indices after it keeps
      them increasing and complete. */
  lemma PrependImageIndex(steps: seq<Step>, k: nat, rest: seq<nat>)
    requires k < |steps| && steps[k].image.Some?
    requires forall i :: 0 <= i < |rest| ==> k < rest[i] < |steps| && steps[rest[i]].image.Some?
    requires forall i, j :: 0 <= i < j < |rest| ==> rest[i] < rest[j]
    requires forall j :: k < j < |steps| && steps[j].image.Some? ==> j in rest
    ensures var idx := [k] + rest;
            && (forall i :: 0 <= i < |idx| ==> k <= idx[i] < |steps| && steps[idx[i]].image.Some?)
            && (forall i, j :: 0 <= i < j < |idx| ==> idx[i] < idx[j])
            && (forall j :: k <= j < |steps| && steps[j].image.Some? ==> j in idx)
  {
    var idx := [k] + rest;
    assert forall i :: 1 <= i < |idx| ==> idx[i] == rest[i - 1];
  }

  /** `steps.filter(step => step.image).map(...)`: the step images to delete
      if the request fails later, one entry per step that carries an image,
      in step order. */
  function StepRollback(steps: seq<Step>): (pending: seq<Pending>)
    ensures var idx := ImageIndices(steps, 0);
            && |pending| == |idx|
            && forall i :: 0 <= i < |pending| ==> pending[i] == Pending(steps[idx[i]].image, Image)
    ensures forall p :: p in pending ==> p.url.Some? && p.kind == Image
    ensures forall k :: 0 <= k < |steps| && steps[k].image.Some? ==> Pending(steps[k].image, Image) in pending
  {
    var idx := ImageIndices(steps, 0);
    var pending := seq(|idx|, i requires 0 <= i < |idx| => Pending(steps[idx[i]].image, Image));
    PendingCoversImages(steps, idx, pending);
    pending
  }

  /** A list with one entry per listed index covers every step image when
      every step with an image is listed. */
  lemma PendingCoversImages(steps: seq<Step>, idx: seq<nat>, pending: seq<Pending>)
    requires forall i :: 0 <= i < |idx| ==> idx[i] < |steps|
    requires forall j :: 0 <= j < |steps| && steps[j].image.Some? ==> j in idx
    requires |pending| == |idx|
    requires forall i :: 0 <= i < |idx| ==> pending[i] == Pending(steps[idx[i]].image, Image)
    ensures forall k :: 0 <= k < |steps| && steps[k].image.Some? ==> Pending(steps[k].image, Image) in pending
  {
    forall k | 0 <= k < |steps| && steps[k].image.Some? ensures Pending(steps[k].image, Image) in pending {
      var i :| 0 <= i < |idx| && idx[i] == k;
      assert pending[i] == Pending(steps[k].image, Image);
    }
  }
}
