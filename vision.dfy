/**
 * The detector of src/vision.rs after inference: the class list with the
 * positions of "person" and "dog" found once at construction, the gate that
 * turns raw network rows into candidates (boxes, confidences and class ids
 * kept as three parallel vectors), and the assembly of the detections that
 * non-maximum suppression keeps.
 *
 * A raw row is [cx, cy, w, h, objectness, score_0, ..., score_{K-1}], centre
 * and size being fractions of the frame. Non-maximum suppression is an
 * OpenCV routine and enters as a parameter: any index list it returns is
 * handed to the assembly step.
 */
module Vision {
  import opened Wrappers
  import opened Config
  import opened Geometry
  import opened Scoring

  type Row = seq<real>

  /** One output tensor of the network: one row per grid cell and anchor. */
  type Tensor = seq<Row>

  /** A single detected object. */
  datatype Detection = Detection(className: string, confidence: real, bbox: Rect, classId: int)

  datatype Error =
    | ClassNotFound(name: string)   // a whitelisted class name is not in the class list
    | IndexOutOfRange(index: int)   // a kept index does not name a candidate
    | SuppressionFailed             // the suppression routine reported an error

  /** The post-processing state of YoloDetector: the class list and the two whitelisted ids. */
  datatype YoloDetector = YoloDetector(classes: seq<string>, personId: int, dogId: int)

  /** `i` is the first position of `name` in `classes`. */
  predicate IsFirstIndex(classes: seq<string>, name: string, i: int) {
    0 <= i < |classes| && classes[i] == name && forall j :: 0 <= j < i ==> classes[j] != name
  }

  /** What construction establishes: each whitelisted id is the first position of its name. */
  predicate Valid(d: YoloDetector) {
    IsFirstIndex(d.classes, "person", d.personId) && IsFirstIndex(d.classes, "dog", d.dogId)
  }

  predicate Whitelisted(d: YoloDetector, classId: int) {
    classId == d.personId || classId == d.dogId
  }

  // ---------------------------------------------------------------- construction

  /** Rust's `iter().position(|r| r == name)`. */
  function Position(classes: seq<string>, name: string): (r: Option<nat>)
    ensures r.None? <==> name !in classes
    ensures r.Some? ==> IsFirstIndex(classes, name, r.value)
  {
    if classes == [] then None
    else if classes[0] == name then Some(0)
    else
      match Position(classes[1..], name)
      case None => None
      case Some(i) => Some(i + 1)
  }

  /** The id lookups of YoloDetector::new; "person" is looked up, and reported missing, first. */
  function New(classes: seq<string>): (r: Result<YoloDetector, Error>)
    ensures r.Ok? <==> "person" in classes && "dog" in classes
    ensures r.Ok? ==> r.value.classes == classes && Valid(r.value)
    ensures r.Err? ==> r.error == ClassNotFound(if "person" in classes then "dog" else "person")
  {
    match Position(classes, "person")
    case None => Err(ClassNotFound("person"))
    case Some(personId) =>
      match Position(classes, "dog")
      case None => Err(ClassNotFound("dog"))
      case Some(dogId) => Ok(YoloDetector(classes, personId, dogId))
  }

  /** Every whitelisted id of a constructed detector indexes the class list, at its own name. */
  lemma WhitelistedLabel(d: YoloDetector, classId: int)
    requires Valid(d) && Whitelisted(d, classId)
    ensures 0 <= classId < |d.classes|
    ensures d.classes[classId] == (if classId == d.personId then "person" else "dog")
    ensures d.personId != d.dogId
  {
  }

  // ---------------------------------------------------------------- the gate

  /** A row kept by the gate: its box, its objectness and its best class. */
  datatype Candidate = Candidate(bbox: Rect, confidence: real, classId: int)

  /** The gate of process_outputs applied to one row; None when the row is dropped. */
  function RowCandidate(d: YoloDetector, row: Row, frameW: int, frameH: int): (r: Option<Candidate>)
    requires |row| >= 5
    ensures r.Some? ==>
      && r.value.confidence == row[4] > ConfThreshold
      && Whitelisted(d, r.value.classId)
      && 0 <= r.value.classId < |row| - 5
      && IsFirstMax(row[5..], r.value.classId, row[5 + r.value.classId])
      && row[5 + r.value.classId] > ConfThreshold
      && r.value.bbox == DecodeBox(row, frameW, frameH)
  {
    if row[4] > ConfThreshold then
      var (classId, maxScore) := BestClass(row[5..]);
      if maxScore > ConfThreshold && (classId == d.personId || classId == d.dogId) then
        Some(Candidate(DecodeBox(row, frameW, frameH), row[4], classId))
      else
        None
    else
      None
  }

  /**
   * A row is kept exactly when its objectness is above the threshold and the
   * first maximum of its class scores is above the threshold and whitelisted.
   */
  lemma RowKeptIff(d: YoloDetector, row: Row, frameW: int, frameH: int)
    requires |row| >= 5
    ensures RowCandidate(d, row, frameW, frameH).Some? <==>
      && row[4] > ConfThreshold
      && exists id :: 0 <= id < |row| - 5 && IsFirstMax(row[5..], id, row[5 + id])
                      && row[5 + id] > ConfThreshold && Whitelisted(d, id)
  {
    var scores := row[5..];
    var r := RowCandidate(d, row, frameW, frameH);
    if r.Some? {
      var id := r.value.classId;
      assert 0 <= id < |row| - 5 && IsFirstMax(scores, id, row[5 + id]);
    }
    if row[4] > ConfThreshold && exists id :: 0 <= id < |row| - 5 && IsFirstMax(row[5..], id, row[5 + id])
                                             && row[5 + id] > ConfThreshold && Whitelisted(d, id) {
      var id :| 0 <= id < |row| - 5 && IsFirstMax(scores, id, row[5 + id])
                && row[5 + id] > ConfThreshold && Whitelisted(d, id);
      BestClassIsFirstMax(scores, id, row[5 + id]);
    }
  }

  /** Objectness or scores exactly at (or below) the threshold drop the row. */
  lemma ThresholdIsStrict(d: YoloDetector, row: Row, frameW: int, frameH: int)
    requires |row| >= 5
    requires row[4] <= ConfThreshold || forall j :: 5 <= j < |row| ==> row[j] <= ConfThreshold
    ensures RowCandidate(d, row, frameW, frameH) == None
  {
  }

  /**
   * A row whose first maximum is a class outside the whitelist is dropped, even
   * when a whitelisted class also scores above the threshold.
   */
  lemma OtherBestClassDropped(d: YoloDetector, row: Row, frameW: int, frameH: int, other: int)
    requires |row| >= 5
    requires 0 <= other < |row| - 5 && !Whitelisted(d, other)
    requires forall j :: 5 <= j < |row| ==> row[j] <= row[5 + other]
    requires forall j :: 5 <= j < 5 + other ==> row[j] < row[5 + other]
    ensures RowCandidate(d, row, frameW, frameH) == None
  {
  }

  // ---------------------------------------------------------------- accumulation

  /** Every row of the tensor holds at least the four box values and the objectness. */
  predicate RowsWellFormed(rows: Tensor) {
    forall i :: 0 <= i < |rows| ==> |rows[i]| >= 5
  }

  /** Every tensor is well formed. */
  predicate WellFormed(outputs: seq<Tensor>) {
    forall t :: 0 <= t < |outputs| ==> RowsWellFormed(outputs[t])
  }

  /** The candidates of one tensor, in row order. */
  function TensorCandidates(d: YoloDetector, rows: Tensor, frameW: int, frameH: int): (cs: seq<Candidate>)
    requires RowsWellFormed(rows)
    ensures |cs| <= |rows|
    ensures forall c :: c in cs ==> c.confidence > ConfThreshold && Whitelisted(d, c.classId)
  {
    if rows == [] then []
    else
      var prefix := TensorCandidates(d, rows[..|rows| - 1], frameW, frameH);
      match RowCandidate(d, rows[|rows| - 1], frameW, frameH)
      case None => prefix
      case Some(c) => prefix + [c]
  }

  /** The candidates of all tensors, the tensors taken in sequence. */
  function Candidates(d: YoloDetector, outputs: seq<Tensor>, frameW: int, frameH: int): (cs: seq<Candidate>)
    requires WellFormed(outputs)
    ensures forall c :: c in cs ==> c.confidence > ConfThreshold && Whitelisted(d, c.classId)
  {
    if outputs == [] then []
    else
      Candidates(d, outputs[..|outputs| - 1], frameW, frameH)
        + TensorCandidates(d, outputs[|outputs| - 1], frameW, frameH)
  }

  /** Rows are gated one at a time, in order: the candidates of a split tensor are the two parts' in sequence. */
  lemma {:induction false} TensorCandidatesAppend(d: YoloDetector, rows1: Tensor, rows2: Tensor, frameW: int, frameH: int)
    requires RowsWellFormed(rows1)
    requires RowsWellFormed(rows2)
    ensures TensorCandidates(d, rows1 + rows2, frameW, frameH)
         == TensorCandidates(d, rows1, frameW, frameH) + TensorCandidates(d, rows2, frameW, frameH)
    decreases |rows2|
  {
    if rows2 == [] {
      assert rows1 + rows2 == rows1;
    } else {
      var init := rows2[..|rows2| - 1];
      TensorCandidatesAppend(d, rows1, init, frameW, frameH);
      assert (rows1 + rows2)[..|rows1 + rows2| - 1] == rows1 + init;
      assert (rows1 + rows2)[|rows1 + rows2| - 1] == rows2[|rows2| - 1];
    }
  }

  /** A single row contributes its own candidate, if any. */
  lemma TensorCandidatesSingle(d: YoloDetector, row: Row, frameW: int, frameH: int)
    requires |row| >= 5
    ensures TensorCandidates(d, [row], frameW, frameH)
         == match RowCandidate(d, row, frameW, frameH) case None => [] case Some(c) => [c]
  {
    assert [row][..0] == [];
  }

  /** Tensors are gated one after another: the candidates of two tensor lists are theirs in sequence. */
  lemma {:induction false} CandidatesAppend(d: YoloDetector, outputs1: seq<Tensor>, outputs2: seq<Tensor>, frameW: int, frameH: int)
    requires WellFormed(outputs1) && WellFormed(outputs2)
    ensures WellFormed(outputs1 + outputs2)
    ensures Candidates(d, outputs1 + outputs2, frameW, frameH)
         == Candidates(d, outputs1, frameW, frameH) + Candidates(d, outputs2, frameW, frameH)
    decreases |outputs2|
  {
    var all := outputs1 + outputs2;
    assert WellFormed(all) by {
      forall t | 0 <= t < |all|
        ensures RowsWellFormed(all[t])
      {
        if t >= |outputs1| {
          assert all[t] == outputs2[t - |outputs1|];
        }
      }
    }
    if outputs2 == [] {
      assert all == outputs1;
    } else {
      var init := outputs2[..|outputs2| - 1];
      assert WellFormed(init);
      CandidatesAppend(d, outputs1, init, frameW, frameH);
      assert all[..|all| - 1] == outputs1 + init;
      assert all[|all| - 1] == outputs2[|outputs2| - 1];
    }
  }

  /** Each candidate is a kept row of some tensor. */
  lemma {:induction false} CandidateFromRow(d: YoloDetector, outputs: seq<Tensor>, frameW: int, frameH: int, c: Candidate)
    requires WellFormed(outputs)
    requires c in Candidates(d, outputs, frameW, frameH)
    ensures exists t, i :: 0 <= t < |outputs| && 0 <= i < |outputs[t]|
                           && RowCandidate(d, outputs[t][i], frameW, frameH) == Some(c)
    decreases |outputs|
  {
    var init := outputs[..|outputs| - 1];
    var last := |outputs| - 1;
    if c in Candidates(d, init, frameW, frameH) {
      CandidateFromRow(d, init, frameW, frameH, c);
      var t, i :| 0 <= t < |init| && 0 <= i < |init[t]| && RowCandidate(d, init[t][i], frameW, frameH) == Some(c);
      assert outputs[t] == init[t];
    } else {
      var i := TensorRowOf(d, outputs[last], frameW, frameH, c);
      assert RowCandidate(d, outputs[last][i], frameW, frameH) == Some(c);
    }
  }

  /** The row of a tensor that yields a given candidate of that tensor. */
  lemma {:induction false} TensorRowOf(d: YoloDetector, rows: Tensor, frameW: int, frameH: int, c: Candidate) returns (i: nat)
    requires RowsWellFormed(rows)
    requires c in TensorCandidates(d, rows, frameW, frameH)
    ensures i < |rows| && RowCandidate(d, rows[i], frameW, frameH) == Some(c)
    decreases |rows|
  {
    var init := rows[..|rows| - 1];
    if c in TensorCandidates(d, init, frameW, frameH) {
      i := TensorRowOf(d, init, frameW, frameH, c);
    } else {
      i := |rows| - 1;
    }
  }

  /** The three parallel vectors hold, position by position, the fields of `cs`. */
  predicate Parallel(boxes: seq<Rect>, confidences: seq<real>, classIds: seq<int>, cs: seq<Candidate>) {
    && |boxes| == |cs| && |confidences| == |cs| && |classIds| == |cs|
    && forall k :: 0 <= k < |cs| ==> cs[k] == Candidate(boxes[k], confidences[k], classIds[k])
  }

  /** One more row of a tensor adds its own candidate, if any, at the end. */
  lemma TensorCandidatesStep(d: YoloDetector, rows: Tensor, r: nat, frameW: int, frameH: int)
    requires RowsWellFormed(rows)
    requires r < |rows|
    ensures TensorCandidates(d, rows[..r + 1], frameW, frameH)
         == TensorCandidates(d, rows[..r], frameW, frameH)
            + match RowCandidate(d, rows[r], frameW, frameH) case None => [] case Some(c) => [c]
  {
    assert rows[..r + 1][..r] == rows[..r];
  }

  /** One more tensor adds its candidates at the end. */
  lemma CandidatesStep(d: YoloDetector, outputs: seq<Tensor>, t: nat, frameW: int, frameH: int)
    requires WellFormed(outputs)
    requires t < |outputs|
    ensures WellFormed(outputs[..t]) && WellFormed(outputs[..t + 1])
    ensures Candidates(d, outputs[..t + 1], frameW, frameH)
         == Candidates(d, outputs[..t], frameW, frameH) + TensorCandidates(d, outputs[t], frameW, frameH)
  {
    assert outputs[..t + 1][..t] == outputs[..t];
  }

  /** Pushing onto the three vectors in step keeps them parallel to the candidates. */
  lemma ParallelPush(boxes: seq<Rect>, confidences: seq<real>, classIds: seq<int>,
                     before: seq<Candidate>, cs: seq<Candidate>, c: Candidate)
    requires Parallel(boxes, confidences, classIds, before + cs)
    ensures Parallel(boxes + [c.bbox], confidences + [c.confidence], classIds + [c.classId], before + (cs + [c]))
  {
    assert before + (cs + [c]) == (before + cs) + [c];
  }

  /** Parallel vectors built from candidates carry the candidates' guarantees. */
  lemma ParallelWhitelisted(d: YoloDetector, boxes: seq<Rect>, confidences: seq<real>, classIds: seq<int>, cs: seq<Candidate>)
    requires Parallel(boxes, confidences, classIds, cs)
    requires forall c :: c in cs ==> c.confidence > ConfThreshold && Whitelisted(d, c.classId)
    ensures forall k :: 0 <= k < |classIds| ==> confidences[k] > ConfThreshold && Whitelisted(d, classIds[k])
  {
    assert forall k :: 0 <= k < |cs| ==> cs[k] in cs;
  }

  /**
   * The body of the row loop of process_outputs up to the pushes: the
   * objectness test, the best-class scan, the score test, the whitelist test
   * and the box of a kept row.
   */
  method GateRow(d: YoloDetector, rowData: Row, frameW: int, frameH: int) returns (kept: Option<Candidate>)
    requires |rowData| >= 5
    ensures kept == RowCandidate(d, rowData, frameW, frameH)
  {
    kept := None;
    var confidence := rowData[4];
    if confidence > ConfThreshold {
      var classId, maxScore := GetBestClass(rowData[5..]);
      if maxScore > ConfThreshold {
        if classId == d.personId || classId == d.dogId {
          var bbox := DecodeBox(rowData, frameW, frameH);
          kept := Some(Candidate(bbox, confidence, classId));
        }
      }
    }
  }

  /**
   * The inner loop of process_outputs: the rows of one tensor, in order, each
   * kept row pushed onto boxes, confidences and class_ids.
   */
  method CollectTensor(d: YoloDetector, output: Tensor, frameW: int, frameH: int,
                       boxes0: seq<Rect>, confidences0: seq<real>, classIds0: seq<int>, ghost before: seq<Candidate>)
    returns (boxes: seq<Rect>, confidences: seq<real>, classIds: seq<int>)
    requires RowsWellFormed(output)
    requires Parallel(boxes0, confidences0, classIds0, before)
    ensures Parallel(boxes, confidences, classIds, before + TensorCandidates(d, output, frameW, frameH))
  {
    boxes, confidences, classIds := boxes0, confidences0, classIds0;
    for row := 0 to |output|
      invariant Parallel(boxes, confidences, classIds, before + TensorCandidates(d, output[..row], frameW, frameH))
    {
      TensorCandidatesStep(d, output, row, frameW, frameH);
      var kept := GateRow(d, output[row], frameW, frameH);
      if kept.Some? {
        var c := kept.value;
        ParallelPush(boxes, confidences, classIds, before, TensorCandidates(d, output[..row], frameW, frameH), c);
        boxes := boxes + [c.bbox];
        confidences := confidences + [c.confidence];
        classIds := classIds + [c.classId];
      }
    }
    assert output[..|output|] == output;
  }

  /** The nested loops of process_outputs that push the kept rows onto boxes, confidences and class_ids. */
  method CollectCandidates(d: YoloDetector, outputs: seq<Tensor>, frameW: int, frameH: int)
    returns (boxes: seq<Rect>, confidences: seq<real>, classIds: seq<int>)
    requires WellFormed(outputs)
    ensures Parallel(boxes, confidences, classIds, Candidates(d, outputs, frameW, frameH))
    ensures forall k :: 0 <= k < |classIds| ==> confidences[k] > ConfThreshold && Whitelisted(d, classIds[k])
  {
    boxes, confidences, classIds := [], [], [];
    for t := 0 to |outputs|
      invariant WellFormed(outputs[..t])
      invariant Parallel(boxes, confidences, classIds, Candidates(d, outputs[..t], frameW, frameH))
    {
      CandidatesStep(d, outputs, t, frameW, frameH);
      boxes, confidences, classIds := CollectTensor(d, outputs[t], frameW, frameH, boxes, confidences, classIds,
                                                    Candidates(d, outputs[..t], frameW, frameH));
    }
    assert outputs[..|outputs|] == outputs;
    ParallelWhitelisted(d, boxes, confidences, classIds, Candidates(d, outputs, frameW, frameH));
  }

  // ---------------------------------------------------------------- assembly

  /**
   * The outcome of the assembly loop over `kept`: an error naming the first
   * index out of range if there is one, and otherwise one detection per kept
   * index, in the order of `kept`, built from that position of the parallel
   * vectors and labelled with the class name its id indexes. A negative index
   * is out of range too.
   */
  predicate Assembled(d: YoloDetector, boxes: seq<Rect>, confidences: seq<real>, classIds: seq<int>,
                      kept: seq<int>, r: Result<seq<Detection>, Error>)
    requires Valid(d)
    requires |boxes| == |confidences| == |classIds|
    requires forall k :: 0 <= k < |classIds| ==> Whitelisted(d, classIds[k])
  {
    var n := |classIds|;
    && (r.Ok? <==> forall k :: 0 <= k < |kept| ==> 0 <= kept[k] < n)
    && (r.Ok? ==> |r.value| == |kept|
                  && forall k :: 0 <= k < |kept| ==>
                       && r.value[k].classId == classIds[kept[k]]
                       && 0 <= classIds[kept[k]] < |d.classes|
                       && r.value[k].className == d.classes[classIds[kept[k]]]
                       && r.value[k].confidence == confidences[kept[k]]
                       && r.value[k].bbox == boxes[kept[k]])
    && (r.Err? ==> exists k :: 0 <= k < |kept| && !(0 <= kept[k] < n) && r.error == IndexOutOfRange(kept[k])
                              && forall j :: 0 <= j < k ==> 0 <= kept[j] < n)
  }

  /** The loop of process_outputs that maps the kept indices to Detection records. */
  method Assemble(d: YoloDetector, boxes: seq<Rect>, confidences: seq<real>, classIds: seq<int>, indices: seq<int>)
    returns (r: Result<seq<Detection>, Error>)
    requires Valid(d)
    requires |boxes| == |confidences| == |classIds|
    requires forall k :: 0 <= k < |classIds| ==> Whitelisted(d, classIds[k])
    ensures Assembled(d, boxes, confidences, classIds, indices, r)
  {
    var results: seq<Detection> := [];
    for k := 0 to |indices|
      invariant forall j :: 0 <= j < k ==> 0 <= indices[j] < |classIds|
      invariant |results| == k
      invariant forall j :: 0 <= j < k ==>
        results[j] == Detection(d.classes[classIds[indices[j]]], confidences[indices[j]], boxes[indices[j]], classIds[indices[j]])
    {
      var i := indices[k];
      if !(0 <= i < |classIds|) {
        return Err(IndexOutOfRange(i));
      }
      var clsId := classIds[i];
      WhitelistedLabel(d, clsId);
      results := results + [Detection(d.classes[clsId], confidences[i], boxes[i], clsId)];
    }
    return Ok(results);
  }

  /**
   * process_outputs: gate and accumulate all rows, hand the boxes and
   * confidences to the suppression routine `nmsBoxes`, and assemble the
   * detections it keeps.
   */
  method ProcessOutputs(d: YoloDetector, outputs: seq<Tensor>, frameW: int, frameH: int,
                        nmsBoxes: (seq<Rect>, seq<real>, real, real) -> Option<seq<int>>)
    returns (r: Result<seq<Detection>, Error>)
    requires Valid(d)
    requires WellFormed(outputs)
    ensures var cs := Candidates(d, outputs, frameW, frameH);
      var boxes := seq(|cs|, k requires 0 <= k < |cs| => cs[k].bbox);
      var confidences := seq(|cs|, k requires 0 <= k < |cs| => cs[k].confidence);
      var classIds := seq(|cs|, k requires 0 <= k < |cs| => cs[k].classId);
      match nmsBoxes(boxes, confidences, ConfThreshold, NmsThreshold)
      case None => r == Err(SuppressionFailed)
      case Some(kept) => Assembled(d, boxes, confidences, classIds, kept, r)
    ensures r.Ok? ==> forall k :: 0 <= k < |r.value| ==>
      && r.value[k].confidence > ConfThreshold
      && Whitelisted(d, r.value[k].classId)
      && r.value[k].className == (if r.value[k].classId == d.personId then "person" else "dog")
      && Candidate(r.value[k].bbox, r.value[k].confidence, r.value[k].classId)
           in Candidates(d, outputs, frameW, frameH)
    ensures outputs == [] ==> (r.Ok? ==> r.value == [])
  {
    var boxes, confidences, classIds := CollectCandidates(d, outputs, frameW, frameH);
    ghost var cs := Candidates(d, outputs, frameW, frameH);
    assert boxes == seq(|cs|, k requires 0 <= k < |cs| => cs[k].bbox);
    assert confidences == seq(|cs|, k requires 0 <= k < |cs| => cs[k].confidence);
    assert classIds == seq(|cs|, k requires 0 <= k < |cs| => cs[k].classId);
    var indices := nmsBoxes(boxes, confidences, ConfThreshold, NmsThreshold);
    if indices.None? {
      return Err(SuppressionFailed);
    }
    if outputs == [] && indices.value != [] {
      assert |classIds| == 0 && !(0 <= indices.value[0] < |classIds|);
    }
    r := Assemble(d, boxes, confidences, classIds, indices.value);
    if r.Ok? {
      forall k | 0 <= k < |r.value|
        ensures r.value[k].className == (if r.value[k].classId == d.personId then "person" else "dog")
        ensures Candidate(r.value[k].bbox, r.value[k].confidence, r.value[k].classId) in cs
      {
        var i := indices.value[k];
        WhitelistedLabel(d, classIds[i]);
        assert cs[i] in cs;
      }
    }
  }
}
