# Detection post-processing of the YOLO person/dog detector

This project models, in Dafny, the part of `YoloDetector` (src/vision.rs) that
runs after the network's forward pass. It turns the raw output rows into
labelled boxes for the two classes the detector reports, "person" and "dog".

- **Construction** (`Vision.New`). The class list is searched for the first
  `"person"` and the first `"dog"` (`Vision.Position`, Rust's
  `iter().position`). If either name is missing, construction fails with
  `ClassNotFound`. The search for `"person"` comes first.
- **Best-class scan** (`Scoring.GetBestClass`). This is a left-to-right argmax
  that starts from score `0.0` and id `-1` and moves only on a strictly greater
  score. The method is proved against `Scoring.BestClass`, a function of the
  scanned prefix. The contract of `BestClass` is the declarative predicate
  `IsFirstMax`: id -1 and score 0.0 when no score is positive, and otherwise
  the first position of the maximum.
- **Gate** (`Vision.RowCandidate`). A row is kept only if its objectness
  `row[4]` is strictly above `ConfThreshold` (0.5). Its best class score must
  also be strictly above the threshold, and its best class id must be the
  person id or the dog id. The candidate's confidence is the objectness, not
  the class score.
- **Accumulation** (`Vision.CollectCandidates`). Nested loops over the tensors
  and their rows push each kept row onto three parallel sequences: boxes,
  confidences and class ids. The method is proved against
  `Vision.Candidates`, which gates the rows in order and takes the tensors in
  sequence.
- **Box arithmetic** (`Geometry.CalculateBbox`). This takes the centre and size
  already scaled to frame pixels. The corner is `cx - w / 2` with Rust's
  truncating division (`Geometry.HalfTowardZero`). `Geometry.DecodeBox` adds
  the scaling of the row's fractions by the frame size and the truncating
  cast, done in exact real arithmetic.
- **Suppression and assembly** (`Vision.ProcessOutputs`, `Vision.Assemble`).
  Non-maximum suppression is OpenCV's `dnn::nms_boxes`, whose code is not part
  of this model. It enters `ProcessOutputs` as the function parameter
  `nmsBoxes`. It gets the boxes, the confidences and the two thresholds, and it
  returns either an index list or a failure. Any index list it returns is
  mapped to `Detection` records, in the order of the list. The first index that
  is negative or too large yields `IndexOutOfRange`. In Rust, a negative `i32`
  cast to `usize` becomes too large for `Vector::get`.

Scores are modelled as `real`. The model only compares scores with the
threshold and with each other.

The `label` field of the Rust `Detection` is called `className` here, because
`label` is a reserved word in Dafny.

Under the code, the centred box with fractions `(0.5, 0.5, 0.2, 0.2)` in a
416×416 frame has its corner at `(167, 167)` and size 83: the centre is 208,
and `83 / 2` truncates to 41 (`Geometry.DecodeCentredFifth`). The corner is
167, not 166, because the half size is truncated, not the corner.

## Model

| member | source | states |
|---|---|---|
| `Geometry.HalfTowardZero` | src/vision.rs:156 | `w / 2` on Rust integers: the quotient is truncated toward zero, so the remainder is 0 or has the sign of the dividend (Dafny's own `/` is Euclidean) |
| `Geometry.TruncateReal` | src/vision.rs:152-155 | the `as i32` cast truncates toward zero: the integer lies within one of the value, on the side of zero |
| `Geometry.CalculateBbox` | src/vision.rs:156 | the rect keeps width `w` and height `h`; its corner puts the centre `(cx, cy)` at the truncated half of each side, so an odd size's extra pixel lies after the centre, and a negative size is mirrored |
| `Geometry.DecodeBox` | src/vision.rs:151-157 | the rect's width and height are the row's size fractions scaled to the frame and truncated toward zero; its corner centres the span on the scaled, truncated centre as `CalculateBbox` does, the extra pixel of an odd size after the centre |
| `Geometry.SpanCentredOnUnique` | src/vision.rs:156 | the centring property of `CalculateBbox` fixes the corner uniquely, so its contract determines the rect |
| `Geometry.DecodeCentredFifth` | src/vision.rs:151-157 | fractions (0.5, 0.5, 0.2, 0.2) of a 416×416 frame decode to Rect(167, 167, 83, 83) |
| `Scoring.BestClass` | src/vision.rs:139-149 | the scan's final `(id, max_score)` is the first maximum: id -1 and 0.0 when no score is strictly positive (empty slice included); otherwise `scores[id] == max_score > 0`, every score is at most it, and every score before `id` is strictly below it |
| `Scoring.FirstMaxUnique` | src/vision.rs:142-147 | at most one `(id, score)` pair is the first maximum of a score slice |
| `Scoring.BestClassIsFirstMax` | src/vision.rs:139-149 | the scan returns `(id, score)` if and only if that pair is the first maximum |
| `Scoring.GetBestClass` | src/vision.rs:139-149 | the loop computes `BestClass(scores)`: id in `[-1, len)`, score `>= 0`, id -1 exactly when no score is positive (and then score 0.0), otherwise `scores[id]` is the maximum and no earlier score reaches it |
| `Vision.Position` | src/vision.rs:32-40 | the position search yields None exactly when the name is absent, and otherwise the first index holding the name |
| `Vision.New` | src/vision.rs:30-40 | construction succeeds exactly when both "person" and "dog" are present, and then stores the class list with each id the first position of its name; otherwise it fails with ClassNotFound for "person" if that is missing, else for "dog" |
| `Vision.WhitelistedLabel` | src/vision.rs:130 | for a constructed detector, a whitelisted class id indexes the class list in bounds and names "person" or "dog"; the two ids differ |
| `Vision.RowCandidate` | src/vision.rs:92-105 | a kept row has objectness above the threshold as its confidence, a whitelisted class id that is the first maximum of its scores with a score above the threshold, and the decoded box of its first four values |
| `Vision.RowKeptIff` | src/vision.rs:95-100 | a row is kept if and only if objectness > threshold and the first maximum of its scores is > threshold and whitelisted |
| `Vision.ThresholdIsStrict` | src/vision.rs:95-98 | a row whose objectness, or whose every class score, is at or below the threshold is dropped |
| `Vision.OtherBestClassDropped` | src/vision.rs:96-100 | a row whose first maximum is a class outside the whitelist is dropped, even if a whitelisted class also scores above the threshold |
| `Vision.TensorCandidates` | src/vision.rs:91-107 | the candidates of one tensor number at most its rows, and each has confidence above the threshold and a whitelisted class id |
| `Vision.Candidates` | src/vision.rs:90-109 | every candidate of all tensors has confidence above the threshold and a whitelisted class id |
| `Vision.TensorCandidatesAppend` | src/vision.rs:91-107 | rows are gated independently and in order: the candidates of `rows1 + rows2` are those of `rows1` followed by those of `rows2` |
| `Vision.TensorCandidatesSingle` | src/vision.rs:91-107 | a one-row tensor contributes exactly its row's candidate, if any |
| `Vision.CandidatesAppend` | src/vision.rs:90-109 | tensors are processed in sequence: the candidates of two tensor lists are theirs concatenated |
| `Vision.CandidateFromRow` | src/vision.rs:90-105 | every accumulated candidate is the candidate of some row of some tensor |
| `Vision.TensorRowOf` | src/vision.rs:91-105 | every candidate of a tensor comes from one of its rows, and the lemma returns that row |
| `Vision.GateRow` | src/vision.rs:92-105 | the nested ifs of one row compute exactly `RowCandidate`: objectness test, best-class scan, score test and whitelist test, then the decoded box |
| `Vision.CollectTensor` | src/vision.rs:91-107 | after the row loop of one tensor, the three sequences hold, position by position, what they held before followed by the fields of that tensor's candidates, in row order |
| `Vision.CollectCandidates` | src/vision.rs:86-109 | after the nested loops, boxes, confidences and class ids have equal length (the length of `Candidates(outputs)`) and hold, position by position, the fields of `Candidates(outputs)`; every stored confidence is above the threshold and every class id is whitelisted |
| `Vision.Assemble` | src/vision.rs:123-136 | if all kept indices are in range, there is one Detection per index, in list order, with `class_id = class_ids[i]`, label `classes[class_ids[i]]` (an index always in bounds), `confidence = confidences[i]` and `bbox = boxes[i]`; otherwise the error names the first index out of range |
| `Vision.ProcessOutputs` | src/vision.rs:85-137 | the result is the suppression failure, or the assembly of the suppressor's indices over the accumulated candidates; each detection returned is a candidate of some row, has confidence above the threshold, and has a whitelisted class id labelled "person" or "dog" to match; with no output tensors, a success is the empty list |

## Left out

- Network setup and inference (src/vision.rs:42-53 and 66-79) are left out. This covers reading the darknet files, choosing the backend and target, looking up the output-layer names, `blob_from_image`, `set_input` and `forward`. They are calls into OpenCV. The model starts from the output tensors as given sequences of rows.
- `load_classes` (src/vision.rs:159-163) is file I/O. The class list is a parameter of `Vision.New`.
- `dnn::nms_boxes` (src/vision.rs:113-121) is a foreign routine. It is the parameter `nmsBoxes` of `Vision.ProcessOutputs`, and no greedy-suppression behaviour is assumed of it. Its fixed `eta` (1.0) and `top_k` (0) arguments are not passed.
- Geometry.TruncateReal: the `as i32` cast is modelled as exact truncation of a real. It does not model f32 rounding of the product, saturation at the `i32` bounds, or NaN becoming 0.
- Geometry.CalculateBbox: the subtraction `cx - w / 2` uses unbounded integers. It does not model `i32` overflow, which needs a centre within half a box of the `i32` bounds.
- Scoring.GetBestClass: scores are reals, so NaN scores are not modelled. In Rust every comparison with NaN is false, so a NaN is never chosen.
- Vision.Position: the `as i32` cast of the `usize` position is taken as exact. It would only wrap for class lists longer than 2^31 entries.
- Scoring.GetBestClass: the `as i32` cast of the score index is taken as exact, for the same reason.
- `output.at_row` (src/vision.rs:92) is not modelled as failing. Each row is taken as a sequence of at least five values, which `Vision.WellFormed` requires. Shorter rows make the Rust code panic on `row_data[4]`.
- All of src/main.rs (video capture, window, drawing and key handling) is left out as I/O and UI. Of src/config.rs, only `CONF_THRESHOLD` and `NMS_THRESHOLD` are used, as `Config.ConfThreshold` and `Config.NmsThreshold`.
