# Aadhaar number masker: the redaction decision

`masker_v2.py` blacks out Aadhaar numbers in scanned documents. A text
detector writes one line per detected word box: eight comma-separated
integers, the four corners P0..P3. `process_image` reads those lines one by
one. Each box goes through four steps:

- It is parsed from its line.
- It must pass an aspect-ratio gate.
- It is read twice by tesseract, once on a grayscale crop and once on a thresholded crop.
- The better of the two readings is classified by how many digit-like characters it holds.

The classification sends each box one of three ways:

- A box that clearly holds a number is masked at once.
- A box that may hold part of a number is kept on a pending list.
- Every other box is dropped.

After the last line, every pair of pending boxes, earlier first, is tested for
adjacency. Both boxes of an adjacent pair are masked.

This project models that decision and proves what it does. The image is
reduced to the set of regions filled black. A region is a box together with
the index of the detector line it came from. The two OCR strings of each line
are inputs. The project has five modules:

- `PyText` holds the two Python built-ins the parser relies on: `str.split` and `int()`.
- `Geometry` holds `dist`, `aspect_ratio`, `ar_check` and `neighbouring_boxes`. They are decided exactly on squared integer lengths, and lemmas connect them to the real-valued comparisons of the source.
- `DigitSignal` holds `num_length`, the strict digit count, the choice between the two readings, and the three-way classification.
- `DetectorLine` parses one detector line: it is skipped, raises ValueError, or yields a box.
- `Masker` holds the rest:
  - the per-line decision;
  - the line loop and the pair loop as methods with loop invariants;
  - an `Image` class whose `masked` set `mask_number` extends;
  - the specification `Redact`, with lemmas stating which regions a run masks.

## Model

| member | source | states |
|---|---|---|
| PyText.Split | masker_v2.py:100 | `line.split(",")` gives at least one piece and no piece holds a comma |
| PyText.SplitCount | masker_v2.py:100-104 | a line with n commas splits into n + 1 fields, so exactly 8 fields means exactly 7 commas |
| PyText.JoinSplit | masker_v2.py:100 | joining the pieces of a split with the separator gives the line back |
| PyText.SplitJoin | masker_v2.py:100 | splitting a join of comma-free fields gives those fields back |
| PyText.ParseInt | masker_v2.py:106 | `int(field)` (Python 3.11 and later): the model of `int()`, with None where Python raises ValueError; an accepted field holds between 1 and 4300 digits once its whitespace is dropped |
| PyText.ParseIntText | masker_v2.py:106 | `int()` reads back the decimal text of an integer of at most 4300 digits, and raises on one with more digits. Any run of the whitespace `int()` skips may follow the text: tab, line feed, vertical tab, form feed, carriage return or space, such as the newline |
| PyText.ParseIntRejectsSeparator | masker_v2.py:106 | the decimal text of an integer followed by one of the separators 0x1C-0x1F, and then any whitespace `int()` skips, makes `int()` raise, although `str.strip()` would remove the separator |
| Geometry.SquaredDist | masker_v2.py:21-22 | the squared distance is zero exactly when the two points coincide |
| Geometry.AspectRatio | masker_v2.py:69-73 | the ratio's denominator \|P1P2\| is zero iff P1 = P2, and its numerator \|P0P1\| is zero iff P0 = P1 |
| Geometry.ArCheck | masker_v2.py:75-79 | a ratio the gate accepts has positive edge lengths, so inf and nan are rejected |
| Geometry.ArCheckMeansRatioInRange | masker_v2.py:69-79 | for real edge lengths top ≥ 0 and side > 0, the gate accepts iff 1.65 ≤ top/side ≤ 5.75 |
| Geometry.DegenerateBoxRejected | masker_v2.py:69-79 | a box whose P1P2 edge has length zero never passes the gate |
| Geometry.Neighbouring | masker_v2.py:85-92 | a box whose top-left corner equals that of the first box is always adjacent to it |
| Geometry.NeighbouringMeansWithinTolerance | masker_v2.py:85-92 | adjacency holds iff the vertical corner offset is at most 0.75·\|P0P3\| and the horizontal one at most 1.35·\|P0P1\|, both measured on the first box |
| Geometry.NeighbouringNotSymmetric | masker_v2.py:85-92 | a wide box and a tiny box exist where the wide box reaches the tiny one but not the other way round |
| DigitSignal.Keep | masker_v2.py:66 | filtering with `re.sub` keeps only characters of the alphabet and never lengthens the string |
| DigitSignal.NumLength | masker_v2.py:65-67 | `num_length(s)` is the number of positions of s whose character lies in `0-9?TBaAZ$egiG` |
| DigitSignal.StrictDigitCount | masker_v2.py:149 | `len(re.sub('[^0-9]', '', s))` is the number of positions of s holding a digit 0-9 |
| DigitSignal.KeepCountsPositions | masker_v2.py:65-67 | `num_length` counts exactly the positions whose character lies in `0-9?TBaAZ$egiG` |
| DigitSignal.NumLengthBounds | masker_v2.py:149 | strict digit count ≤ `num_length` ≤ length of the reading |
| DigitSignal.NumLengthConcat | masker_v2.py:65-67 | `num_length` of a concatenation is the sum of the parts' counts |
| DigitSignal.NumLengthExamples | masker_v2.py:65-67 | "AB12?4" counts 6 (3 strict digits) and "hello" counts 1 (0 strict digits) |
| DigitSignal.Reconcile | masker_v2.py:134 | the chosen reading is one of the two, and its count is the larger of both; on a tie or a smaller grayscale count the thresholded reading is chosen |
| DigitSignal.Classify | masker_v2.py:147-163 | Confirmed iff ≥ 2 strict digits and length in {8, 11, 12, 13}; Pending iff ≥ 2 strict digits and length in {3..7, 9, 10} |
| DigitSignal.ClassifyRejected | masker_v2.py:147-163 | Rejected iff < 2 strict digits, or length 2, or length ≥ 14 |
| DetectorLine.TryAll | masker_v2.py:106 | converting every field in turn yields one integer per field when none raises |
| DetectorLine.TryAllValues | masker_v2.py:106 | when no field raises, the i-th integer is `int()` of the i-th field |
| DetectorLine.TryAllSucceeds | masker_v2.py:106 | when every field converts to the matching integer, the conversion yields exactly those integers |
| DetectorLine.TryAllFails | masker_v2.py:106 | the conversion fails iff some field's `int()` raises |
| DetectorLine.ParseLine | masker_v2.py:100-108 | a line is skipped iff it has other than 7 commas; it raises iff it has 8 fields and some field is not an integer; a box it yields has as its i-th coordinate (P0.x, P0.y, ..., P3.y) exactly `int()` of the i-th field |
| DetectorLine.QuadOf | masker_v2.py:108 | the eight integers become the corners P0..P3 in order: the box's coordinates are the integers read |
| DetectorLine.LineWithoutCommaSkipped | masker_v2.py:100-104 | a line with no comma, the blank line included, is skipped |
| DetectorLine.SplitFormattedLine | masker_v2.py:100 | a written box splits into its eight fields, the last keeping the line ending |
| DetectorLine.ParseFormattedLine | masker_v2.py:100-108 | a box written as eight comma-separated integers, each of at most 4300 digits, parses back to the same box. Any run of the whitespace `int()` skips may follow the line |
| DetectorLine.OverlongCoordinateRaises | masker_v2.py:100-106 | a written box with a coordinate of more than 4300 digits raises ValueError instead of yielding the box |
| DetectorLine.SeparatorBeforeNewlineRaises | masker_v2.py:100-106 | a written box whose line ends with a separator 0x1C-0x1F before the newline raises ValueError instead of yielding the box |
| Masker.Verdict | masker_v2.py:110-163 | a box that is confirmed or pending has passed the aspect-ratio gate |
| Masker.GateRejectedIgnoresReading | masker_v2.py:110-113 | a box the gate rejects is dropped whatever its OCR readings are, so it is never masked or pended |
| Masker.DecideMeans | masker_v2.py:100-163 | states what `Decide`, one pass of the line loop, does: a line confirms or defers box q iff it parses to q, passes the gate and classifies so; it raises iff parsing raises; it is skipped iff it has the wrong field count, fails the gate, or classifies Rejected |
| Masker.Events | masker_v2.py:99-163 | there is one event per detector line |
| Masker.EventAt | masker_v2.py:99-163 | the event at index i is the decision of line i on its own readings |
| Masker.RaisedIsFinal | masker_v2.py:106 | once `int()` raises, later lines change nothing |
| Masker.RunningMeansNoRaise | masker_v2.py:99-163 | a loop still running after n lines has met no raising line |
| Masker.RunningConfirmed | masker_v2.py:152-160 | the loop has masked exactly the regions (i, q) whose line i confirms q |
| Masker.RunningPending | masker_v2.py:162-163 | the pending list holds exactly the deferred boxes, each tagged with its line, in strictly increasing line order |
| Masker.ScanLinesRunning | masker_v2.py:99-163 | states what `ScanLines`, the line loop, computes: with no ValueError, the line loop masks exactly the confirmed boxes and pends exactly the deferred ones, in line order |
| Masker.ScanLinesRaised | masker_v2.py:99-163 | `ScanLines` with a ValueError: the loop stopped at a raising line k, was still running after the lines before k, and has masked only what it had masked before k |
| Masker.ConfirmedNotPending | masker_v2.py:160-163 | no region is both masked at classification time and pending |
| Masker.RowHitsMembership | masker_v2.py:174-177 | row i of the pair loop masks both boxes of each adjacent pair (i, b) it has tested, and nothing else |
| Masker.LoopHitsMembership | masker_v2.py:171-177 | the first i rows mask both boxes of each adjacent pair (a, b) with a < i and a < b, and nothing else |
| Masker.LoopHitsAreClusterHits | masker_v2.py:171-177 | after all rows, the pair loop has masked exactly the pending boxes that have a partner |
| Masker.ClusterOfAtMostOne | masker_v2.py:171-173 | a pending list of length 0 or 1 masks nothing |
| Masker.ClusterHitsMembership | masker_v2.py:171-177 | states what `ClusterHits`, the pair loop's result, holds: the k-th pending box is masked iff a later box is adjacent to it, measured on it, or it is adjacent to an earlier box, measured on that box |
| Masker.ClusterHitHasNeighbour | masker_v2.py:171-177 | every box the pair loop masks was deferred by its line and has a deferred neighbour on another line |
| Masker.NeighbourIsClusterHit | masker_v2.py:171-177 | every deferred box with a deferred neighbour on another line is masked by the pair loop |
| Masker.RedactionDecision | masker_v2.py:94-177 | states what `Redact`, the whole decision, masks: in a call that completes, a region is masked iff its line confirms it, or its line defers it and another deferred box is adjacent to it (tolerances from the earlier of the two) |
| Masker.RedactionOnValueError | masker_v2.py:99-163 | `Redact` in a call that raises at line k: k is the first raising line and the masked regions are exactly those confirmed before k |
| Masker.Image.constructor | masker_v2.py:94 | a fresh image has nothing masked |
| Masker.Image.MaskNumber | masker_v2.py:81-83 | masking adds the region and removes nothing; masking an already masked region changes nothing |
| Masker.ReadDetectorLine | masker_v2.py:100-163 | one pass of the line loop masks a confirmed box, hands back a deferred box, reports a raising line, and otherwise leaves the image as it was |
| Masker.ScanDetectorLines | masker_v2.py:99-163 | the line loop ends in the state `ScanLines` specifies: the raising line if any, the pending list, and the image with the confirmed regions added |
| Masker.MaskPartnersOf | masker_v2.py:174-177 | the inner loop adds to the image exactly the regions of row `index` |
| Masker.MaskAdjacentPending | masker_v2.py:171-177 | the pair loop adds to the image exactly the pending boxes that have a partner |
| Masker.ProcessImage | masker_v2.py:94-177 | the call ends as `Redact` specifies (completed, or ValueError at the first raising line) and adds exactly `Redact`'s regions to the image |

## Left out

- `crop_image`, `scale_image` and `tesseract_preprocess` (masker_v2.py:24-63) are left out. They are cv2 cropping, resizing, grayscale conversion and thresholding with float scale factors, so they are foreign image-library calls.
- `pytesseract.image_to_string` (masker_v2.py:131-132) is left out. It is the external OCR engine, and its two outputs for each line are inputs of the model. In the source, a box is cropped from the image after earlier boxes have been filled black, so OCR of a later box may see those masks. The model takes the readings as fixed.
- The pixel effect of `cv2.fillPoly` is left out. Masking is membership of a region in the `masked` set. Two boxes that overlap on the image are two regions here.
- Opening the detector file, `cv2.imread` and `cv2.imwrite`, the directory walk, `os.mkdir`, `tqdm`, the detector call `call_test`, `argparse` and the `__main__` loop are left out. They are I/O and command-line plumbing. The detector file is given as its sequence of lines. Python's line iteration keeps the newline on each line, and the model's parser accepts it.
- Commented-out code is left out because it never runs.
- The ValueError is not propagated out of the program. `ProcessImage` returns it as an outcome naming the line, with the image as it was when the error occurred.
- Geometry.ArCheck: IEEE rounding of `np.sqrt` and of the division at the exact 1.65 and 5.75 boundaries is not modelled. The comparison is exact.
- Geometry.Neighbouring: IEEE rounding at the 0.75 and 1.35 boundaries is not modelled either. numpy integer overflow in the squared differences is not modelled, because coordinates are unbounded integers.
- PyText.ParseInt: it models `int()` on ASCII text only: the whitespace it skips is tab, line feed, vertical tab, form feed, carriage return and space. Non-ASCII whitespace and Unicode digits, which Python's `int()` also accepts, are not modelled.
- PyText.MaxStrDigits: the digit limit is fixed at CPython's default of 4300, in force since Python 3.11 and in the 3.7-3.10 security releases. A limit changed through `PYTHONINTMAXSTRDIGITS`, `-X int_max_str_digits` or `sys.set_int_max_str_digits` is not modelled, and neither are older interpreters, which have no limit.
- Other errors that abort `process_image` are not modelled. Examples:
  - `tesseract_preprocess` divides by the crop's height outside its `try` (masker_v2.py:54). A crop with no rows raises ZeroDivisionError. This happens, for instance, for a box whose top y is slightly negative, because the slice at masker_v2.py:47 is then empty.
  - `cv2.resize` in `scale_image` and `pytesseract` can raise as well.
  - `Outcome` has only the ValueError of `int()`. Every box that passes the gate is assumed to have its two readings, and the model always reaches a verdict for it.
- The comment on masker_v2.py:152 names lengths 8 and 12. The code masks lengths 8 and 11 to 13 at once, and the model follows the code.
