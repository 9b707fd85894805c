# Vehicle Recognition: the decision pipeline around the classifier

This project models the logic of the Android vehicle-recognition app that
surrounds its neural network:

- the centred square crop that `CNNClassifier.getROI` cuts from a camera frame;
- the classifier's configuration and input buffer;
- the pairing of network scores with labels, and the ranking by
  `ResultsComparator`;
- the accept/reject rule `VehicleRecognition.performRecognition` applies to
  the top prediction;
- the flags that admit one recognition at a time.

The neural network, the OpenCV image operations and the Android UI are not
modelled. They enter as function parameters or are left out.

Modules:

- `Failures`: the exceptions of the classifier that the model represents, as
  a `Result` type. They are an OpenCV or TensorFlow call that throws, an
  engine output longer than the raw output buffer, and `System.arraycopy`
  past its end. Each one reaches the activity's catch block. That path is
  also taken when `elementAt(0)` finds an empty ranking.
- `Ranking`: the comparator, a stable sort written as an insertion sort
  (`StableSort`), its proofs, and an in-place array sort proved equal to it.
  The in-place sort stands for `Collections.sort`.
- `Classifier`: `getROI` with the source's double arithmetic and `(int)`
  casts; the `CNNClassifier` class with its constant configuration, its
  reused input buffer and `performRecognition`.
- `Decision`: the four-way outcome of the threshold test.
- `Activity`: the detection flags as pure step functions over `Flags`; the
  response to a recognition (`ResponseTo`); and the `RecognitionActivity`
  class whose event handlers update the fields.

Scores are `real`. The inference engine is a parameter of type
`(input layer, buffer, shape, output layer) -> Attempt`. The OpenCV
preprocessing is a parameter of type `(frame, crop rectangle, mean) ->
Attempt`. An `Attempt` either completes with float values or throws.

Behaviour of the code worth knowing:

- The test `topOne.second > threshValue` is strict. So a threshold of 0.0
  with a top score of -0.1 gives "nothing found", not "close to a class".
  `ZeroThresholdNeverClose` and `DecideExamples` prove this.
- The code has no check that rejects a frame smaller than the network input.
  It also does not check that the mean array's length equals the channel
  depth. No such errors are modelled.
- After a failed recognition, the code clears both flags but never re-enables
  the detect button. `FailureLocksDetection` proves that no later event
  sequence can then start a recognition.

## Model

| member | source | states |
|---|---|---|
| Classifier.IntCast | VR/src/main/java/com/deepsoft/vehiclerecognition/CNNClassifier.java:159-161 | the `(int)` cast truncates toward zero: within one of its argument, never further from zero |
| Classifier.RoiExact | VR/src/main/java/com/deepsoft/vehiclerecognition/CNNClassifier.java:148-162 | on integer frame sizes the double arithmetic of getROI is exact: side `2*(min(w,h) div 2)`, corner `((w-side) div 2, (h-side) div 2)` |
| Classifier.RoiIsEvenSquare | VR/src/main/java/com/deepsoft/vehiclerecognition/CNNClassifier.java:154-161 | the crop is a square with an even side, at most the smaller frame dimension and at least one less |
| Classifier.RoiInsideFrame | VR/src/main/java/com/deepsoft/vehiclerecognition/CNNClassifier.java:156-161 | the crop lies inside the frame on both axes |
| Classifier.RoiCentred | VR/src/main/java/com/deepsoft/vehiclerecognition/CNNClassifier.java:156-161 | the margins on opposite sides of the crop differ by at most one pixel |
| Classifier.RoiExamples | VR/src/main/java/com/deepsoft/vehiclerecognition/CNNClassifier.java:148-162 | 640x480 gives (80,0,480,480), 100x100 gives (0,0,100,100), an empty frame gives an empty crop |
| Ranking.CompareTo | VR/src/main/java/com/deepsoft/vehiclerecognition/CNNClassifier.java:38 | Float.compareTo on scores: negative, zero or positive exactly when the first is below, equal to or above the second |
| Ranking.ResultsCompare | VR/src/main/java/com/deepsoft/vehiclerecognition/CNNClassifier.java:34-40 | the comparator puts the higher score first: negative exactly when o1 scores higher, zero on equal scores |
| Ranking.ResultsCompareIsComparator | VR/src/main/java/com/deepsoft/vehiclerecognition/CNNClassifier.java:34-40 | the comparator is antisymmetric and transitive, and two pairs that compare equal compare the same way with every third pair, as java.util.Comparator requires |
| Ranking.SortedIsComparatorOrder | VR/src/main/java/com/deepsoft/vehiclerecognition/CNNClassifier.java:225 | non-increasing scores is exactly the order ResultsComparator asks for |
| Ranking.StableSortCorrect | VR/src/main/java/com/deepsoft/vehiclerecognition/CNNClassifier.java:225 | the ranking is sorted by the comparator, a permutation of its input, and keeps the input order within every group of equal scores |
| Ranking.StableSortUnique | VR/src/main/java/com/deepsoft/vehiclerecognition/CNNClassifier.java:225 | any sequence that is sorted by the comparator and keeps tie order is the ranking, so every stable sort gives the same order |
| Ranking.SortInPlace | VR/src/main/java/com/deepsoft/vehiclerecognition/CNNClassifier.java:225 | sorting the results array in place leaves exactly the stable ranking of its old contents |
| Ranking.InsertLast | VR/src/main/java/com/deepsoft/vehiclerecognition/CNNClassifier.java:225 | one step of the in-place sort inserts the next pair behind every ranked pair with a score at least its own, and touches nothing beyond it |
| Classifier.CNNClassifier.constructor | VR/src/main/java/com/deepsoft/vehiclerecognition/CNNClassifier.java:83-129 | every configuration field is taken from the descriptor (the threshold getThreshold returns among them); the mean array equals the descriptor's Mean element by element; the input buffer holds inputSize*inputSize*inputDim floats, all zero as a fresh Java array is |
| Classifier.FeedShapeFitsBuffer | VR/src/main/java/com/deepsoft/vehiclerecognition/CNNClassifier.java:205-208 | the shape [1, inputSize, inputSize, inputDim] fed to the engine multiplies out to the buffer length |
| Classifier.Overwrite | VR/src/main/java/com/deepsoft/vehiclerecognition/CNNClassifier.java:176 | Mat.get keeps the buffer's length; it overwrites the leading values and leaves the rest as the previous call left them |
| Classifier.CNNClassifier.PreProcess | VR/src/main/java/com/deepsoft/vehiclerecognition/CNNClassifier.java:165-185 | when the pipeline completes, returns the getROI crop and the buffer is Overwrite of its old contents with the pipeline's values; when it throws, returns PipelineFailed and the buffer is untouched |
| Classifier.CNNClassifier.GetResults | VR/src/main/java/com/deepsoft/vehiclerecognition/CNNClassifier.java:188-196 | one pair per label, in label order, pair i being (labels[i], accuracy[i]) |
| Classifier.PairsAt | VR/src/main/java/com/deepsoft/vehiclerecognition/CNNClassifier.java:188-196 | the pairing function gives one pair per label, pair i being (labels[i], scores[i]) |
| Classifier.Fetch | VR/src/main/java/com/deepsoft/vehiclerecognition/CNNClassifier.java:214-218 | the fetched raw output has outputSize values: the engine's values first, zeros after; an output longer than the buffer is an error |
| Classifier.CNNClassifier.FetchOutput | VR/src/main/java/com/deepsoft/vehiclerecognition/CNNClassifier.java:214-218 | the freshly allocated raw output array holds what Fetch describes |
| Classifier.CNNClassifier.RankOutput | VR/src/main/java/com/deepsoft/vehiclerecognition/CNNClassifier.java:215-225 | the copy, pairing and sort give the stable ranking of the first labelsCount raw outputs, or an error when there are fewer raw outputs than labels |
| Classifier.RankIsStableSortOfPairs | VR/src/main/java/com/deepsoft/vehiclerecognition/CNNClassifier.java:214-225 | ranking fails exactly when there are more labels than raw outputs; otherwise it has one pair per label, is sorted, is a permutation of the label/score pairs and keeps tie order |
| Classifier.RankIgnoresTail | VR/src/main/java/com/deepsoft/vehiclerecognition/CNNClassifier.java:214-221 | raw outputs past the label count never change the ranking |
| Classifier.TopIsFirstMaximum | VR/src/main/java/com/deepsoft/vehiclerecognition/CNNClassifier.java:224-225 | the top prediction carries the highest score, and it is the first label in label order with that score |
| Classifier.HeadIsFirstMaximum | VR/src/main/java/com/deepsoft/vehiclerecognition/CNNClassifier.java:225 | the head of any sorted, stable permutation is the first pair of the input with the highest score |
| Classifier.RankExamples | VR/src/main/java/com/deepsoft/vehiclerecognition/CNNClassifier.java:224-225 | scores [0.5,0.5,0.9] for labels [A,B,C] rank C, A, B; scores [0,1,2] rank C, B, A |
| Classifier.CNNClassifier.PerformRecognition | VR/src/main/java/com/deepsoft/vehiclerecognition/CNNClassifier.java:199-236 | remembers the frame's crop unless preprocessing threw; leaves the buffer as BufferAfter says; returns ResultFor the old buffer, which is PipelineFailed, EngineFailed, an overflow, too few outputs, or the ranking of the engine's output on the new buffer and the feed shape |
| Decision.DecideCases | VR/src/main/java/com/deepsoft/vehiclerecognition/VehicleRecognition.java:319-350 | nothing found iff score <= threshold; probability match iff the threshold is positive and exceeded; SVM match iff the threshold is not positive and the score is; close iff threshold < score <= 0; a match names the top label and shows score*100 |
| Decision.ZeroThresholdNeverClose | VR/src/main/java/com/deepsoft/vehiclerecognition/VehicleRecognition.java:319-340 | with threshold 0.0, "close to a class" cannot happen and a non-positive score is "nothing found" |
| Decision.AcceptanceIsMonotone | VR/src/main/java/com/deepsoft/vehiclerecognition/VehicleRecognition.java:319 | a higher top score is accepted whenever a lower one is |
| Decision.DecideExamples | VR/src/main/java/com/deepsoft/vehiclerecognition/VehicleRecognition.java:319-350 | (0.7, 0.9999) nothing found; (0.95, 0.9) 95 percent; (0.3, 0.0) SVM match; (-0.1, 0.0) nothing found; (-0.1, -0.5) close |
| Activity.ResponseEffects | VR/src/main/java/com/deepsoft/vehiclerecognition/VehicleRecognition.java:316-350 | on a ranking, the toast is the decided outcome; the top label is spoken iff accepted, voice on and speech available; the frame is saved iff accepted, saving on and the folder present |
| Activity.NoLabelsIsNetworkError | VR/src/main/java/com/deepsoft/vehiclerecognition/VehicleRecognition.java:316 | with no labels, elementAt(0) fails and the response is the network-error toast with nothing spoken or saved |
| Activity.AdmissionRule | VR/src/main/java/com/deepsoft/vehiclerecognition/VehicleRecognition.java:453-459 | a frame starts a recognition iff one was requested and none is running, and starting sets the busy flag |
| Activity.RunKeepsConsistent | VR/src/main/java/com/deepsoft/vehiclerecognition/VehicleRecognition.java:188-194 | over any event sequence, busy implies requested and requested implies the button is disabled |
| Activity.OneRecognitionInFlight | VR/src/main/java/com/deepsoft/vehiclerecognition/VehicleRecognition.java:453-459 | over any event sequence, starts equal ends plus the change in the busy flag, so at most one recognition runs |
| Activity.FailureLocksDetection | VR/src/main/java/com/deepsoft/vehiclerecognition/VehicleRecognition.java:365-374 | after a failed recognition the flags are cleared but the button stays disabled, and no event sequence starts another recognition |
| Activity.SuccessAllowsNextDetection | VR/src/main/java/com/deepsoft/vehiclerecognition/VehicleRecognition.java:353-363 | after a successful recognition a click followed by a frame starts the next one |
| Activity.DrawnFrameInsideRoi | VR/src/main/java/com/deepsoft/vehiclerecognition/VehicleRecognition.java:406-410 | when the crop is taller than twice the margin, the drawn rectangle stays inside the frame, has non-negative height and keeps the crop's vertical centre |
| Activity.RecognitionActivity.constructor | VR/src/main/java/com/deepsoft/vehiclerecognition/VehicleRecognition.java:67-74 | starts with no request, nothing running, the button enabled, voice on and saving off |
| Activity.RecognitionActivity.OnDetectClick | VR/src/main/java/com/deepsoft/vehiclerecognition/VehicleRecognition.java:188-194 | the click sets the request flag and disables the button |
| Activity.RecognitionActivity.OnSaveClick | VR/src/main/java/com/deepsoft/vehiclerecognition/VehicleRecognition.java:144-154 | toggles saving |
| Activity.RecognitionActivity.OnVoiceChanged | VR/src/main/java/com/deepsoft/vehiclerecognition/VehicleRecognition.java:197-204 | voice follows the toggle; "voice on" is spoken when switched on and speech is available |
| Activity.RecognitionActivity.DrawFrame | VR/src/main/java/com/deepsoft/vehiclerecognition/VehicleRecognition.java:403-410 | the drawn rectangle keeps the crop's x and width; its top moves down by the margin and its bottom moves up by the margin |
| Activity.RecognitionActivity.OnCameraFrame | VR/src/main/java/com/deepsoft/vehiclerecognition/VehicleRecognition.java:446-477 | admits a recognition as FrameArrived says, hands it a copy of the frame, and returns the drawn rectangle |
| Activity.RecognitionActivity.Respond | VR/src/main/java/com/deepsoft/vehiclerecognition/VehicleRecognition.java:313-375 | toast, speech and saves follow ResponseTo; both flags are cleared; the button is re-enabled only on success |
| Activity.RecognitionActivity.PerformRecognition | VR/src/main/java/com/deepsoft/vehiclerecognition/VehicleRecognition.java:304-377 | classifies the copied frame as the classifier's PerformRecognition says, then responds to its result (an exception included) with the classifier's threshold, as ResponseTo says |
| Classifier.GetRoi | VR/src/main/java/com/deepsoft/vehiclerecognition/CNNClassifier.java:148-162 | getROI as written: half the smaller side floored, the frame centre in doubles, four (int) casts; RoiExact and the lemmas after it state what it computes |
| Ranking.Insert | VR/src/main/java/com/deepsoft/vehiclerecognition/CNNClassifier.java:225 | one insertion step of the stable sort: the pair goes behind every ranked pair the comparator does not put after it; InsertPermutes, InsertKeepsSorted and InsertTieOrder state its properties |
| Ranking.StableSort | VR/src/main/java/com/deepsoft/vehiclerecognition/CNNClassifier.java:225 | the order Collections.sort with ResultsComparator leaves, as an insertion sort; StableSortCorrect and StableSortUnique characterise it |
| Classifier.Pairs | VR/src/main/java/com/deepsoft/vehiclerecognition/CNNClassifier.java:188-196 | the pairs getResults builds; PairsAt states them |
| Classifier.Rank | VR/src/main/java/com/deepsoft/vehiclerecognition/CNNClassifier.java:214-225 | arraycopy of the first labelsCount raw outputs, pairing and sort; RankIsStableSortOfPairs characterises it |
| Classifier.Recognize | VR/src/main/java/com/deepsoft/vehiclerecognition/CNNClassifier.java:205-225 | an engine that throws gives EngineFailed; otherwise the output is fetched and then ranked |
| Classifier.OverwriteIdempotent | VR/src/main/java/com/deepsoft/vehiclerecognition/CNNClassifier.java:176 | writing the same values over the buffer a second time changes nothing |
| Classifier.CNNClassifier.GetThreshold | VR/src/main/java/com/deepsoft/vehiclerecognition/CNNClassifier.java:239-242 | returns the threshold the descriptor configured |
| Classifier.CNNClassifier.Preprocessed | VR/src/main/java/com/deepsoft/vehiclerecognition/CNNClassifier.java:165-176 | what the OpenCV pipeline makes of the frame's getROI crop and the mean |
| Classifier.CNNClassifier.BufferAfter | VR/src/main/java/com/deepsoft/vehiclerecognition/CNNClassifier.java:165-176 | the buffer after preProcess: Overwrite with the pipeline's values, or unchanged when the pipeline threw |
| Classifier.CNNClassifier.ResultFor | VR/src/main/java/com/deepsoft/vehiclerecognition/CNNClassifier.java:199-236 | what performRecognition returns for a frame and the buffer's old contents; the method's contract ties it to the method |
| Classifier.CNNClassifier.RepeatedRecognitionAgrees | VR/src/main/java/com/deepsoft/vehiclerecognition/CNNClassifier.java:199-236 | recognising the same frame again, after a first recognition, leaves the buffer as it was and returns the same result |
| Classifier.CNNClassifier.RecognizeTwice | VR/src/main/java/com/deepsoft/vehiclerecognition/CNNClassifier.java:199-236 | two successive performRecognition calls on one frame, with the same pipeline and engine, return equal results |
| Decision.Decide | VR/src/main/java/com/deepsoft/vehiclerecognition/VehicleRecognition.java:319-350 | the frame is accepted exactly when the top score exceeds the threshold, and every match names the top label; DecideCases gives each outcome's condition |
| Decision.AfterOutcome | VR/src/main/java/com/deepsoft/vehiclerecognition/VehicleRecognition.java:341-347 | speak and save only after a match, when voice and text-to-speech, or saving and the folder, allow it; ResponseEffects states the result |
| Activity.DetectClicked | VR/src/main/java/com/deepsoft/vehiclerecognition/VehicleRecognition.java:188-194 | the click listener's effect on the flags: request set, button disabled |
| Activity.FrameArrived | VR/src/main/java/com/deepsoft/vehiclerecognition/VehicleRecognition.java:453-459 | onCameraFrame's admission test; AdmissionRule states it |
| Activity.RecognitionEnded | VR/src/main/java/com/deepsoft/vehiclerecognition/VehicleRecognition.java:353-374 | both flags cleared; the button re-enabled only on the success path; FailureLocksDetection and SuccessAllowsNextDetection state the consequences |
| Activity.Step | VR/src/main/java/com/deepsoft/vehiclerecognition/VehicleRecognition.java:188-194 | one event on the flags: a click on an enabled button, a camera frame, or the end of the running recognition; RunKeepsConsistent and OneRecognitionInFlight state what every sequence of steps keeps |
| Activity.ResponseTo | VR/src/main/java/com/deepsoft/vehiclerecognition/VehicleRecognition.java:304-375 | the activity's response to a classifier result: the network-error toast for any exception or an empty ranking, otherwise the decided outcome and its speech and save; ResponseEffects and NoLabelsIsNetworkError characterise it |

## Left out

- OpenCV image operations: crop, colour conversion, resize, float conversion
  and mean subtraction. They are a `Pipeline` parameter. The model covers a
  call that throws, but not which inputs make OpenCV throw. The corner lines of
  drawFrame and saveFrame's colour swap and file write are not modelled.
- The TensorFlow engine: feed, run, fetch and the graph's output width. The
  engine is an `Engine` parameter, and the output width is a constructor
  parameter. The model covers an engine call that throws, but not which
  inputs make TensorFlow throw.
- Classifier.Fetch: TensorFlow's own behaviour when the fetched tensor and
  the buffer differ in size is not visible here. The model writes a shorter
  output into the front of the zeroed buffer and treats a longer one as an
  error.
- JSON parsing and the Utils asset loaders. The constructor takes the parsed
  descriptor and the label list. The JSON and I/O exceptions of construction
  are not modelled.
- Classifier.CNNClassifier.constructor: InputSize and InputDim are natural
  numbers and their product is unbounded. Java's 32-bit overflow and
  NegativeArraySizeException are not modelled.
- Classifier.IntCast: the saturation of Java's cast at the int range is not
  modelled. Frame sizes keep every value far inside it.
- The pixels of the retained cropped matrix (`getCroppedMat`). They depend on
  OpenCV sub-matrix aliasing. The model keeps the crop rectangle and records
  a save by its top prediction.
- Threads, `synchronized (mCameraMat)` and Handler posting. The flags are a
  sequential state machine, and the button re-enabling that the success path
  posts to the main looper happens at once.
- Activity.RecognitionActivity.OnCameraFrame: its catch block, which closes
  the activity, is not modelled.
- Network switching (`initClassifier` from the select dialog), the torch, the
  information dialog and the activity lifecycle.
- The elapsed time and string formatting of the toasts. Only the chosen
  message and its label (and percentage) are kept.
- IEEE float details of `Float.compareTo` (NaN, -0.0) and the float/double
  mix in the threshold test. Scores are reals.
- Debug logging.
