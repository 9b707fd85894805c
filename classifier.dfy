/** CNNClassifier: the crop geometry, the classifier's configuration and
    buffers, and the recognition pipeline around the inference engine. */
module Classifier {
  import opened Failures
  import opened Ranking

  /** org.opencv.core.Rect: top-left corner, width and height. */
  datatype Rect = Rect(x: int, y: int, width: int, height: int)

  /** A camera frame: its size and its RGBA pixels, which only the OpenCV
      pipeline looks at. */
  datatype Frame = Frame(width: nat, height: nat, rgba: seq<int>)

  function Min(a: int, b: int): int
  {
    if a <= b then a else b
  }

  /** Java's (int) cast of a double: truncation toward zero. */
  function IntCast(r: real): (n: int)
    ensures r >= 0.0 ==> n as real <= r < n as real + 1.0
    ensures r < 0.0 ==> n as real - 1.0 < r <= n as real
  {
    if r >= 0.0 then r.Floor else -((-r).Floor)
  }

  /** CNNClassifier.getROI, with the source's double arithmetic: half the
      smaller side rounded down, the frame's centre, and (int) casts. */
  function GetRoi(width: nat, height: nat): Rect
  {
    var minDim := (Min(width, height) as real / 2.0).Floor as real;
    var centerX := width as real / 2.0;
    var centerY := height as real / 2.0;
    Rect(IntCast(centerX - minDim), IntCast(centerY - minDim),
         IntCast(minDim * 2.0), IntCast(minDim * 2.0))
  }

  /** The side of the crop: the smaller frame dimension rounded down to even. */
  function RoiSide(width: nat, height: nat): nat
  {
    2 * (Min(width, height) / 2)
  }

  lemma HalfFloor(n: nat)
    ensures (n as real / 2.0).Floor == n / 2
  {
    var q := n / 2;
    assert n as real / 2.0 == q as real + (n % 2) as real / 2.0;
  }

  /** On a frame the double arithmetic of getROI is exact: the crop is the
      even square of side RoiSide, with the spare columns and rows split
      evenly (rounded down) on either side. */
  lemma RoiExact(width: nat, height: nat)
    ensures var side := RoiSide(width, height);
      GetRoi(width, height) == Rect((width - side) / 2, (height - side) / 2, side, side)
  {
    var m := Min(width, height);
    HalfFloor(m);
    var k := m / 2;
    HalfFloor(width);
    HalfFloor(height);
    assert width as real / 2.0 - k as real == (width - 2 * k) as real / 2.0;
    HalfFloor(width - 2 * k);
    assert height as real / 2.0 - k as real == (height - 2 * k) as real / 2.0;
    HalfFloor(height - 2 * k);
  }

  lemma RoiSideBounds(width: nat, height: nat)
    ensures RoiSide(width, height) % 2 == 0
    ensures Min(width, height) - 1 <= RoiSide(width, height) <= Min(width, height)
  {
  }

  /** The crop is a square whose side is the smaller frame dimension rounded
      down to an even number. */
  lemma RoiIsEvenSquare(width: nat, height: nat)
    ensures var roi := GetRoi(width, height);
      && roi.width == roi.height
      && roi.width % 2 == 0
      && Min(width, height) - 1 <= roi.width <= Min(width, height)
  {
    var side := RoiSide(width, height);
    RoiExact(width, height);
    RoiSideBounds(width, height);
    assert GetRoi(width, height).width == side;
  }

  /** The crop lies inside the frame. */
  lemma RoiInsideFrame(width: nat, height: nat)
    ensures var roi := GetRoi(width, height);
      && 0 <= roi.x && roi.x + roi.width <= width
      && 0 <= roi.y && roi.y + roi.height <= height
  {
    RoiExact(width, height);
    RoiSideBounds(width, height);
  }

  /** The crop is centred: the margins left and right of it, and above and
      below it, differ by at most one pixel. */
  lemma RoiCentred(width: nat, height: nat)
    ensures var roi := GetRoi(width, height);
      && roi.x <= width - (roi.x + roi.width) <= roi.x + 1
      && roi.y <= height - (roi.y + roi.height) <= roi.y + 1
  {
    RoiExact(width, height);
    RoiSideBounds(width, height);
  }

  lemma RoiExamples()
    ensures GetRoi(640, 480) == Rect(80, 0, 480, 480)
    ensures GetRoi(100, 100) == Rect(0, 0, 100, 100)
    ensures GetRoi(0, 0) == Rect(0, 0, 0, 0)
  {
    RoiExact(640, 480);
    RoiExact(100, 100);
    RoiExact(0, 0);
  }

  /** The network descriptor read from the JSON asset: the fields the
      constructor takes with getString, getInt, getDouble and getJSONArray. */
  datatype NetworkConfig = NetworkConfig(
    name: string,
    inputLayer: string,
    outputLayer: string,
    inputSize: nat,
    inputDim: nat,
    mean: seq<real>,
    networkPath: string,
    labelsPath: string,
    threshold: real)

  /** A call into OpenCV or TensorFlow: it either completes with float values
      or throws. */
  datatype Attempt = Completed(values: seq<real>) | Threw

  /** The OpenCV preprocessing of preProcess (crop to the rectangle, drop the
      alpha channel, resize, convert to float, subtract the mean): from a
      frame, its crop rectangle and the mean to the float values in the order
      Mat.get reads them. */
  type Pipeline = (Frame, Rect, seq<real>) -> Attempt

  /** The TensorFlow engine: feed(input layer, buffer, shape), run and fetch of
      the output layer, as one function to the output tensor's values. */
  type Engine = (string, seq<real>, seq<int>, string) -> Attempt

  function BufferLength(inputSize: nat, inputDim: nat): nat
  {
    inputSize * inputSize * inputDim
  }

  /** The dimensions passed to feed: one image of inputSize x inputSize pixels
      with inputDim channels. */
  function FeedShape(inputSize: nat, inputDim: nat): seq<int>
  {
    [1, inputSize, inputSize, inputDim]
  }

  function Product(dims: seq<int>): int
  {
    if dims == [] then 1 else dims[0] * Product(dims[1..])
  }

  /** The tensor shape fed to the engine holds exactly the input buffer. */
  lemma FeedShapeFitsBuffer(inputSize: nat, inputDim: nat)
    ensures Product(FeedShape(inputSize, inputDim)) == BufferLength(inputSize, inputDim)
  {
    var shape := FeedShape(inputSize, inputDim);
    assert shape[1..][1..][1..][1..] == [];
    assert Product(shape[1..][1..][1..]) == inputDim;
    assert Product(shape[1..][1..]) == inputSize * inputDim;
    assert Product(shape[1..]) == inputSize * (inputSize * inputDim);
    assert Product(shape) == inputSize * (inputSize * inputDim);
  }

  /** The input buffer after Mat.get(0, 0, buffer): the leading values are
      overwritten by as many values as the matrix holds, the rest keep what
      the previous call left. */
  function Overwrite(buffer: seq<real>, values: seq<real>): (r: seq<real>)
    ensures |r| == |buffer|
    ensures forall i :: 0 <= i < |r| ==> r[i] == if i < |values| then values[i] else buffer[i]
  {
    if |values| >= |buffer| then values[..|buffer|] else values + buffer[|values|..]
  }

  /** Writing the same values over the buffer again changes nothing. */
  lemma OverwriteIdempotent(buffer: seq<real>, values: seq<real>)
    ensures Overwrite(Overwrite(buffer, values), values) == Overwrite(buffer, values)
  {
  }

  /** The raw output buffer of outputSize floats after fetch: the engine's
      values in front, the zeros of the fresh Java array behind; an output
      longer than the buffer is a buffer overflow. */
  function Fetch(outputSize: nat, output: seq<real>): (r: Result<seq<real>>)
    ensures r.Ok? <==> |output| <= outputSize
    ensures r.Ok? ==> |r.value| == outputSize && r.value[..|output|] == output
    ensures r.Ok? ==> forall i :: |output| <= i < outputSize ==> r.value[i] == 0.0
  {
    if |output| > outputSize then Err(EngineOutputOverflow)
    else Ok(output + seq(outputSize - |output|, _ => 0.0))
  }

  /** getResults: each label with the score at its index. */
  function Pairs(labels: seq<string>, scores: seq<real>): seq<Prediction>
    requires |labels| <= |scores|
  {
    if labels == [] then []
    else [Prediction(labels[0], scores[0])] + Pairs(labels[1..], scores[1..])
  }

  lemma {:induction false} PairsAt(labels: seq<string>, scores: seq<real>)
    requires |labels| <= |scores|
    ensures |Pairs(labels, scores)| == |labels|
    ensures forall i :: 0 <= i < |labels| ==> Pairs(labels, scores)[i] == Prediction(labels[i], scores[i])
  {
    if labels != [] {
      PairsAt(labels[1..], scores[1..]);
    }
  }

  /** The tail of CNNClassifier.performRecognition: keep the first
      labelsCount raw outputs (System.arraycopy, which throws when the raw
      output is shorter), pair them with the labels and sort. */
  function Rank(labels: seq<string>, rawOutput: seq<real>): Result<seq<Prediction>>
  {
    if |labels| > |rawOutput| then Err(LabelsExceedOutput)
    else Ok(StableSort(Pairs(labels, rawOutput[..|labels|])))
  }

  /** What CNNClassifier.performRecognition returns for what the engine did. */
  function Recognize(labels: seq<string>, outputSize: nat, output: Attempt): Result<seq<Prediction>>
  {
    match output
    case Threw => Err(EngineFailed)
    case Completed(values) =>
      match Fetch(outputSize, values)
      case Err(e) => Err(e)
      case Ok(rawOutput) => Rank(labels, rawOutput)
  }

  /** Ranking fails exactly when there are more labels than raw outputs;
      otherwise it is one pair per label, sorted by ResultsComparator, a
      permutation of the label/score pairs, ties in label order. */
  lemma RankIsStableSortOfPairs(labels: seq<string>, rawOutput: seq<real>)
    ensures Rank(labels, rawOutput).Err? <==> |labels| > |rawOutput|
    ensures |labels| <= |rawOutput| ==>
      var pairs := Pairs(labels, rawOutput[..|labels|]);
      var ranking := Rank(labels, rawOutput).value;
      && |ranking| == |labels|
      && Sorted(ranking)
      && multiset(ranking) == multiset(pairs)
      && KeepsTieOrder(pairs, ranking)
  {
    if |labels| <= |rawOutput| {
      var pairs := Pairs(labels, rawOutput[..|labels|]);
      StableSortCorrect(pairs);
      PairsAt(labels, rawOutput[..|labels|]);
      assert |multiset(StableSort(pairs))| == |multiset(pairs)|;
    }
  }

  /** Raw outputs past the label count never affect the ranking. */
  lemma RankIgnoresTail(labels: seq<string>, raw1: seq<real>, raw2: seq<real>)
    requires |labels| <= |raw1| && |labels| <= |raw2|
    requires raw1[..|labels|] == raw2[..|labels|]
    ensures Rank(labels, raw1) == Rank(labels, raw2)
  {
  }

  /** The head of a sorted permutation of s carries the highest score of s. */
  lemma HeadIsMaximum(s: seq<Prediction>, r: seq<Prediction>)
    requires |s| > 0 && Sorted(r) && multiset(r) == multiset(s)
    ensures |r| > 0 && r[0] in multiset(s)
    ensures forall i :: 0 <= i < |s| ==> s[i].score <= r[0].score
  {
    assert s[0] in multiset(r);
    forall i | 0 <= i < |s| ensures s[i].score <= r[0].score {
      assert s[i] in multiset(r);
    }
  }

  /** In a stable ranking, the head is the first pair of s with its score. */
  lemma HeadIsFirstOfTies(s: seq<Prediction>, r: seq<Prediction>, k: nat)
    requires |r| > 0 && KeepsTieOrder(s, r)
    requires k < |s| && s[k].score == r[0].score
    requires forall i :: 0 <= i < k ==> s[i].score != r[0].score
    ensures s[k] == r[0]
  {
    var v := r[0].score;
    WithScoreHead(r);
    assert s == s[..k] + s[k..];
    WithScoreAppend(s[..k], s[k..], v);
    WithScoreNone(s[..k], v);
    WithScoreHead(s[k..]);
    assert WithScore(r, v) == WithScore(s, v);
  }

  /** The head of a stable ranking of s is the first pair of s, in the
      order of s, among those with the highest score. */
  lemma HeadIsFirstMaximum(s: seq<Prediction>, r: seq<Prediction>) returns (k: nat)
    requires |s| > 0 && Sorted(r) && multiset(r) == multiset(s) && KeepsTieOrder(s, r)
    ensures k < |s| && |r| > 0 && r[0] == s[k]
    ensures forall i :: 0 <= i < |s| ==> s[i].score <= s[k].score
    ensures forall i :: 0 <= i < k ==> s[i].score < s[k].score
  {
    HeadIsMaximum(s, r);
    var k0 :| 0 <= k0 < |s| && s[k0] == r[0];
    k := FirstWithScore(s, r[0].score, k0);
    HeadIsFirstOfTies(s, r, k);
  }

  /** The smallest index whose pair has score v, given one that has. */
  lemma FirstWithScore(s: seq<Prediction>, v: real, j: nat) returns (k: nat)
    requires j < |s| && s[j].score == v
    ensures k <= j && s[k].score == v
    ensures forall i :: 0 <= i < k ==> s[i].score != v
  {
    k := 0;
    while s[k].score != v
      invariant k <= j
      invariant forall i :: 0 <= i < k ==> s[i].score != v
      decreases j - k
    {
      k := k + 1;
    }
  }

  /** The head of StableSort(s) is the first pair of s among those with the
      highest score. */
  lemma StableSortHead(s: seq<Prediction>) returns (k: nat)
    requires |s| > 0
    ensures k < |s| && |StableSort(s)| > 0 && StableSort(s)[0] == s[k]
    ensures forall i :: 0 <= i < |s| ==> s[i].score <= s[k].score
    ensures forall i :: 0 <= i < k ==> s[i].score < s[k].score
  {
    StableSortCorrect(s);
    k := HeadIsFirstMaximum(s, StableSort(s));
  }

  /** The top prediction is the first label, in label order, among those
      with the highest score. */
  lemma TopIsFirstMaximum(labels: seq<string>, rawOutput: seq<real>)
    requires 0 < |labels| <= |rawOutput|
    ensures var top := Rank(labels, rawOutput).value[0];
      exists k :: 0 <= k < |labels| && top == Prediction(labels[k], rawOutput[k])
        && (forall i :: 0 <= i < |labels| ==> rawOutput[i] <= rawOutput[k])
        && (forall i :: 0 <= i < k ==> rawOutput[i] < rawOutput[k])
  {
    var scores := rawOutput[..|labels|];
    var pairs := Pairs(labels, scores);
    PairsAt(labels, scores);
    var k := StableSortHead(pairs);
    assert Rank(labels, rawOutput).value[0] == pairs[k];
    assert pairs[k] == Prediction(labels[k], rawOutput[k]);
    assert forall i :: 0 <= i < |labels| ==> pairs[i].score == rawOutput[i];
  }

  /** The stability example: scores [0.5, 0.5, 0.9] for labels [A, B, C]
      rank as C, A, B; scores equal to the label indices rank in reverse. */
  lemma RankExamples()
    ensures Rank(["A", "B", "C"], [0.5, 0.5, 0.9])
      == Ok([Prediction("C", 0.9), Prediction("A", 0.5), Prediction("B", 0.5)])
    ensures Rank(["A", "B", "C"], [0.0, 1.0, 2.0])
      == Ok([Prediction("C", 2.0), Prediction("B", 1.0), Prediction("A", 0.0)])
  {
    var a, b, c := Prediction("A", 0.5), Prediction("B", 0.5), Prediction("C", 0.9);
    var p := Pairs(["A", "B", "C"], [0.5, 0.5, 0.9]);
    PairsAt(["A", "B", "C"], [0.5, 0.5, 0.9]);
    assert p == [a, b, c] && p[..2] == [a, b] && [a, b][..1] == [a];
    assert StableSort([a]) == Insert(a, []) == [a];
    assert Insert(b, [a]) == [a] + Insert(b, []) == [a, b];
    assert Insert(c, [a, b]) == [c, a, b];
    assert [0.5, 0.5, 0.9][..3] == [0.5, 0.5, 0.9];
    assert StableSort(p) == Insert(c, StableSort([a, b]));
    var a2, b2, c2 := Prediction("A", 0.0), Prediction("B", 1.0), Prediction("C", 2.0);
    var q := Pairs(["A", "B", "C"], [0.0, 1.0, 2.0]);
    PairsAt(["A", "B", "C"], [0.0, 1.0, 2.0]);
    assert q == [a2, b2, c2] && q[..2] == [a2, b2] && [a2, b2][..1] == [a2];
    assert StableSort([a2]) == Insert(a2, []) == [a2];
    assert Insert(b2, [a2]) == [b2, a2];
    assert Insert(c2, [b2, a2]) == [c2, b2, a2];
    assert [0.0, 1.0, 2.0][..3] == [0.0, 1.0, 2.0];
    assert StableSort(q) == Insert(c2, StableSort([a2, b2]));
  }

  /** The classifier: its configuration, labels and output size, fixed at
      construction; the input buffer every recognition overwrites; and the
      crop of the last frame. */
  class CNNClassifier {
    const networkName: string
    const inputLayer: string
    const outputLayer: string
    const inputSize: nat
    const inputDim: nat
    const meanArray: array<real>
    const networkPath: string
    const labelsPath: string
    const threshold: real
    const outputSize: nat
    const labels: seq<string>
    const labelsCount: nat
    const floatArray: array<real>
    var croppedRoi: Rect

    ghost predicate Valid()
    {
      && floatArray.Length == BufferLength(inputSize, inputDim)
      && labelsCount == |labels|
      && meanArray != floatArray
    }

    /** The constructor after the JSON descriptor has been parsed, the graph's
        output width read and the labels loaded: copies the mean in order and
        sizes the zero-filled input buffer for one inputSize x inputSize x inputDim image. */
    constructor (config: NetworkConfig, graphOutputSize: nat, labelsVector: seq<string>)
      ensures Valid() && fresh(meanArray) && fresh(floatArray)
      ensures networkName == config.name && inputLayer == config.inputLayer
      ensures outputLayer == config.outputLayer && networkPath == config.networkPath
      ensures labelsPath == config.labelsPath && threshold == config.threshold
      ensures inputSize == config.inputSize && inputDim == config.inputDim
      ensures meanArray[..] == config.mean
      ensures outputSize == graphOutputSize && labels == labelsVector
      ensures floatArray.Length == config.inputSize * config.inputSize * config.inputDim
      ensures forall i :: 0 <= i < floatArray.Length ==> floatArray[i] == 0.0
    {
      networkName := config.name;
      inputLayer := config.inputLayer;
      outputLayer := config.outputLayer;
      inputSize := config.inputSize;
      inputDim := config.inputDim;
      networkPath := config.networkPath;
      labelsPath := config.labelsPath;
      threshold := config.threshold;
      var mean := new real[|config.mean|];
      for i := 0 to |config.mean|
        invariant mean[..i] == config.mean[..i]
      {
        mean[i] := config.mean[i];
      }
      meanArray := mean;
      outputSize := graphOutputSize;
      labels := labelsVector;
      labelsCount := |labelsVector|;
      floatArray := new real[config.inputSize * config.inputSize * config.inputDim](_ => 0.0);
      croppedRoi := Rect(0, 0, 0, 0);
    }

    /** getThreshold */
    function GetThreshold(): real
    {
      threshold
    }

    /** What the OpenCV pipeline makes of the frame's centred square. */
    function Preprocessed(inputMat: Frame, pipeline: Pipeline): Attempt
      reads meanArray
    {
      pipeline(inputMat, GetRoi(inputMat.width, inputMat.height), meanArray[..])
    }

    /** The input buffer after preProcess, given its contents before: the
        pipeline's values written over its front, or unchanged when the
        pipeline threw before Mat.get. */
    function BufferAfter(buffer: seq<real>, inputMat: Frame, pipeline: Pipeline): seq<real>
      reads meanArray
    {
      match Preprocessed(inputMat, pipeline)
      case Threw => buffer
      case Completed(values) => Overwrite(buffer, values)
    }

    /** What performRecognition returns for the frame when the input buffer
        held buffer before the call. */
    function ResultFor(buffer: seq<real>, cameraMat: Frame, pipeline: Pipeline, engine: Engine)
      : Result<seq<Prediction>>
      reads meanArray
    {
      if Preprocessed(cameraMat, pipeline).Threw? then Err(PipelineFailed)
      else Recognize(labels, outputSize,
        engine(inputLayer, BufferAfter(buffer, cameraMat, pipeline), FeedShape(inputSize, inputDim), outputLayer))
    }

    /** A recognition depends on the buffer's old contents only through the
        tail the pipeline does not write, and leaves that tail as it was: so
        a second recognition of the same frame, by the same pipeline and
        engine, returns what the first one did. */
    lemma RepeatedRecognitionAgrees(buffer: seq<real>, cameraMat: Frame, pipeline: Pipeline, engine: Engine)
      ensures BufferAfter(BufferAfter(buffer, cameraMat, pipeline), cameraMat, pipeline)
        == BufferAfter(buffer, cameraMat, pipeline)
      ensures ResultFor(BufferAfter(buffer, cameraMat, pipeline), cameraMat, pipeline, engine)
        == ResultFor(buffer, cameraMat, pipeline, engine)
    {
      if Preprocessed(cameraMat, pipeline).Completed? {
        OverwriteIdempotent(buffer, Preprocessed(cameraMat, pipeline).values);
      }
    }

    /** preProcess: crops to the centred square of getROI and lets the OpenCV
        pipeline write the float values into the input buffer. Returns the
        crop rectangle, or the pipeline's exception with the buffer
        untouched. */
    method PreProcess(inputMat: Frame, pipeline: Pipeline) returns (cropped: Result<Rect>)
      requires Valid()
      modifies floatArray
      ensures cropped.Ok? <==> Preprocessed(inputMat, pipeline).Completed?
      ensures cropped.Ok? ==> cropped.value == GetRoi(inputMat.width, inputMat.height)
      ensures cropped.Err? ==> cropped.error == PipelineFailed
      ensures floatArray[..] == BufferAfter(old(floatArray[..]), inputMat, pipeline)
    {
      var cropRect := GetRoi(inputMat.width, inputMat.height);
      var attempt := pipeline(inputMat, cropRect, meanArray[..]);
      if attempt.Threw? {
        return Err(PipelineFailed);
      }
      var values := attempt.values;
      var n := Min(|values|, floatArray.Length);
      forall i | 0 <= i < n {
        floatArray[i] := values[i];
      }
      assert meanArray[..] == old(meanArray[..]);
      assert forall i :: 0 <= i < floatArray.Length ==>
        floatArray[..][i] == Overwrite(old(floatArray[..]), values)[i];
      cropped := Ok(cropRect);
    }

    /** getResults: one pair per label, in label order, each label with the
        score at its index. */
    method GetResults(accuracy: array<real>) returns (resultVector: seq<Prediction>)
      requires |labels| <= accuracy.Length
      ensures |resultVector| == |labels|
      ensures forall i :: 0 <= i < |labels| ==> resultVector[i] == Prediction(labels[i], accuracy[i])
    {
      resultVector := [];
      var index := 0;
      while index < |labels|
        invariant 0 <= index <= |labels|
        invariant |resultVector| == index
        invariant forall i :: 0 <= i < index ==> resultVector[i] == Prediction(labels[i], accuracy[i])
      {
        resultVector := resultVector + [Prediction(labels[index], accuracy[index])];
        index := index + 1;
      }
    }

    /** fetch into a fresh float[outputSize]: the engine's values in front,
        Java's zeros behind. */
    method FetchOutput(output: seq<real>) returns (rawOutput: array<real>)
      requires |output| <= outputSize
      ensures fresh(rawOutput)
      ensures Fetch(outputSize, output) == Ok(rawOutput[..])
    {
      rawOutput := new real[outputSize](_ => 0.0);
      forall i | 0 <= i < |output| {
        rawOutput[i] := output[i];
      }
      assert rawOutput[..] == output + seq(outputSize - |output|, _ => 0.0);
    }

    /** The tail of performRecognition: System.arraycopy of the first
        labelsCount raw outputs, getResults, and Collections.sort. */
    method RankOutput(rawOutput: array<real>) returns (results: Result<seq<Prediction>>)
      requires Valid()
      ensures results == Rank(labels, rawOutput[..])
    {
      var actualOutput := new real[labelsCount](_ => 0.0);
      if labelsCount > rawOutput.Length {
        return Err(LabelsExceedOutput);
      }
      forall i | 0 <= i < labelsCount {
        actualOutput[i] := rawOutput[i];
      }
      assert actualOutput[..] == rawOutput[..labelsCount];
      var resultVector := GetResults(actualOutput);
      PairsAt(labels, rawOutput[..labelsCount]);
      assert resultVector == Pairs(labels, rawOutput[..labelsCount]);
      var sorted := new Prediction[|resultVector|](i requires 0 <= i < |resultVector| => resultVector[i]);
      assert sorted[..] == resultVector;
      SortInPlace(sorted);
      results := Ok(sorted[..]);
    }

    /** performRecognition: preprocess the frame into the input buffer, run
        the engine on it, fetch its output into a fresh buffer of outputSize
        floats, then rank the first labelsCount of them. */
    method PerformRecognition(cameraMat: Frame, pipeline: Pipeline, engine: Engine)
      returns (results: Result<seq<Prediction>>)
      requires Valid()
      modifies this, floatArray
      ensures Valid()
      ensures croppedRoi == if Preprocessed(cameraMat, pipeline).Threw? then old(croppedRoi)
                            else GetRoi(cameraMat.width, cameraMat.height)
      ensures floatArray[..] == BufferAfter(old(floatArray[..]), cameraMat, pipeline)
      ensures results == ResultFor(old(floatArray[..]), cameraMat, pipeline, engine)
    {
      var cropped := PreProcess(cameraMat, pipeline);
      if cropped.Err? {
        return Err(cropped.error);
      }
      croppedRoi := cropped.value;
      var output := engine(inputLayer, floatArray[..], FeedShape(inputSize, inputDim), outputLayer);
      if output.Threw? {
        return Err(EngineFailed);
      }
      if |output.values| > outputSize {
        return Err(EngineOutputOverflow);
      }
      var rawOutput := FetchOutput(output.values);
      results := RankOutput(rawOutput);
    }

    /** Two recognitions of the same frame in a row, by the same pipeline and
        engine, return the same result. */
    method RecognizeTwice(cameraMat: Frame, pipeline: Pipeline, engine: Engine)
      returns (first: Result<seq<Prediction>>, second: Result<seq<Prediction>>)
      requires Valid()
      modifies this, floatArray
      ensures Valid()
      ensures first == second
    {
      ghost var buffer := floatArray[..];
      first := PerformRecognition(cameraMat, pipeline, engine);
      second := PerformRecognition(cameraMat, pipeline, engine);
      RepeatedRecognitionAgrees(buffer, cameraMat, pipeline, engine);
    }
  }
}
