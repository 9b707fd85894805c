/** VehicleRecognition, the activity: the flags that admit one recognition
    at a time, the response to a recognition, and the frame drawn on the
    preview. */
module Activity {
  import opened Failures
  import opened Ranking
  import opened Classifier
  import opened Decision

  /** mObjDetect, mIsBusy and whether the detect button is enabled. */
  datatype Flags = Flags(objDetect: bool, isBusy: bool, detectEnabled: bool)

  /** The flags when the activity starts: no request, nothing running, the
      button enabled. */
  const InitialFlags := Flags(false, false, true)

  /** The detect button's click listener. */
  function DetectClicked(f: Flags): Flags
  {
    f.(objDetect := true, detectEnabled := false)
  }

  /** The admission test of onCameraFrame; the second component says whether
      a recognition thread is started. */
  function FrameArrived(f: Flags): (Flags, bool)
  {
    if f.objDetect && !f.isBusy then (f.(isBusy := true), true) else (f, false)
  }

  /** The end of performRecognition: both flags are cleared; only the success
      path posts the re-enabling of the button. */
  function RecognitionEnded(f: Flags, succeeded: bool): Flags
  {
    f.(isBusy := false, objDetect := false, detectEnabled := succeeded || f.detectEnabled)
  }

  /** The flags' invariant: a running recognition was requested, and a
      pending request has disabled the button. */
  predicate Consistent(f: Flags)
  {
    (f.isBusy ==> f.objDetect) && (f.objDetect ==> !f.detectEnabled)
  }

  /** The events that reach the flags. A disabled button delivers no click,
      and only a running recognition can end. */
  datatype Event = DetectClick | CameraFrame | RecognitionDone(succeeded: bool)

  function Step(f: Flags, e: Event): (Flags, bool)
  {
    match e
    case DetectClick => (if f.detectEnabled then DetectClicked(f) else f, false)
    case CameraFrame => FrameArrived(f)
    case RecognitionDone(ok) => (if f.isBusy then RecognitionEnded(f, ok) else f, false)
  }

  /** The flags after a sequence of events. */
  function Run(f: Flags, events: seq<Event>): Flags
    decreases |events|
  {
    if events == [] then f else Run(Step(f, events[0]).0, events[1..])
  }

  /** How many recognitions a sequence of events starts. */
  function Starts(f: Flags, events: seq<Event>): nat
    decreases |events|
  {
    if events == [] then 0
    else (if Step(f, events[0]).1 then 1 else 0) + Starts(Step(f, events[0]).0, events[1..])
  }

  /** How many running recognitions a sequence of events ends. */
  function Ends(f: Flags, events: seq<Event>): nat
    decreases |events|
  {
    if events == [] then 0
    else (if events[0].RecognitionDone? && f.isBusy then 1 else 0) + Ends(Step(f, events[0]).0, events[1..])
  }

  function Running(f: Flags): nat
  {
    if f.isBusy then 1 else 0
  }

  /** A recognition starts exactly when one was requested and none is
      running, and starting it marks the activity busy. */
  lemma AdmissionRule(f: Flags)
    ensures FrameArrived(f).1 <==> f.objDetect && !f.isBusy
    ensures FrameArrived(f).1 ==> FrameArrived(f).0.isBusy
    ensures FrameArrived(f).0.objDetect == f.objDetect
  {
  }

  /** Every event keeps the flags consistent. */
  lemma {:induction false} RunKeepsConsistent(f: Flags, events: seq<Event>)
    requires Consistent(f)
    ensures Consistent(Run(f, events))
    decreases |events|
  {
    if events != [] {
      RunKeepsConsistent(Step(f, events[0]).0, events[1..]);
    }
  }

  /** At most one recognition is in flight: every start is matched by an end,
      except the one still running. */
  lemma {:induction false} OneRecognitionInFlight(f: Flags, events: seq<Event>)
    ensures Running(f) + Starts(f, events) == Ends(f, events) + Running(Run(f, events))
    decreases |events|
  {
    if events != [] {
      OneRecognitionInFlight(Step(f, events[0]).0, events[1..]);
    }
  }

  /** After a failed recognition no sequence of events starts another: the
      flags are cleared but the button stays disabled, and no other event
      enables it. */
  lemma {:induction false} FailureLocksDetection(f: Flags, events: seq<Event>)
    requires Consistent(f) && f.isBusy
    ensures Starts(RecognitionEnded(f, false), events) == 0
    ensures Run(RecognitionEnded(f, false), events) == RecognitionEnded(f, false)
  {
    var locked := RecognitionEnded(f, false);
    assert locked == Flags(false, false, false);
    if events != [] {
      assert Step(locked, events[0]) == (locked, false);
      FailureLocksDetection(f, events[1..]);
    }
  }

  /** After a successful recognition a click and a frame start the next one. */
  lemma SuccessAllowsNextDetection(f: Flags)
    ensures Starts(RecognitionEnded(f, true), [DetectClick, CameraFrame]) == 1
  {
    var g := RecognitionEnded(f, true);
    assert [DetectClick, CameraFrame][1..] == [CameraFrame];
    assert Step(g, DetectClick).0 == Flags(true, false, false);
  }

  /** What text-to-speech is asked to say. */
  datatype Utterance = VoiceOnNotice | LabelSpoken(name: string)

  /** The toast posted after a recognition. */
  datatype Toast = Shown(outcome: Outcome) | NetworkError

  /** The activity's response to the classifier's result. */
  datatype Response = Response(toast: Toast, speech: seq<Utterance>, saves: seq<Prediction>, succeeded: bool)

  /** performRecognition of the activity after the classifier returned
      predict: an exception (from the classifier or from elementAt(0) on an
      empty ranking) gives the network-error toast; otherwise the top
      prediction is decided on, spoken and saved as the settings allow. */
  function ResponseTo(predict: Result<seq<Prediction>>, threshValue: real, enableVoice: bool,
                   speechReady: bool, enableSave: bool, dirExists: bool): Response
  {
    if predict.Err? || predict.value == [] then Response(NetworkError, [], [], false)
    else
      var topOne := predict.value[0];
      var outcome := Decide(topOne, threshValue);
      var effects := AfterOutcome(outcome, enableVoice, speechReady, enableSave, dirExists);
      Response(Shown(outcome),
               if effects.speak then [LabelSpoken(topOne.name)] else [],
               if effects.save then [topOne] else [],
               true)
  }

  /** The label is spoken exactly when the top score clears the threshold,
      voice is on and text-to-speech exists; the frame is saved exactly when
      it clears the threshold, saving is on and the folder exists. */
  lemma ResponseEffects(ranking: seq<Prediction>, threshValue: real, enableVoice: bool,
                       speechReady: bool, enableSave: bool, dirExists: bool)
    requires ranking != []
    ensures var r := ResponseTo(Ok(ranking), threshValue, enableVoice, speechReady, enableSave, dirExists);
      && r.succeeded
      && r.toast == Shown(Decide(ranking[0], threshValue))
      && (r.speech != [] <==> ranking[0].score > threshValue && enableVoice && speechReady)
      && (r.saves != [] <==> ranking[0].score > threshValue && enableSave && dirExists)
      && (r.speech != [] ==> r.speech == [LabelSpoken(ranking[0].name)])
      && (r.saves != [] ==> r.saves == [ranking[0]])
  {
  }

  /** With no labels the ranking is empty and the activity takes its error
      path, as for any failure of the classifier. */
  lemma NoLabelsIsNetworkError(outputSize: nat, output: Attempt, threshValue: real, enableVoice: bool,
                               speechReady: bool, enableSave: bool, dirExists: bool)
    ensures ResponseTo(Recognize([], outputSize, output), threshValue, enableVoice, speechReady, enableSave, dirExists)
      == Response(NetworkError, [], [], false)
  {
  }

  /** The activity's state: the flags, the settings, the frame handed to the
      recognition thread, and what it has spoken, saved and shown. */
  class RecognitionActivity {
    const classifier: CNNClassifier
    var objDetect: bool
    var isBusy: bool
    var detectEnabled: bool
    var enableVoice: bool
    var enableSave: bool
    const dirExists: bool
    const speechReady: bool
    var cameraMat: Frame
    var spoken: seq<Utterance>
    var saved: seq<Prediction>
    var toasts: seq<Toast>
    const frameMargin: int := 10

    function CurrentFlags(): Flags
      reads this
    {
      Flags(objDetect, isBusy, detectEnabled)
    }

    ghost predicate Valid()
      reads this
    {
      classifier.Valid() && Consistent(CurrentFlags())
    }

    /** onCreate, after the classifier was built, the save folder looked up
        and text-to-speech created (or not). */
    constructor (classifier: CNNClassifier, dirExists: bool, speechReady: bool)
      requires classifier.Valid()
      ensures Valid() && CurrentFlags() == InitialFlags
      ensures this.classifier == classifier && this.dirExists == dirExists && this.speechReady == speechReady
      ensures enableVoice && !enableSave
      ensures spoken == [] && saved == [] && toasts == []
    {
      this.classifier := classifier;
      objDetect, isBusy, detectEnabled := false, false, true;
      enableVoice, enableSave := true, false;
      this.dirExists := dirExists;
      this.speechReady := speechReady;
      cameraMat := Frame(0, 0, []);
      spoken, saved, toasts := [], [], [];
    }

    /** The detect button's click listener. */
    method OnDetectClick()
      requires Valid()
      modifies this`objDetect, this`detectEnabled
      ensures Valid() && CurrentFlags() == DetectClicked(old(CurrentFlags()))
    {
      objDetect := true;
      detectEnabled := false;
    }

    /** The save button's click listener: toggles saving. */
    method OnSaveClick()
      modifies this`enableSave
      ensures enableSave == !old(enableSave)
    {
      enableSave := !enableSave;
    }

    /** The voice toggle's listener: announces "voice on" when switched on and
        text-to-speech exists. */
    method OnVoiceChanged(isChecked: bool)
      modifies this`enableVoice, this`spoken
      ensures enableVoice == isChecked
      ensures spoken == old(spoken) + if isChecked && speechReady then [VoiceOnNotice] else []
    {
      if isChecked && speechReady {
        spoken := spoken + [VoiceOnNotice];
      }
      enableVoice := isChecked;
    }

    /** drawFrame's rectangle: the crop of getROI moved down by the margin and
        shortened by twice the margin, so the corners are drawn inside the
        crop, centred on it. */
    method DrawFrame(inputMat: Frame) returns (roiRect: Rect)
      ensures var roi := GetRoi(inputMat.width, inputMat.height);
        && roiRect.x == roi.x && roiRect.width == roi.width
        && roiRect.y == roi.y + frameMargin
        && roiRect.y + roiRect.height == roi.y + roi.height - frameMargin
    {
      roiRect := GetRoi(inputMat.width, inputMat.height);
      roiRect := roiRect.(y := roiRect.y + frameMargin);
      roiRect := roiRect.(height := roiRect.height - frameMargin * 2);
    }

    /** onCameraFrame: admits a recognition of a copy of the frame when one
        was requested and none is running, then draws the frame's corners. */
    method OnCameraFrame(canvas: Frame) returns (started: bool, roiRect: Rect)
      requires Valid()
      modifies this`isBusy, this`cameraMat
      ensures Valid()
      ensures (CurrentFlags(), started) == FrameArrived(old(CurrentFlags()))
      ensures cameraMat == if started then canvas else old(cameraMat)
      ensures var roi := GetRoi(canvas.width, canvas.height);
        && roiRect.x == roi.x && roiRect.width == roi.width
        && roiRect.y == roi.y + frameMargin
        && roiRect.y + roiRect.height == roi.y + roi.height - frameMargin
    {
      started := false;
      if objDetect && !isBusy {
        cameraMat := canvas;
        isBusy := true;
        started := true;
      }
      roiRect := DrawFrame(canvas);
    }

    /** The reaction to the classifier's result, and the flags cleared. */
    method Respond(predict: Result<seq<Prediction>>, threshValue: real)
      requires Valid()
      modifies this`objDetect, this`isBusy, this`detectEnabled, this`spoken, this`saved, this`toasts
      ensures Valid()
      ensures var r := ResponseTo(predict, threshValue, enableVoice, speechReady, enableSave, dirExists);
        && toasts == old(toasts) + [r.toast]
        && spoken == old(spoken) + r.speech
        && saved == old(saved) + r.saves
        && CurrentFlags() == RecognitionEnded(old(CurrentFlags()), r.succeeded)
    {
      if predict.Err? || predict.value == [] {
        toasts := toasts + [NetworkError];
        isBusy := false;
        objDetect := false;
        return;
      }
      var topOne := predict.value[0];
      var outcome := Decide(topOne, threshValue);
      if !outcome.NothingFound? {
        if enableVoice && speechReady {
          spoken := spoken + [LabelSpoken(topOne.name)];
        }
        if enableSave && dirExists {
          saved := saved + [topOne];
        }
      }
      toasts := toasts + [Shown(outcome)];
      detectEnabled := true;
      isBusy := false;
      objDetect := false;
    }

    /** performRecognition of the activity, run by the recognition thread on
        the copied frame: classify, respond, clear the flags. */
    method PerformRecognition(pipeline: Pipeline, engine: Engine)
      requires Valid()
      modifies this`objDetect, this`isBusy, this`detectEnabled, this`spoken, this`saved, this`toasts
      modifies classifier, classifier.floatArray
      ensures Valid()
      ensures classifier.croppedRoi == if classifier.Preprocessed(cameraMat, pipeline).Threw?
        then old(classifier.croppedRoi) else GetRoi(cameraMat.width, cameraMat.height)
      ensures classifier.floatArray[..] == classifier.BufferAfter(old(classifier.floatArray[..]), cameraMat, pipeline)
      ensures var predict := classifier.ResultFor(old(classifier.floatArray[..]), cameraMat, pipeline, engine);
        var r := ResponseTo(predict, classifier.threshold, enableVoice, speechReady, enableSave, dirExists);
        && toasts == old(toasts) + [r.toast]
        && spoken == old(spoken) + r.speech
        && saved == old(saved) + r.saves
        && CurrentFlags() == RecognitionEnded(old(CurrentFlags()), r.succeeded)
    {
      var predict := classifier.PerformRecognition(cameraMat, pipeline, engine);
      var threshValue := classifier.GetThreshold();
      Respond(predict, threshValue);
    }
  }

  /** The corners drawn by drawFrame stay inside the crop and keep its centre
      whenever the crop is at least twice the margin tall. */
  lemma DrawnFrameInsideRoi(width: nat, height: nat, frameMargin: int, roiRect: Rect)
    requires frameMargin >= 0
    requires var roi := GetRoi(width, height);
      && roiRect.x == roi.x && roiRect.width == roi.width
      && roiRect.y == roi.y + frameMargin
      && roiRect.y + roiRect.height == roi.y + roi.height - frameMargin
    requires 2 * frameMargin <= Min(width, height) - 1
    ensures 0 <= roiRect.y && roiRect.y + roiRect.height <= height
    ensures 0 <= roiRect.height
    ensures 2 * roiRect.y + roiRect.height == 2 * GetRoi(width, height).y + GetRoi(width, height).height
  {
    RoiInsideFrame(width, height);
    RoiIsEvenSquare(width, height);
  }
}
