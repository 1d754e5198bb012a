/** The evaluation scripts: each reads the list of test files, derives the
    true class of every file from the name of the directory that holds it,
    takes the class of the highest score the network gives as the
    prediction, and prints the predictions and the mistakes; the four-class
    script also holds a hand-written Cohen's kappa over the confusion
    matrix. The network, its loading and the metrics library are not
    modelled: the scores of a recording are a parameter. */
module Evaluation {
  import opened Wrappers
  import opened Text
  import Training

  /** `CLASS_NAMES` of both flight-call scripts. */
  const FlightClasses: seq<string> := ["alarmcall", "call", "flightcall", "song"]

  /** What the four scripts differ in: the class list, whether every
      prediction is printed or only the mistakes, and whether a failure to
      load the network is caught and logged. */
  datatype Script = Script(names: seq<string>, listsEvery: bool, catchesLoadFailure: bool)

  /** Testing/prediction3classes.py */
  const ThreeClassScript := Script(Training.ThreeClasses, false, false)
  /** Testing/prediction.py */
  const FourClassScript := Script(Training.FourClasses, true, false)
  /** Testing/predictionFlightCall.py */
  const FlightCallScript := Script(FlightClasses, true, false)
  /** predictionFlightCall.py at the top of the repository */
  const GuardedFlightCallScript := Script(FlightClasses, true, true)

  datatype Failure =
    | ValueError(missing: string)   // `CLASS_NAMES.index` of a name not in the list
    | LoadError                     // `load_model` raised and nothing caught it
    | NameError(unbound: string)    // `model` used after a caught load failure
    | ReportMismatch(classes: nat)  // `classification_report`: label count differs from `target_names`
    | IndexError(index: nat, printed: seq<Line>)  // `CLASS_NAMES[i]` past the end, after `printed`

  // ----- True labels -----

  /** Python's `names.index(x)`: the first position of `x`, or nothing. */
  function IndexOf(names: seq<string>, x: string): (r: Option<nat>)
    ensures r.Some? <==> x in names
    ensures r.Some? ==> r.value < |names| && names[r.value] == x
    ensures r.Some? ==> forall j :: 0 <= j < r.value ==> names[j] != x
  {
    if names == [] then None
    else if names[0] == x then Some(0)
    else
      var rest := IndexOf(names[1..], x);
      if rest.None? then None else Some(rest.value + 1)
  }

  /** The class index of each directory name, or `ValueError` for the first
      name that is not a class. */
  function LabelsOf(names: seq<string>, dirs: seq<string>): (r: Result<seq<nat>, Failure>)
    ensures r.Ok? <==> forall i :: 0 <= i < |dirs| ==> dirs[i] in names
    ensures r.Ok? ==> |r.value| == |dirs|
    ensures r.Ok? ==> forall i :: 0 <= i < |dirs| ==> IndexOf(names, dirs[i]) == Some(r.value[i])
    ensures r.Err? ==> exists k :: (0 <= k < |dirs| && r.error == ValueError(dirs[k]) &&
      dirs[k] !in names && forall i :: 0 <= i < k ==> dirs[i] in names)
  {
    if dirs == [] then Ok([])
    else
      var n := |dirs| - 1;
      var init := LabelsOf(names, dirs[..n]);
      assert forall i :: 0 <= i < n ==> dirs[..n][i] == dirs[i];
      if init.Err? then
        init
      else
        var i := IndexOf(names, dirs[n]);
        if i.None? then Err(ValueError(dirs[n])) else Ok(init.value + [i.value])
  }

  /** `y_true`: for each path, the position in `names` of the name of its
      directory; the comprehension stops with `ValueError` at the first path
      whose directory name is not a class. */
  function TrueLabels(names: seq<string>, paths: seq<string>): (r: Result<seq<nat>, Failure>)
    ensures r.Ok? <==> forall i :: 0 <= i < |paths| ==> ParentName(paths[i]) in names
    ensures r.Ok? ==> |r.value| == |paths|
    ensures r.Ok? ==> forall i :: 0 <= i < |paths| ==> IndexOf(names, ParentName(paths[i])) == Some(r.value[i])
    ensures r.Ok? ==> InRange(r.value, |names|)
    ensures r.Err? ==> exists k :: (0 <= k < |paths| && r.error == ValueError(ParentName(paths[k])) &&
      ParentName(paths[k]) !in names && forall i :: 0 <= i < k ==> ParentName(paths[i]) in names)
  {
    LabelsOf(names, ParentNames(paths))
  }

  /** `os.path.basename(os.path.dirname(p))` of every path. */
  function ParentNames(paths: seq<string>): (dirs: seq<string>)
    ensures |dirs| == |paths| && forall i :: 0 <= i < |paths| ==> dirs[i] == ParentName(paths[i])
  {
    seq(|paths|, i requires 0 <= i < |paths| => ParentName(paths[i]))
  }

  /** A file listed by the training data preparation gets back the class
      index it was trained under: its directory is the class directory, and
      the class names are distinct, non-empty and free of slashes. */
  lemma TrainingPathsKeepTheirLabels(birdDir: string, names: seq<string>, kind: Training.DictKind,
                                     balanced: bool, listdir: string -> Option<seq<string>>,
                                     shuffle: (nat, seq<string>) -> seq<string>)
    requires Training.Shuffles(shuffle)
    requires forall i :: 0 <= i < |names| ==> names[i] != [] && '/' !in names[i]
    requires forall a, b :: 0 <= a < b < |names| ==> names[a] != names[b]
    requires forall d, f :: listdir(d).Some? && f in listdir(d).value ==> '/' !in f
    requires Training.PrepareData(birdDir, names, kind, balanced, listdir, shuffle).Ok?
    ensures var (paths, labels) := Training.PrepareData(birdDir, names, kind, balanced, listdir, shuffle).value;
      TrueLabels(names, paths) == Ok(labels)
  {
    var (paths, labels) := Training.PrepareData(birdDir, names, kind, balanced, listdir, shuffle).value;
    Training.PrepareDataAligned(birdDir, names, kind, balanced, listdir, shuffle);
    forall i | 0 <= i < |paths| ensures ParentName(paths[i]) == names[labels[i]] {
      var dir := Join(birdDir, names[labels[i]]);
      var f :| f in listdir(dir).value && EndsWith(f, ".wav") && paths[i] == Join(dir, f);
      ParentNameOfJoin(birdDir, names[labels[i]], f);
    }
    var r := TrueLabels(names, paths);
    assert r.Ok? by {
      forall i | 0 <= i < |paths| ensures ParentName(paths[i]) in names {
        assert names[labels[i]] in names;
      }
    }
    assert r.value == labels by {
      forall i | 0 <= i < |paths| ensures r.value[i] == labels[i] {
        Training.LabelIndexOfDistinct(names, labels[i]);
      }
    }
  }

  // ----- Predicted classes -----

  /** `np.argmax(row)`: the index of the first highest score. */
  function ArgMax(row: seq<real>): (i: nat)
    requires row != []
    ensures i < |row|
    ensures forall j :: 0 <= j < |row| ==> row[j] <= row[i]
    ensures forall j :: 0 <= j < i ==> row[j] < row[i]
  {
    if |row| == 1 then 0
    else
      var m := ArgMax(row[..|row| - 1]);
      if row[m] < row[|row| - 1] then |row| - 1 else m
  }

  /** The first highest score is the only index that is at least every
      score and above every earlier one. */
  lemma ArgMaxUnique(row: seq<real>, i: nat)
    requires i < |row|
    requires forall j :: 0 <= j < |row| ==> row[j] <= row[i]
    requires forall j :: 0 <= j < i ==> row[j] < row[i]
    ensures ArgMax(row) == i
  {
  }

  /** `np.argmax(y_pred, axis=1)` */
  function Predictions(scores: seq<seq<real>>): (r: seq<nat>)
    requires forall i :: 0 <= i < |scores| ==> scores[i] != []
    ensures |r| == |scores| && forall i :: 0 <= i < |scores| ==> r[i] == ArgMax(scores[i])
  {
    seq(|scores|, i requires 0 <= i < |scores| && scores[i] != [] => ArgMax(scores[i]))
  }

  /** `np.argmax(model.predict(X), axis=1)` for a network whose every output
      row is `predict` of the input. */
  function PredictedClasses(inputs: seq<seq<real>>, predict: seq<real> -> seq<real>): (r: seq<nat>)
    requires forall x :: predict(x) != []
    ensures |r| == |inputs| && forall i :: 0 <= i < |inputs| ==> r[i] == ArgMax(predict(inputs[i]))
  {
    Predictions(seq(|inputs|, i requires 0 <= i < |inputs| => predict(inputs[i])))
  }

  /** `unique_labels(y_true, y_pred)`, which `classification_report` checks
      against `target_names`. */
  function SeenLabels(truth: seq<nat>, pred: seq<nat>): set<nat> {
    set x | x in truth + pred
  }

  /** The position of the first entry that is at least `m`, or `|s|`. */
  function FirstOutOfRange(s: seq<nat>, m: nat): (k: nat)
    ensures k <= |s| && forall i :: 0 <= i < k ==> s[i] < m
    ensures k < |s| ==> s[k] >= m
  {
    if s == [] || s[0] >= m then 0 else 1 + FirstOutOfRange(s[1..], m)
  }

  // ----- The printed listing -----

  datatype Line =
    | Predicted(predicted: string, truth: string, file: string)   // "Vorhergesagter Wert: …"
    | Mistake(file: string, predicted: string, truth: string)     // "❌ Fehler bei Datei: …"

  /** The lines the loop prints for the `i`-th file. */
  function LinesFor(names: seq<string>, listsEvery: bool, paths: seq<string>,
                    truth: seq<nat>, pred: seq<nat>, i: nat): seq<Line>
    requires i < |paths| && i < |truth| && i < |pred| && truth[i] < |names| && pred[i] < |names|
  {
    (if listsEvery then [Predicted(names[pred[i]], names[truth[i]], paths[i])] else [])
    + (if pred[i] != truth[i] then [Mistake(paths[i], names[pred[i]], names[truth[i]])] else [])
  }

  predicate InRange(s: seq<nat>, k: nat) {
    forall i :: 0 <= i < |s| ==> s[i] < k
  }

  /** What `for i in range(len(y_pred_classes))` prints for the first `n`
      files. */
  function Listing(names: seq<string>, listsEvery: bool, paths: seq<string>,
                   truth: seq<nat>, pred: seq<nat>, n: nat): seq<Line>
    requires n <= |paths| && n <= |truth| && n <= |pred|
    requires forall i :: 0 <= i < n ==> truth[i] < |names| && pred[i] < |names|
  {
    if n == 0 then []
    else Listing(names, listsEvery, paths, truth, pred, n - 1) + LinesFor(names, listsEvery, paths, truth, pred, n - 1)
  }

  /** How many of the first `n` predictions differ from the truth. */
  function Mismatches(truth: seq<nat>, pred: seq<nat>, n: nat): nat
    requires n <= |truth| && n <= |pred|
  {
    if n == 0 then 0 else Mismatches(truth, pred, n - 1) + (if pred[n - 1] != truth[n - 1] then 1 else 0)
  }

  lemma ListingStep(names: seq<string>, listsEvery: bool, paths: seq<string>,
                    truth: seq<nat>, pred: seq<nat>, n: nat)
    requires 0 < n <= |paths| && n <= |truth| && n <= |pred|
    requires InRange(truth, |names|) && InRange(pred, |names|)
    ensures forall l :: l in Listing(names, listsEvery, paths, truth, pred, n) <==>
      l in Listing(names, listsEvery, paths, truth, pred, n - 1) || l in LinesFor(names, listsEvery, paths, truth, pred, n - 1)
  {
  }

  /** The listing is one line per file when every prediction is printed,
      plus one line per mistake. */
  lemma {:induction false} ListingLength(names: seq<string>, listsEvery: bool, paths: seq<string>,
                                         truth: seq<nat>, pred: seq<nat>, n: nat)
    requires n <= |paths| && n <= |truth| && n <= |pred|
    requires InRange(truth, |names|) && InRange(pred, |names|)
    ensures |Listing(names, listsEvery, paths, truth, pred, n)| == (if listsEvery then n else 0) + Mismatches(truth, pred, n)
  {
    if n > 0 {
      ListingLength(names, listsEvery, paths, truth, pred, n - 1);
    }
  }

  /** Every misclassified file gets its mistake line, naming the predicted
      and the true class. */
  lemma {:induction false} MistakesListed(names: seq<string>, listsEvery: bool, paths: seq<string>,
                                          truth: seq<nat>, pred: seq<nat>, n: nat)
    requires n <= |paths| && n <= |truth| && n <= |pred|
    requires InRange(truth, |names|) && InRange(pred, |names|)
    ensures forall i :: 0 <= i < n && pred[i] != truth[i] ==>
      Mistake(paths[i], names[pred[i]], names[truth[i]]) in Listing(names, listsEvery, paths, truth, pred, n)
  {
    if n > 0 {
      MistakesListed(names, listsEvery, paths, truth, pred, n - 1);
      ListingStep(names, listsEvery, paths, truth, pred, n);
    }
  }

  /** Every mistake line belongs to a misclassified file. */
  lemma {:induction false} OnlyMistakesListed(names: seq<string>, listsEvery: bool, paths: seq<string>,
                                              truth: seq<nat>, pred: seq<nat>, n: nat)
    requires n <= |paths| && n <= |truth| && n <= |pred|
    requires InRange(truth, |names|) && InRange(pred, |names|)
    ensures forall l :: l in Listing(names, listsEvery, paths, truth, pred, n) && l.Mistake? ==>
      exists i :: 0 <= i < n && pred[i] != truth[i] && l == Mistake(paths[i], names[pred[i]], names[truth[i]])
  {
    if n > 0 {
      OnlyMistakesListed(names, listsEvery, paths, truth, pred, n - 1);
      ListingStep(names, listsEvery, paths, truth, pred, n);
    }
  }

  /** When every prediction is printed, each file has its prediction line;
      otherwise no prediction line is printed at all. */
  lemma {:induction false} PredictionsListed(names: seq<string>, listsEvery: bool, paths: seq<string>,
                                             truth: seq<nat>, pred: seq<nat>, n: nat)
    requires n <= |paths| && n <= |truth| && n <= |pred|
    requires InRange(truth, |names|) && InRange(pred, |names|)
    ensures listsEvery ==> forall i :: 0 <= i < n ==>
      Predicted(names[pred[i]], names[truth[i]], paths[i]) in Listing(names, listsEvery, paths, truth, pred, n)
    ensures !listsEvery ==> forall l :: l in Listing(names, listsEvery, paths, truth, pred, n) ==> l.Mistake?
  {
    if n > 0 {
      PredictionsListed(names, listsEvery, paths, truth, pred, n - 1);
      ListingStep(names, listsEvery, paths, truth, pred, n);
    }
  }

  // ----- The whole script -----

  /** What a script computes before its metrics: the stripped test paths,
      the padded or cut recordings, the true and predicted classes and the
      printed lines. */
  datatype Outcome = Outcome(paths: seq<string>, inputs: seq<seq<real>>, truth: seq<nat>,
                             pred: seq<nat>, lines: seq<Line>)

  /** `[line.strip() for line in f.readlines()]` */
  function StripAll(lines: seq<string>): (r: seq<string>)
    ensures |r| == |lines| && forall i :: 0 <= i < |lines| ==> r[i] == Strip(lines[i])
  {
    seq(|lines|, i requires 0 <= i < |lines| => Strip(lines[i]))
  }

  /** `[load_audio(path) for path in val_paths]`, with `decode` standing for
      `librosa.load`. */
  function Inputs(paths: seq<string>, decode: string -> seq<real>): (r: seq<seq<real>>)
    ensures |r| == |paths|
    ensures forall i :: 0 <= i < |paths| ==>
      r[i] == Training.LoadAudio(decode(paths[i]), Training.Samples) && |r[i]| == Training.Samples
  {
    seq(|paths|, i requires 0 <= i < |paths| => Training.LoadAudio(decode(paths[i]), Training.Samples))
  }

  /** One run of `script` on the lines of the test-file list; `decode`
      stands for `librosa.load`, `loaded` says whether `load_model`
      succeeded, and `predict` gives the network's `width` scores for one
      recording. The width is that of the network's last layer, which need
      not be the number of class names: the three-class script loads a
      network built with four outputs. The classification report fails
      unless the labels seen among the true and predicted classes are as
      many as the class names; the listing then fails at the first
      prediction that is not a position in the class list. */
  function Evaluate(script: Script, fileLines: seq<string>, decode: string -> seq<real>,
                    loaded: bool, width: nat, predict: seq<real> -> seq<real>): (r: Result<Outcome, Failure>)
    requires width > 0 && forall x :: |predict(x)| == width
    ensures r.Ok? ==> |r.value.paths| == |r.value.inputs| == |r.value.truth| == |r.value.pred| == |fileLines|
    ensures r.Ok? ==> InRange(r.value.truth, |script.names|) && InRange(r.value.pred, |script.names|)
    ensures r.Ok? ==> |SeenLabels(r.value.truth, r.value.pred)| == |script.names|
    ensures r.Err? && r.error.IndexError? ==> |script.names| <= r.error.index < width
  {
    var paths := StripAll(fileLines);
    var inputs := Inputs(paths, decode);
    var truth := TrueLabels(script.names, paths);
    if truth.Err? then Err(truth.error)
    else if !loaded then
      if script.catchesLoadFailure then Err(NameError("model")) else Err(LoadError)
    else
      Finish(script, paths, inputs, truth.value, PredictedClasses(inputs, predict))
  }

  /** The report and the listing, once the true and predicted classes are
      known. */
  function Finish(script: Script, paths: seq<string>, inputs: seq<seq<real>>,
                  truth: seq<nat>, pred: seq<nat>): (r: Result<Outcome, Failure>)
    requires |paths| == |inputs| == |truth| == |pred| && InRange(truth, |script.names|)
    ensures r.Ok? ==> r.value.paths == paths && r.value.inputs == inputs && r.value.truth == truth && r.value.pred == pred
    ensures r.Ok? ==> InRange(pred, |script.names|) && |SeenLabels(truth, pred)| == |script.names|
    ensures r.Err? ==> r.error.ReportMismatch? || r.error.IndexError?
    ensures r.Err? && r.error.IndexError? ==> r.error.index in pred && r.error.index >= |script.names|
  {
    var seen := |SeenLabels(truth, pred)|;
    if seen != |script.names| then Err(ReportMismatch(seen))
    else
      var k := FirstOutOfRange(pred, |script.names|);
      if k < |pred| then
        Err(IndexError(pred[k], Listing(script.names, script.listsEvery, paths, truth, pred, k)))
      else
        Ok(Outcome(paths, inputs, truth, pred, Listing(script.names, script.listsEvery, paths, truth, pred, |paths|)))
  }

  /** How `Finish` ends: in the classification report exactly when the
      labels seen are not as many as the class names, otherwise with
      `IndexError` exactly when some prediction is past the end of the
      class list, at the first such file and after the lines of the files
      before it. */
  lemma FinishEnds(script: Script, paths: seq<string>, inputs: seq<seq<real>>, truth: seq<nat>, pred: seq<nat>)
    requires |paths| == |inputs| == |truth| == |pred| && InRange(truth, |script.names|)
    ensures var r := Finish(script, paths, inputs, truth, pred);
      var names := script.names;
      var seen := SeenLabels(truth, pred);
      (r.Err? && r.error.ReportMismatch? <==> |seen| != |names|) &&
      (r.Err? && r.error.ReportMismatch? ==> r.error.classes == |seen|) &&
      (r.Err? && r.error.IndexError? <==> |seen| == |names| && !InRange(pred, |names|)) &&
      (r.Err? && r.error.IndexError? ==>
        exists k :: (0 <= k < |pred| && pred[k] >= |names| &&
          (forall i :: 0 <= i < k ==> pred[i] < |names|) &&
          r.error == IndexError(pred[k], Listing(names, script.listsEvery, paths, truth, pred, k)))) &&
      (r.Ok? <==> |seen| == |names| && InRange(pred, |names|))
  {
    var k := FirstOutOfRange(pred, |script.names|);
    if k < |pred| {
      assert !InRange(pred, |script.names|);
    }
  }

  /** A run fails with `ValueError` exactly when some test file lies in a
      directory that is not a class; otherwise a failed load stops it, with
      a `NameError` in the script that catches and logs the load failure,
      and a run whose network loaded ends as `EvaluateAfterLoad` says. */
  lemma EvaluateFailures(script: Script, fileLines: seq<string>, decode: string -> seq<real>,
                         loaded: bool, width: nat, predict: seq<real> -> seq<real>)
    requires width > 0 && forall x :: |predict(x)| == width
    ensures var r := Evaluate(script, fileLines, decode, loaded, width, predict);
      var names := script.names;
      ((exists i :: 0 <= i < |fileLines| && ParentName(Strip(fileLines[i])) !in names) <==> r.Err? && r.error.ValueError?) &&
      ((forall i :: 0 <= i < |fileLines| ==> ParentName(Strip(fileLines[i])) in names) ==>
        (!loaded ==> r == Err(if script.catchesLoadFailure then NameError("model") else LoadError)) &&
        (loaded ==> r.Ok? || r.error.ReportMismatch? || r.error.IndexError?))
  {
    var paths := StripAll(fileLines);
    var truth := TrueLabels(script.names, paths);
    if truth.Ok? {
      forall i | 0 <= i < |fileLines| ensures ParentName(Strip(fileLines[i])) in script.names {
        assert paths[i] == Strip(fileLines[i]);
      }
    } else {
      var k :| 0 <= k < |paths| && ParentName(paths[k]) !in script.names;
      assert paths[k] == Strip(fileLines[k]);
    }
  }

  /** Once the true labels exist and the network has loaded, the run is
      `Finish` of the predicted classes, so it ends as `FinishEnds` says; a
      network with no more outputs than there are class names never causes
      an `IndexError`. */
  lemma EvaluateAfterLoad(script: Script, fileLines: seq<string>, decode: string -> seq<real>,
                          width: nat, predict: seq<real> -> seq<real>)
    requires width > 0 && forall x :: |predict(x)| == width
    requires TrueLabels(script.names, StripAll(fileLines)).Ok?
    ensures var paths := StripAll(fileLines);
      var inputs := Inputs(paths, decode);
      Evaluate(script, fileLines, decode, true, width, predict)
        == Finish(script, paths, inputs, TrueLabels(script.names, paths).value, PredictedClasses(inputs, predict))
    ensures width <= |script.names| ==>
      var r := Evaluate(script, fileLines, decode, true, width, predict);
      !(r.Err? && r.error.IndexError?)
  {
    var paths := StripAll(fileLines);
    var pred := PredictedClasses(Inputs(paths, decode), predict);
    assert forall i :: 0 <= i < |pred| ==> pred[i] < width;
  }

  /** A successful run feeds every file in as exactly `SAMPLES` samples,
      labels it with the position of its directory's name among the
      classes, and predicts the first highest score. */
  lemma EvaluateOutcome(script: Script, fileLines: seq<string>, decode: string -> seq<real>,
                        loaded: bool, width: nat, predict: seq<real> -> seq<real>)
    requires width > 0 && forall x :: |predict(x)| == width
    ensures var r := Evaluate(script, fileLines, decode, loaded, width, predict);
      r.Ok? ==> forall i :: 0 <= i < |fileLines| ==>
        r.value.paths[i] == Strip(fileLines[i]) &&
        |r.value.inputs[i]| == Training.Samples &&
        r.value.inputs[i] == Training.LoadAudio(decode(r.value.paths[i]), Training.Samples) &&
        IndexOf(script.names, ParentName(r.value.paths[i])) == Some(r.value.truth[i]) &&
        r.value.pred[i] == ArgMax(predict(r.value.inputs[i]))
  {
  }

  /** A successful run prints a mistake line exactly for the misclassified
      files, and a prediction line for every file in the scripts that list
      them all. */
  lemma EvaluateListing(script: Script, fileLines: seq<string>, decode: string -> seq<real>,
                        loaded: bool, width: nat, predict: seq<real> -> seq<real>)
    requires width > 0 && forall x :: |predict(x)| == width
    ensures var r := Evaluate(script, fileLines, decode, loaded, width, predict);
      r.Ok? ==> ListingShows(script.names, script.listsEvery, r.value.paths, r.value.truth, r.value.pred,
                             |fileLines|, r.value.lines)
  {
    var r := Evaluate(script, fileLines, decode, loaded, width, predict);
    if r.Ok? {
      var o := r.value;
      EvaluateLines(script, fileLines, decode, loaded, width, predict);
      ListingFacts(script.names, script.listsEvery, o.paths, o.truth, o.pred, |fileLines|, o.lines);
    }
  }

  /** The lines of a successful run are the listing of all its files. */
  lemma EvaluateLines(script: Script, fileLines: seq<string>, decode: string -> seq<real>,
                      loaded: bool, width: nat, predict: seq<real> -> seq<real>)
    requires width > 0 && forall x :: |predict(x)| == width
    requires Evaluate(script, fileLines, decode, loaded, width, predict).Ok?
    ensures var o := Evaluate(script, fileLines, decode, loaded, width, predict).value;
      o.lines == Listing(script.names, script.listsEvery, o.paths, o.truth, o.pred, |fileLines|)
  {
  }

  /** The printed `lines` of `n` files hold a mistake line exactly for each
      misclassified file, a prediction line for every file when the script
      lists them all (and nothing else otherwise), and no more lines than
      these. */
  predicate ListingShows(names: seq<string>, listsEvery: bool, paths: seq<string>,
                         truth: seq<nat>, pred: seq<nat>, n: nat, lines: seq<Line>) {
    n <= |paths| && n <= |truth| && n <= |pred| && InRange(truth, |names|) && InRange(pred, |names|) &&
    (forall i :: 0 <= i < n && pred[i] != truth[i] ==>
      Mistake(paths[i], names[pred[i]], names[truth[i]]) in lines) &&
    (forall l :: l in lines && l.Mistake? ==>
      exists i :: 0 <= i < n && pred[i] != truth[i] && l == Mistake(paths[i], names[pred[i]], names[truth[i]])) &&
    (listsEvery ==> forall i :: 0 <= i < n ==> Predicted(names[pred[i]], names[truth[i]], paths[i]) in lines) &&
    (!listsEvery ==> forall l :: l in lines ==> l.Mistake?) &&
    |lines| == (if listsEvery then n else 0) + Mismatches(truth, pred, n)
  }

  /** The four listing lemmas together, for the printed `lines`. */
  lemma ListingFacts(names: seq<string>, listsEvery: bool, paths: seq<string>,
                     truth: seq<nat>, pred: seq<nat>, n: nat, lines: seq<Line>)
    requires n <= |paths| && n <= |truth| && n <= |pred|
    requires InRange(truth, |names|) && InRange(pred, |names|)
    requires lines == Listing(names, listsEvery, paths, truth, pred, n)
    ensures ListingShows(names, listsEvery, paths, truth, pred, n, lines)
  {
    ListingLength(names, listsEvery, paths, truth, pred, n);
    MistakesListed(names, listsEvery, paths, truth, pred, n);
    OnlyMistakesListed(names, listsEvery, paths, truth, pred, n);
    PredictionsListed(names, listsEvery, paths, truth, pred, n);
  }

  // ----- Cohen's kappa of the four-class script -----
  // `cohens_kappa` as `Testing/prediction.py` defines it. That script never
  // calls it, since the call is commented out. The three-class script prints
  // scikit-learn's `cohen_kappa_score` instead, which is not modelled here.

  function Sum(s: seq<nat>): nat {
    if s == [] then 0 else Sum(s[..|s| - 1]) + s[|s| - 1]
  }

  /** Adding one to an entry adds one to the sum. */
  lemma {:induction false} SumInc(s: seq<nat>, j: nat)
    requires j < |s|
    ensures Sum(s[j := s[j] + 1]) == Sum(s) + 1
  {
    var n := |s| - 1;
    var s' := s[j := s[j] + 1];
    if j < n {
      assert s'[..n] == s[..n][j := s[j] + 1];
      SumInc(s[..n], j);
    } else {
      assert s'[..n] == s[..n];
    }
  }

  /** A `k` by `k` matrix of counts. */
  predicate Square(cm: seq<seq<nat>>, k: nat) {
    |cm| == k && forall a :: 0 <= a < k ==> |cm[a]| == k
  }

  /** The matrix with one more sample of true class `x` predicted as `y`. */
  function Inc(cm: seq<seq<nat>>, k: nat, x: nat, y: nat): (r: seq<seq<nat>>)
    requires Square(cm, k) && x < k && y < k
    ensures Square(r, k)
  {
    cm[x := cm[x][y := cm[x][y] + 1]]
  }

  /** `confusion_matrix(y_true, y_pred)` over the classes `0..k-1`: entry
      `[a][b]` counts the samples of true class `a` predicted as `b`. */
  function Confusion(truth: seq<nat>, pred: seq<nat>, k: nat): (cm: seq<seq<nat>>)
    requires |truth| == |pred| && InRange(truth, k) && InRange(pred, k)
    ensures Square(cm, k)
  {
    if truth == [] then seq(k, a => seq(k, b => 0))
    else
      var n := |truth| - 1;
      Inc(Confusion(truth[..n], pred[..n], k), k, truth[n], pred[n])
  }

  /** `np.sum(cm)` over the first `a` rows. */
  function Total(cm: seq<seq<nat>>, a: nat): nat
    requires a <= |cm|
  {
    if a == 0 then 0 else Total(cm, a - 1) + Sum(cm[a - 1])
  }

  /** `np.trace(cm)` over the first `a` rows. */
  function Trace(cm: seq<seq<nat>>, k: nat, a: nat): nat
    requires Square(cm, k) && a <= k
  {
    if a == 0 then 0 else Trace(cm, k, a - 1) + cm[a - 1][a - 1]
  }

  /** Column `b` of `np.sum(cm, axis=0)` over the first `a` rows. */
  function ColSum(cm: seq<seq<nat>>, k: nat, b: nat, a: nat): nat
    requires Square(cm, k) && b < k && a <= k
  {
    if a == 0 then 0 else ColSum(cm, k, b, a - 1) + cm[a - 1][b]
  }

  /** `np.sum(np.sum(cm, axis=0) * np.sum(cm, axis=1))` over the first `c`
      classes. */
  function ProductSum(cm: seq<seq<nat>>, k: nat, c: nat): nat
    requires Square(cm, k) && c <= k
  {
    if c == 0 then 0 else ProductSum(cm, k, c - 1) + ColSum(cm, k, c - 1, k) * Sum(cm[c - 1])
  }

  /** `cohens_kappa`: `(p0 - pe) / (1 - pe)` with `p0` the share of the
      diagonal and `pe` the sum of column-by-row products over the squared
      total; nothing when numpy's division would give no finite number (an
      empty matrix, or `pe == 1`). */
  function Kappa(cm: seq<seq<nat>>, k: nat): Option<real>
    requires Square(cm, k)
  {
    var total := Total(cm, k);
    if total == 0 then None
    else
      var p0 := Trace(cm, k, k) as real / total as real;
      var pe := ProductSum(cm, k, k) as real / (total * total) as real;
      if pe == 1.0 then None else Some((p0 - pe) / (1.0 - pe))
  }

  // The sums after one more sample.

  lemma {:induction false} TotalInc(cm: seq<seq<nat>>, k: nat, x: nat, y: nat, a: nat)
    requires Square(cm, k) && x < k && y < k && a <= k
    ensures Total(Inc(cm, k, x, y), a) == Total(cm, a) + (if x < a then 1 else 0)
  {
    if a > 0 {
      TotalInc(cm, k, x, y, a - 1);
      if x == a - 1 {
        SumInc(cm[x], y);
      }
    }
  }

  lemma {:induction false} TraceInc(cm: seq<seq<nat>>, k: nat, x: nat, y: nat, a: nat)
    requires Square(cm, k) && x < k && y < k && a <= k
    ensures Trace(Inc(cm, k, x, y), k, a) == Trace(cm, k, a) + (if x == y && x < a then 1 else 0)
  {
    if a > 0 {
      TraceInc(cm, k, x, y, a - 1);
    }
  }

  lemma {:induction false} ColSumInc(cm: seq<seq<nat>>, k: nat, x: nat, y: nat, b: nat, a: nat)
    requires Square(cm, k) && x < k && y < k && b < k && a <= k
    ensures ColSum(Inc(cm, k, x, y), k, b, a) == ColSum(cm, k, b, a) + (if b == y && x < a then 1 else 0)
  {
    if a > 0 {
      ColSumInc(cm, k, x, y, b, a - 1);
    }
  }

  lemma {:induction false} ZeroSums(k: nat, a: nat)
    requires a <= k
    ensures var z := seq(k, i => seq(k, j => 0));
      Total(z, a) == 0 && Trace(z, k, a) == 0 && forall b :: 0 <= b < k ==> ColSum(z, k, b, a) == 0
  {
    var z := seq(k, i => seq(k, j => 0));
    if a > 0 {
      ZeroSums(k, a - 1);
      ZeroRowSum(k, k);
      assert z[a - 1] == seq(k, j => 0);
    }
  }

  lemma {:induction false} ZeroRowSum(k: nat, n: nat)
    requires n <= k
    ensures Sum(seq(n, j => 0)) == 0
  {
    if n > 0 {
      assert seq(n, j => 0)[..n - 1] == seq(n - 1, j => 0);
      ZeroRowSum(k, n - 1);
    }
  }

  /** How many predictions equal the truth. */
  function Agreements(truth: seq<nat>, pred: seq<nat>): (r: nat)
    requires |truth| == |pred|
    ensures r <= |truth|
  {
    if truth == [] then 0
    else
      var n := |truth| - 1;
      Agreements(truth[..n], pred[..n]) + (if truth[n] == pred[n] then 1 else 0)
  }

  /** The confusion matrix counts every sample once: its total is the
      number of samples, its diagonal the agreements, row `a` the samples
      of true class `a` and column `b` the predictions of class `b`. */
  lemma {:induction false} ConfusionSums(truth: seq<nat>, pred: seq<nat>, k: nat)
    requires |truth| == |pred| && InRange(truth, k) && InRange(pred, k)
    ensures var cm := Confusion(truth, pred, k);
      Total(cm, k) == |truth| && Trace(cm, k, k) == Agreements(truth, pred) &&
      (forall a :: 0 <= a < k ==> Sum(cm[a]) == Training.CountOf(truth, a)) &&
      (forall b :: 0 <= b < k ==> ColSum(cm, k, b, k) == Training.CountOf(pred, b))
  {
    var cm := Confusion(truth, pred, k);
    if truth == [] {
      ZeroSums(k, k);
      forall a | 0 <= a < k ensures Sum(cm[a]) == 0 {
        ZeroRowSum(k, k);
        assert cm[a] == seq(k, j => 0);
      }
    } else {
      var n := |truth| - 1;
      var before := Confusion(truth[..n], pred[..n], k);
      var x, y := truth[n], pred[n];
      ConfusionSums(truth[..n], pred[..n], k);
      TotalInc(before, k, x, y, k);
      TraceInc(before, k, x, y, k);
      forall a | 0 <= a < k ensures Sum(cm[a]) == Training.CountOf(truth, a) {
        if a == x {
          SumInc(before[x], y);
        }
      }
      forall b | 0 <= b < k ensures ColSum(cm, k, b, k) == Training.CountOf(pred, b) {
        ColSumInc(before, k, x, y, b, k);
      }
    }
  }

  /** The column-by-row products as counts of the two label lists. */
  function CountProducts(truth: seq<nat>, pred: seq<nat>, c: nat): nat {
    if c == 0 then 0
    else CountProducts(truth, pred, c - 1) + Training.CountOf(pred, c - 1) * Training.CountOf(truth, c - 1)
  }

  lemma {:induction false} ProductSumCounts(truth: seq<nat>, pred: seq<nat>, k: nat, c: nat)
    requires |truth| == |pred| && InRange(truth, k) && InRange(pred, k) && c <= k
    ensures ProductSum(Confusion(truth, pred, k), k, c) == CountProducts(truth, pred, c)
  {
    if c > 0 {
      ConfusionSums(truth, pred, k);
      ProductSumCounts(truth, pred, k, c - 1);
    }
  }

  lemma {:induction false} CountOfAtMost(s: seq<nat>, c: nat)
    ensures Training.CountOf(s, c) <= |s|
  {
    if s != [] {
      CountOfAtMost(s[..|s| - 1], c);
    }
  }

  /** The counts of the classes below `c`. */
  function CountsBelow(s: seq<nat>, c: nat): nat {
    if c == 0 then 0 else CountsBelow(s, c - 1) + Training.CountOf(s, c - 1)
  }

  lemma {:induction false} CountsBelowSnoc(s: seq<nat>, v: nat, c: nat)
    ensures CountsBelow(s + [v], c) == CountsBelow(s, c) + (if v < c then 1 else 0)
  {
    if c > 0 {
      CountsBelowSnoc(s, v, c - 1);
      Training.CountOfSnoc(s, v, c - 1);
    }
  }

  /** Labels below `k` are counted once each by the classes below `k`. */
  lemma {:induction false} CountsBelowAll(s: seq<nat>, k: nat)
    requires InRange(s, k)
    ensures CountsBelow(s, k) == |s|
  {
    if s == [] {
      CountsBelowEmpty(k);
    } else {
      var n := |s| - 1;
      assert s == s[..n] + [s[n]];
      CountsBelowAll(s[..n], k);
      CountsBelowSnoc(s[..n], s[n], k);
    }
  }

  lemma {:induction false} CountsBelowEmpty(c: nat)
    ensures CountsBelow([], c) == 0
  {
    if c > 0 {
      CountsBelowEmpty(c - 1);
    }
  }

  lemma {:induction false} CountProductsBound(truth: seq<nat>, pred: seq<nat>, c: nat)
    ensures CountProducts(truth, pred, c) <= CountsBelow(pred, c) * |truth|
  {
    if c > 0 {
      CountProductsBound(truth, pred, c - 1);
      CountOfAtMost(truth, c - 1);
      ProductBoundStep(CountProducts(truth, pred, c - 1), CountsBelow(pred, c - 1),
        Training.CountOf(pred, c - 1), Training.CountOf(truth, c - 1), |truth|);
    }
  }

  /** Adding a class's product keeps the sum within its bound. */
  lemma ProductBoundStep(sum: nat, below: nat, cp: nat, ct: nat, n: nat)
    requires sum <= below * n && ct <= n
    ensures sum + cp * ct <= (below + cp) * n
  {
    MulAtMost(cp, ct, n);
    assert (below + cp) * n == below * n + cp * n;
  }

  lemma MulAtMost(a: nat, b: nat, c: nat)
    requires b <= c
    ensures a * b <= a * c
  {
  }

  lemma DivWithinUnit(a: nat, b: nat)
    requires a <= b && 0 < b
    ensures 0.0 <= a as real / b as real <= 1.0
  {
  }

  /** `p0`, the observed agreement. */
  function P0(truth: seq<nat>, pred: seq<nat>): real
    requires |truth| == |pred| && truth != []
  {
    Agreements(truth, pred) as real / |truth| as real
  }

  /** `pe`, the agreement expected by chance. */
  function Pe(truth: seq<nat>, pred: seq<nat>, k: nat): real
    requires truth != []
  {
    CountProducts(truth, pred, k) as real / (|truth| * |truth|) as real
  }

  /** On the confusion matrix of two label lists, `cohens_kappa` is
      `(p0 - pe) / (1 - pe)` over the observed and the chance agreement, and
      both lie between 0 and 1. */
  lemma KappaOfLabels(truth: seq<nat>, pred: seq<nat>, k: nat)
    requires |truth| == |pred| && InRange(truth, k) && InRange(pred, k)
    ensures truth == [] ==> Kappa(Confusion(truth, pred, k), k) == None
    ensures truth != [] ==>
      0.0 <= P0(truth, pred) <= 1.0 && 0.0 <= Pe(truth, pred, k) <= 1.0 &&
      Kappa(Confusion(truth, pred, k), k) ==
        if Pe(truth, pred, k) == 1.0 then None
        else Some((P0(truth, pred) - Pe(truth, pred, k)) / (1.0 - Pe(truth, pred, k)))
  {
    if truth == [] {
      ConfusionSums(truth, pred, k);
    } else {
      RatiosWithinUnit(truth, pred, k);
      KappaOfConfusion(truth, pred, k);
    }
  }

  /** Both agreement ratios lie between 0 and 1. */
  lemma RatiosWithinUnit(truth: seq<nat>, pred: seq<nat>, k: nat)
    requires |truth| == |pred| && InRange(truth, k) && InRange(pred, k) && truth != []
    ensures 0.0 <= P0(truth, pred) <= 1.0 && 0.0 <= Pe(truth, pred, k) <= 1.0
  {
    var n := |truth|;
    assert CountProducts(truth, pred, k) <= n * n by {
      CountProductsBound(truth, pred, k);
      CountsBelowAll(pred, k);
    }
    DivWithinUnit(CountProducts(truth, pred, k), n * n);
    DivWithinUnit(Agreements(truth, pred), n);
  }

  /** The confusion matrix's kappa, in terms of the label lists' ratios. */
  lemma KappaOfConfusion(truth: seq<nat>, pred: seq<nat>, k: nat)
    requires |truth| == |pred| && InRange(truth, k) && InRange(pred, k) && truth != []
    ensures Kappa(Confusion(truth, pred, k), k) ==
      if Pe(truth, pred, k) == 1.0 then None
      else Some((P0(truth, pred) - Pe(truth, pred, k)) / (1.0 - Pe(truth, pred, k)))
  {
    var cm := Confusion(truth, pred, k);
    ConfusionSums(truth, pred, k);
    ProductSumCounts(truth, pred, k, k);
    KappaOf(cm, k, P0(truth, pred), Pe(truth, pred, k));
  }

  /** `Kappa` of a non-empty matrix, from its two agreement ratios. */
  lemma KappaOf(cm: seq<seq<nat>>, k: nat, p0: real, pe: real)
    requires Square(cm, k) && Total(cm, k) != 0
    requires p0 == Trace(cm, k, k) as real / Total(cm, k) as real
    requires pe == ProductSum(cm, k, k) as real / (Total(cm, k) * Total(cm, k)) as real
    ensures Kappa(cm, k) == if pe == 1.0 then None else Some((p0 - pe) / (1.0 - pe))
  {
  }

  /** All agreements is the same as equal label lists. */
  lemma {:induction false} AgreementsAll(truth: seq<nat>, pred: seq<nat>)
    requires |truth| == |pred|
    ensures Agreements(truth, pred) == |truth| <==> truth == pred
  {
    if truth != [] {
      var n := |truth| - 1;
      AgreementsAll(truth[..n], pred[..n]);
      assert truth == truth[..n] + [truth[n]] && pred == pred[..n] + [pred[n]];
    }
  }

  /** Where defined, kappa is 1 exactly when every prediction is right,
      and never more than 1. */
  lemma KappaOne(truth: seq<nat>, pred: seq<nat>, k: nat)
    requires |truth| == |pred| && InRange(truth, k) && InRange(pred, k)
    requires Kappa(Confusion(truth, pred, k), k).Some?
    ensures Kappa(Confusion(truth, pred, k), k).value <= 1.0
    ensures Kappa(Confusion(truth, pred, k), k).value == 1.0 <==> truth == pred
  {
    KappaOfLabels(truth, pred, k);
    assert truth != [];
    var p0, pe := P0(truth, pred), Pe(truth, pred, k);
    assert Kappa(Confusion(truth, pred, k), k).value == (p0 - pe) / (1.0 - pe);
    KappaRatio(p0, pe);
    assert p0 == 1.0 <==> truth == pred by {
      RatioOne(Agreements(truth, pred), |truth|);
      AgreementsAll(truth, pred);
    }
  }

  lemma KappaRatio(p0: real, pe: real)
    requires 0.0 <= p0 <= 1.0 && 0.0 <= pe < 1.0
    ensures (p0 - pe) / (1.0 - pe) <= 1.0
    ensures (p0 - pe) / (1.0 - pe) == 1.0 <==> p0 == 1.0
  {
    var d := 1.0 - pe;
    assert (p0 - pe) / d * d == p0 - pe;
  }

  lemma RatioOne(a: nat, b: nat)
    requires 0 < b
    ensures a as real / b as real == 1.0 <==> a == b
  {
    assert a as real / b as real * b as real == a as real;
  }

  lemma {:induction false} CountOfConstant(s: seq<nat>, c: nat, d: nat)
    requires forall i :: 0 <= i < |s| ==> s[i] == c
    ensures Training.CountOf(s, d) == if d == c then |s| else 0
  {
    if s != [] {
      CountOfConstant(s[..|s| - 1], c, d);
    }
  }

  lemma {:induction false} CountProductsConstant(truth: seq<nat>, pred: seq<nat>, c: nat, e: nat)
    requires forall i :: 0 <= i < |truth| ==> truth[i] == c
    requires forall i :: 0 <= i < |pred| ==> pred[i] == c
    ensures CountProducts(truth, pred, e) == if c < e then |pred| * |truth| else 0
  {
    if e > 0 {
      CountProductsConstant(truth, pred, c, e - 1);
      CountOfConstant(truth, c, e - 1);
      CountOfConstant(pred, c, e - 1);
    }
  }

  /** When every true and every predicted label is the same class, `pe` is
      1 and kappa has no value (numpy divides by zero). */
  lemma KappaUndefinedForOneClass(truth: seq<nat>, pred: seq<nat>, k: nat, c: nat)
    requires |truth| == |pred| && InRange(truth, k) && InRange(pred, k) && c < k
    requires forall i :: 0 <= i < |truth| ==> truth[i] == c && pred[i] == c
    ensures Kappa(Confusion(truth, pred, k), k) == None
  {
    if truth == [] {
      KappaOfLabels(truth, pred, k);
    } else {
      assert Pe(truth, pred, k) == 1.0 by {
        CountProductsConstant(truth, pred, c, k);
        var n := |truth|;
        assert CountProducts(truth, pred, k) == n * n;
        RatioOne(n * n, n * n);
      }
      KappaOfConfusion(truth, pred, k);
    }
  }
}
