/** The PyTorch dataset of the fine-tuning script: a table of annotated
    segments (file name, common name), a label column added by encoding the
    common names, and item access that completes the file name, picks the
    call-type folder from a marker in the name, loads the recording and
    returns it with the raw common name. Audio decoding is a parameter. */
module Finetune {
  import opened Wrappers
  import opened Text

  /** One row of the annotation table: its first two columns. */
  datatype Row = Row(fileName: string, commonName: string)

  datatype Failure =
    | IndexError                   // `iloc` past the last row
    | UnknownFileType(name: string)  // no call-type marker in the file name

  // ----- File names -----

  /** `.mp3` appended unless the name already ends with it. */
  function Normalise(fileName: string): (r: string)
    ensures EndsWith(r, ".mp3")
    ensures EndsWith(fileName, ".mp3") ==> r == fileName
    ensures !EndsWith(fileName, ".mp3") ==> r == fileName + ".mp3"
  {
    if EndsWith(fileName, ".mp3") then fileName
    else
      assert (fileName + ".mp3")[|fileName|..] == ".mp3";
      fileName + ".mp3"
  }

  /** Completing a name twice is completing it once. */
  lemma NormaliseIdempotent(fileName: string)
    ensures Normalise(Normalise(fileName)) == Normalise(fileName)
  {
  }

  /** The call-type folders, in the order the markers are checked. */
  const Folders: seq<string> := ["alarmcall", "call", "beggingcall", "song"]

  function Marker(folder: string): string {
    "_" + folder + "_"
  }

  /** The folder of the first marker found, testing `_alarmcall_`, then
      `_call_`, `_beggingcall_` and `_song_`. */
  function Route(fileName: string): Result<string, Failure> {
    if Contains(fileName, "_alarmcall_") then Ok("alarmcall")
    else if Contains(fileName, "_call_") then Ok("call")
    else if Contains(fileName, "_beggingcall_") then Ok("beggingcall")
    else if Contains(fileName, "_song_") then Ok("song")
    else Err(UnknownFileType(fileName))
  }

  /** A name is routed exactly when it holds one of the four markers, and
      then to the folder of the first marker in priority order that it
      holds; otherwise `ValueError` names it. */
  lemma RouteFirstMatch(fileName: string)
    ensures Route(fileName).Ok? <==> exists j :: 0 <= j < |Folders| && Contains(fileName, Marker(Folders[j]))
    ensures Route(fileName).Ok? ==> exists j :: (0 <= j < |Folders| && Route(fileName).value == Folders[j] &&
      Contains(fileName, Marker(Folders[j])) && forall i :: 0 <= i < j ==> !Contains(fileName, Marker(Folders[i])))
    ensures Route(fileName).Err? ==> Route(fileName).error == UnknownFileType(fileName)
  {
    assert Marker(Folders[0]) == "_alarmcall_";
    assert Marker(Folders[1]) == "_call_";
    assert Marker(Folders[2]) == "_beggingcall_";
    assert Marker(Folders[3]) == "_song_";
  }

  /** `os.path.normpath(os.path.join(f'{audio_dir}/{folder}', name))` */
  function AudioPath(audioDir: string, folder: string, fileName: string): string {
    NormPath(Join(audioDir + "/" + folder, fileName))
  }

  /** The recording is looked up inside the routed folder: after
      normalisation the path is the normalised audio directory, the folder
      and the completed name, so the name of the directory of the path is
      the folder. */
  lemma AudioPathFolder(audioDir: string, folder: string, fileName: string)
    requires folder in Folders && '/' !in fileName && EndsWith(fileName, ".mp3")
    ensures var lead := LeadingSlashes(audioDir + "/" + folder + "/" + fileName);
      var xs := NormParts(SplitSlash(audioDir), lead != "");
      AudioPath(audioDir, folder, fileName) ==
        lead + ((if xs == [] then folder else JoinSlash(xs) + "/" + folder) + "/" + fileName)
    ensures ParentName(AudioPath(audioDir, folder, fileName)) == folder
  {
    AudioPathJoined(audioDir, folder, fileName);
    NormPathTail(audioDir, folder, fileName);
    NormPathParent(audioDir, folder, fileName);
  }

  /** The folder and the completed name are plain parts, so the join puts
      one `/` between them. */
  lemma AudioPathJoined(audioDir: string, folder: string, fileName: string)
    requires folder in Folders && '/' !in fileName && EndsWith(fileName, ".mp3")
    ensures PlainPart(folder) && PlainPart(fileName)
    ensures AudioPath(audioDir, folder, fileName) == NormPath(audioDir + "/" + folder + "/" + fileName)
  {
    assert PlainPart(folder);
    assert PlainPart(fileName) by { assert |fileName| >= 4; }
    var d := audioDir + "/" + folder;
    assert d[|d| - 1] == folder[|folder| - 1];
    JoinNameShape(d, fileName);
  }

  // ----- Label encoding -----

  predicate NamesAscending(cs: seq<string>) {
    forall i, j :: 0 <= i < j < |cs| ==> StrLess(cs[i], cs[j])
  }

  /** `x` added to an ascending list of names, unless already there. */
  function InsertName(x: string, cs: seq<string>): (r: seq<string>)
    requires NamesAscending(cs)
    ensures NamesAscending(r)
    ensures forall y :: y in r <==> y in cs || y == x
  {
    if cs == [] then [x]
    else if x == cs[0] then cs
    else if StrLess(x, cs[0]) then
      assert forall j :: 0 < j < |cs| ==> StrLess(x, cs[j]) by {
        forall j | 0 < j < |cs| ensures StrLess(x, cs[j]) {
          StrLessTransitive(x, cs[0], cs[j]);
        }
      }
      [x] + cs
    else
      StrLessTotal(x, cs[0]);
      var tail := InsertName(x, cs[1..]);
      assert forall y :: y in tail ==> StrLess(cs[0], y) by {
        forall y | y in tail ensures StrLess(cs[0], y) {
          if y != x {
            var j :| 0 <= j < |cs[1..]| && cs[1..][j] == y;
            assert cs[1..][j] == cs[j + 1];
          }
        }
      }
      [cs[0]] + tail
  }

  /** `label_encoder.classes_`: the distinct names, sorted. */
  function Classes(names: seq<string>): (cs: seq<string>)
    ensures NamesAscending(cs)
    ensures forall y :: y in cs <==> y in names
  {
    if names == [] then []
    else
      var n := |names| - 1;
      assert names == names[..n] + [names[n]];
      InsertName(names[n], Classes(names[..n]))
  }

  /** The position of `x` in a list that holds it. */
  function Position(cs: seq<string>, x: string): (i: nat)
    requires x in cs
    ensures i < |cs| && cs[i] == x
  {
    if cs[0] == x then 0 else 1 + Position(cs[1..], x)
  }

  /** `fit_transform(names)`: each name replaced by its rank among the
      distinct names. */
  function EncodeLabels(names: seq<string>): (codes: seq<nat>)
    ensures |codes| == |names|
  {
    var cs := Classes(names);
    seq(|names|, i requires 0 <= i < |names| => Position(cs, names[i]))
  }

  /** Each code is the rank of its name among the distinct sorted names:
      in range, equal exactly for equal names, and ordered as the names. */
  lemma EncodeLabelsRanks(names: seq<string>, i: nat, j: nat)
    requires i < |names| && j < |names|
    ensures EncodeLabels(names)[i] < |Classes(names)|
    ensures Classes(names)[EncodeLabels(names)[i]] == names[i]
    ensures EncodeLabels(names)[i] == EncodeLabels(names)[j] <==> names[i] == names[j]
    ensures EncodeLabels(names)[i] < EncodeLabels(names)[j] <==> StrLess(names[i], names[j])
  {
    var cs := Classes(names);
    var a, b := EncodeLabels(names)[i], EncodeLabels(names)[j];
    assert cs[a] == names[i] && cs[b] == names[j];
    if a < b {
      assert StrLess(names[i], names[j]);
    } else if b < a {
      assert StrLess(names[j], names[i]);
      StrLessTransitiveIrreflexive(names[j], names[i]);
    } else {
      StrLessIrreflexive(names[i]);
    }
  }

  lemma StrLessTransitiveIrreflexive(a: string, b: string)
    requires StrLess(a, b)
    ensures !StrLess(b, a) && a != b
  {
    StrLessIrreflexive(a);
    if StrLess(b, a) {
      StrLessTransitive(a, b, a);
    }
  }

  // ----- The dataset -----

  class BirdSegmentDataset {
    /** The rows of the annotation table. */
    var annotations: seq<Row>
    /** The `label` column `__init__` adds. */
    var labels: seq<nat>
    var audioDir: string
    var transform: Option<seq<real> -> seq<real>>

    /** `__init__`: the table and the encoded common names. */
    constructor (rows: seq<Row>, audioDir: string, transform: Option<seq<real> -> seq<real>>)
      ensures annotations == rows && this.audioDir == audioDir && this.transform == transform
      ensures labels == EncodeLabels(CommonNames(rows))
    {
      annotations := rows;
      this.audioDir := audioDir;
      this.transform := transform;
      labels := EncodeLabels(CommonNames(rows));
    }

    /** `__len__`: one item per annotation row. */
    function Len(): (n: nat)
      reads this
      ensures n == |annotations|
    {
      |annotations|
    }

    /** `__getitem__(idx)`: the recording of row `idx`, loaded from the
        folder its name routes to and transformed when a transform was
        given, with the row's raw common name (not its encoded label). */
    function GetItem(idx: nat, load: string -> seq<real>): (r: Result<(seq<real>, string), Failure>)
      reads this
    {
      if idx >= |annotations| then Err(IndexError)
      else
        var fileName := Normalise(annotations[idx].fileName);
        var folder := Route(fileName);
        if folder.Err? then Err(folder.error)
        else
          var waveform := load(AudioPath(audioDir, folder.value, fileName));
          var out := if transform.Some? then transform.value(waveform) else waveform;
          Ok((out, annotations[idx].commonName))
    }

    /** Items exist for the indices below `Len()`; an item is the
        recording at the routed path of the completed name, transformed
        exactly when a transform was given, paired with the raw common
        name; a name without a marker raises `ValueError`. */
    lemma GetItemResult(idx: nat, load: string -> seq<real>)
      ensures idx >= Len() ==> GetItem(idx, load) == Err(IndexError)
      ensures idx < Len() ==>
        var fileName := Normalise(annotations[idx].fileName);
        (GetItem(idx, load).Ok? <==> Route(fileName).Ok?) &&
        (GetItem(idx, load).Err? ==> GetItem(idx, load).error == UnknownFileType(fileName)) &&
        (GetItem(idx, load).Ok? ==>
          var path := AudioPath(audioDir, Route(fileName).value, fileName);
          GetItem(idx, load).value.1 == annotations[idx].commonName &&
          GetItem(idx, load).value.0 == (if transform.Some? then transform.value(load(path)) else load(path)) &&
          EndsWith(fileName, ".mp3") && Route(fileName).value in Folders)
    {
      if idx < Len() {
        RouteFirstMatch(Normalise(annotations[idx].fileName));
      }
    }
  }

  /** The `Common Name` column. */
  function CommonNames(rows: seq<Row>): (names: seq<string>)
    ensures |names| == |rows| && forall i :: 0 <= i < |rows| ==> names[i] == rows[i].commonName
  {
    seq(|rows|, i requires 0 <= i < |rows| => rows[i].commonName)
  }
}
