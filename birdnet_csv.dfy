/** The BirdNET bookkeeping script: it reads the species list, names the
    JSON file of detections written next to each MP3, writes `data.csv` with
    one row per JSON file whose most common detected name is the wanted
    species, and removes JSON files. The detector itself is not modelled:
    the detections of each JSON file are an input. */
module BirdNet {
  import opened Wrappers
  import opened Text

  // ----- The species list -----

  /** The lines of `species_list.txt` that are not blank, stripped, in file
      order (the `split('_')` result is never used). */
  function SpeciesList(lines: seq<string>): (list: seq<string>)
    ensures |list| <= |lines|
    ensures forall s :: s in list ==> s != [] && exists line :: line in lines && Strip(line) == s
    ensures forall line :: line in lines && Strip(line) != [] ==> Strip(line) in list
  {
    if lines == [] then []
    else
      var init := lines[..|lines| - 1];
      var rest := SpeciesList(init);
      var line := Strip(lines[|lines| - 1]);
      assert lines == init + [lines[|lines| - 1]];
      assert forall l :: l in lines <==> l in init || l == lines[|lines| - 1];
      if line != [] then rest + [line] else rest
  }

  /** One more line adds its stripped text when that is not blank. */
  lemma SpeciesListSnoc(init: seq<string>, line: string)
    ensures SpeciesList(init + [line]) ==
      if Strip(line) != [] then SpeciesList(init) + [Strip(line)] else SpeciesList(init)
  {
    assert (init + [line])[..|init|] == init;
  }

  lemma SpeciesListPrefix(lines: seq<string>, j: nat)
    requires j < |lines|
    ensures SpeciesList(lines[..j + 1]) ==
      if Strip(lines[j]) != [] then SpeciesList(lines[..j]) + [Strip(lines[j])] else SpeciesList(lines[..j])
  {
    assert lines[..j + 1] == lines[..j] + [lines[j]];
    SpeciesListSnoc(lines[..j], lines[j]);
  }

  method ReadSpeciesList(lines: seq<string>) returns (speciesList: seq<string>)
    ensures speciesList == SpeciesList(lines)
  {
    speciesList := [];
    var j := 0;
    while j < |lines|
      invariant 0 <= j <= |lines|
      invariant speciesList == SpeciesList(lines[..j])
    {
      SpeciesListPrefix(lines, j);
      var line := Strip(lines[j]);
      if line != [] {
        speciesList := speciesList + [line];
      }
      j := j + 1;
    }
    assert lines[..|lines|] == lines;
  }

  /** No entry of the list is blank or starts or ends with white space. */
  lemma SpeciesListStripped(lines: seq<string>)
    ensures forall s :: s in SpeciesList(lines) ==> s != [] && !IsSpace(s[0]) && !IsSpace(s[|s| - 1])
  {
    forall s | s in SpeciesList(lines) ensures s != [] && !IsSpace(s[0]) && !IsSpace(s[|s| - 1]) {
      var line :| line in lines && Strip(line) == s;
    }
  }

  // ----- The JSON files and their names -----

  /** `f"{fileName}_result.json"` for the MP3 `file`. */
  function ResultJsonName(file: string): string {
    SplitExtRoot(file) + "_result.json"
  }

  /** The `FileName` written for a JSON file: its name without `.json`. */
  function CsvFileName(jsonFile: string): string {
    SplitExtRoot(jsonFile)
  }

  /** The name written to the table for a recording's detections is the
      recording's own name without `.mp3`, followed by `_result`. */
  lemma CsvFileNameKeepsSuffix(file: string)
    ensures CsvFileName(ResultJsonName(file)) == SplitExtRoot(file) + "_result"
  {
    var stem := SplitExtRoot(file) + "_result";
    assert ResultJsonName(file) == stem + ".json";
    assert stem[|stem| - 7] == '_';
    SplitExtRootOf(stem, ".json");
  }

  // ----- `Counter(common_name).most_common(1)[0][0]` -----

  /** How often `x` occurs in `names`. */
  function Count(names: seq<string>, x: string): nat {
    if names == [] then 0 else (if names[0] == x then 1 else 0) + Count(names[1..], x)
  }

  /** The scan over the names in order from index `i`, holding the name with
      the highest count seen so far; only a strictly higher count replaces
      it, so ties go to the name met first. */
  function MostCommonFrom(names: seq<string>, i: nat, best: string): string
    requires i <= |names|
    decreases |names| - i
  {
    if i == |names| then best
    else if Count(names, names[i]) > Count(names, best) then MostCommonFrom(names, i + 1, names[i])
    else MostCommonFrom(names, i + 1, best)
  }

  function MostCommon(names: seq<string>): string
    requires names != []
  {
    MostCommonFrom(names, 1, names[0])
  }

  /** The index of the first occurrence of `x`. */
  function FirstIndex(names: seq<string>, x: string): (i: nat)
    requires x in names
    ensures i < |names| && names[i] == x
    ensures forall j :: 0 <= j < i ==> names[j] != x
  {
    if names[0] == x then 0 else 1 + FirstIndex(names[1..], x)
  }

  /** The invariant of the scan: `best` was seen before `i`, no name seen
      before `i` occurs more often, and every name seen before the first
      occurrence of `best` occurs less often. */
  predicate Leading(names: seq<string>, i: nat, best: string)
    requires i <= |names|
  {
    best in names[..i] &&
    (forall j :: 0 <= j < i ==> Count(names, names[j]) <= Count(names, best)) &&
    (forall j :: 0 <= j < FirstIndex(names, best) ==> Count(names, names[j]) < Count(names, best))
  }

  /** One step of the scan keeps the invariant. */
  lemma LeadingStep(names: seq<string>, i: nat, best: string)
    requires 0 < i < |names| && Leading(names, i, best)
    ensures Count(names, names[i]) > Count(names, best) ==> Leading(names, i + 1, names[i])
    ensures Count(names, names[i]) <= Count(names, best) ==> Leading(names, i + 1, best)
  {
    assert names[..i + 1] == names[..i] + [names[i]];
    if Count(names, names[i]) > Count(names, best) {
      assert names[i] !in names[..i];
      assert FirstIndex(names, names[i]) == i;
    }
  }

  lemma {:induction false} MostCommonFromLeads(names: seq<string>, i: nat, best: string)
    requires 0 < i <= |names| && Leading(names, i, best)
    ensures Leading(names, |names|, MostCommonFrom(names, i, best))
    decreases |names| - i
  {
    if i < |names| {
      LeadingStep(names, i, best);
      if Count(names, names[i]) > Count(names, best) {
        MostCommonFromLeads(names, i + 1, names[i]);
      } else {
        MostCommonFromLeads(names, i + 1, best);
      }
    }
  }

  /** `most_common(1)[0][0]` is a detected name, no name is detected more
      often, and every name first detected before it is detected less
      often: ties go to the name met first. */
  lemma MostCommonIsFirstMaximal(names: seq<string>)
    requires names != []
    ensures MostCommon(names) in names
    ensures forall x :: x in names ==> Count(names, x) <= Count(names, MostCommon(names))
    ensures forall j :: 0 <= j < FirstIndex(names, MostCommon(names)) ==>
      Count(names, names[j]) < Count(names, MostCommon(names))
  {
    assert names[..1] == [names[0]];
    assert FirstIndex(names, names[0]) == 0;
    MostCommonFromLeads(names, 1, names[0]);
    assert names[..|names|] == names;
    forall x | x in names ensures Count(names, x) <= Count(names, MostCommon(names)) {
      var j :| 0 <= j < |names| && names[j] == x;
    }
  }

  // ----- `createCSVFile` -----

  /** The header row `data.csv` always starts with. */
  const Header: seq<string> := ["FileName", "Common Name"]

  /** The row one listed file contributes: a JSON file with at least one
      detection whose most common name is `speciesName`. */
  function FileRow(root: string, file: string, detections: string -> seq<string>,
                   speciesName: string): Option<seq<string>>
  {
    if !EndsWith(file, ".json") then None
    else
      var names := detections(Join(root, file));
      if |names| > 0 && MostCommon(names) == speciesName then Some([CsvFileName(file), MostCommon(names)])
      else None
  }

  function DirRows(root: string, files: seq<string>, detections: string -> seq<string>,
                   speciesName: string): seq<seq<string>>
  {
    if files == [] then []
    else
      var rest := DirRows(root, files[..|files| - 1], detections, speciesName);
      match FileRow(root, files[|files| - 1], detections, speciesName)
      case None => rest
      case Some(row) => rest + [row]
  }

  function WalkRows(walk: seq<Dir>, detections: string -> seq<string>, speciesName: string): seq<seq<string>> {
    if walk == [] then []
    else WalkRows(walk[..|walk| - 1], detections, speciesName) +
         DirRows(walk[|walk| - 1].root, walk[|walk| - 1].files, detections, speciesName)
  }

  /** `createCSVFile()` over the listing `walk`; `detections` gives the
      common names in each JSON file. */
  method CreateCsvFile(walk: seq<Dir>, detections: string -> seq<string>, speciesName: string)
    returns (csv: seq<seq<string>>)
    ensures csv == [Header] + WalkRows(walk, detections, speciesName)
  {
    csv := [Header];
    var j := 0;
    while j < |walk|
      invariant 0 <= j <= |walk|
      invariant csv == [Header] + WalkRows(walk[..j], detections, speciesName)
    {
      WalkRowsPrefix(walk, j, detections, speciesName);
      var rows := WriteDirectory(walk[j], detections, speciesName);
      csv := csv + rows;
      j := j + 1;
    }
    assert walk[..|walk|] == walk;
  }

  /** One more directory adds its rows after those already written. */
  lemma WalkRowsPrefix(walk: seq<Dir>, j: nat, detections: string -> seq<string>, speciesName: string)
    requires j < |walk|
    ensures [Header] + WalkRows(walk[..j + 1], detections, speciesName) ==
      ([Header] + WalkRows(walk[..j], detections, speciesName)) + DirRows(walk[j].root, walk[j].files, detections, speciesName)
  {
    assert walk[..j + 1][..j] == walk[..j];
  }

  method WriteDirectory(d: Dir, detections: string -> seq<string>, speciesName: string)
    returns (rows: seq<seq<string>>)
    ensures rows == DirRows(d.root, d.files, detections, speciesName)
  {
    rows := [];
    var j := 0;
    while j < |d.files|
      invariant 0 <= j <= |d.files|
      invariant rows == DirRows(d.root, d.files[..j], detections, speciesName)
    {
      assert d.files[..j + 1][..j] == d.files[..j];
      var file := d.files[j];
      if EndsWith(file, ".json") {
        var fileName := SplitExtRoot(file);
        var commonName := detections(Join(d.root, file));
        if |commonName| > 0 {
          var mostCommon := MostCommon(commonName);
          if mostCommon == speciesName {
            rows := rows + [[fileName, mostCommon]];
          }
        }
      }
      j := j + 1;
    }
    assert d.files[..|d.files|] == d.files;
  }

  /** The rows of a listing are the rows its files give, in any position. */
  lemma {:induction false} DirRowsFromFiles(root: string, files: seq<string>, detections: string -> seq<string>,
                                            speciesName: string)
    ensures forall row :: row in DirRows(root, files, detections, speciesName) <==>
      exists i :: 0 <= i < |files| && FileRow(root, files[i], detections, speciesName) == Some(row)
  {
    if files != [] {
      var init := files[..|files| - 1];
      DirRowsFromFiles(root, init, detections, speciesName);
      assert forall i :: 0 <= i < |init| ==> init[i] == files[i];
    }
  }

  /** A row is written for a listed JSON file exactly when its detections
      are not empty and their most common name is `speciesName`; the row is
      the file's name without `.json` and that name. */
  lemma DirRowsMembers(root: string, files: seq<string>, detections: string -> seq<string>,
                       speciesName: string)
    ensures forall row :: row in DirRows(root, files, detections, speciesName) <==>
      exists i :: 0 <= i < |files| && EndsWith(files[i], ".json") &&
        |detections(Join(root, files[i]))| > 0 &&
        MostCommon(detections(Join(root, files[i]))) == speciesName &&
        row == [CsvFileName(files[i]), speciesName]
  {
    DirRowsFromFiles(root, files, detections, speciesName);
  }

  /** A file without detections never gives a row. */
  lemma NoDetectionsNoRow(root: string, file: string, detections: string -> seq<string>, speciesName: string)
    requires detections(Join(root, file)) == []
    ensures FileRow(root, file, detections, speciesName).None?
  {
  }

  // ----- `deleteallJSONFiles` -----

  /** The paths of the JSON files of a listing. */
  function JsonPaths(root: string, files: seq<string>): set<string> {
    if files == [] then {}
    else (if EndsWith(files[0], ".json") then {Join(root, files[0])} else {}) + JsonPaths(root, files[1..])
  }

  /** The file loop of one directory: every JSON file is removed; removing a
      path that is gone raises. */
  function DeleteJsonFiles(fs: set<string>, root: string, files: seq<string>): Result<set<string>, string>
    decreases |files|
  {
    if files == [] then Ok(fs)
    else if !EndsWith(files[0], ".json") then DeleteJsonFiles(fs, root, files[1..])
    else
      var path := Join(root, files[0]);
      if path !in fs then Err(path) else DeleteJsonFiles(fs - {path}, root, files[1..])
  }

  function DeleteJsonWalk(fs: set<string>, walk: seq<Dir>): Result<set<string>, string>
    decreases |walk|
  {
    if walk == [] then Ok(fs)
    else
      var r := DeleteJsonFiles(fs, walk[0].root, walk[0].files);
      if r.Err? then r else DeleteJsonWalk(r.value, walk[1..])
  }

  /** `deleteallJSONFiles()` over the listing `walk`. */
  method DeleteAllJsonFiles(fs: set<string>, walk: seq<Dir>) returns (r: Result<set<string>, string>)
    ensures r == DeleteJsonWalk(fs, walk)
  {
    var cur := fs;
    var j := 0;
    while j < |walk|
      invariant 0 <= j <= |walk|
      invariant DeleteJsonWalk(cur, walk[j..]) == DeleteJsonWalk(fs, walk)
    {
      assert walk[j..][1..] == walk[j + 1..];
      var d := walk[j];
      var k := 0;
      var dirStart := cur;
      while k < |d.files|
        invariant 0 <= k <= |d.files|
        invariant DeleteJsonFiles(cur, d.root, d.files[k..]) == DeleteJsonFiles(dirStart, d.root, d.files)
      {
        assert d.files[k..][1..] == d.files[k + 1..];
        if EndsWith(d.files[k], ".json") {
          var path := Join(d.root, d.files[k]);
          if path !in cur {
            return Err(path);
          }
          cur := cur - {path};
        }
        k := k + 1;
      }
      j := j + 1;
    }
    return Ok(cur);
  }

  /** In a directory whose listing holds distinct names, exactly the JSON
      files are removed. */
  lemma {:induction false} DeleteJsonFilesResult(fs: set<string>, root: string, files: seq<string>)
    requires forall i, j :: 0 <= i < j < |files| ==> files[i] != files[j]
    requires forall i :: 0 <= i < |files| ==> '/' !in files[i]
    requires forall i :: 0 <= i < |files| && EndsWith(files[i], ".json") ==> Join(root, files[i]) in fs
    ensures DeleteJsonFiles(fs, root, files) == Ok(fs - JsonPaths(root, files))
    decreases |files|
  {
    if files == [] {
      assert fs - {} == fs;
    } else {
      var rest := files[1..];
      assert forall i :: 0 <= i < |rest| ==> rest[i] == files[i + 1];
      if EndsWith(files[0], ".json") {
        var path := Join(root, files[0]);
        forall i | 0 <= i < |rest| && EndsWith(rest[i], ".json") ensures Join(root, rest[i]) in fs - {path} {
          if Join(root, rest[i]) == path {
            JoinInjective(root, rest[i], files[0]);
          }
        }
        DeleteJsonFilesResult(fs - {path}, root, rest);
        assert (fs - {path}) - JsonPaths(root, rest) == fs - ({path} + JsonPaths(root, rest));
      } else {
        assert JsonPaths(root, files) == JsonPaths(root, rest);
        DeleteJsonFilesResult(fs, root, rest);
      }
    }
  }

  /** The removed paths are exactly the listed names ending in `.json`. */
  lemma {:induction false} JsonPathsMembers(root: string, files: seq<string>)
    ensures forall p :: p in JsonPaths(root, files) <==>
      exists i :: 0 <= i < |files| && EndsWith(files[i], ".json") && p == Join(root, files[i])
    decreases |files|
  {
    if files != [] {
      JsonPathsMembers(root, files[1..]);
      forall p ensures p in JsonPaths(root, files) <==>
        exists i :: 0 <= i < |files| && EndsWith(files[i], ".json") && p == Join(root, files[i])
      {
        if exists i :: 0 <= i < |files| && EndsWith(files[i], ".json") && p == Join(root, files[i]) {
          var i :| 0 <= i < |files| && EndsWith(files[i], ".json") && p == Join(root, files[i]);
          if i > 0 {
            assert files[1..][i - 1] == files[i];
          }
        }
        if exists i :: 0 <= i < |files[1..]| && EndsWith(files[1..][i], ".json") && p == Join(root, files[1..][i]) {
          var i :| 0 <= i < |files[1..]| && EndsWith(files[1..][i], ".json") && p == Join(root, files[1..][i]);
          assert files[1..][i] == files[i + 1];
        }
      }
    }
  }
}
