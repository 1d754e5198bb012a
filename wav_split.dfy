/** The WAV preparation script: `mp3towav` converts every MP3 under the
    recordings directory into a WAV file at the same path and removes the
    MP3; `generateSplitFiles` removes every WAV in a class subfolder that the
    annotation table does not name, then cuts, for each (sound type, file)
    group of the table, one WAV per annotated row and removes the group's
    source file. The filesystem is the set of paths present; decoding and
    encoding audio are an outcome per row. */
module WavSplit {
  import opened Wrappers
  import opened Text

  /** The paths of the files present. */
  type Paths = set<string>

  // ----- `mp3towav` -----

  /** Python's `os.path.splitext(p)[0]` for a whole path: the extension is
      looked for in the last component only. */
  function SplitExtPath(p: string): string {
    var s := LastIndexOf(p, '/');
    p[..s + 1] + SplitExtRoot(p[s + 1..])
  }

  /** `os.path.splitext(file_path)[0] + '.wav'` */
  function WavPath(p: string): string {
    SplitExtPath(p) + ".wav"
  }

  lemma NoSlashNotAbsolute(x: string)
    requires '/' !in x
    ensures !StartsWith(x, "/")
  {
    if |x| > 0 {
      assert x[..1][0] == x[0];
      assert x[0] in x;
    }
  }

  lemma LastIndexOfAbsent(s: string, c: char)
    requires c !in s
    ensures LastIndexOf(s, c) == -1
  {
  }

  /** The WAV path of a listed file is the path of the file's own name with
      its extension swapped for `.wav`, in the same directory. */
  lemma WavPathOfJoin(root: string, file: string)
    requires '/' !in file
    ensures WavPath(Join(root, file)) == Join(root, SplitExtRoot(file) + ".wav")
  {
    var wav := SplitExtRoot(file) + ".wav";
    StemNoSlash(file);
    NoSlashNotAbsolute(file);
    NoSlashNotAbsolute(wav);
    JoinShape(root, file);
    JoinShape(root, wav);
    if root == [] {
      SplitExtPathBare(file);
    } else {
      SplitExtPathUnder(JoinDir(root), file);
    }
  }

  /** The directory part `Join` puts before the slash. */
  function JoinDir(root: string): string {
    if EndsWith(root, "/") then root[..|root| - 1] else root
  }

  /** A relative name joined under a directory. */
  lemma JoinShape(root: string, b: string)
    requires !StartsWith(b, "/")
    ensures root == [] ==> Join(root, b) == b
    ensures root != [] ==> Join(root, b) == JoinDir(root) + "/" + b
  {
    if root != [] && EndsWith(root, "/") {
      assert root == JoinDir(root) + "/";
    }
  }

  /** Swapping the extension of a name without a slash adds none. */
  lemma StemNoSlash(file: string)
    requires '/' !in file
    ensures '/' !in SplitExtRoot(file) + ".wav"
  {
    var stem := SplitExtRoot(file);
    SplitExtRootPrefix(file);
    assert stem == file[..|stem|];
    forall i | 0 <= i < |stem + ".wav"| ensures (stem + ".wav")[i] != '/' {
      if i < |stem| {
        assert (stem + ".wav")[i] == file[i];
        assert file[i] in file;
      }
    }
  }

  /** A bare name's whole-path stem is its own stem. */
  lemma SplitExtPathBare(file: string)
    requires '/' !in file
    ensures SplitExtPath(file) == SplitExtRoot(file)
  {
    LastIndexOfAbsent(file, '/');
    assert file[0..] == file;
  }

  /** Under a directory, only the last component loses its extension. */
  lemma SplitExtPathUnder(x: string, file: string)
    requires '/' !in file
    ensures SplitExtPath(x + "/" + file) == x + "/" + SplitExtRoot(file)
  {
    LastIndexOfSplit(x, '/', file);
    assert (x + "/" + file)[..|x| + 1] == x + "/";
    assert (x + "/" + file)[|x| + 1..] == file;
  }

  /** A path ending in `e`, joined under a directory, still ends in `e`. */
  lemma JoinEndsWith(root: string, file: string, e: string)
    requires '/' !in file && EndsWith(file, e)
    ensures EndsWith(Join(root, file), e)
  {
    NoSlashNotAbsolute(file);
    var j := Join(root, file);
    var front := j[..|j| - |file|];
    assert j == front + file;
    assert j[|j| - |e|..] == file[|file| - |e|..];
  }

  lemma WavIsNotMp3(p: string, q: string)
    requires EndsWith(q, ".mp3")
    ensures WavPath(p) != q
  {
    var w := WavPath(p);
    assert w[|w| - 4..] == ".wav";
  }

  /** The MP3 paths of a listing. */
  function Mp3Sources(root: string, files: seq<string>): (s: Paths)
    ensures forall p :: p in s ==> EndsWith(p, ".mp3")
  {
    if files == [] then {}
    else
      var rest := Mp3Sources(root, files[1..]);
      if EndsWith(files[0], ".mp3") && '/' !in files[0] then
        JoinEndsWith(root, files[0], ".mp3");
        {Join(root, files[0])} + rest
      else rest
  }

  /** The WAV paths the MP3s of a listing become. */
  function WavTargets(root: string, files: seq<string>): Paths {
    if files == [] then {}
    else
      var rest := WavTargets(root, files[1..]);
      if EndsWith(files[0], ".mp3") && '/' !in files[0] then {WavPath(Join(root, files[0]))} + rest
      else rest
  }

  /** The file loop of one directory of the walk: each MP3 is decoded (which
      fails on a path that is gone), exported as WAV, and removed. */
  function ConvertFiles(fs: Paths, root: string, files: seq<string>): Result<Paths, string>
    decreases |files|
  {
    if files == [] then Ok(fs)
    else if !EndsWith(files[0], ".mp3") then ConvertFiles(fs, root, files[1..])
    else
      var path := Join(root, files[0]);
      if path !in fs then Err(path)
      else ConvertFiles((fs + {WavPath(path)}) - {path}, root, files[1..])
  }

  function ConvertWalk(fs: Paths, walk: seq<Dir>): Result<Paths, string>
    decreases |walk|
  {
    if walk == [] then Ok(fs)
    else
      var r := ConvertFiles(fs, walk[0].root, walk[0].files);
      if r.Err? then r else ConvertWalk(r.value, walk[1..])
  }

  /** `mp3towav(files_dir)` over the listing `walk` that `os.walk` gives. */
  method Mp3ToWav(fs: Paths, walk: seq<Dir>) returns (r: Result<Paths, string>)
    ensures r == ConvertWalk(fs, walk)
  {
    var cur := fs;
    var j := 0;
    while j < |walk|
      invariant 0 <= j <= |walk|
      invariant ConvertWalk(cur, walk[j..]) == ConvertWalk(fs, walk)
    {
      assert walk[j..][1..] == walk[j + 1..];
      var step := ConvertDirectory(cur, walk[j]);
      if step.Err? {
        return step;
      }
      cur := step.value;
      j := j + 1;
    }
    return Ok(cur);
  }

  method ConvertDirectory(fs: Paths, d: Dir) returns (r: Result<Paths, string>)
    ensures r == ConvertFiles(fs, d.root, d.files)
  {
    var cur := fs;
    var j := 0;
    while j < |d.files|
      invariant 0 <= j <= |d.files|
      invariant ConvertFiles(cur, d.root, d.files[j..]) == ConvertFiles(fs, d.root, d.files)
    {
      assert d.files[j..][1..] == d.files[j + 1..];
      var file := d.files[j];
      if EndsWith(file, ".mp3") {
        var filePath := Join(d.root, file);
        if filePath !in cur {
          return Err(filePath);
        }
        var wavFilePath := WavPath(filePath);
        cur := cur + {wavFilePath};
        cur := cur - {filePath};
      }
      j := j + 1;
    }
    return Ok(cur);
  }

  /** Converting the first MP3 of a listing of distinct names without
      slashes leaves the later listed MP3s in place. */
  lemma LaterStillPresent(fs: Paths, root: string, files: seq<string>)
    requires files != [] && EndsWith(files[0], ".mp3")
    requires forall i, j :: 0 <= i < j < |files| ==> files[i] != files[j]
    requires forall i :: 0 <= i < |files| ==> '/' !in files[i]
    requires forall i :: 0 <= i < |files| && EndsWith(files[i], ".mp3") ==> Join(root, files[i]) in fs
    ensures forall i :: 1 <= i < |files| && EndsWith(files[i], ".mp3") ==>
      Join(root, files[i]) in (fs + {WavPath(Join(root, files[0]))}) - {Join(root, files[0])}
  {
    var path := Join(root, files[0]);
    forall i | 1 <= i < |files| && EndsWith(files[i], ".mp3")
      ensures Join(root, files[i]) in (fs + {WavPath(path)}) - {path}
    {
      if Join(root, files[i]) == path {
        JoinInjective(root, files[i], files[0]);
      }
    }
  }

  /** The set identity behind one conversion step: the WAV of an MP3 is
      neither the MP3 nor any other MP3. */
  lemma ConvertStepSets(fs: Paths, path: string, m: Paths, w: Paths)
    requires EndsWith(path, ".mp3")
    requires forall p :: p in m ==> EndsWith(p, ".mp3")
    ensures (((fs + {WavPath(path)}) - {path}) - m) + w == (fs - ({path} + m)) + ({WavPath(path)} + w)
  {
    var wav := WavPath(path);
    assert wav !in m by {
      if wav in m {
        WavIsNotMp3(path, wav);
      }
    }
    assert wav != path by {
      WavIsNotMp3(path, path);
    }
  }

  /** In a directory whose listing holds distinct names, every listed MP3
      is replaced by its WAV and every other file is left as it was. */
  lemma {:induction false} ConvertFilesResult(fs: Paths, root: string, files: seq<string>)
    requires forall i, j :: 0 <= i < j < |files| ==> files[i] != files[j]
    requires forall i :: 0 <= i < |files| ==> '/' !in files[i]
    requires forall i :: 0 <= i < |files| && EndsWith(files[i], ".mp3") ==> Join(root, files[i]) in fs
    ensures ConvertFiles(fs, root, files) == Ok((fs - Mp3Sources(root, files)) + WavTargets(root, files))
    decreases |files|
  {
    if files == [] {
      assert fs - {} + {} == fs;
    } else {
      var rest := files[1..];
      assert forall i :: 0 <= i < |rest| ==> rest[i] == files[i + 1];
      if EndsWith(files[0], ".mp3") {
        var path := Join(root, files[0]);
        LaterStillPresent(fs, root, files);
        ConvertFilesResult((fs + {WavPath(path)}) - {path}, root, rest);
        JoinEndsWith(root, files[0], ".mp3");
        ConvertStepSets(fs, path, Mp3Sources(root, rest), WavTargets(root, rest));
      } else {
        ConvertFilesResult(fs, root, rest);
      }
    }
  }

  // ----- `generateSplitFiles` -----

  /** One row of `data.csv`, each cell as the text pandas renders it. */
  datatype Row = Row(fileName: string, soundType: string, start: string, end: string)

  /** `set(df['FileName'].astype(str) + '.wav')` */
  function Allowed(rows: seq<Row>): set<string> {
    set r | r in rows :: r.fileName + ".wav"
  }

  /** `p` is matched by `glob(os.path.join(dir, '*', '*.wav'))`: a file
      directly inside a subfolder of `dir`, whose name ends in `.wav`; the
      wildcard skips names that start with a dot. */
  predicate InSubfolder(dir: string, p: string) {
    StartsWith(p, dir + "/") &&
    var r := p[|dir| + 1..];
    var i := Find(r, "/");
    0 < i && r[0] != '.' &&
    var name := r[i + 1..];
    '/' !in name && EndsWith(name, ".wav") && name[0] != '.'
  }

  /** The first pass: every globbed WAV whose name is not allowed is
      removed, in whatever order the glob lists them. */
  method RemoveUnused(fs: Paths, dir: string, allowed: set<string>) returns (r: Paths)
    ensures forall p :: p in r <==> p in fs && (InSubfolder(dir, p) ==> BaseName(p) in allowed)
  {
    var todo := set p | p in fs && InSubfolder(dir, p);
    ghost var globbed := todo;
    r := fs;
    while todo != {}
      invariant todo <= globbed
      invariant forall p :: p in r <==> p in fs && (p in globbed && p !in todo ==> BaseName(p) in allowed)
      decreases |todo|
    {
      var wavFile :| wavFile in todo;
      if BaseName(wavFile) !in allowed {
        r := r - {wavFile};
      }
      todo := todo - {wavFile};
    }
  }

  /** The class folder of a soundType, as the f-string writes it (the label
      with its spaces; `label_folder` is never used). */
  function Folder(dir: string, soundType: string): string {
    dir + "/" + soundType + "/"
  }

  /** `f"{files_dir}/{soundType}/{file_name}.wav"` */
  function InputPath(dir: string, soundType: string, fileName: string): string {
    Folder(dir, soundType) + (fileName + ".wav")
  }

  /** `f"{files_dir}/{soundType}/{file_name}_{start}_{end}.wav"` */
  function OutputPath(dir: string, soundType: string, fileName: string, row: Row): string {
    Folder(dir, soundType) + (fileName + ("_" + (row.start + ("_" + (row.end + ".wav")))))
  }

  lemma OutputIsNotInput(dir: string, soundType: string, fileName: string, row: Row)
    ensures OutputPath(dir, soundType, fileName, row) != InputPath(dir, soundType, fileName)
  {
    assert |OutputPath(dir, soundType, fileName, row)| > |InputPath(dir, soundType, fileName)|;
  }

  /** The `try` over the rows of one group: a row whose conversion and
      decoding succeed (`decodes`) while the source file exists creates its
      output file; a failing row is reported and the loop goes on. */
  function SplitRows(fs: Paths, dir: string, soundType: string, fileName: string, group: seq<Row>,
                     decodes: Row -> bool): Paths
    decreases |group|
  {
    if group == [] then fs
    else
      var input := InputPath(dir, soundType, fileName);
      var fs' := if input in fs && decodes(group[0])
                 then fs + {OutputPath(dir, soundType, fileName, group[0])} else fs;
      SplitRows(fs', dir, soundType, fileName, group[1..], decodes)
  }

  /** One group: its rows, then the removal of its source file if that
      still exists. */
  function ProcessGroup(fs: Paths, dir: string, soundType: string, fileName: string, group: seq<Row>,
                        decodes: Row -> bool): Paths
  {
    var input := InputPath(dir, soundType, fileName);
    var after := SplitRows(fs, dir, soundType, fileName, group, decodes);
    if input in after then after - {input} else after
  }

  /** Every row of a group whose decoding succeeds adds its own output,
      whatever the rows before it did, as long as the source exists; the
      source itself is never touched by the rows. */
  lemma {:induction false} SplitRowsMembers(fs: Paths, dir: string, soundType: string, fileName: string,
                                            group: seq<Row>, decodes: Row -> bool)
    ensures InputPath(dir, soundType, fileName) in SplitRows(fs, dir, soundType, fileName, group, decodes)
      <==> InputPath(dir, soundType, fileName) in fs
    ensures forall p :: p in SplitRows(fs, dir, soundType, fileName, group, decodes) <==>
      p in fs || (InputPath(dir, soundType, fileName) in fs &&
                  exists i :: 0 <= i < |group| && decodes(group[i]) && p == OutputPath(dir, soundType, fileName, group[i]))
    decreases |group|
  {
    if group != [] {
      var input := InputPath(dir, soundType, fileName);
      var out := OutputPath(dir, soundType, fileName, group[0]);
      OutputIsNotInput(dir, soundType, fileName, group[0]);
      var fs' := if input in fs && decodes(group[0]) then fs + {out} else fs;
      SplitRowsMembers(fs', dir, soundType, fileName, group[1..], decodes);
      forall p
        ensures p in SplitRows(fs, dir, soundType, fileName, group, decodes) <==>
          p in fs || (input in fs &&
                      exists i :: 0 <= i < |group| && decodes(group[i]) && p == OutputPath(dir, soundType, fileName, group[i]))
      {
        if input in fs && exists i :: 0 <= i < |group| && decodes(group[i]) && p == OutputPath(dir, soundType, fileName, group[i]) {
          var i :| 0 <= i < |group| && decodes(group[i]) && p == OutputPath(dir, soundType, fileName, group[i]);
          if i > 0 {
            assert group[1..][i - 1] == group[i];
          }
        }
        if exists i :: 0 <= i < |group[1..]| && decodes(group[1..][i]) && p == OutputPath(dir, soundType, fileName, group[1..][i]) {
          var i :| 0 <= i < |group[1..]| && decodes(group[1..][i]) && p == OutputPath(dir, soundType, fileName, group[1..][i]);
          assert group[1..][i] == group[i + 1];
        }
      }
    }
  }

  /** After a group, its source file is gone, the output of each row that
      decoded is present (when the source existed), and nothing else
      changed. */
  lemma ProcessGroupResult(fs: Paths, dir: string, soundType: string, fileName: string, group: seq<Row>,
                           decodes: Row -> bool)
    ensures InputPath(dir, soundType, fileName) !in ProcessGroup(fs, dir, soundType, fileName, group, decodes)
    ensures forall p :: p != InputPath(dir, soundType, fileName) ==>
      (p in ProcessGroup(fs, dir, soundType, fileName, group, decodes) <==>
       p in fs || (InputPath(dir, soundType, fileName) in fs &&
                   exists i :: 0 <= i < |group| && decodes(group[i]) && p == OutputPath(dir, soundType, fileName, group[i])))
  {
    SplitRowsMembers(fs, dir, soundType, fileName, group, decodes);
  }

  // ----- The grouping of `df.groupby(['SoundType', 'FileName'])` -----

  /** A group key: the sound type, then the file name. */
  type Key = (string, string)

  function KeyOf(r: Row): Key {
    (r.soundType, r.fileName)
  }

  /** The order of tuples of strings. */
  predicate KeyLess(x: Key, y: Key) {
    StrLess(x.0, y.0) || (x.0 == y.0 && StrLess(x.1, y.1))
  }

  lemma KeyLessIrreflexive(x: Key)
    ensures !KeyLess(x, x)
  {
    StrLessIrreflexive(x.0);
    StrLessIrreflexive(x.1);
  }

  lemma KeyLessTotal(x: Key, y: Key)
    ensures x == y || KeyLess(x, y) || KeyLess(y, x)
  {
    StrLessTotal(x.0, y.0);
    StrLessTotal(x.1, y.1);
  }

  lemma KeyLessTransitive(x: Key, y: Key, z: Key)
    requires KeyLess(x, y) && KeyLess(y, z)
    ensures KeyLess(x, z)
  {
    if StrLess(x.0, y.0) && StrLess(y.0, z.0) {
      StrLessTransitive(x.0, y.0, z.0);
    } else if x.0 == y.0 && y.0 == z.0 {
      StrLessTransitive(x.1, y.1, z.1);
    }
  }

  predicate Ascending(ks: seq<Key>) {
    forall i, j :: 0 <= i < j < |ks| ==> KeyLess(ks[i], ks[j])
  }

  /** `k` added to an ascending list of keys, unless already there. */
  function Insert(k: Key, ks: seq<Key>): (r: seq<Key>)
    requires Ascending(ks)
    ensures Ascending(r)
    ensures forall x :: x in r <==> x in ks || x == k
  {
    if ks == [] then [k]
    else if k == ks[0] then ks
    else if KeyLess(k, ks[0]) then
      assert forall j :: 0 < j < |ks| ==> KeyLess(k, ks[j]) by {
        forall j | 0 < j < |ks| ensures KeyLess(k, ks[j]) {
          KeyLessTransitive(k, ks[0], ks[j]);
        }
      }
      [k] + ks
    else
      KeyLessTotal(k, ks[0]);
      var tail := Insert(k, ks[1..]);
      assert forall x :: x in tail ==> KeyLess(ks[0], x) by {
        forall x | x in tail ensures KeyLess(ks[0], x) {
          if x != k {
            var j :| 0 <= j < |ks[1..]| && ks[1..][j] == x;
            assert ks[1..][j] == ks[j + 1];
          }
        }
      }
      [ks[0]] + tail
  }

  /** The group keys of the table, ascending and without repeats, as
      `groupby` visits them. */
  function GroupKeys(rows: seq<Row>): (ks: seq<Key>)
    ensures Ascending(ks)
    ensures forall k :: k in ks <==> exists r :: r in rows && KeyOf(r) == k
  {
    if rows == [] then []
    else
      var ks := Insert(KeyOf(rows[|rows| - 1]), GroupKeys(rows[..|rows| - 1]));
      assert forall r :: r in rows <==> r in rows[..|rows| - 1] || r == rows[|rows| - 1] by {
        assert rows == rows[..|rows| - 1] + [rows[|rows| - 1]];
      }
      ks
  }

  /** An ascending list of keys holds each key once. */
  lemma AscendingDistinct(ks: seq<Key>)
    requires Ascending(ks)
    ensures forall i, j :: 0 <= i < j < |ks| ==> ks[i] != ks[j]
  {
    forall i, j | 0 <= i < j < |ks| ensures ks[i] != ks[j] {
      KeyLessIrreflexive(ks[i]);
    }
  }

  /** The rows of one group, in table order. */
  function GroupRows(rows: seq<Row>, k: Key): (g: seq<Row>)
    ensures forall r :: r in g <==> r in rows && KeyOf(r) == k
  {
    if rows == [] then []
    else (if KeyOf(rows[0]) == k then [rows[0]] else []) + GroupRows(rows[1..], k)
  }

  /** Every row of the table belongs to exactly one visited group. */
  lemma EachRowInOneGroup(rows: seq<Row>, r: Row)
    requires r in rows
    ensures exists i :: 0 <= i < |GroupKeys(rows)| && r in GroupRows(rows, GroupKeys(rows)[i])
    ensures forall i, j ::
      (0 <= i < |GroupKeys(rows)| && 0 <= j < |GroupKeys(rows)| &&
       r in GroupRows(rows, GroupKeys(rows)[i]) && r in GroupRows(rows, GroupKeys(rows)[j])) ==> i == j
  {
    var ks := GroupKeys(rows);
    AscendingDistinct(ks);
    assert KeyOf(r) in ks;
    var i :| 0 <= i < |ks| && ks[i] == KeyOf(r);
    assert r in GroupRows(rows, ks[i]);
  }

  /** The group loop over the visited keys. */
  function ProcessGroups(fs: Paths, dir: string, rows: seq<Row>, keys: seq<Key>, decodes: Row -> bool): Paths
    decreases |keys|
  {
    if keys == [] then fs
    else
      var fs' := ProcessGroup(fs, dir, keys[0].0, keys[0].1, GroupRows(rows, keys[0]), decodes);
      ProcessGroups(fs', dir, rows, keys[1..], decodes)
  }

  /** What `generateSplitFiles` leaves: the filter pass, then every group. */
  function SplitFiles(fs: Paths, dir: string, rows: seq<Row>, decodes: Row -> bool): Paths {
    var kept := set p | p in fs && (InSubfolder(dir, p) ==> BaseName(p) in Allowed(rows));
    ProcessGroups(kept, dir, rows, GroupKeys(rows), decodes)
  }

  /** `generateSplitFiles(files_dir, birdName)` with the table `rows` of
      `data.csv`; `dir` is `files_dir` without its trailing slash. */
  method GenerateSplitFiles(fs: Paths, dir: string, rows: seq<Row>, decodes: Row -> bool) returns (r: Paths)
    ensures r == SplitFiles(fs, dir, rows, decodes)
  {
    var allowedFiles := Allowed(rows);
    r := RemoveUnused(fs, dir, allowedFiles);
    assert r == set p | p in fs && (InSubfolder(dir, p) ==> BaseName(p) in Allowed(rows));
    var grouped := GroupKeys(rows);
    var j := 0;
    while j < |grouped|
      invariant 0 <= j <= |grouped|
      invariant ProcessGroups(r, dir, rows, grouped[j..], decodes) == SplitFiles(fs, dir, rows, decodes)
    {
      assert grouped[j..][1..] == grouped[j + 1..];
      var (soundType, fileName) := grouped[j];
      r := SplitGroup(r, dir, soundType, fileName, GroupRows(rows, grouped[j]), decodes);
      j := j + 1;
    }
  }

  /** One group of the loop: its rows, then the source's removal. */
  method SplitGroup(fs: Paths, dir: string, soundType: string, fileName: string, group: seq<Row>,
                    decodes: Row -> bool) returns (r: Paths)
    ensures r == ProcessGroup(fs, dir, soundType, fileName, group, decodes)
  {
    var inputFile := InputPath(dir, soundType, fileName);
    r := fs;
    var j := 0;
    while j < |group|
      invariant 0 <= j <= |group|
      invariant SplitRows(r, dir, soundType, fileName, group[j..], decodes)
        == SplitRows(fs, dir, soundType, fileName, group, decodes)
    {
      assert group[j..][1..] == group[j + 1..];
      var row := group[j];
      var outputFile := OutputPath(dir, soundType, fileName, row);
      if inputFile in r && decodes(row) {
        r := r + {outputFile};
      }
      j := j + 1;
    }
    if inputFile in r {
      r := r - {inputFile};
    }
  }

  /** The filter pass never removes the source file of an annotated row:
      its name is the row's file name with `.wav`, which is allowed. */
  lemma InputSurvivesFilter(fs: Paths, dir: string, rows: seq<Row>, r: Row)
    requires r in rows && '/' !in r.fileName
    requires InputPath(dir, r.soundType, r.fileName) in fs
    ensures InputPath(dir, r.soundType, r.fileName) in
      (set p | p in fs && (InSubfolder(dir, p) ==> BaseName(p) in Allowed(rows)))
  {
    var name := r.fileName + ".wav";
    assert '/' !in name by {
      forall i | 0 <= i < |name| ensures name[i] != '/' {
        if i < |r.fileName| {
          assert name[i] == r.fileName[i];
          assert r.fileName[i] in r.fileName;
        }
      }
    }
    var x := dir + "/" + r.soundType;
    assert InputPath(dir, r.soundType, r.fileName) == x + "/" + name;
    BaseNameOfLast(x, name, true);
    assert name in Allowed(rows);
  }
}
