/** What the two species-filtered xeno-canto fetchers leave on disk: the
    species folder emptied and recreated, then per call type a folder named
    after the type without spaces, a JSON file with the type's overview list,
    and one MP3 per list entry whose download succeeded. */
module SpeciesDownload {
  import opened Text
  import opened Retry
  import opened Xeno
  import SpeciesFetch

  /** The part of the file system the scripts touch: the existing paths
      (folders and files) and the list last written to each JSON file. */
  datatype Disk = Disk(paths: set<string>, json: map<string, seq<Entry>>)

  /** `p` is `dir` itself or lies below it. */
  predicate Under(p: string, dir: string) {
    p == dir || StartsWith(p, dir + "/")
  }

  /** The start of the script: `rmSync(downloadDir, { recursive: true })`
      when the species folder exists, then `mkdirSync(downloadDir)`. */
  method PrepareDownloadDir(disk: Disk, downloadDir: string) returns (disk': Disk)
    ensures downloadDir in disk'.paths
    ensures downloadDir in disk.paths ==>
      (forall p :: p in disk'.paths <==> p == downloadDir || (p in disk.paths && !Under(p, downloadDir)))
    ensures downloadDir in disk.paths ==>
      (forall p :: p in disk'.json <==> p in disk.json && !Under(p, downloadDir))
    ensures downloadDir !in disk.paths ==> disk'.paths == disk.paths + {downloadDir}
    ensures forall p :: p in disk'.json ==> p in disk.json && disk'.json[p] == disk.json[p]
  {
    var paths := disk.paths;
    var json := disk.json;
    if downloadDir in paths {
      paths := set p | p in paths && !Under(p, downloadDir);
      json := map p | p in json && !Under(p, downloadDir) :: json[p];
    }
    disk' := Disk(paths + {downloadDir}, json);
  }

  /** `type.replace(/ /g, '')` */
  function FolderName(t: string): string {
    RemoveSpaces(t)
  }

  function TypeFolder(downloadDir: string, t: string): string {
    JsJoin(downloadDir, FolderName(t))
  }

  function JsonPath(downloadDir: string, t: string): string {
    JsJoin(TypeFolder(downloadDir, t), FolderName(t) + ".json")
  }

  function Mp3Path(folder: string, e: Entry): string {
    JsJoin(folder, e.title + ".mp3")
  }

  /** The paths after one `downloadWithRetry(link, f)` whose exception, if
      any, the caller catches and logs. */
  function AfterDownload(paths: set<string>, f: string, srv: Server<()>): set<string> {
    var o := Outcome(srv, SpeciesFetch.DownloadRetries);
    if o.Returned? then paths + {f} else if o.Threw? then paths - {f} else paths
  }

  /** The item loop of one type; `servers` gives the download server of a link. */
  function DownloadItems(paths: set<string>, folder: string, items: seq<Entry>,
                         servers: string -> Server<()>): set<string>
    decreases |items|
  {
    if items == [] then paths
    else
      var last := items[|items| - 1];
      AfterDownload(DownloadItems(paths, folder, items[..|items| - 1], servers),
                    Mp3Path(folder, last), servers(last.link))
  }

  /** One turn of the type loop: create the folder, write the JSON file,
      download every item. */
  function WriteType(disk: Disk, downloadDir: string, t: string, items: seq<Entry>,
                     servers: string -> Server<()>): Disk {
    var folder := TypeFolder(downloadDir, t);
    var jsonPath := JsonPath(downloadDir, t);
    Disk(DownloadItems(disk.paths + {folder} + {jsonPath}, folder, items, servers),
         disk.json[jsonPath := items])
  }

  /** The type loop over the overview's keys in their order. */
  function WriteAll(disk: Disk, downloadDir: string, types: seq<string>,
                    overview: map<string, seq<Entry>>, servers: string -> Server<()>): Disk
    requires forall i :: 0 <= i < |types| ==> types[i] in overview
    decreases |types|
  {
    if types == [] then disk
    else
      var t := types[|types| - 1];
      WriteType(WriteAll(disk, downloadDir, types[..|types| - 1], overview, servers),
                downloadDir, t, overview[t], servers)
  }

  /** `writeJsonAndDownloadFiles(overview)`; `types` lists the overview's
      keys in insertion order. */
  method WriteJsonAndDownloadFiles(disk: Disk, downloadDir: string, types: seq<string>,
                                   overview: map<string, seq<Entry>>, servers: string -> Server<()>)
    returns (disk': Disk)
    requires forall i :: 0 <= i < |types| ==> types[i] in overview
    ensures disk' == WriteAll(disk, downloadDir, types, overview, servers)
  {
    disk' := disk;
    var i := 0;
    while i < |types|
      invariant 0 <= i <= |types|
      invariant disk' == WriteAll(disk, downloadDir, types[..i], overview, servers)
    {
      assert types[..i + 1][..i] == types[..i];
      var t := types[i];
      var typeFolderName := FolderName(t);
      var typeFolder := JsJoin(downloadDir, typeFolderName);
      var paths := disk'.paths;
      if typeFolder !in paths {
        paths := paths + {typeFolder};
      }
      var jsonFilePath := JsJoin(typeFolder, typeFolderName + ".json");
      paths := paths + {jsonFilePath};
      var json := disk'.json[jsonFilePath := overview[t]];
      var items := overview[t];
      assert paths == disk'.paths + {typeFolder} + {jsonFilePath};
      assert typeFolder == TypeFolder(downloadDir, t) && jsonFilePath == JsonPath(downloadDir, t);
      paths := DownloadTypeItems(paths, typeFolder, items, servers);
      assert Disk(paths, json) == WriteType(disk', downloadDir, t, items, servers);
      disk' := Disk(paths, json);
      i := i + 1;
    }
    assert types[..|types|] == types;
  }

  /** The item loop of one type: one `downloadWithRetry` per item, its
      error caught and logged. */
  method DownloadTypeItems(paths: set<string>, typeFolder: string, items: seq<Entry>,
                           servers: string -> Server<()>)
    returns (paths': set<string>)
    ensures paths' == DownloadItems(paths, typeFolder, items, servers)
  {
    paths' := paths;
    var j := 0;
    while j < |items|
      invariant 0 <= j <= |items|
      invariant paths' == DownloadItems(paths, typeFolder, items[..j], servers)
    {
      assert items[..j + 1][..j] == items[..j];
      var fileName := JsJoin(typeFolder, items[j].title + ".mp3");
      var outcome;
      paths', outcome := DownloadWithRetry(paths', fileName, servers(items[j].link), SpeciesFetch.DownloadRetries);
      // a thrown error is caught and logged
      j := j + 1;
    }
    assert items[..|items|] == items;
  }

  // ----- What ends up on disk -----

  /** A path that is no item's MP3 path is left as it was by the item loop. */
  lemma {:induction false} DownloadItemsElsewhere(paths: set<string>, folder: string, items: seq<Entry>,
                                                  servers: string -> Server<()>, p: string)
    requires forall j :: 0 <= j < |items| ==> p != Mp3Path(folder, items[j])
    ensures p in DownloadItems(paths, folder, items, servers) <==> p in paths
    decreases |items|
  {
    if items != [] {
      DownloadItemsElsewhere(paths, folder, items[..|items| - 1], servers, p);
    }
  }

  /** No entry after the `k`-th has its title (and so its MP3 path). */
  predicate LastOfTitle(items: seq<Entry>, k: nat) {
    forall j :: k < j < |items| ==> items[j].title != items[k].title
  }

  /** After the item loop, an item's MP3 exists exactly when its download
      succeeded, provided no later item of the list has the same title. */
  lemma {:induction false} DownloadItemsOutcome(paths: set<string>, folder: string, items: seq<Entry>,
                                                servers: string -> Server<()>, k: nat)
    requires k < |items|
    requires LastOfTitle(items, k)
    ensures Mp3Path(folder, items[k]) in DownloadItems(paths, folder, items, servers)
      <==> Outcome(servers(items[k].link), SpeciesFetch.DownloadRetries).Returned?
    decreases |items|
  {
    var f := Mp3Path(folder, items[k]);
    var init := items[..|items| - 1];
    NeverFallsThrough(servers(items[k].link), SpeciesFetch.DownloadRetries);
    if k < |items| - 1 {
      DownloadItemsOutcome(paths, folder, init, servers, k);
      var last := items[|items| - 1];
      assert last.title != items[k].title;
      assert Mp3Path(folder, last) != f by {
        assert |JsJoin(folder, last.title + ".mp3")| == |folder| + |last.title| + 5;
        if |last.title| == |items[k].title| {
          var i :| 0 <= i < |last.title| && last.title[i] != items[k].title[i];
          assert Mp3Path(folder, last)[|folder| + 1 + i] == last.title[i];
          assert f[|folder| + 1 + i] == items[k].title[i];
        }
      }
    }
  }

  /** `p` is the folder `dir/name` or lies below it. */
  predicate InFolder(p: string, dir: string, name: string) {
    var n := |dir| + 1 + |name|;
    StartsWith(p, dir + "/" + name) && (|p| == n || p[n] == '/')
  }

  /** A path lies in at most one of the folders whose names hold no slash. */
  lemma FolderOfPath(p: string, dir: string, a: string, b: string)
    requires '/' !in a && '/' !in b
    ensures InFolder(p, dir, a) && InFolder(p, dir, b) ==> a == b
  {
    if InFolder(p, dir, a) && InFolder(p, dir, b) {
      SameFolder(p, dir, a, b);
    }
  }

  lemma SameFolder(p: string, dir: string, a: string, b: string)
    requires '/' !in a && '/' !in b
    requires InFolder(p, dir, a) && InFolder(p, dir, b)
    ensures a == b
  {
    var n := |dir| + 1;
    var q := p[n..];
    assert q == a + p[n + |a|..];
    assert q == b + p[n + |b|..];
    FirstIndexOfAfter(a, p[n + |a|..], '/');
    FirstIndexOfAfter(b, p[n + |b|..], '/');
    assert a == q[..|a|] && b == q[..|b|];
  }

  lemma JoinInFolder(dir: string, name: string, x: string)
    ensures InFolder(JsJoin(dir, name), dir, name)
    ensures InFolder(JsJoin(JsJoin(dir, name), x), dir, name)
  {
    assert (dir + "/" + name)[..|dir| + 1 + |name|] == dir + "/" + name;
    assert (dir + "/" + name + "/" + x)[..|dir| + 1 + |name|] == dir + "/" + name;
    assert (dir + "/" + name + "/" + x)[|dir| + 1 + |name|] == '/';
  }

  /** Handling one type changes nothing outside that type's folder. */
  lemma WriteTypeElsewhere(disk: Disk, downloadDir: string, t: string, items: seq<Entry>,
                           servers: string -> Server<()>, p: string)
    requires !InFolder(p, downloadDir, FolderName(t))
    ensures p in WriteType(disk, downloadDir, t, items, servers).paths <==> p in disk.paths
    ensures p in WriteType(disk, downloadDir, t, items, servers).json <==> p in disk.json
    ensures p in disk.json ==> WriteType(disk, downloadDir, t, items, servers).json[p] == disk.json[p]
  {
    var folder := TypeFolder(downloadDir, t);
    JoinInFolder(downloadDir, FolderName(t), FolderName(t) + ".json");
    forall j | 0 <= j < |items| ensures p != Mp3Path(folder, items[j]) {
      JoinInFolder(downloadDir, FolderName(t), items[j].title + ".mp3");
    }
    DownloadItemsElsewhere(disk.paths + {folder} + {JsonPath(downloadDir, t)}, folder, items, servers, p);
  }

  /** Handling one type creates its folder and its JSON file with the
      type's list, and leaves each item's MP3 present exactly when its
      download succeeded (for the last item with a given title). */
  lemma WriteTypeResult(disk: Disk, downloadDir: string, t: string, items: seq<Entry>,
                        servers: string -> Server<()>)
    ensures TypeFolder(downloadDir, t) in WriteType(disk, downloadDir, t, items, servers).paths
    ensures JsonPath(downloadDir, t) in WriteType(disk, downloadDir, t, items, servers).paths
    ensures JsonPath(downloadDir, t) in WriteType(disk, downloadDir, t, items, servers).json
    ensures WriteType(disk, downloadDir, t, items, servers).json[JsonPath(downloadDir, t)] == items
    ensures forall k :: 0 <= k < |items| && LastOfTitle(items, k) ==>
      ((Mp3Path(TypeFolder(downloadDir, t), items[k]) in WriteType(disk, downloadDir, t, items, servers).paths) <==>
       Outcome(servers(items[k].link), SpeciesFetch.DownloadRetries).Returned?)
  {
    var folder := TypeFolder(downloadDir, t);
    var start := disk.paths + {folder} + {JsonPath(downloadDir, t)};
    forall j | 0 <= j < |items| ensures folder != Mp3Path(folder, items[j]) && JsonPath(downloadDir, t) != Mp3Path(folder, items[j]) {
      var m := Mp3Path(folder, items[j]);
      assert |m| > |folder|;
      var jp := JsonPath(downloadDir, t);
      assert jp[|jp| - 1] == 'n';
      assert m[|m| - 1] == '3';
    }
    DownloadItemsElsewhere(start, folder, items, servers, folder);
    DownloadItemsElsewhere(start, folder, items, servers, JsonPath(downloadDir, t));
    forall k | 0 <= k < |items| && LastOfTitle(items, k)
      ensures (Mp3Path(folder, items[k]) in DownloadItems(start, folder, items, servers))
        <==> Outcome(servers(items[k].link), SpeciesFetch.DownloadRetries).Returned?
    {
      DownloadItemsOutcome(start, folder, items, servers, k);
    }
  }

  /** The whole type loop: for every type, its folder and JSON file exist,
      the JSON file holds the type's list, and each item's MP3 exists exactly
      when its download succeeded (for the last item with a given title);
      later types never touch an earlier type's folder as long as the types'
      folder names differ. */
  lemma {:induction false} WriteAllResult(disk: Disk, downloadDir: string, types: seq<string>,
                                          overview: map<string, seq<Entry>>, servers: string -> Server<()>, i: nat)
    requires forall x :: 0 <= x < |types| ==> types[x] in overview && '/' !in types[x]
    requires forall x, y :: 0 <= x < y < |types| ==> FolderName(types[x]) != FolderName(types[y])
    requires i < |types|
    ensures TypeFolder(downloadDir, types[i]) in WriteAll(disk, downloadDir, types, overview, servers).paths
    ensures JsonPath(downloadDir, types[i]) in WriteAll(disk, downloadDir, types, overview, servers).paths
    ensures JsonPath(downloadDir, types[i]) in WriteAll(disk, downloadDir, types, overview, servers).json
    ensures WriteAll(disk, downloadDir, types, overview, servers).json[JsonPath(downloadDir, types[i])]
      == overview[types[i]]
    ensures forall k :: 0 <= k < |overview[types[i]]| && LastOfTitle(overview[types[i]], k) ==>
      ((Mp3Path(TypeFolder(downloadDir, types[i]), overview[types[i]][k])
          in WriteAll(disk, downloadDir, types, overview, servers).paths) <==>
       Outcome(servers(overview[types[i]][k].link), SpeciesFetch.DownloadRetries).Returned?)
    decreases |types|
  {
    var n := |types|;
    var pre := types[..n - 1];
    var last := types[n - 1];
    var before := WriteAll(disk, downloadDir, pre, overview, servers);
    assert WriteAll(disk, downloadDir, types, overview, servers)
      == WriteType(before, downloadDir, last, overview[last], servers);
    if i == n - 1 {
      WriteTypeResult(before, downloadDir, last, overview[last], servers);
    } else {
      WriteAllResult(disk, downloadDir, pre, overview, servers, i);
      var t := types[i];
      var items := overview[t];
      var name := FolderName(t);
      assert name != FolderName(last);
      assert '/' !in name && '/' !in FolderName(last);
      var folder := TypeFolder(downloadDir, t);
      JoinInFolder(downloadDir, name, name + ".json");
      FolderOfPath(folder, downloadDir, name, FolderName(last));
      WriteTypeElsewhere(before, downloadDir, last, overview[last], servers, folder);
      FolderOfPath(JsonPath(downloadDir, t), downloadDir, name, FolderName(last));
      WriteTypeElsewhere(before, downloadDir, last, overview[last], servers, JsonPath(downloadDir, t));
      forall k | 0 <= k < |items| && LastOfTitle(items, k)
        ensures (Mp3Path(folder, items[k]) in WriteType(before, downloadDir, last, overview[last], servers).paths)
          <==> Outcome(servers(items[k].link), SpeciesFetch.DownloadRetries).Returned?
      {
        JoinInFolder(downloadDir, name, items[k].title + ".mp3");
        FolderOfPath(Mp3Path(folder, items[k]), downloadDir, name, FolderName(last));
        WriteTypeElsewhere(before, downloadDir, last, overview[last], servers, Mp3Path(folder, items[k]));
      }
    }
  }
}
