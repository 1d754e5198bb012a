/** The plain xeno-canto fetcher: `getDataFile(maxAmount)` walks the result
    pages from page 1 with one request per page (no retry; a failed request
    rejects the whole run), keeps rows of any species of at most 1:30 whose
    lower-cased type is one of four and still under the common quota, and
    stops once every quota is met or a page has no table rows at all;
    `writeJsonAndDownloadFiles` then writes one folder, JSON file and MP3 per
    entry, keeping the file of a failed download. */
module PlainFetch {
  import opened Wrappers
  import opened Text
  import opened Retry
  import opened Xeno
  import opened Selection
  import SpeciesDownload

  const PlainTypes: seq<string> := ["song", "call", "alarm call", "begging call"]

  /** The quota `main` passes. */
  const PlainMaxAmount: int := 40

  /** The common quota `maxAmount` is the quota of every one of the four types. */
  function PlainParams(maxAmount: int): Params {
    Params(PlainScript, PlainTypes, map t | t in PlainTypes :: maxAmount, 1)
  }

  /** `firstTable.find('tr')`: no rows at all when there is no results table. */
  function AllRows(pg: Page): seq<TableRow> {
    if pg.NoTable? then [] else pg.rows
  }

  /** The `while` loop from the `k`-th page on (page number `k + 1`). Pages
      after the last one of `site` have no results table, on which the loop
      breaks. */
  function Run(site: seq<Answer<Page>>, k: nat, ov: Overview, maxAmount: int): Result<Overview, Answer<Page>>
    decreases |site| - k
  {
    var P := PlainParams(maxAmount);
    if !SomeBelow(Counts(ov), P) then Ok(ov)
    else if k >= |site| then Ok(ov)
    else if !site[k].Delivered? then Err(site[k])
    else if AllRows(site[k].body) == [] then Ok(ov)
    else Run(site, k + 1, AddRows(ov, AllRows(site[k].body), k + 1, P), maxAmount)
  }

  /** `getDataFile(maxAmount)`: the overview, or the error of the first
      failed page request. */
  method GetDataFile(site: seq<Answer<Page>>, maxAmount: int) returns (result: Result<Overview, Answer<Page>>)
    ensures result == Run(site, 0, EmptyOverview(PlainTypes), maxAmount)
    ensures result.Ok? ==> result.value.Keys == set t | t in PlainTypes
    ensures result.Ok? ==> forall t :: t in result.value ==> |result.value[t]| <= Cap(PlainParams(maxAmount).maxAmounts, t)
  {
    var P := PlainParams(maxAmount);
    var typeCounters: map<string, int> := map t | t in PlainTypes :: 0;
    var overview := EmptyOverview(PlainTypes);
    assert typeCounters == Counts(overview);
    var page := 1;
    var k: nat := 0;
    while SomeBelow(typeCounters, P)
      invariant page == k + 1
      invariant overview.Keys == set t | t in P.types
      invariant typeCounters == Counts(overview)
      invariant forall t :: t in overview ==> |overview[t]| <= Cap(P.maxAmounts, t)
      invariant Run(site, k, overview, maxAmount) == Run(site, 0, EmptyOverview(PlainTypes), maxAmount)
      decreases |site| - k
    {
      assert SomeBelow(Counts(overview), P);
      RunStep(site, k, overview, maxAmount);
      if k >= |site| {
        // beyond the last page: no results table, so no rows
        break;
      }
      var pageData := site[k];
      if !pageData.Delivered? {
        return Err(pageData);
      }
      var rows := AllRows(pageData.body);
      if |rows| == 0 {
        break;
      }
      overview, typeCounters := AddPageRows(overview, typeCounters, rows, page, P);
      page := page + 1;
      k := k + 1;
    }
    return Ok(overview);
  }

  /** One turn of the `while` loop while some type is below its quota. */
  lemma RunStep(site: seq<Answer<Page>>, k: nat, ov: Overview, maxAmount: int)
    requires SomeBelow(Counts(ov), PlainParams(maxAmount))
    ensures IsRowPage(site, k) ==>
      Run(site, k, ov, maxAmount) ==
        Run(site, k + 1, AddRows(ov, AllRows(site[k].body), k + 1, PlainParams(maxAmount)), maxAmount)
    ensures !IsRowPage(site, k) ==>
      Run(site, k, ov, maxAmount) == (if k < |site| && !site[k].Delivered? then Err(site[k]) else Ok(ov))
  {
  }

  /** A page whose table holds only a header row adds nothing and the loop
      goes on to the next page (the species-filtered fetchers stop there). */
  lemma HeaderOnlyPageContinues(site: seq<Answer<Page>>, k: nat, ov: Overview, maxAmount: int)
    requires k < |site| && site[k].Delivered? && site[k].body.Table?
    requires site[k].body.rows != [] && forall i :: 0 <= i < |site[k].body.rows| ==> site[k].body.rows[i].HeaderRow?
    requires SomeBelow(Counts(ov), PlainParams(maxAmount))
    ensures Run(site, k, ov, maxAmount) == Run(site, k + 1, ov, maxAmount)
  {
    HeaderRowsAddNothing(ov, site[k].body.rows, k + 1, PlainParams(maxAmount));
  }

  lemma {:induction false} HeaderRowsAddNothing(ov: Overview, rows: seq<TableRow>, page: int, P: Params)
    requires forall i :: 0 <= i < |rows| ==> rows[i].HeaderRow?
    ensures AddRows(ov, rows, page, P) == ov
    decreases |rows|
  {
    if rows != [] {
      HeaderRowsAddNothing(ov, rows[..|rows| - 1], page, P);
    }
  }

  // ----- What the selection is, stated without the loop -----

  /** The `k`-th page was delivered and has table rows, so the loop goes past it. */
  predicate IsRowPage(site: seq<Answer<Page>>, k: nat) {
    k < |site| && site[k].Delivered? && AllRows(site[k].body) != []
  }

  /** The first page from `k` on that is not such a page. */
  function StopFrom(site: seq<Answer<Page>>, k: nat): (n: nat)
    decreases |site| - k
    ensures k <= n
  {
    if IsRowPage(site, k) then StopFrom(site, k + 1) else k
  }

  /** Every qualifying entry of type `t` on the pages `k` to `n - 1`, in page
      and row order. */
  function Collected(site: seq<Answer<Page>>, k: nat, n: nat, t: string): seq<Entry>
    decreases n - k
  {
    if k >= n || !IsRowPage(site, k) then []
    else Matching(AllRows(site[k].body), t, k + 1, PlainScript) + Collected(site, k + 1, n, t)
  }

  predicate CollectsFrom(site: seq<Answer<Page>>, k: nat, ov: Overview, res: Overview, maxAmount: int) {
    forall t :: t in PlainTypes ==>
      (t in ov && t in res &&
       res[t] == Take(ov[t] + Collected(site, k, StopFrom(site, k), t), Cap(PlainParams(maxAmount).maxAmounts, t)))
  }

  lemma CollectsStep(site: seq<Answer<Page>>, k: nat, ov: Overview, res: Overview, maxAmount: int)
    requires ov.Keys == set t | t in PlainTypes
    requires forall t :: t in ov ==> |ov[t]| <= Cap(PlainParams(maxAmount).maxAmounts, t)
    requires IsRowPage(site, k)
    requires CollectsFrom(site, k + 1, AddRows(ov, AllRows(site[k].body), k + 1, PlainParams(maxAmount)), res, maxAmount)
    ensures CollectsFrom(site, k, ov, res, maxAmount)
  {
    var P := PlainParams(maxAmount);
    var rows := AllRows(site[k].body);
    var n := StopFrom(site, k);
    assert n == StopFrom(site, k + 1);
    forall t | t in PlainTypes
      ensures t in ov && t in res
      ensures res[t] == Take(ov[t] + Collected(site, k, n, t), Cap(P.maxAmounts, t))
    {
      assert t in ov;
      AddRowsTakes(ov, rows, k + 1, P, t);
      var m := Matching(rows, t, k + 1, PlainScript);
      var rest := Collected(site, k + 1, n, t);
      assert Collected(site, k, n, t) == m + rest;
      TakeTwice(ov[t], m, rest, Cap(P.maxAmounts, t));
    }
  }

  lemma CollectsAtEnd(site: seq<Answer<Page>>, k: nat, ov: Overview, maxAmount: int)
    requires ov.Keys == set t | t in PlainTypes
    requires forall t :: t in ov ==> |ov[t]| <= Cap(PlainParams(maxAmount).maxAmounts, t)
    requires !IsRowPage(site, k) || !SomeBelow(Counts(ov), PlainParams(maxAmount))
    ensures CollectsFrom(site, k, ov, ov, maxAmount)
  {
    var P := PlainParams(maxAmount);
    forall t | t in PlainTypes
      ensures ov[t] == Take(ov[t] + Collected(site, k, StopFrom(site, k), t), Cap(P.maxAmounts, t))
    {
      if IsRowPage(site, k) {
        NoneBelowMeansFull(ov, P, t);
        TakeOfFull(ov[t], Collected(site, k, StopFrom(site, k), t), Cap(P.maxAmounts, t));
      } else {
        assert Collected(site, k, StopFrom(site, k), t) == [];
        assert ov[t] + [] == ov[t];
      }
    }
  }

  lemma {:induction false} RunCollects(site: seq<Answer<Page>>, k: nat, ov: Overview, maxAmount: int)
    requires ov.Keys == set t | t in PlainTypes
    requires forall t :: t in ov ==> |ov[t]| <= Cap(PlainParams(maxAmount).maxAmounts, t)
    ensures Run(site, k, ov, maxAmount).Ok? ==> CollectsFrom(site, k, ov, Run(site, k, ov, maxAmount).value, maxAmount)
    decreases |site| - k
  {
    var P := PlainParams(maxAmount);
    if !SomeBelow(Counts(ov), P) || !IsRowPage(site, k) {
      CollectsAtEnd(site, k, ov, maxAmount);
    } else {
      var ov' := AddRows(ov, AllRows(site[k].body), k + 1, P);
      AddRowsKeepsCaps(ov, AllRows(site[k].body), k + 1, P);
      RunCollects(site, k + 1, ov', maxAmount);
      if Run(site, k, ov, maxAmount).Ok? {
        CollectsStep(site, k, ov, Run(site, k, ov, maxAmount).value, maxAmount);
      }
    }
  }

  /** The overview holds, for each of the four types, the first `maxAmount`
      rows of that type of at most 1:30, in page and row order, over the pages
      before the first page without table rows. */
  lemma SelectionIsFirstQualifying(site: seq<Answer<Page>>, maxAmount: int)
    ensures Run(site, 0, EmptyOverview(PlainTypes), maxAmount).Ok? ==>
      forall t :: t in PlainTypes ==>
        (t in Run(site, 0, EmptyOverview(PlainTypes), maxAmount).value &&
         Run(site, 0, EmptyOverview(PlainTypes), maxAmount).value[t]
           == Take(Collected(site, 0, StopFrom(site, 0), t), if maxAmount > 0 then maxAmount else 0))
  {
    var ov := EmptyOverview(PlainTypes);
    RunCollects(site, 0, ov, maxAmount);
    forall t | t in PlainTypes
      ensures ov[t] + Collected(site, 0, StopFrom(site, 0), t) == Collected(site, 0, StopFrom(site, 0), t)
      ensures Cap(PlainParams(maxAmount).maxAmounts, t) == if maxAmount > 0 then maxAmount else 0
    {
    }
  }

  /** How the loop ends, stated without it: it fails exactly with the
      answer of the first page it reaches that is neither delivered nor
      without rows (no retry, no skipped page), and succeeds when that page
      was delivered or lies past the last one. */
  lemma {:induction false} RunEnds(site: seq<Answer<Page>>, k: nat, ov: Overview, maxAmount: int)
    ensures Run(site, k, ov, maxAmount).Err? ==>
      (StopFrom(site, k) < |site| && !site[StopFrom(site, k)].Delivered? &&
       Run(site, k, ov, maxAmount) == Err(site[StopFrom(site, k)]))
    ensures (StopFrom(site, k) >= |site| || site[StopFrom(site, k)].Delivered?) ==>
      Run(site, k, ov, maxAmount).Ok?
    decreases |site| - k
  {
    var P := PlainParams(maxAmount);
    if SomeBelow(Counts(ov), P) && IsRowPage(site, k) {
      RunEnds(site, k + 1, AddRows(ov, AllRows(site[k].body), k + 1, P), maxAmount);
    }
  }

  /** The overview after adding the rows of every page with rows from `k`
      on, whatever the quotas. */
  function Reached(site: seq<Answer<Page>>, k: nat, ov: Overview, maxAmount: int): Overview
    decreases |site| - k
  {
    if IsRowPage(site, k)
    then Reached(site, k + 1, AddRows(ov, AllRows(site[k].body), k + 1, PlainParams(maxAmount)), maxAmount)
    else ov
  }

  /** Once no counter is below its quota, a row adds nothing. */
  lemma FullAddRow(ov: Overview, tr: TableRow, page: int, P: Params)
    requires !SomeBelow(Counts(ov), P)
    ensures AddRow(ov, tr, page, P) == ov
  {
    if Qualifies(tr, P.script) {
      var t := TypeKey(tr.row);
      if t in P.types && t in ov {
        var i :| 0 <= i < |P.types| && P.types[i] == t;
        assert t in Counts(ov) && Counts(ov)[t] == |ov[t]|;
      }
    }
  }

  lemma {:induction false} FullAddsNothing(ov: Overview, rows: seq<TableRow>, page: int, P: Params)
    requires !SomeBelow(Counts(ov), P)
    ensures AddRows(ov, rows, page, P) == ov
    decreases |rows|
  {
    if rows != [] {
      FullAddsNothing(ov, rows[..|rows| - 1], page, P);
      FullAddRow(ov, rows[|rows| - 1], page, P);
    }
  }

  lemma {:induction false} ReachedWhenFull(site: seq<Answer<Page>>, k: nat, ov: Overview, maxAmount: int)
    requires !SomeBelow(Counts(ov), PlainParams(maxAmount))
    ensures Reached(site, k, ov, maxAmount) == ov
    decreases |site| - k
  {
    if IsRowPage(site, k) {
      FullAddsNothing(ov, AllRows(site[k].body), k + 1, PlainParams(maxAmount));
      ReachedWhenFull(site, k + 1, ov, maxAmount);
    }
  }

  /** The run fails exactly when the page where it stops was not delivered
      and some counter is still below `maxAmount` after the rows of every
      earlier page. */
  lemma {:induction false} RunFails(site: seq<Answer<Page>>, k: nat, ov: Overview, maxAmount: int)
    ensures Run(site, k, ov, maxAmount).Err? <==>
      StopFrom(site, k) < |site| && !site[StopFrom(site, k)].Delivered? &&
      SomeBelow(Counts(Reached(site, k, ov, maxAmount)), PlainParams(maxAmount))
    decreases |site| - k
  {
    var P := PlainParams(maxAmount);
    if !SomeBelow(Counts(ov), P) {
      ReachedWhenFull(site, k, ov, maxAmount);
    } else {
      RunStep(site, k, ov, maxAmount);
      if IsRowPage(site, k) {
        RunFails(site, k + 1, AddRows(ov, AllRows(site[k].body), k + 1, P), maxAmount);
      }
    }
  }

  /** The keys of the overview never change. */
  lemma {:induction false} RunKeepsKeys(site: seq<Answer<Page>>, k: nat, ov: Overview, maxAmount: int)
    requires forall t :: t in ov ==> |ov[t]| <= Cap(PlainParams(maxAmount).maxAmounts, t)
    ensures Run(site, k, ov, maxAmount).Ok? ==> Run(site, k, ov, maxAmount).value.Keys == ov.Keys
    decreases |site| - k
  {
    var P := PlainParams(maxAmount);
    if SomeBelow(Counts(ov), P) {
      RunStep(site, k, ov, maxAmount);
      if IsRowPage(site, k) {
        AddRowsKeepsCaps(ov, AllRows(site[k].body), k + 1, P);
        RunKeepsKeys(site, k + 1, AddRows(ov, AllRows(site[k].body), k + 1, P), maxAmount);
      }
    }
  }

  /** What `main` gets back from `getDataFile(40)`: the four types as keys,
      at most 40 entries each, every entry at most 1:30 long, stored under
      its own type, and found from page 1 on. */
  lemma PlainOverview(site: seq<Answer<Page>>)
    ensures var r := Run(site, 0, EmptyOverview(PlainTypes), PlainMaxAmount);
      r.Ok? ==>
        r.value.Keys == {"song", "call", "alarm call", "begging call"} &&
        (forall t :: t in r.value ==> |r.value[t]| <= 40) &&
        (forall t, e :: t in r.value && e in r.value[t] ==>
          !TooLongPlain(e.length) && e.typeName == t && e.page >= 1)
  {
    RunKeepsKeys(site, 0, EmptyOverview(PlainTypes), PlainMaxAmount);
    SelectedEntriesQualify(site, PlainMaxAmount);
    SelectionIsFirstQualifying(site, PlainMaxAmount);
    PlainKeys();
  }

  lemma PlainKeys()
    ensures (set t | t in PlainTypes) == {"song", "call", "alarm call", "begging call"}
  {
  }

  /** Every entry of `ov` is at most 1:30 long, listed under its own
      lower-cased type, one of the four, and found on a page before `hi`. */
  predicate AllEligible(ov: Overview, hi: int) {
    forall t :: t in PlainTypes ==> t in ov && ListEligible(PlainScript, ov[t], t, 1, hi)
  }

  /** Every entry of the returned overview is at most 1:30 long, listed under
      its own lower-cased type, and found on a page before the first page
      without rows. */
  lemma SelectedEntriesQualify(site: seq<Answer<Page>>, maxAmount: int)
    ensures Run(site, 0, EmptyOverview(PlainTypes), maxAmount).Ok? ==>
      AllEligible(Run(site, 0, EmptyOverview(PlainTypes), maxAmount).value, 1 + StopFrom(site, 0))
  {
    var r := Run(site, 0, EmptyOverview(PlainTypes), maxAmount);
    if r.Ok? {
      SelectionIsFirstQualifying(site, maxAmount);
      OverviewQualifies(site, maxAmount, r.value);
    }
  }

  /** An overview holding, for each type, the first qualifying entries up to
      the quota holds only eligible entries. */
  lemma OverviewQualifies(site: seq<Answer<Page>>, maxAmount: int, ov: Overview)
    requires forall t :: t in PlainTypes ==>
      (t in ov && ov[t] == Take(Collected(site, 0, StopFrom(site, 0), t), if maxAmount > 0 then maxAmount else 0))
    ensures AllEligible(ov, 1 + StopFrom(site, 0))
  {
    forall t | t in PlainTypes
      ensures t in ov && ListEligible(PlainScript, ov[t], t, 1, 1 + StopFrom(site, 0))
    {
      ListQualifies(ov[t], site, t, maxAmount);
    }
  }

  lemma ListQualifies(list: seq<Entry>, site: seq<Answer<Page>>, t: string, maxAmount: int)
    requires list == Take(Collected(site, 0, StopFrom(site, 0), t), if maxAmount > 0 then maxAmount else 0)
    ensures ListEligible(PlainScript, list, t, 1, 1 + StopFrom(site, 0))
  {
    CollectedQualifies(site, 0, StopFrom(site, 0), t);
    TakeKeeps(Collected(site, 0, StopFrom(site, 0), t), if maxAmount > 0 then maxAmount else 0, PlainScript, t,
              1, 1 + StopFrom(site, 0));
  }

  lemma {:induction false} CollectedQualifies(site: seq<Answer<Page>>, k: nat, n: nat, t: string)
    ensures forall e :: e in Collected(site, k, n, t) ==> Eligible(PlainScript, e, t, 1 + k, 1 + n)
    decreases n - k
  {
    if k < n && IsRowPage(site, k) {
      MatchingQualifies(AllRows(site[k].body), t, k + 1, PlainScript);
      CollectedQualifies(site, k + 1, n, t);
    }
  }


  // ----- What ends up on disk -----

  /** `path.join(downloadDir, type)`: the folder keeps the type's spaces. */
  function TypeFolder(downloadDir: string, t: string): string {
    JsJoin(downloadDir, t)
  }

  function JsonPath(downloadDir: string, t: string): string {
    JsJoin(TypeFolder(downloadDir, t), t + ".json")
  }

  /** The files and the MP3 files whose download stream finished. */
  datatype Files = Files(disk: SpeciesDownload.Disk, finished: set<string>)

  /** `createWriteStream(fileName)` creates each item's file before its
      download starts; nothing removes it when the download fails. */
  function Mp3Files(folder: string, items: seq<Entry>): set<string> {
    set e | e in items :: SpeciesDownload.Mp3Path(folder, e)
  }

  lemma Mp3FilesSnoc(folder: string, items: seq<Entry>, j: nat)
    requires j < |items|
    ensures Mp3Files(folder, items[..j + 1]) == Mp3Files(folder, items[..j]) + {SpeciesDownload.Mp3Path(folder, items[j])}
  {
    assert items[..j + 1] == items[..j] + [items[j]];
  }

  /** After the item loop, which files hold a finished download: each item
      reopens (truncates) its file, and only a delivered download finishes
      it. `downloads` gives the answer to each link. */
  function Finished(done: set<string>, folder: string, items: seq<Entry>,
                    downloads: string -> Answer<()>): set<string>
    decreases |items|
  {
    if items == [] then done
    else
      var last := items[|items| - 1];
      var f := SpeciesDownload.Mp3Path(folder, last);
      var before := Finished(done, folder, items[..|items| - 1], downloads);
      if downloads(last.link).Delivered? then before + {f} else before - {f}
  }

  /** One turn of the type loop. */
  function WriteType(files: Files, downloadDir: string, t: string, items: seq<Entry>,
                     downloads: string -> Answer<()>): Files {
    var folder := TypeFolder(downloadDir, t);
    var jsonPath := JsonPath(downloadDir, t);
    Files(SpeciesDownload.Disk(files.disk.paths + {folder} + {jsonPath} + Mp3Files(folder, items),
                               files.disk.json[jsonPath := items]),
          Finished(files.finished, folder, items, downloads))
  }

  /** The type loop over the overview's keys in their order. */
  function WriteAll(files: Files, downloadDir: string, types: seq<string>,
                    overview: map<string, seq<Entry>>, downloads: string -> Answer<()>): Files
    requires forall i :: 0 <= i < |types| ==> types[i] in overview
    decreases |types|
  {
    if types == [] then files
    else
      var t := types[|types| - 1];
      WriteType(WriteAll(files, downloadDir, types[..|types| - 1], overview, downloads),
                downloadDir, t, overview[t], downloads)
  }

  /** `writeJsonAndDownloadFiles(overview)`; `types` lists the overview's
      keys in insertion order. */
  method WriteJsonAndDownloadFiles(files: Files, downloadDir: string, types: seq<string>,
                                   overview: map<string, seq<Entry>>, downloads: string -> Answer<()>)
    returns (files': Files)
    requires forall i :: 0 <= i < |types| ==> types[i] in overview
    ensures files' == WriteAll(files, downloadDir, types, overview, downloads)
  {
    files' := files;
    var i := 0;
    while i < |types|
      invariant 0 <= i <= |types|
      invariant files' == WriteAll(files, downloadDir, types[..i], overview, downloads)
    {
      assert types[..i + 1][..i] == types[..i];
      var t := types[i];
      var typeFolder := JsJoin(downloadDir, t);
      var paths := files'.disk.paths;
      if typeFolder !in paths {
        paths := paths + {typeFolder};
      }
      var jsonFilePath := JsJoin(typeFolder, t + ".json");
      paths := paths + {jsonFilePath};
      var json := files'.disk.json[jsonFilePath := overview[t]];
      var items := overview[t];
      var finished: set<string>;
      paths, finished := DownloadItems(paths, files'.finished, typeFolder, items, downloads);
      assert Files(SpeciesDownload.Disk(paths, json), finished) == WriteType(files', downloadDir, t, items, downloads);
      files' := Files(SpeciesDownload.Disk(paths, json), finished);
      i := i + 1;
    }
    assert types[..|types|] == types;
  }

  /** The item loop of one type: each item's file is created, and it holds a
      finished download exactly when its request was delivered. */
  method DownloadItems(paths: set<string>, finished: set<string>, typeFolder: string, items: seq<Entry>,
                       downloads: string -> Answer<()>)
    returns (paths': set<string>, finished': set<string>)
    ensures paths' == paths + Mp3Files(typeFolder, items)
    ensures finished' == Finished(finished, typeFolder, items, downloads)
  {
    paths', finished' := paths, finished;
    var j := 0;
    while j < |items|
      invariant 0 <= j <= |items|
      invariant paths' == paths + Mp3Files(typeFolder, items[..j])
      invariant finished' == Finished(finished, typeFolder, items[..j], downloads)
    {
      assert items[..j + 1][..j] == items[..j];
      Mp3FilesSnoc(typeFolder, items, j);
      var fileName := JsJoin(typeFolder, items[j].title + ".mp3");
      paths' := paths' + {fileName};
      var answer := downloads(items[j].link);
      if answer.Delivered? {
        finished' := finished' + {fileName};
      } else {
        // the error is caught and logged; the file stays
        finished' := finished' - {fileName};
      }
      j := j + 1;
    }
    assert items[..|items|] == items;
  }

  /** Every type's folder, its JSON file and the MP3 file of every one of its
      entries exist afterwards, whether or not the downloads succeeded. */
  lemma {:induction false} AllFilesExist(files: Files, downloadDir: string, types: seq<string>,
                                         overview: map<string, seq<Entry>>, downloads: string -> Answer<()>, i: nat)
    requires forall x :: 0 <= x < |types| ==> types[x] in overview
    requires i < |types|
    ensures TypeFolder(downloadDir, types[i]) in WriteAll(files, downloadDir, types, overview, downloads).disk.paths
    ensures JsonPath(downloadDir, types[i]) in WriteAll(files, downloadDir, types, overview, downloads).disk.paths
    ensures forall e :: e in overview[types[i]] ==>
      SpeciesDownload.Mp3Path(TypeFolder(downloadDir, types[i]), e)
        in WriteAll(files, downloadDir, types, overview, downloads).disk.paths
    decreases |types|
  {
    var n := |types|;
    if i < n - 1 {
      AllFilesExist(files, downloadDir, types[..n - 1], overview, downloads, i);
    }
  }

  /** The item loop leaves a file that is no item's MP3 as it was. */
  lemma {:induction false} FinishedElsewhere(done: set<string>, folder: string, items: seq<Entry>,
                                             downloads: string -> Answer<()>, p: string)
    requires forall j :: 0 <= j < |items| ==> p != SpeciesDownload.Mp3Path(folder, items[j])
    ensures p in Finished(done, folder, items, downloads) <==> p in done
    decreases |items|
  {
    if items != [] {
      FinishedElsewhere(done, folder, items[..|items| - 1], downloads, p);
    }
  }

  /** An item's file holds a finished download exactly when its download was
      delivered, provided no later item of the list has the same title. */
  lemma {:induction false} FinishedOutcome(done: set<string>, folder: string, items: seq<Entry>,
                                           downloads: string -> Answer<()>, k: nat)
    requires k < |items| && SpeciesDownload.LastOfTitle(items, k)
    ensures SpeciesDownload.Mp3Path(folder, items[k]) in Finished(done, folder, items, downloads)
      <==> downloads(items[k].link).Delivered?
    decreases |items|
  {
    if k < |items| - 1 {
      FinishedOutcome(done, folder, items[..|items| - 1], downloads, k);
      var last := items[|items| - 1];
      var f := SpeciesDownload.Mp3Path(folder, items[k]);
      assert last.title != items[k].title;
      assert SpeciesDownload.Mp3Path(folder, last) != f by {
        if |last.title| == |items[k].title| {
          var i :| 0 <= i < |last.title| && last.title[i] != items[k].title[i];
          assert SpeciesDownload.Mp3Path(folder, last)[|folder| + 1 + i] == last.title[i];
          assert f[|folder| + 1 + i] == items[k].title[i];
        }
      }
    }
  }

  /** Handling type `t` changes nothing outside its folder. */
  lemma WriteTypeElsewhere(files: Files, downloadDir: string, t: string, items: seq<Entry>,
                           downloads: string -> Answer<()>, p: string)
    requires !SpeciesDownload.InFolder(p, downloadDir, t)
    ensures p in WriteType(files, downloadDir, t, items, downloads).disk.json <==> p in files.disk.json
    ensures p in files.disk.json ==> WriteType(files, downloadDir, t, items, downloads).disk.json[p] == files.disk.json[p]
    ensures p in WriteType(files, downloadDir, t, items, downloads).finished <==> p in files.finished
  {
    var folder := TypeFolder(downloadDir, t);
    SpeciesDownload.JoinInFolder(downloadDir, t, t + ".json");
    forall j | 0 <= j < |items| ensures p != SpeciesDownload.Mp3Path(folder, items[j]) {
      SpeciesDownload.JoinInFolder(downloadDir, t, items[j].title + ".mp3");
    }
    FinishedElsewhere(files.finished, folder, items, downloads, p);
  }

  /** The whole type loop: each type's JSON file holds the type's list, and an
      entry's MP3 holds a finished download exactly when its download was
      delivered (for the last entry with a given title), as long as type
      names hold no slash and differ. */
  lemma {:induction false} WriteAllResult(files: Files, downloadDir: string, types: seq<string>,
                                          overview: map<string, seq<Entry>>, downloads: string -> Answer<()>, i: nat)
    requires forall x :: 0 <= x < |types| ==> types[x] in overview && '/' !in types[x]
    requires forall x, y :: 0 <= x < y < |types| ==> types[x] != types[y]
    requires i < |types|
    ensures JsonPath(downloadDir, types[i]) in WriteAll(files, downloadDir, types, overview, downloads).disk.json
    ensures WriteAll(files, downloadDir, types, overview, downloads).disk.json[JsonPath(downloadDir, types[i])]
      == overview[types[i]]
    ensures forall k :: 0 <= k < |overview[types[i]]| && SpeciesDownload.LastOfTitle(overview[types[i]], k) ==>
      ((SpeciesDownload.Mp3Path(TypeFolder(downloadDir, types[i]), overview[types[i]][k])
          in WriteAll(files, downloadDir, types, overview, downloads).finished) <==>
       downloads(overview[types[i]][k].link).Delivered?)
    decreases |types|
  {
    var n := |types|;
    var pre := types[..n - 1];
    var last := types[n - 1];
    var before := WriteAll(files, downloadDir, pre, overview, downloads);
    assert WriteAll(files, downloadDir, types, overview, downloads)
      == WriteType(before, downloadDir, last, overview[last], downloads);
    var t := types[i];
    var items := overview[t];
    var folder := TypeFolder(downloadDir, t);
    if i == n - 1 {
      forall k | 0 <= k < |items| && SpeciesDownload.LastOfTitle(items, k)
        ensures (SpeciesDownload.Mp3Path(folder, items[k]) in Finished(before.finished, folder, items, downloads))
          <==> downloads(items[k].link).Delivered?
      {
        FinishedOutcome(before.finished, folder, items, downloads, k);
      }
    } else {
      WriteAllResult(files, downloadDir, pre, overview, downloads, i);
      assert t != last;
      SpeciesDownload.JoinInFolder(downloadDir, t, t + ".json");
      SpeciesDownload.FolderOfPath(JsonPath(downloadDir, t), downloadDir, t, last);
      WriteTypeElsewhere(before, downloadDir, last, overview[last], downloads, JsonPath(downloadDir, t));
      forall k | 0 <= k < |items| && SpeciesDownload.LastOfTitle(items, k)
        ensures (SpeciesDownload.Mp3Path(folder, items[k])
                   in WriteType(before, downloadDir, last, overview[last], downloads).finished)
          <==> downloads(items[k].link).Delivered?
      {
        SpeciesDownload.JoinInFolder(downloadDir, t, items[k].title + ".mp3");
        SpeciesDownload.FolderOfPath(SpeciesDownload.Mp3Path(folder, items[k]), downloadDir, t, last);
        WriteTypeElsewhere(before, downloadDir, last, overview[last], downloads, SpeciesDownload.Mp3Path(folder, items[k]));
      }
    }
  }
}
