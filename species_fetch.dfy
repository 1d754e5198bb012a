/** `getDataFile` of the two species-filtered xeno-canto fetchers (three call
    types, and the same with flight calls): walk the result pages from
    `startPage`, fetching each with `fetchWithRetry`; keep rows of the wanted
    species shorter than five minutes whose lower-cased type is wanted and
    still under its quota; stop once every quota is met or a page has no
    results. The row rule is `Selection` with a `SpeciesScript`. */
module SpeciesFetch {
  import opened Wrappers
  import opened Text
  import opened Retry
  import opened Xeno
  import opened Selection

  /** The fetch retries `getDataFile` uses (the default of `fetchWithRetry`). */
  const PageRetries: nat := 3

  /** The download retries (the default of `downloadWithRetry`). */
  const DownloadRetries: nat := 3

  const ThreeTypes: seq<string> := ["song", "call", "alarm call"]
  const ThreeQuotas: map<string, int> := map["song" := 40, "call" := 40, "alarm call" := 40]

  const FlightCallTypes: seq<string> := ["song", "call", "alarm call", "flight call"]
  const FlightCallQuotas: map<string, int> :=
    map["song" := 40, "call" := 40, "alarm call" := 40, "flight call" := 80]

  /** The `while` loop from the `k`-th page of `site` on (page number
      `startPage + k`). Pages after the last one of `site` are result tables
      without data rows, on which the loop returns. */
  function Run(site: seq<Server<Page>>, k: nat, ov: Overview, P: Params): Result<Overview, Answer<Page>>
    decreases |site| - k
  {
    if !SomeBelow(Counts(ov), P) then Ok(ov)
    else if k >= |site| then Ok(ov)
    else
      var o := Outcome(site[k], PageRetries);
      NeverFallsThrough(site[k], PageRetries);
      if o.Threw? then Err(o.error)
      else if o.body.NoTable? || !HasDataRows(o.body.rows) then Ok(ov)
      else Run(site, k + 1, AddRows(ov, o.body.rows, P.startPage + k, P), P)
  }

  /** `getDataFile(maxAmounts, startPage)`: the overview, or the error a page
      fetch rethrew. */
  method GetDataFile(site: seq<Server<Page>>, P: Params) returns (result: Result<Overview, Answer<Page>>)
    ensures result == Run(site, 0, EmptyOverview(P.types), P)
    ensures result.Ok? ==> result.value.Keys == set t | t in P.types
    ensures result.Ok? ==> forall t :: t in result.value ==> |result.value[t]| <= Cap(P.maxAmounts, t)
  {
    var typeCounters: map<string, int> := map t | t in P.types :: 0;
    var overview := EmptyOverview(P.types);
    ghost var final := Run(site, 0, overview, P);
    assert typeCounters == Counts(overview);
    var page := P.startPage;
    var k: nat := 0;
    while SomeBelow(typeCounters, P)
      invariant page == P.startPage + k
      invariant overview.Keys == set t | t in P.types
      invariant typeCounters == Counts(overview)
      invariant forall t :: t in overview ==> |overview[t]| <= Cap(P.maxAmounts, t)
      invariant Run(site, k, overview, P) == final
      decreases |site| - k
    {
      assert SomeBelow(Counts(overview), P);
      if k >= |site| {
        // beyond the last page: a results table without data rows
        RunStep(site, k, overview, P);
        return Ok(overview);
      }
      var pageData, _ := FetchWithRetry(site[k], PageRetries);
      if pageData.FellThrough? {
        // with three attempts `fetchWithRetry` never returns undefined
        assert false;
      }
      if pageData.Threw? {
        RunStep(site, k, overview, P);
        return Err(pageData.error);
      }
      var firstTable := pageData.body;
      if firstTable.NoTable? {
        RunStep(site, k, overview, P);
        return Ok(overview);
      }
      var rows := firstTable.rows;
      if !HasDataRows(rows) {
        RunStep(site, k, overview, P);
        return Ok(overview);
      }
      RunDataStep(site, k, overview, P, rows, page);
      overview, typeCounters := AddPageRows(overview, typeCounters, rows, page, P);
      page := page + 1;
      k := k + 1;
    }
    return Ok(overview);
  }

  // ----- What the selection is, stated without the loops -----

  /** The `k`-th page holds data rows, so the loop goes past it. */
  predicate IsDataPage(site: seq<Server<Page>>, k: nat) {
    k < |site| && Outcome(site[k], PageRetries).Returned? &&
    Outcome(site[k], PageRetries).body.Table? &&
    HasDataRows(Outcome(site[k], PageRetries).body.rows)
  }

  /** The rows of the `k`-th page, when it is a data page. */
  function PageRows(site: seq<Server<Page>>, k: nat): seq<TableRow>
    requires IsDataPage(site, k)
  {
    Outcome(site[k], PageRetries).body.rows
  }

  /** One turn of the `while` loop while some type is below its quota: a data
      page is processed and the loop goes on; any other page ends it. */
  lemma RunStep(site: seq<Server<Page>>, k: nat, ov: Overview, P: Params)
    requires SomeBelow(Counts(ov), P)
    ensures IsDataPage(site, k) ==>
      Run(site, k, ov, P) == Run(site, k + 1, AddRows(ov, PageRows(site, k), P.startPage + k, P), P)
    ensures !IsDataPage(site, k) ==>
      Run(site, k, ov, P) ==
        (if k < |site| && Outcome(site[k], PageRetries).Threw?
         then Err(Outcome(site[k], PageRetries).error) else Ok(ov))
  {
    if k < |site| {
      NeverFallsThrough(site[k], PageRetries);
    }
  }

  /** A data page with rows `rows`, numbered `page`, hands the overview
      with those rows added to the next turn. */
  lemma RunDataStep(site: seq<Server<Page>>, k: nat, ov: Overview, P: Params, rows: seq<TableRow>, page: int)
    requires SomeBelow(Counts(ov), P)
    requires k < |site| && Outcome(site[k], PageRetries).Returned?
    requires Outcome(site[k], PageRetries).body.Table? && Outcome(site[k], PageRetries).body.rows == rows
    requires HasDataRows(rows) && page == P.startPage + k
    ensures Run(site, k, ov, P) == Run(site, k + 1, AddRows(ov, rows, page, P), P)
  {
  }

  /** The first page from `k` on that is not a data page. */
  function StopFrom(site: seq<Server<Page>>, k: nat): (n: nat)
    decreases |site| - k
    ensures k <= n
  {
    if IsDataPage(site, k) then StopFrom(site, k + 1) else k
  }

  /** Every qualifying entry of type `t` on the pages `k` to `n - 1`, in page
      and row order. */
  function Collected(site: seq<Server<Page>>, k: nat, n: nat, t: string, P: Params): seq<Entry>
    decreases n - k
  {
    if k >= n || !IsDataPage(site, k) then []
    else Matching(PageRows(site, k), t, P.startPage + k, P.script) + Collected(site, k + 1, n, t, P)
  }

  /** `res` holds, for each wanted type, the entries of `ov` followed by
      the qualifying entries of that type on the pages from `k` up to the
      first page without results, cut to the type's quota. */
  predicate CollectsFrom(site: seq<Server<Page>>, k: nat, ov: Overview, res: Overview, P: Params) {
    forall t :: t in P.types ==>
      (t in ov && t in res &&
       res[t] == Take(ov[t] + Collected(site, k, StopFrom(site, k), t, P), Cap(P.maxAmounts, t)))
  }

  lemma CollectsWhenFull(site: seq<Server<Page>>, k: nat, ov: Overview, P: Params)
    requires ov.Keys == set t | t in P.types
    requires forall t :: t in ov ==> |ov[t]| <= Cap(P.maxAmounts, t)
    requires !SomeBelow(Counts(ov), P)
    ensures CollectsFrom(site, k, ov, ov, P)
  {
    forall t | t in P.types
      ensures ov[t] == Take(ov[t] + Collected(site, k, StopFrom(site, k), t, P), Cap(P.maxAmounts, t))
    {
      NoneBelowMeansFull(ov, P, t);
      TakeOfFull(ov[t], Collected(site, k, StopFrom(site, k), t, P), Cap(P.maxAmounts, t));
    }
  }

  lemma CollectsAtStop(site: seq<Server<Page>>, k: nat, ov: Overview, P: Params)
    requires ov.Keys == set t | t in P.types
    requires forall t :: t in ov ==> |ov[t]| <= Cap(P.maxAmounts, t)
    requires !IsDataPage(site, k)
    ensures CollectsFrom(site, k, ov, ov, P)
  {
    forall t | t in P.types
      ensures ov[t] == Take(ov[t] + Collected(site, k, StopFrom(site, k), t, P), Cap(P.maxAmounts, t))
    {
      assert Collected(site, k, StopFrom(site, k), t, P) == [];
      assert ov[t] + [] == ov[t];
    }
  }

  lemma CollectsStep(site: seq<Server<Page>>, k: nat, ov: Overview, res: Overview, P: Params)
    requires ov.Keys == set t | t in P.types
    requires forall t :: t in ov ==> |ov[t]| <= Cap(P.maxAmounts, t)
    requires IsDataPage(site, k)
    requires CollectsFrom(site, k + 1, AddRows(ov, PageRows(site, k), P.startPage + k, P), res, P)
    ensures CollectsFrom(site, k, ov, res, P)
  {
    forall t | t in P.types
      ensures t in ov && t in res
      ensures res[t] == Take(ov[t] + Collected(site, k, StopFrom(site, k), t, P), Cap(P.maxAmounts, t))
    {
      CollectsStepOf(site, k, ov, res[t], P, t);
    }
  }

  /** `CollectsStep` for one type. */
  lemma CollectsStepOf(site: seq<Server<Page>>, k: nat, ov: Overview, list: seq<Entry>, P: Params, t: string)
    requires t in P.types && t in ov && |ov[t]| <= Cap(P.maxAmounts, t)
    requires IsDataPage(site, k) && t in AddRows(ov, PageRows(site, k), P.startPage + k, P)
    requires list == Take(AddRows(ov, PageRows(site, k), P.startPage + k, P)[t]
                            + Collected(site, k + 1, StopFrom(site, k + 1), t, P), Cap(P.maxAmounts, t))
    ensures list == Take(ov[t] + Collected(site, k, StopFrom(site, k), t, P), Cap(P.maxAmounts, t))
  {
    var m := Matching(PageRows(site, k), t, P.startPage + k, P.script);
    var later := Collected(site, k + 1, StopFrom(site, k + 1), t, P);
    var cap := Cap(P.maxAmounts, t);
    AddRowsTakes(ov, PageRows(site, k), P.startPage + k, P, t);
    assert list == Take(Take(ov[t] + m, cap) + later, cap);
    TakeTwice(ov[t], m, later, cap);
    CollectedStep(site, k, t, P);
    assert Collected(site, k, StopFrom(site, k), t, P) == m + later;
  }

  /** A data page contributes its matching rows ahead of the later pages. */
  lemma CollectedStep(site: seq<Server<Page>>, k: nat, t: string, P: Params)
    requires IsDataPage(site, k)
    ensures StopFrom(site, k) == StopFrom(site, k + 1)
    ensures Collected(site, k, StopFrom(site, k), t, P)
      == Matching(PageRows(site, k), t, P.startPage + k, P.script) + Collected(site, k + 1, StopFrom(site, k + 1), t, P)
  {
    CollectedUnfold(site, k, StopFrom(site, k + 1), t, P);
  }

  lemma CollectedUnfold(site: seq<Server<Page>>, k: nat, n: nat, t: string, P: Params)
    requires IsDataPage(site, k) && k < n
    ensures Collected(site, k, n, t, P)
      == Matching(PageRows(site, k), t, P.startPage + k, P.script) + Collected(site, k + 1, n, t, P)
  {
  }

  /** The loop from page `k` appends to each list the qualifying entries of
      its type on the pages up to the first page without results, and keeps
      the first ones up to the quota. */
  lemma {:induction false} RunCollects(site: seq<Server<Page>>, k: nat, ov: Overview, P: Params)
    requires ov.Keys == set t | t in P.types
    requires forall t :: t in ov ==> |ov[t]| <= Cap(P.maxAmounts, t)
    ensures Run(site, k, ov, P).Ok? ==> CollectsFrom(site, k, ov, Run(site, k, ov, P).value, P)
    decreases |site| - k
  {
    if !SomeBelow(Counts(ov), P) {
      CollectsWhenFull(site, k, ov, P);
    } else {
      RunStep(site, k, ov, P);
      if !IsDataPage(site, k) {
        CollectsAtStop(site, k, ov, P);
      } else {
        var ov' := AddRows(ov, PageRows(site, k), P.startPage + k, P);
        AddRowsKeepsCaps(ov, PageRows(site, k), P.startPage + k, P);
        RunCollects(site, k + 1, ov', P);
        if Run(site, k, ov, P).Ok? {
          CollectsStep(site, k, ov, Run(site, k, ov, P).value, P);
        }
      }
    }
  }

  /** The overview `getDataFile` returns holds, for each wanted type, the
      first `maxAmounts[type]` qualifying entries of that type in page and row
      order, over the pages before the first page without results. */
  lemma SelectionIsFirstQualifying(site: seq<Server<Page>>, P: Params)
    ensures Run(site, 0, EmptyOverview(P.types), P).Ok? ==>
      forall t :: t in P.types ==>
        (t in Run(site, 0, EmptyOverview(P.types), P).value &&
         Run(site, 0, EmptyOverview(P.types), P).value[t]
           == Take(Collected(site, 0, StopFrom(site, 0), t, P), Cap(P.maxAmounts, t)))
  {
    var ov := EmptyOverview(P.types);
    RunCollects(site, 0, ov, P);
    forall t | t in P.types
      ensures ov[t] + Collected(site, 0, StopFrom(site, 0), t, P) == Collected(site, 0, StopFrom(site, 0), t, P)
    {
    }
  }

  // ----- What a selected entry is -----

  lemma {:induction false} CollectedQualifies(site: seq<Server<Page>>, k: nat, n: nat, t: string, P: Params)
    ensures forall e :: e in Collected(site, k, n, t, P) ==>
      Eligible(P.script, e, t, P.startPage + k, P.startPage + n)
    decreases n - k
  {
    if k < n && IsDataPage(site, k) {
      MatchingQualifies(PageRows(site, k), t, P.startPage + k, P.script);
      CollectedQualifies(site, k + 1, n, t, P);
    }
  }

  /** Every entry of the returned overview is a recording of the wanted
      species, shorter than five minutes, listed under its own lower-cased
      type, and found on a page before the first page without results. */
  lemma SelectedEntriesQualify(site: seq<Server<Page>>, P: Params)
    ensures Run(site, 0, EmptyOverview(P.types), P).Ok? ==>
      forall t :: t in P.types ==>
        (t in Run(site, 0, EmptyOverview(P.types), P).value &&
         ListEligible(P.script, Run(site, 0, EmptyOverview(P.types), P).value[t], t,
                      P.startPage, P.startPage + StopFrom(site, 0)))
  {
    var r := Run(site, 0, EmptyOverview(P.types), P);
    if r.Ok? {
      var hi := P.startPage + StopFrom(site, 0);
      forall t | t in P.types
        ensures t in r.value
        ensures ListEligible(P.script, r.value[t], t, P.startPage, hi)
      {
        SelectionOf(site, P, t);
        ListQualifies(r.value[t], site, t, P);
      }
    }
  }

  /** `SelectionIsFirstQualifying` for one type. */
  lemma SelectionOf(site: seq<Server<Page>>, P: Params, t: string)
    requires t in P.types
    ensures Run(site, 0, EmptyOverview(P.types), P).Ok? ==>
      t in Run(site, 0, EmptyOverview(P.types), P).value &&
      Run(site, 0, EmptyOverview(P.types), P).value[t]
        == Take(Collected(site, 0, StopFrom(site, 0), t, P), Cap(P.maxAmounts, t))
  {
    SelectionIsFirstQualifying(site, P);
  }

  lemma ListQualifies(list: seq<Entry>, site: seq<Server<Page>>, t: string, P: Params)
    requires list == Take(Collected(site, 0, StopFrom(site, 0), t, P), Cap(P.maxAmounts, t))
    ensures ListEligible(P.script, list, t, P.startPage, P.startPage + StopFrom(site, 0))
  {
    CollectedQualifies(site, 0, StopFrom(site, 0), t, P);
    TakeKeeps(Collected(site, 0, StopFrom(site, 0), t, P), Cap(P.maxAmounts, t), P.script, t,
              P.startPage, P.startPage + StopFrom(site, 0));
  }

  /** The keys of the overview never change. */
  lemma {:induction false} RunKeepsKeys(site: seq<Server<Page>>, k: nat, ov: Overview, P: Params)
    requires forall t :: t in ov ==> |ov[t]| <= Cap(P.maxAmounts, t)
    ensures Run(site, k, ov, P).Ok? ==> Run(site, k, ov, P).value.Keys == ov.Keys
    decreases |site| - k
  {
    if SomeBelow(Counts(ov), P) {
      RunStep(site, k, ov, P);
      if IsDataPage(site, k) {
        AddRowsKeepsCaps(ov, PageRows(site, k), P.startPage + k, P);
        RunKeepsKeys(site, k + 1, AddRows(ov, PageRows(site, k), P.startPage + k, P), P);
      }
    }
  }

  lemma ThreeTypeKeys()
    ensures (set t | t in ThreeTypes) == {"song", "call", "alarm call"}
  {
  }

  lemma FlightCallKeys()
    ensures (set t | t in FlightCallTypes) == {"song", "call", "alarm call", "flight call"}
  {
  }

  /** What `main` of the three-type fetcher gets back from
      `getDataFile({song: 40, call: 40, "alarm call": 40}, 1)`: the three
      types as keys, at most 40 entries each, every entry of the wanted
      species, shorter than five minutes, stored under its own type without
      spaces, and found from page 1 on. */
  lemma ThreeTypeOverview(site: seq<Server<Page>>, birdName: string)
    ensures var P := Params(SpeciesScript(birdName), ThreeTypes, ThreeQuotas, 1);
      var r := Run(site, 0, EmptyOverview(ThreeTypes), P);
      r.Ok? ==>
        r.value.Keys == {"song", "call", "alarm call"} &&
        (forall t :: t in r.value ==> |r.value[t]| <= 40) &&
        (forall t, e :: t in r.value && e in r.value[t] ==>
          e.bird == birdName && !TooLong(e.length) && e.typeName == RemoveSpaces(t) && e.page >= 1)
  {
    var P := Params(SpeciesScript(birdName), ThreeTypes, ThreeQuotas, 1);
    QuotasOverview(site, P);
    ThreeTypeKeys();
  }

  /** What `main` of the flight-call fetcher gets back from `getDataFile`
      with quotas of 40 and 80 flight calls: the four types as keys, at most
      40 songs, calls and alarm calls and at most 80 flight calls, every
      entry of the wanted species, shorter than five minutes, stored under
      its own type without spaces, and found from page 1 on. */
  lemma FlightCallOverview(site: seq<Server<Page>>, birdName: string)
    ensures var P := Params(SpeciesScript(birdName), FlightCallTypes, FlightCallQuotas, 1);
      var r := Run(site, 0, EmptyOverview(FlightCallTypes), P);
      r.Ok? ==>
        r.value.Keys == {"song", "call", "alarm call", "flight call"} &&
        |r.value["song"]| <= 40 && |r.value["call"]| <= 40 && |r.value["alarm call"]| <= 40 &&
        |r.value["flight call"]| <= 80 &&
        (forall t, e :: t in r.value && e in r.value[t] ==>
          e.bird == birdName && !TooLong(e.length) && e.typeName == RemoveSpaces(t) && e.page >= 1)
  {
    var P := Params(SpeciesScript(birdName), FlightCallTypes, FlightCallQuotas, 1);
    QuotasOverview(site, P);
    FlightCallKeys();
  }

  /** On success the keys are the wanted types, every list is within its
      quota, and every entry qualifies. */
  lemma QuotasOverview(site: seq<Server<Page>>, P: Params)
    ensures var r := Run(site, 0, EmptyOverview(P.types), P);
      r.Ok? ==>
        r.value.Keys == (set t | t in P.types) &&
        (forall t :: t in r.value ==> |r.value[t]| <= Cap(P.maxAmounts, t)) &&
        (forall t :: t in r.value ==> ListEligible(P.script, r.value[t], t, P.startPage, P.startPage + StopFrom(site, 0)))
  {
    RunKeepsKeys(site, 0, EmptyOverview(P.types), P);
    SelectedEntriesQualify(site, P);
    ListsWithinQuota(site, P);
  }

  lemma ListsWithinQuota(site: seq<Server<Page>>, P: Params)
    ensures var r := Run(site, 0, EmptyOverview(P.types), P);
      r.Ok? ==> forall t :: t in P.types ==> t in r.value && |r.value[t]| <= Cap(P.maxAmounts, t)
  {
    forall t | t in P.types
      ensures Run(site, 0, EmptyOverview(P.types), P).Ok? ==>
        t in Run(site, 0, EmptyOverview(P.types), P).value &&
        |Run(site, 0, EmptyOverview(P.types), P).value[t]| <= Cap(P.maxAmounts, t)
    {
      SelectionOf(site, P, t);
    }
  }
}
