/** The row rule shared by the xeno-canto fetchers: which rows of a result
    page are taken, under which type, and as what record, and how one page's
    rows fill the per-type lists up to their quotas (the `rows.each`
    callback). The species-filtered fetchers and the plain fetcher differ
    only in the row test and in how the record's title and type are built. */
module Selection {
  import opened Text
  import opened Xeno

  /** Which fetcher's row rule applies: the species-filtered fetchers (three
      types, and with flight calls), which keep rows of one species shorter
      than five minutes; or the plain fetcher, which keeps any species up to
      1:30. */
  datatype Script = SpeciesScript(birdName: string) | PlainScript

  /** The inputs of one run: the row rule, the type keys of
      `typeCounters`/`overview` in their order, the quota of each type, and
      the first page. The plain fetcher's single `maxAmount` is the same quota
      for every type. */
  datatype Params = Params(script: Script, types: seq<string>,
                           maxAmounts: map<string, int>, startPage: int)

  type Overview = map<string, seq<Entry>>

  function EmptyOverview(types: seq<string>): (ov: Overview)
    ensures ov.Keys == set t | t in types
    ensures forall t :: t in ov ==> ov[t] == []
  {
    map t | t in types :: []
  }

  /** The counter of every type: how many entries its list holds. */
  function Counts(ov: Overview): map<string, int> {
    map t | t in ov :: |ov[t]|
  }

  /** The `while` condition: some type's counter is below its quota. */
  predicate SomeBelow(counters: map<string, int>, P: Params) {
    exists i :: 0 <= i < |P.types| && P.types[i] in counters &&
      Below(counters[P.types[i]], P.maxAmounts, P.types[i])
  }

  /** `const [minutes] = length.split(':').map(Number)` and
      `minutes > 5 || minutes === 5`. */
  predicate TooLong(length: string) {
    var minutes := FieldNumber(length, 0);
    Greater(minutes, 5) || Equals(minutes, 5)
  }

  /** `const [minutes, seconds] = length.split(':').map(Number)` and
      `minutes > 1 || (minutes === 1 && seconds > 30)`. */
  predicate TooLongPlain(length: string) {
    var minutes := FieldNumber(length, 0);
    var seconds := FieldNumber(length, 1);
    Greater(minutes, 1) || (Equals(minutes, 1) && Greater(seconds, 30))
  }

  /** The row test that comes before the type and quota test. */
  predicate Accepts(script: Script, r: Row) {
    match script
    case SpeciesScript(birdName) => r.bird == birdName && !TooLong(r.length)
    case PlainScript => !TooLongPlain(r.length)
  }

  /** The type key of a row: its trimmed type cell, lower-cased. */
  function TypeKey(r: Row): string {
    ToLower(r.typeText)
  }

  /** The species-filtered title:
      `${bird}_(${length.replace(':', '_')})_${country.replace(' ', '')}_${Type.replace(' ', '')}_${Quality}` */
  function Title(r: Row): string {
    r.bird + "_(" + ReplaceFirst(r.length, ":", "_") + ")_" + ReplaceFirst(r.country, " ", "")
      + "_" + ReplaceFirst(TypeKey(r), " ", "") + "_" + r.quality
  }

  /** The plain title: `${bird}_(${length.replace(':', '_')})_${country}_${Type}_${Quality}` */
  function PlainTitle(r: Row): string {
    r.bird + "_(" + ReplaceFirst(r.length, ":", "_") + ")_" + r.country + "_" + TypeKey(r) + "_" + r.quality
  }

  /** The record pushed for a row found on `page`. The species-filtered
      fetchers store the type with every space removed, the plain one as is. */
  function EntryOf(script: Script, r: Row, page: int): Entry {
    match script
    case SpeciesScript(_) =>
      Entry(Title(r), r.bird, r.length, r.country, RemoveSpaces(TypeKey(r)), r.quality, r.link, page)
    case PlainScript =>
      Entry(PlainTitle(r), r.bird, r.length, r.country, TypeKey(r), r.quality, r.link, page)
  }

  /** A data row that passes the row test. */
  predicate Qualifies(tr: TableRow, script: Script) {
    tr.DataRow? && Accepts(script, tr.row)
  }

  /** The body of `rows.each` for one row. */
  function AddRow(ov: Overview, tr: TableRow, page: int, P: Params): Overview {
    if !Qualifies(tr, P.script) then ov
    else
      var t := TypeKey(tr.row);
      if t in P.types && t in ov && Below(|ov[t]|, P.maxAmounts, t)
      then ov[t := ov[t] + [EntryOf(P.script, tr.row, page)]]
      else ov
  }

  /** `rows.each` over a whole page. */
  function AddRows(ov: Overview, rows: seq<TableRow>, page: int, P: Params): Overview
    decreases |rows|
  {
    if rows == [] then ov
    else AddRow(AddRows(ov, rows[..|rows| - 1], page, P), rows[|rows| - 1], page, P)
  }

  /** `rows.each(...)` on one page: the callback run on every row in turn. */
  method AddPageRows(overview: Overview, typeCounters: map<string, int>, rows: seq<TableRow>, page: int, P: Params)
    returns (overview': Overview, typeCounters': map<string, int>)
    requires overview.Keys == set t | t in P.types
    requires typeCounters == Counts(overview)
    requires forall t :: t in overview ==> |overview[t]| <= Cap(P.maxAmounts, t)
    ensures overview' == AddRows(overview, rows, page, P)
    ensures typeCounters' == Counts(overview')
    ensures overview'.Keys == overview.Keys
    ensures forall t :: t in overview' ==> |overview'[t]| <= Cap(P.maxAmounts, t)
  {
    overview', typeCounters' := overview, typeCounters;
    var j := 0;
    while j < |rows|
      invariant 0 <= j <= |rows|
      invariant overview' == AddRows(overview, rows[..j], page, P)
      invariant overview'.Keys == set t | t in P.types
      invariant typeCounters' == Counts(overview')
      invariant forall t :: t in overview' ==> |overview'[t]| <= Cap(P.maxAmounts, t)
    {
      assert rows[..j + 1][..j] == rows[..j];
      AddRowKeepsCaps(overview', rows[j], page, P);
      overview', typeCounters' := HandleRow(overview', typeCounters', rows[j], page, P);
      j := j + 1;
    }
    assert rows[..|rows|] == rows;
  }

  /** The `rows.each` callback on one row. */
  method HandleRow(overview: Overview, typeCounters: map<string, int>, row: TableRow, page: int, P: Params)
    returns (overview': Overview, typeCounters': map<string, int>)
    requires overview.Keys == set t | t in P.types
    requires typeCounters == Counts(overview)
    ensures overview' == AddRow(overview, row, page, P)
    ensures typeCounters' == Counts(overview')
  {
    overview', typeCounters' := overview, typeCounters;
    if row.DataRow? {
      var r := row.row;
      if Accepts(P.script, r) {
        var t := TypeKey(r);
        if t in P.types && Below(typeCounters[t], P.maxAmounts, t) {
          overview' := overview[t := overview[t] + [EntryOf(P.script, r, page)]];
          typeCounters' := typeCounters[t := typeCounters[t] + 1];
        }
      }
    }
  }

  lemma AddRowKeepsCaps(ov: Overview, tr: TableRow, page: int, P: Params)
    requires forall t :: t in ov ==> |ov[t]| <= Cap(P.maxAmounts, t)
    ensures AddRow(ov, tr, page, P).Keys == ov.Keys
    ensures forall t :: t in ov ==> |AddRow(ov, tr, page, P)[t]| <= Cap(P.maxAmounts, t)
  {
    if Qualifies(tr, P.script) {
      var t := TypeKey(tr.row);
      if t in ov {
        BelowIsUnderCap(|ov[t]|, P.maxAmounts, t);
      }
    }
  }

  // ----- What one page adds, stated without the loop -----

  /** The entries of type `t` that the rows of one page qualify, in row order. */
  function Matching(rows: seq<TableRow>, t: string, page: int, script: Script): seq<Entry>
    decreases |rows|
  {
    if rows == [] then []
    else
      var last := rows[|rows| - 1];
      Matching(rows[..|rows| - 1], t, page, script)
        + (if Qualifies(last, script) && TypeKey(last.row) == t then [EntryOf(script, last.row, page)] else [])
  }

  /** One page adds to each wanted type's list the qualifying rows of that
      type, in row order, until the list reaches its quota. */
  lemma {:induction false} AddRowsTakes(ov: Overview, rows: seq<TableRow>, page: int, P: Params, t: string)
    requires t in P.types && t in ov && |ov[t]| <= Cap(P.maxAmounts, t)
    ensures t in AddRows(ov, rows, page, P)
    ensures AddRows(ov, rows, page, P)[t] == Take(ov[t] + Matching(rows, t, page, P.script), Cap(P.maxAmounts, t))
    ensures AddRows(ov, rows, page, P).Keys == ov.Keys
    decreases |rows|
  {
    if rows == [] {
      assert ov[t] + [] == ov[t];
    } else {
      var init := rows[..|rows| - 1];
      AddRowsTakes(ov, init, page, P, t);
      AddRowTakes(AddRows(ov, init, page, P), rows[|rows| - 1], page, P, t, ov[t], Matching(init, t, page, P.script));
    }
  }

  /** One row extends a type's list, cut to its quota, by the row's entry
      when the row qualifies and is of that type. */
  lemma AddRowTakes(mid: Overview, tr: TableRow, page: int, P: Params, t: string, base: seq<Entry>, m: seq<Entry>)
    requires t in P.types && t in mid && mid[t] == Take(base + m, Cap(P.maxAmounts, t))
    ensures t in AddRow(mid, tr, page, P) && AddRow(mid, tr, page, P).Keys == mid.Keys
    ensures AddRow(mid, tr, page, P)[t] ==
      Take(base + (m + if Qualifies(tr, P.script) && TypeKey(tr.row) == t then [EntryOf(P.script, tr.row, page)] else []),
           Cap(P.maxAmounts, t))
  {
    var cap := Cap(P.maxAmounts, t);
    var extra := if Qualifies(tr, P.script) && TypeKey(tr.row) == t then [EntryOf(P.script, tr.row, page)] else [];
    BelowIsUnderCap(|mid[t]|, P.maxAmounts, t);
    if |base + m| >= cap {
      TakeOfFull(base + m, extra, cap);
    }
    assert base + (m + extra) == (base + m) + extra;
  }

  lemma {:induction false} AddRowsKeepsCaps(ov: Overview, rows: seq<TableRow>, page: int, P: Params)
    requires forall t :: t in ov ==> |ov[t]| <= Cap(P.maxAmounts, t)
    ensures AddRows(ov, rows, page, P).Keys == ov.Keys
    ensures forall t :: t in AddRows(ov, rows, page, P) ==> |AddRows(ov, rows, page, P)[t]| <= Cap(P.maxAmounts, t)
    decreases |rows|
  {
    if rows != [] {
      AddRowsKeepsCaps(ov, rows[..|rows| - 1], page, P);
      AddRowKeepsCaps(AddRows(ov, rows[..|rows| - 1], page, P), rows[|rows| - 1], page, P);
    }
  }

  /** Once no type is below its quota, every list is exactly at its quota. */
  lemma NoneBelowMeansFull(ov: Overview, P: Params, t: string)
    requires t in P.types && t in ov && |ov[t]| <= Cap(P.maxAmounts, t)
    requires !SomeBelow(Counts(ov), P)
    ensures |ov[t]| == Cap(P.maxAmounts, t)
  {
    var i :| 0 <= i < |P.types| && P.types[i] == t;
    assert P.types[i] in Counts(ov);
    BelowIsUnderCap(|ov[t]|, P.maxAmounts, t);
  }

  /** The first field of a length is the text before its first colon, or
      the whole length when it has none. */
  lemma FirstField(a: string, rest: string)
    requires forall i :: 0 <= i < |a| ==> a[i] != ':'
    ensures Find(a + ":" + rest, ":") == |a|
    ensures FieldNumber(a + ":" + rest, 0) == ToNumber(a)
    ensures FieldNumber(a, 0) == ToNumber(a)
  {
    var s := a + ":" + rest;
    assert OccursAt(s, ":", |a|) by { assert s[|a|..|a| + 1] == ":"; }
    forall j | 0 <= j < |a| ensures !OccursAt(s, ":", j) {
      assert s[j..j + 1][0] == a[j];
    }
    assert Find(s, ":") == |a|;
    assert s[..|a|] == a;
    forall j | 0 <= j && j + 1 <= |a| ensures !OccursAt(a, ":", j) {
      assert a[j..j + 1][0] == a[j];
    }
    assert Find(a, ":") == -1;
  }

  /** The second field of a length with one colon is the text after it. */
  lemma SecondField(a: string, b: string)
    requires forall i :: 0 <= i < |a| ==> a[i] != ':'
    requires forall i :: 0 <= i < |b| ==> b[i] != ':'
    ensures FieldNumber(a + ":" + b, 1) == ToNumber(b)
  {
    var s := a + ":" + b;
    FirstField(a, b);
    assert s[|a| + 1..] == b;
    assert Field(s, 1) == Field(b, 0);
    FirstField(b, "");
  }

  /** A length written as whole minutes, a colon and anything else is too
      long exactly from five minutes on; so is a length without a colon. */
  lemma TooLongOfMinutes(m: nat, rest: string)
    ensures TooLong(NatToString(m) + ":" + rest) <==> m >= 5
    ensures TooLong(NatToString(m)) <==> m >= 5
  {
    var d := NatToString(m);
    forall i | 0 <= i < |d| ensures d[i] != ':' {
      assert IsDigit(d[i]);
    }
    FirstField(d, rest);
    DigitsNumber(d);
    NatToStringValue(m);
  }

  /** A length whose minutes carry a decimal fraction is too long exactly
      when that exact value is at least five. */
  lemma TooLongOfDecimal(whole: string, fraction: string, rest: string)
    requires AllDigits(whole) && AllDigits(fraction) && whole + fraction != []
    ensures TooLong(whole + "." + fraction + ":" + rest) <==>
      DigitsValue(whole + fraction) >= 5 * Pow10(|fraction|)
  {
    var a := whole + "." + fraction;
    forall i | 0 <= i < |a| ensures a[i] != ':' {
      if i < |whole| { assert a[i] == whole[i]; }
      else if i > |whole| { assert a[i] == fraction[i - |whole| - 1]; }
    }
    FirstField(a, rest);
    DecimalNumber(whole, fraction);
    QuotientAtLeast(DigitsValue(whole + fraction), Pow10(|fraction|), 5);
  }

  lemma QuotientAtLeast(m: nat, p: nat, c: nat)
    requires p > 0
    ensures m as real / p as real >= c as real <==> m >= c * p
  {
    var q := m as real / p as real;
    assert q * p as real == m as real;
  }

  /** A plain-fetcher length of whole minutes and a seconds field is too
      long from two minutes on, and at one minute when the seconds field is
      a number above 30. */
  lemma TooLongPlainOfMinutes(m: nat, seconds: string)
    requires forall i :: 0 <= i < |seconds| ==> seconds[i] != ':'
    ensures TooLongPlain(NatToString(m) + ":" + seconds) <==>
      m > 1 || (m == 1 && Greater(ToNumber(seconds), 30))
  {
    var d := NatToString(m);
    forall i | 0 <= i < |d| ensures d[i] != ':' {
      assert IsDigit(d[i]);
    }
    FirstField(d, seconds);
    SecondField(d, seconds);
    DigitsNumber(d);
    NatToStringValue(m);
  }

  /** Minutes with a fraction are compared by their value: 5.5 minutes is
      too long for the species-filtered fetchers, 4.9 is not. */
  lemma FractionalMinutes()
    ensures TooLong("5.5:00") && !TooLong("4.9:00")
  {
    FiveAndAHalfOver();
    UnderFiveNotOver();
  }

  lemma FiveAndAHalfOver()
    ensures TooLong("5.5:00")
  {
    assert Pow10(1) == 10;
    assert DigitsValue("55") == 55 by { assert "55"[..1] == "5"; }
    assert "5" + "5" == "55";
    assert "5" + "." + "5" + ":" + "00" == "5.5:00";
    TooLongOfDecimal("5", "5", "00");
  }

  lemma UnderFiveNotOver()
    ensures !TooLong("4.9:00")
  {
    assert Pow10(1) == 10;
    assert DigitsValue("49") == 49 by { assert "49"[..1] == "4"; }
    assert "4" + "9" == "49";
    assert "4" + "." + "9" + ":" + "00" == "4.9:00";
    TooLongOfDecimal("4", "9", "00");
  }

  /** A plain-fetcher length of whole minutes and seconds with a decimal
      fraction: at one minute, too long exactly when the seconds' exact
      value is above 30. */
  lemma TooLongPlainOfDecimal(m: nat, whole: string, fraction: string)
    requires AllDigits(whole) && AllDigits(fraction) && whole + fraction != []
    ensures TooLongPlain(NatToString(m) + ":" + (whole + "." + fraction)) <==>
      m > 1 || (m == 1 && DigitsValue(whole + fraction) > 30 * Pow10(|fraction|))
  {
    var b := whole + "." + fraction;
    DecimalHasNoColon(whole, fraction);
    TooLongPlainOfMinutes(m, b);
    DecimalNumber(whole, fraction);
    QuotientAbove(DigitsValue(whole + fraction), Pow10(|fraction|), 30);
  }

  lemma DecimalHasNoColon(whole: string, fraction: string)
    requires AllDigits(whole) && AllDigits(fraction)
    ensures forall i :: 0 <= i < |whole + "." + fraction| ==> (whole + "." + fraction)[i] != ':'
  {
    var b := whole + "." + fraction;
    forall i | 0 <= i < |b| ensures b[i] != ':' {
      if i < |whole| { assert b[i] == whole[i]; }
      else if i > |whole| { assert b[i] == fraction[i - |whole| - 1]; }
    }
  }

  lemma QuotientAbove(m: nat, p: nat, c: nat)
    requires p > 0
    ensures m as real / p as real > c as real <==> m > c * p
  {
    var q := m as real / p as real;
    assert q * p as real == m as real;
  }

  /** Seconds with a fraction are compared by their value: 1:30.5 is too
      long for the plain fetcher, 1:30.0 is not. */
  lemma FractionalSeconds()
    ensures TooLongPlain("1:30.5") && !TooLongPlain("1:30.0")
  {
    HalfSecondOver();
    WholeSecondsNotOver();
  }

  lemma HalfSecondOver()
    ensures TooLongPlain("1:30.5")
  {
    assert NatToString(1) == "1";
    assert Pow10(1) == 10;
    assert DigitsValue("305") == 305 by { assert "305"[..2] == "30" && "30"[..1] == "3"; }
    assert "30" + "5" == "305";
    assert NatToString(1) + ":" + ("30" + "." + "5") == "1:30.5";
    TooLongPlainOfDecimal(1, "30", "5");
  }

  lemma WholeSecondsNotOver()
    ensures !TooLongPlain("1:30.0")
  {
    assert NatToString(1) == "1";
    assert Pow10(1) == 10;
    assert DigitsValue("300") == 300 by { assert "300"[..2] == "30" && "30"[..1] == "3"; }
    assert "30" + "0" == "300";
    assert NatToString(1) + ":" + ("30" + "." + "0") == "1:30.0";
    TooLongPlainOfDecimal(1, "30", "0");
  }

  /** What a listed entry of type `t` found on a page from `lo` to `hi - 1`
      satisfies: for the species-filtered fetchers, of the species and under
      five minutes with the type stored without spaces; for the plain
      fetcher, at most 1:30 with the type stored as is. */
  predicate Eligible(script: Script, e: Entry, t: string, lo: int, hi: int) {
    lo <= e.page < hi &&
    match script
    case SpeciesScript(birdName) =>
      e.bird == birdName && !TooLong(e.length) && e.typeName == RemoveSpaces(t)
    case PlainScript =>
      !TooLongPlain(e.length) && e.typeName == t
  }

  /** Every entry of `list` is eligible under type `t`. */
  predicate ListEligible(script: Script, list: seq<Entry>, t: string, lo: int, hi: int) {
    forall e :: e in list ==> Eligible(script, e, t, lo, hi)
  }

  lemma {:induction false} MatchingQualifies(rows: seq<TableRow>, t: string, page: int, script: Script)
    ensures forall e :: e in Matching(rows, t, page, script) ==> Eligible(script, e, t, page, page + 1)
    decreases |rows|
  {
    if rows != [] {
      MatchingQualifies(rows[..|rows| - 1], t, page, script);
    }
  }

  lemma TakeKeeps(all: seq<Entry>, n: nat, script: Script, t: string, lo: int, hi: int)
    requires forall e :: e in all ==> Eligible(script, e, t, lo, hi)
    ensures forall e :: e in Take(all, n) ==> Eligible(script, e, t, lo, hi)
  {
    forall e | e in Take(all, n) ensures e in all {
      var i :| 0 <= i < |Take(all, n)| && Take(all, n)[i] == e;
      assert all[i] == e;
    }
  }
}
