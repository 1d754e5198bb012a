/** The data side of the two training scripts: `prepare_data` collects the
    `.wav` paths of each class directory, cuts every class to the size of
    the smallest one after shuffling, and lists paths and class indices side
    by side; `load_audio` pads or cuts a recording to a fixed number of
    samples; the dataset pairs recordings with labels; the three-class
    script trains on the first three quarters of each class; the step counts
    are floor divisions by the batch size. Model building and training are
    not modelled. */
module Training {
  import opened Wrappers
  import opened Text

  /** `SR`: the sampling rate. */
  const SR: nat := 32000

  /** `SAMPLES = int(SR * DURATION)` with `DURATION = 4.5`. */
  const Samples: nat := SR * 9 / 2

  const BatchSize: nat := 16

  /** `label_names` of the three-class script. */
  const ThreeClasses: seq<string> := ["alarmcall", "call", "song"]

  /** `label_names` of the four-class script. */
  const FourClasses: seq<string> := ["alarmcall", "beggingcall", "call", "song"]

  /** The dictionary `file_paths_per_class`: a plain `dict` (the three-class
      script) has a key only for classes that received a path, a
      `defaultdict(list)` (the four-class script) makes an empty list for any
      class it is asked for. */
  datatype DictKind = PlainDict | DefaultDict

  datatype Failure =
    | NoDirectory(path: string)   // `os.listdir` of a missing class directory
    | EmptyMin                    // `min()` of no values: every class is empty
    | MissingKey(className: string)   // `KeyError` on a class the plain dict lacks

  /** `label_to_idx[label]` of `{label: idx for idx, label in enumerate(names)}`:
      the last position of `className`. */
  function LabelIndex(names: seq<string>, className: string): (i: nat)
    requires className in names
    ensures i < |names| && names[i] == className
    ensures forall j :: i < j < |names| ==> names[j] != className
  {
    if names[|names| - 1] == className then |names| - 1 else LabelIndex(names[..|names| - 1], className)
  }

  lemma LabelIndexOfDistinct(names: seq<string>, i: nat)
    requires i < |names|
    requires forall a, b :: 0 <= a < b < |names| ==> names[a] != names[b]
    ensures LabelIndex(names, names[i]) == i
  {
  }

  /** The class lists of both scripts hold each name once, so each class's
      index is its position. */
  lemma ClassIndices()
    ensures forall i :: 0 <= i < |ThreeClasses| ==> LabelIndex(ThreeClasses, ThreeClasses[i]) == i
    ensures forall i :: 0 <= i < |FourClasses| ==> LabelIndex(FourClasses, FourClasses[i]) == i
  {
    forall i | 0 <= i < |ThreeClasses| ensures LabelIndex(ThreeClasses, ThreeClasses[i]) == i {
      LabelIndexOfDistinct(ThreeClasses, i);
    }
    forall i | 0 <= i < |FourClasses| ensures LabelIndex(FourClasses, FourClasses[i]) == i {
      LabelIndexOfDistinct(FourClasses, i);
    }
  }

  // ----- Collecting -----

  /** The paths the listing loop files under a class: each listed name ending
      in `.wav`, joined to the class directory, in listing order. */
  function WavPaths(classDir: string, listing: seq<string>): seq<string> {
    if listing == [] then []
    else
      var f := listing[|listing| - 1];
      WavPaths(classDir, listing[..|listing| - 1]) + (if EndsWith(f, ".wav") then [Join(classDir, f)] else [])
  }

  lemma {:induction false} WavPathsMembers(classDir: string, listing: seq<string>)
    ensures forall p :: p in WavPaths(classDir, listing) ==>
      exists f :: f in listing && EndsWith(f, ".wav") && p == Join(classDir, f)
  {
    if listing != [] {
      var init := listing[..|listing| - 1];
      WavPathsMembers(classDir, init);
      assert forall f :: f in init ==> f in listing;
    }
  }

  /** The listing loop from class `k` on, with `acc` the lists of the
      classes before it; a class directory that does not exist stops the
      script. */
  function Collect(birdDir: string, names: seq<string>, listdir: string -> Option<seq<string>>,
                   k: nat, acc: seq<seq<string>>): (r: Result<seq<seq<string>>, Failure>)
    requires k <= |names|
    ensures r.Ok? ==> |r.value| == |acc| + |names| - k
    decreases |names| - k
  {
    if k == |names| then Ok(acc)
    else
      var classDir := Join(birdDir, names[k]);
      if listdir(classDir).None? then Err(NoDirectory(classDir))
      else Collect(birdDir, names, listdir, k + 1, acc + [WavPaths(classDir, listdir(classDir).value)])
  }

  /** The class lists are the `.wav` paths of the class directories, in
      class order. */
  predicate Collected(birdDir: string, names: seq<string>, listdir: string -> Option<seq<string>>,
                      lists: seq<seq<string>>, k: nat)
    requires k <= |names|
  {
    |lists| == k && forall j :: 0 <= j < k ==>
      listdir(Join(birdDir, names[j])).Some? &&
      lists[j] == WavPaths(Join(birdDir, names[j]), listdir(Join(birdDir, names[j])).value)
  }

  lemma {:induction false} CollectHolds(birdDir: string, names: seq<string>, listdir: string -> Option<seq<string>>,
                                        k: nat, acc: seq<seq<string>>)
    requires k <= |names| && Collected(birdDir, names, listdir, acc, k)
    ensures Collect(birdDir, names, listdir, k, acc).Ok? ==>
      Collected(birdDir, names, listdir, Collect(birdDir, names, listdir, k, acc).value, |names|)
    ensures Collect(birdDir, names, listdir, k, acc).Err? <==>
      exists j :: k <= j < |names| && listdir(Join(birdDir, names[j])).None?
    decreases |names| - k
  {
    if k < |names| {
      var classDir := Join(birdDir, names[k]);
      if listdir(classDir).Some? {
        CollectHolds(birdDir, names, listdir, k + 1, acc + [WavPaths(classDir, listdir(classDir).value)]);
      }
    }
  }

  // ----- Balancing -----

  /** `min(len(files) for files in file_paths_per_class.values())`: before
      balancing, both dictionaries hold exactly the classes that received a
      path, so this is the smallest size among the non-empty classes, and
      `min` of nothing raises. */
  function MinCount(lists: seq<seq<string>>): (m: Option<nat>)
    ensures m.Some? ==> 0 < m.value
    ensures m.Some? ==> exists k :: 0 <= k < |lists| && |lists[k]| == m.value
    ensures m.Some? ==> forall k :: 0 <= k < |lists| && lists[k] != [] ==> m.value <= |lists[k]|
    ensures m.None? <==> forall k :: 0 <= k < |lists| ==> lists[k] == []
  {
    if lists == [] then None
    else
      var rest := MinCount(lists[..|lists| - 1]);
      var last := lists[|lists| - 1];
      assert forall k :: 0 <= k < |lists| - 1 ==> lists[..|lists| - 1][k] == lists[k];
      if last == [] then rest
      else if rest.None? || |last| < rest.value then Some(|last|)
      else rest
  }

  /** `l[:m]` */
  function Prefix(s: seq<string>, m: nat): (r: seq<string>)
    ensures |r| == if m <= |s| then m else |s|
    ensures multiset(r) <= multiset(s)
  {
    if m <= |s| then
      assert s == s[..m] + s[m..];
      s[..m]
    else s
  }

  /** The balancing loop from class `k` on: each class is shuffled and cut
      to `m`; asking the plain dict for a class it lacks raises. */
  function Balance(names: seq<string>, lists: seq<seq<string>>, kind: DictKind,
                   shuffle: (nat, seq<string>) -> seq<string>, m: nat, k: nat)
    : (r: Result<seq<seq<string>>, Failure>)
    requires |lists| == |names| && k <= |names|
    ensures r.Ok? ==> |r.value| == |names|
    decreases |names| - k
  {
    if k == |names| then Ok(lists)
    else if kind == PlainDict && lists[k] == [] then Err(MissingKey(names[k]))
    else Balance(names, lists[k := Prefix(shuffle(k, lists[k]), m)], kind, shuffle, m, k + 1)
  }

  /** `random.shuffle` reorders a list and does nothing else. */
  ghost predicate Shuffles(shuffle: (nat, seq<string>) -> seq<string>) {
    forall k, s :: multiset(shuffle(k, s)) == multiset(s)
  }

  /** After balancing, the classes from `k` on hold `m` of their own paths,
      or none when they had none; the classes before `k` are as they were. */
  lemma {:induction false} BalanceFacts(names: seq<string>, lists: seq<seq<string>>, kind: DictKind,
                                        shuffle: (nat, seq<string>) -> seq<string>, m: nat, k: nat)
    requires |lists| == |names| && k <= |names| && Shuffles(shuffle)
    requires forall j :: k <= j < |lists| && lists[j] != [] ==> m <= |lists[j]|
    ensures Balance(names, lists, kind, shuffle, m, k).Ok? ==> forall j :: k <= j < |names| ==>
      |Balance(names, lists, kind, shuffle, m, k).value[j]| == (if lists[j] == [] then 0 else m) &&
      multiset(Balance(names, lists, kind, shuffle, m, k).value[j]) <= multiset(lists[j])
    ensures Balance(names, lists, kind, shuffle, m, k).Ok? ==> forall j :: 0 <= j < k ==>
      Balance(names, lists, kind, shuffle, m, k).value[j] == lists[j]
    decreases |names| - k
  {
    if k < |names| && !(kind == PlainDict && lists[k] == []) {
      var cut := Prefix(shuffle(k, lists[k]), m);
      assert multiset(shuffle(k, lists[k])) == multiset(lists[k]);
      assert |shuffle(k, lists[k])| == |lists[k]| by {
        assert |multiset(shuffle(k, lists[k]))| == |multiset(lists[k])|;
      }
      BalanceFacts(names, lists[k := cut], kind, shuffle, m, k + 1);
    }
  }

  /** The plain dict raises on the first empty class; the default dict
      never does. */
  lemma {:induction false} BalanceFailure(names: seq<string>, lists: seq<seq<string>>, kind: DictKind,
                                          shuffle: (nat, seq<string>) -> seq<string>, m: nat, k: nat)
    requires |lists| == |names| && k <= |names|
    ensures kind == DefaultDict ==> Balance(names, lists, kind, shuffle, m, k).Ok?
    ensures kind == PlainDict ==>
      (Balance(names, lists, kind, shuffle, m, k).Ok? <==> forall j :: k <= j < |names| ==> lists[j] != [])
    ensures Balance(names, lists, kind, shuffle, m, k).Err? ==>
      exists j :: k <= j < |names| && lists[j] == [] &&
        Balance(names, lists, kind, shuffle, m, k) == Err(MissingKey(names[j]))
    decreases |names| - k
  {
    if k < |names| && !(kind == PlainDict && lists[k] == []) {
      var lists' := lists[k := Prefix(shuffle(k, lists[k]), m)];
      assert forall j :: k < j < |names| ==> lists'[j] == lists[j];
      BalanceFailure(names, lists', kind, shuffle, m, k + 1);
    }
  }

  // ----- Listing paths and labels -----

  function Repeat(v: nat, n: nat): (r: seq<nat>)
    ensures |r| == n && forall i :: 0 <= i < n ==> r[i] == v
  {
    if n == 0 then [] else Repeat(v, n - 1) + [v]
  }

  /** `file_paths`: the class lists one after the other. */
  function AllPaths(lists: seq<seq<string>>): seq<string> {
    if lists == [] then [] else AllPaths(lists[..|lists| - 1]) + lists[|lists| - 1]
  }

  /** `labels`: for each class, its index once per path. */
  function AllLabels(lists: seq<seq<string>>): seq<nat> {
    if lists == [] then []
    else AllLabels(lists[..|lists| - 1]) + Repeat(|lists| - 1, |lists[|lists| - 1]|)
  }

  /** How often `c` occurs in `s`. */
  function CountOf(s: seq<nat>, c: nat): nat {
    if s == [] then 0 else CountOf(s[..|s| - 1], c) + (if s[|s| - 1] == c then 1 else 0)
  }

  lemma {:induction false} CountOfAppend(a: seq<nat>, b: seq<nat>, c: nat)
    ensures CountOf(a + b, c) == CountOf(a, c) + CountOf(b, c)
    decreases |b|
  {
    if b == [] {
      assert a + b == a;
    } else {
      assert (a + b)[..|a + b| - 1] == a + b[..|b| - 1];
      assert (a + b)[|a + b| - 1] == b[|b| - 1];
      CountOfAppend(a, b[..|b| - 1], c);
    }
  }

  lemma {:induction false} CountOfRepeat(v: nat, n: nat, c: nat)
    ensures CountOf(Repeat(v, n), c) == if v == c then n else 0
  {
    if n > 0 {
      assert Repeat(v, n)[..n - 1] == Repeat(v, n - 1);
      CountOfRepeat(v, n - 1, c);
    }
  }

  /** The two lists are aligned: the `i`-th label is the class whose list
      holds the `i`-th path, labels never decrease, and each class index
      occurs once per path of that class. */
  lemma {:induction false} ListsAligned(lists: seq<seq<string>>)
    ensures |AllLabels(lists)| == |AllPaths(lists)|
    ensures forall i :: 0 <= i < |AllLabels(lists)| ==>
      AllLabels(lists)[i] < |lists| && AllPaths(lists)[i] in lists[AllLabels(lists)[i]]
    ensures forall i, j :: 0 <= i <= j < |AllLabels(lists)| ==> AllLabels(lists)[i] <= AllLabels(lists)[j]
    ensures forall c :: 0 <= c < |lists| ==> CountOf(AllLabels(lists), c) == |lists[c]|
  {
    if lists != [] {
      var init := lists[..|lists| - 1];
      var last := lists[|lists| - 1];
      var n := |lists| - 1;
      ListsAligned(init);
      var ls := AllLabels(init);
      var ps := AllPaths(init);
      assert AllLabels(lists) == ls + Repeat(n, |last|);
      assert AllPaths(lists) == ps + last;
      forall i | 0 <= i < |AllLabels(lists)|
        ensures AllLabels(lists)[i] < |lists| && AllPaths(lists)[i] in lists[AllLabels(lists)[i]]
      {
        if i < |ls| {
          assert AllLabels(lists)[i] == ls[i];
          assert AllPaths(lists)[i] == ps[i];
          assert lists[ls[i]] == init[ls[i]];
        } else {
          assert AllLabels(lists)[i] == n;
          assert AllPaths(lists)[i] == last[i - |ls|];
        }
      }
      forall c | 0 <= c < |lists| ensures CountOf(AllLabels(lists), c) == |lists[c]| {
        CountOfAppend(ls, Repeat(n, |last|), c);
        CountOfRepeat(n, |last|, c);
        if c < n {
          assert lists[c] == init[c];
        } else {
          assert CountOf(ls, c) == 0 by { CountOfAbsent(ls, c); }
        }
      }
    }
  }

  lemma {:induction false} CountOfAbsent(s: seq<nat>, c: nat)
    requires forall i :: 0 <= i < |s| ==> s[i] != c
    ensures CountOf(s, c) == 0
  {
    if s != [] {
      CountOfAbsent(s[..|s| - 1], c);
    }
  }

  // ----- `prepare_data` -----

  /** The class lists once the listing loop and, if `balanced`, the
      balancing loop have run. */
  function Kept(birdDir: string, names: seq<string>, kind: DictKind, balanced: bool,
                listdir: string -> Option<seq<string>>, shuffle: (nat, seq<string>) -> seq<string>)
    : (r: Result<seq<seq<string>>, Failure>)
    ensures r.Ok? ==> |r.value| == |names|
  {
    var collected := Collect(birdDir, names, listdir, 0, []);
    if collected.Err? then collected
    else if !balanced then collected
    else
      var m := MinCount(collected.value);
      if m.None? then Err(EmptyMin) else Balance(names, collected.value, kind, shuffle, m.value, 0)
  }

  /** `prepare_data(balanced)` over the class list `names`: the paths and the
      class indices, or the exception that stops the script. */
  function PrepareData(birdDir: string, names: seq<string>, kind: DictKind, balanced: bool,
                       listdir: string -> Option<seq<string>>, shuffle: (nat, seq<string>) -> seq<string>)
    : Result<(seq<string>, seq<nat>), Failure>
  {
    var kept := Kept(birdDir, names, kind, balanced, listdir, shuffle);
    if kept.Err? then Err(kept.error) else Assemble(names, kind, kept.value)
  }

  /** The final loop: the paths and labels of the kept class lists, or the
      `KeyError` of the plain dict for the first class it never got. */
  function Assemble(names: seq<string>, kind: DictKind, kept: seq<seq<string>>)
    : Result<(seq<string>, seq<nat>), Failure>
    requires |kept| == |names|
  {
    if kind == PlainDict && exists k :: 0 <= k < |names| && kept[k] == [] then
      Err(MissingKey(names[FirstEmpty(kept)]))
    else Ok((AllPaths(kept), AllLabels(kept)))
  }

  /** The first class without paths. */
  function FirstEmpty(lists: seq<seq<string>>): (k: nat)
    requires exists k :: 0 <= k < |lists| && lists[k] == []
    ensures k < |lists| && lists[k] == []
    ensures forall j :: 0 <= j < k ==> lists[j] != []
  {
    if lists[0] == [] then 0
    else
      assert exists k :: 0 <= k < |lists[1..]| && lists[1..][k] == [] by {
        var k :| 0 <= k < |lists| && lists[k] == [];
        assert lists[1..][k - 1] == lists[k];
      }
      1 + FirstEmpty(lists[1..])
  }

  /** `prepare_data(balanced)` as the script runs it: the listing loop, the
      balancing loop and the loop collecting paths and labels. */
  method PrepareDataLoop(birdDir: string, names: seq<string>, kind: DictKind, balanced: bool,
                         listdir: string -> Option<seq<string>>, shuffle: (nat, seq<string>) -> seq<string>)
    returns (r: Result<(seq<string>, seq<nat>), Failure>)
    requires forall a, b :: 0 <= a < b < |names| ==> names[a] != names[b]
    ensures r == PrepareData(birdDir, names, kind, balanced, listdir, shuffle)
  {
    var collected := CollectLoop(birdDir, names, listdir);
    if collected.Err? {
      return Err(collected.error);
    }
    var filePathsPerClass := collected.value;
    if balanced {
      var minCount := MinCount(filePathsPerClass);
      if minCount.None? {
        return Err(EmptyMin);
      }
      var balancedLists := BalanceLoop(names, filePathsPerClass, kind, shuffle, minCount.value);
      if balancedLists.Err? {
        return Err(balancedLists.error);
      }
      filePathsPerClass := balancedLists.value;
    }
    r := AssembleLoop(names, kind, filePathsPerClass);
  }

  /** The loop over the class directories, collecting each one's `.wav`
      paths; a directory that cannot be listed stops it. */
  method CollectLoop(birdDir: string, names: seq<string>, listdir: string -> Option<seq<string>>)
    returns (r: Result<seq<seq<string>>, Failure>)
    ensures r == Collect(birdDir, names, listdir, 0, [])
  {
    var filePathsPerClass: seq<seq<string>> := [];
    var k := 0;
    while k < |names|
      invariant 0 <= k <= |names| && |filePathsPerClass| == k
      invariant Collect(birdDir, names, listdir, k, filePathsPerClass) == Collect(birdDir, names, listdir, 0, [])
    {
      var classDir := Join(birdDir, names[k]);
      var listing := listdir(classDir);
      if listing.None? {
        return Err(NoDirectory(classDir));
      }
      var files := ListClass(classDir, listing.value);
      filePathsPerClass := filePathsPerClass + [files];
      k := k + 1;
    }
    return Ok(filePathsPerClass);
  }

  /** The balancing loop: each class is shuffled and cut to `minCount`. */
  method BalanceLoop(names: seq<string>, lists: seq<seq<string>>, kind: DictKind,
                     shuffle: (nat, seq<string>) -> seq<string>, minCount: nat)
    returns (r: Result<seq<seq<string>>, Failure>)
    requires |lists| == |names|
    ensures r == Balance(names, lists, kind, shuffle, minCount, 0)
  {
    var filePathsPerClass := lists;
    var k := 0;
    while k < |names|
      invariant 0 <= k <= |names| && |filePathsPerClass| == |names|
      invariant Balance(names, filePathsPerClass, kind, shuffle, minCount, k)
        == Balance(names, lists, kind, shuffle, minCount, 0)
    {
      if kind == PlainDict && filePathsPerClass[k] == [] {
        return Err(MissingKey(names[k]));
      }
      var shuffled := shuffle(k, filePathsPerClass[k]);
      filePathsPerClass := filePathsPerClass[k := Prefix(shuffled, minCount)];
      k := k + 1;
    }
    return Ok(filePathsPerClass);
  }

  /** The loop extending `file_paths` and `labels` class by class. */
  method AssembleLoop(names: seq<string>, kind: DictKind, kept: seq<seq<string>>)
    returns (r: Result<(seq<string>, seq<nat>), Failure>)
    requires |kept| == |names|
    requires forall a, b :: 0 <= a < b < |names| ==> names[a] != names[b]
    ensures r == Assemble(names, kind, kept)
  {
    var filePaths: seq<string> := [];
    var labels: seq<nat> := [];
    var k := 0;
    while k < |names|
      invariant 0 <= k <= |names|
      invariant filePaths == AllPaths(kept[..k]) && labels == AllLabels(kept[..k])
      invariant kind == PlainDict ==> forall j :: 0 <= j < k ==> kept[j] != []
    {
      assert kept[..k + 1][..k] == kept[..k];
      if kind == PlainDict && kept[k] == [] {
        assert FirstEmpty(kept) == k by {
          var f := FirstEmpty(kept);
          assert !(f < k) && !(k < f);
        }
        return Err(MissingKey(names[k]));
      }
      var files := kept[k];
      filePaths := filePaths + files;
      LabelIndexOfDistinct(names, k);
      labels := labels + Repeat(LabelIndex(names, names[k]), |files|);
      k := k + 1;
    }
    assert kept[..|names|] == kept;
    return Ok((filePaths, labels));
  }

  /** The listing loop of one class directory. */
  method ListClass(classDir: string, listing: seq<string>) returns (files: seq<string>)
    ensures files == WavPaths(classDir, listing)
  {
    files := [];
    var j := 0;
    while j < |listing|
      invariant 0 <= j <= |listing|
      invariant files == WavPaths(classDir, listing[..j])
    {
      assert listing[..j + 1][..j] == listing[..j];
      var file := listing[j];
      if EndsWith(file, ".wav") {
        files := files + [Join(classDir, file)];
      }
      j := j + 1;
    }
    assert listing[..|listing|] == listing;
  }

  // ----- What `prepare_data` returns -----

  /** Every path kept for a class is one of the `.wav` paths listed in that
      class's directory. */
  lemma KeptWithin(birdDir: string, names: seq<string>, kind: DictKind, balanced: bool,
                   listdir: string -> Option<seq<string>>, shuffle: (nat, seq<string>) -> seq<string>)
    requires Shuffles(shuffle)
    ensures Kept(birdDir, names, kind, balanced, listdir, shuffle).Ok? ==>
      forall c, p :: 0 <= c < |names| && p in Kept(birdDir, names, kind, balanced, listdir, shuffle).value[c] ==>
        listdir(Join(birdDir, names[c])).Some? &&
        p in WavPaths(Join(birdDir, names[c]), listdir(Join(birdDir, names[c])).value)
  {
    CollectHolds(birdDir, names, listdir, 0, []);
    var collected := Collect(birdDir, names, listdir, 0, []);
    if balanced && collected.Ok? && MinCount(collected.value).Some? {
      BalanceFacts(names, collected.value, kind, shuffle, MinCount(collected.value).value, 0);
      var kept := Kept(birdDir, names, kind, balanced, listdir, shuffle);
      if kept.Ok? {
        forall c, p | 0 <= c < |names| && p in kept.value[c] ensures p in collected.value[c] {
          assert p in multiset(kept.value[c]);
        }
      }
    }
  }

  /** Paths and labels are aligned: equally long, the `i`-th label is the
      index of the class whose directory listed the `i`-th path (a `.wav`
      name joined to that directory), and labels never decrease. */
  lemma PrepareDataAligned(birdDir: string, names: seq<string>, kind: DictKind, balanced: bool,
                           listdir: string -> Option<seq<string>>, shuffle: (nat, seq<string>) -> seq<string>)
    requires Shuffles(shuffle)
    ensures PrepareData(birdDir, names, kind, balanced, listdir, shuffle).Ok? ==>
      var (paths, labels) := PrepareData(birdDir, names, kind, balanced, listdir, shuffle).value;
      |labels| == |paths| &&
      (forall i, j :: 0 <= i <= j < |labels| ==> labels[i] <= labels[j]) &&
      forall i :: 0 <= i < |labels| ==>
        labels[i] < |names| && listdir(Join(birdDir, names[labels[i]])).Some? &&
        exists f :: f in listdir(Join(birdDir, names[labels[i]])).value && EndsWith(f, ".wav") &&
          paths[i] == Join(Join(birdDir, names[labels[i]]), f)
  {
    var kept := Kept(birdDir, names, kind, balanced, listdir, shuffle);
    if PrepareData(birdDir, names, kind, balanced, listdir, shuffle).Ok? {
      KeptWithin(birdDir, names, kind, balanced, listdir, shuffle);
      ListsAligned(kept.value);
      var paths := AllPaths(kept.value);
      var labels := AllLabels(kept.value);
      forall i | 0 <= i < |labels|
        ensures labels[i] < |names| && listdir(Join(birdDir, names[labels[i]])).Some? &&
          exists f :: f in listdir(Join(birdDir, names[labels[i]])).value && EndsWith(f, ".wav") &&
            paths[i] == Join(Join(birdDir, names[labels[i]]), f)
      {
        var dir := Join(birdDir, names[labels[i]]);
        WavPathsMembers(dir, listdir(dir).value);
      }
    }
  }

  /** With balancing, each class that had `.wav` files ends with exactly as
      many as the smallest such class; with the plain dict of the
      three-class script every class does. */
  lemma BalancedSizes(birdDir: string, names: seq<string>, kind: DictKind,
                      listdir: string -> Option<seq<string>>, shuffle: (nat, seq<string>) -> seq<string>)
    requires Shuffles(shuffle)
    ensures PrepareData(birdDir, names, kind, true, listdir, shuffle).Ok? ==>
      var lists := Collect(birdDir, names, listdir, 0, []).value;
      var labels := PrepareData(birdDir, names, kind, true, listdir, shuffle).value.1;
      MinCount(lists).Some? &&
      (forall c :: 0 <= c < |names| ==>
        CountOf(labels, c) == if lists[c] == [] then 0 else MinCount(lists).value) &&
      (kind == PlainDict ==> forall c :: 0 <= c < |names| ==> CountOf(labels, c) == MinCount(lists).value)
  {
    if PrepareData(birdDir, names, kind, true, listdir, shuffle).Ok? {
      var lists := Collect(birdDir, names, listdir, 0, []).value;
      var m := MinCount(lists).value;
      var kept := Kept(birdDir, names, kind, true, listdir, shuffle).value;
      BalanceFacts(names, lists, kind, shuffle, m, 0);
      BalanceFailure(names, lists, kind, shuffle, m, 0);
      ListsAligned(kept);
    }
  }

  /** Every class directory exists exactly when the listing loop gets
      through. */
  lemma CollectSucceeds(birdDir: string, names: seq<string>, listdir: string -> Option<seq<string>>)
    ensures Collect(birdDir, names, listdir, 0, []).Ok? <==>
      forall k :: 0 <= k < |names| ==> listdir(Join(birdDir, names[k])).Some?
  {
    CollectHolds(birdDir, names, listdir, 0, []);
  }

  /** With balancing and no `.wav` file in any class, `min` raises. */
  lemma NoFilesRaises(birdDir: string, names: seq<string>, kind: DictKind,
                      listdir: string -> Option<seq<string>>, shuffle: (nat, seq<string>) -> seq<string>)
    requires Collect(birdDir, names, listdir, 0, []).Ok?
    requires forall c :: 0 <= c < |names| ==> Collect(birdDir, names, listdir, 0, []).value[c] == []
    ensures PrepareData(birdDir, names, kind, true, listdir, shuffle) == Err(EmptyMin)
  {
  }

  /** The plain dict raises a `KeyError` for the first class without
      `.wav` files, once `min` has a value to return. */
  lemma PlainDictRaises(birdDir: string, names: seq<string>, balanced: bool,
                        listdir: string -> Option<seq<string>>, shuffle: (nat, seq<string>) -> seq<string>)
    requires Shuffles(shuffle)
    requires Collect(birdDir, names, listdir, 0, []).Ok?
    requires exists c :: 0 <= c < |names| && Collect(birdDir, names, listdir, 0, []).value[c] == []
    requires !balanced || exists c :: 0 <= c < |names| && Collect(birdDir, names, listdir, 0, []).value[c] != []
    ensures PrepareData(birdDir, names, PlainDict, balanced, listdir, shuffle)
      == Err(MissingKey(names[FirstEmpty(Collect(birdDir, names, listdir, 0, []).value)]))
  {
    var lists := Collect(birdDir, names, listdir, 0, []).value;
    if balanced {
      FirstFailure(names, lists, shuffle, MinCount(lists).value, 0);
    }
  }

  /** The default dict never raises a `KeyError`: once every directory
      exists and some class has files (or nothing is balanced), the script
      gets its lists. */
  lemma DefaultDictSucceeds(birdDir: string, names: seq<string>, balanced: bool,
                            listdir: string -> Option<seq<string>>, shuffle: (nat, seq<string>) -> seq<string>)
    requires Collect(birdDir, names, listdir, 0, []).Ok?
    requires !balanced || exists c :: 0 <= c < |names| && Collect(birdDir, names, listdir, 0, []).value[c] != []
    ensures PrepareData(birdDir, names, DefaultDict, balanced, listdir, shuffle).Ok?
  {
    var lists := Collect(birdDir, names, listdir, 0, []).value;
    if balanced {
      BalanceFailure(names, lists, DefaultDict, shuffle, MinCount(lists).value, 0);
    }
  }

  /** The plain dict's balancing loop fails on the first empty class. */
  lemma {:induction false} FirstFailure(names: seq<string>, lists: seq<seq<string>>,
                                        shuffle: (nat, seq<string>) -> seq<string>, m: nat, k: nat)
    requires |lists| == |names| && k <= |names| && 0 < m && Shuffles(shuffle)
    requires exists c :: 0 <= c < |lists| && lists[c] == []
    requires forall j :: 0 <= j < k ==> lists[j] != []
    ensures Balance(names, lists, PlainDict, shuffle, m, k) == Err(MissingKey(names[FirstEmpty(lists)]))
    decreases |names| - k
  {
    var f := FirstEmpty(lists);
    if k < |names| && lists[k] != [] {
      var s := shuffle(k, lists[k]);
      assert |s| == |lists[k]| by {
        assert multiset(s) == multiset(lists[k]);
        assert |multiset(s)| == |multiset(lists[k])|;
      }
      var lists' := lists[k := Prefix(s, m)];
      assert lists'[f] == [];
      assert forall j :: 0 <= j <= k ==> lists'[j] != [];
      assert FirstEmpty(lists') == f by {
        var g := FirstEmpty(lists');
        assert !(g < f) && !(f < g);
      }
      FirstFailure(names, lists', shuffle, m, k + 1);
    }
  }

  // ----- `load_audio` -----

  /** `load_audio(y, target_len)` on the decoded samples `y`: zeros appended
      up to `target_len`, or the first `target_len` samples. */
  function LoadAudio(y: seq<real>, targetLen: nat): (r: seq<real>)
    ensures |r| == targetLen
    ensures forall i :: 0 <= i < targetLen && i < |y| ==> r[i] == y[i]
    ensures forall i :: |y| <= i < targetLen ==> r[i] == 0.0
  {
    if |y| < targetLen then y + Zeros(targetLen - |y|) else y[..targetLen]
  }

  function Zeros(n: nat): (r: seq<real>)
    ensures |r| == n && forall i :: 0 <= i < n ==> r[i] == 0.0
  {
    if n == 0 then [] else Zeros(n - 1) + [0.0]
  }

  /** Loading again changes nothing: a recording already of the target
      length is returned as it is. */
  lemma LoadAudioIdempotent(y: seq<real>, targetLen: nat)
    ensures LoadAudio(LoadAudio(y, targetLen), targetLen) == LoadAudio(y, targetLen)
  {
    var r := LoadAudio(y, targetLen);
    assert r[..targetLen] == r;
  }

  /** `SAMPLES` is 144000: four and a half seconds at 32 kHz. */
  lemma SamplesValue()
    ensures Samples == 144000
  {
  }

  // ----- The dataset of the four-class script -----

  /** `generator()`: for each pair of `zip(file_paths, labels)`, the loaded
      recording and its label; `decode` stands for `librosa.load`. */
  method Generator(filePaths: seq<string>, labels: seq<nat>, decode: string -> seq<real>)
    returns (pairs: seq<(seq<real>, nat)>)
    ensures |pairs| == if |filePaths| < |labels| then |filePaths| else |labels|
    ensures forall i :: 0 <= i < |pairs| ==>
      pairs[i] == (LoadAudio(decode(filePaths[i]), Samples), labels[i]) && |pairs[i].0| == Samples
  {
    pairs := [];
    var i := 0;
    while i < |filePaths| && i < |labels|
      invariant 0 <= i <= |filePaths| && i <= |labels| && |pairs| == i
      invariant forall j :: 0 <= j < i ==> pairs[j] == (LoadAudio(decode(filePaths[j]), Samples), labels[j])
    {
      var audio := LoadAudio(decode(filePaths[i]), Samples);
      pairs := pairs + [(audio, labels[i])];
      i := i + 1;
    }
  }

  // ----- Steps -----

  /** `len(X) // batchSize`: the number of whole batches. */
  function Steps(n: nat): (s: nat)
    ensures s * BatchSize <= n < (s + 1) * BatchSize
  {
    n / BatchSize
  }

  // ----- The three-quarter subset of the three-class script -----

  /** `int(0.75 * n)`: three quarters rounded down (`0.75 * n` is exact in
      floating point for any list length). */
  function Quota(n: nat): nat {
    3 * n / 4
  }

  /** Index `i` is among the first `int(0.75 * n)` indices of its class,
      where the class has `n` members in `y`. */
  predicate Picked(y: seq<nat>, i: nat)
    requires i < |y|
  {
    CountOf(y[..i], y[i]) < Quota(CountOf(y, y[i]))
  }

  /** The picked indices below `k`, in increasing order. */
  function SelectUpTo(y: seq<nat>, k: nat): (sel: seq<nat>)
    requires k <= |y|
    ensures forall j :: 0 <= j < |sel| ==> sel[j] < k
    ensures forall a, b :: 0 <= a < b < |sel| ==> sel[a] < sel[b]
    ensures forall i :: 0 <= i < k ==> (i in sel <==> Picked(y, i))
  {
    if k == 0 then [] else SelectUpTo(y, k - 1) + (if Picked(y, k - 1) then [k - 1] else [])
  }

  /** `selected_indices` after `sort()`: the first `int(0.75 * n)` indices
      of every class, in increasing order. */
  function Selection(y: seq<nat>): seq<nat> {
    SelectUpTo(y, |y|)
  }

  /** `[x[i] for i in sel]` */
  function Gather<T>(x: seq<T>, sel: seq<nat>): (r: seq<T>)
    requires forall j :: 0 <= j < |sel| ==> sel[j] < |x|
    ensures |r| == |sel| && forall j :: 0 <= j < |sel| ==> r[j] == x[sel[j]]
  {
    if sel == [] then [] else Gather(x, sel[..|sel| - 1]) + [x[sel[|sel| - 1]]]
  }

  function Min(a: nat, b: nat): nat {
    if a < b then a else b
  }

  /** Among the indices below `k`, a class keeps as many as it has there,
      up to its quota. */
  lemma {:induction false} SelectionCountsUpTo(y: seq<nat>, k: nat, c: nat)
    requires k <= |y|
    ensures CountOf(Gather(y, SelectUpTo(y, k)), c) == Min(CountOf(y[..k], c), Quota(CountOf(y, c)))
  {
    if k > 0 {
      SelectionCountsUpTo(y, k - 1, c);
      CountStep(y, k, c);
    }
  }

  /** The step of `SelectionCountsUpTo` from `k - 1` to `k`. */
  lemma CountStep(y: seq<nat>, k: nat, c: nat)
    requires 0 < k <= |y|
    requires CountOf(Gather(y, SelectUpTo(y, k - 1)), c) == Min(CountOf(y[..k - 1], c), Quota(CountOf(y, c)))
    ensures CountOf(Gather(y, SelectUpTo(y, k)), c) == Min(CountOf(y[..k], c), Quota(CountOf(y, c)))
  {
    GatherStepCount(y, k, c);
    PrefixStepCount(y, k, c);
    MinStep(CountOf(Gather(y, SelectUpTo(y, k - 1)), c), CountOf(y[..k - 1], c), Quota(CountOf(y, c)),
      y[k - 1] == c, Picked(y, k - 1), CountOf(Gather(y, SelectUpTo(y, k)), c), CountOf(y[..k], c));
  }

  /** A count kept at `min(a, q)` follows `a` up by one while under `q`. */
  lemma MinStep(kept: nat, a: nat, q: nat, hit: bool, picked: bool, kept': nat, a': nat)
    requires kept == Min(a, q)
    requires hit ==> (picked <==> a < q)
    requires kept' == kept + (if hit && picked then 1 else 0)
    requires a' == a + (if hit then 1 else 0)
    ensures kept' == Min(a', q)
  {
  }

  /** One more index changes a class's selected count by one exactly when it
      is picked and belongs to that class. */
  lemma GatherStepCount(y: seq<nat>, k: nat, c: nat)
    requires 0 < k <= |y|
    ensures CountOf(Gather(y, SelectUpTo(y, k)), c) ==
      CountOf(Gather(y, SelectUpTo(y, k - 1)), c) + (if y[k - 1] == c && Picked(y, k - 1) then 1 else 0)
  {
    var sel := SelectUpTo(y, k - 1);
    if Picked(y, k - 1) {
      assert SelectUpTo(y, k) == sel + [k - 1];
      GatherSnoc(y, sel, k - 1);
      CountOfSnoc(Gather(y, sel), y[k - 1], c);
    } else {
      assert SelectUpTo(y, k) == sel;
    }
  }

  /** A class's count over the first `k` labels, from its count over `k - 1`. */
  lemma PrefixStepCount(y: seq<nat>, k: nat, c: nat)
    requires 0 < k <= |y|
    ensures CountOf(y[..k], c) == CountOf(y[..k - 1], c) + (if y[k - 1] == c then 1 else 0)
  {
    assert y[..k] == y[..k - 1] + [y[k - 1]];
    CountOfSnoc(y[..k - 1], y[k - 1], c);
  }

  lemma CountOfSnoc(s: seq<nat>, v: nat, c: nat)
    ensures CountOf(s + [v], c) == CountOf(s, c) + (if v == c then 1 else 0)
  {
    assert (s + [v])[..|s|] == s;
  }

  lemma GatherSnoc<T>(x: seq<T>, sel: seq<nat>, i: nat)
    requires forall j :: 0 <= j < |sel| ==> sel[j] < |x|
    requires i < |x|
    ensures Gather(x, sel + [i]) == Gather(x, sel) + [x[i]]
  {
    assert (sel + [i])[..|sel|] == sel;
  }

  /** After the subset selection, each class of `y_train` holds exactly
      `int(0.75 * n)` of its `n` members. */
  lemma SubsetPerClass(y: seq<nat>, c: nat)
    ensures CountOf(Gather(y, Selection(y)), c) == Quota(CountOf(y, c))
  {
    SelectionCountsUpTo(y, |y|, c);
    assert y[..|y|] == y;
  }

  /** Two increasing index lists with the same members are the same list:
      sorting the class-by-class picks gives `Selection`. */
  lemma {:induction false} AscendingUnique(a: seq<nat>, b: seq<nat>)
    requires forall i, j :: 0 <= i < j < |a| ==> a[i] < a[j]
    requires forall i, j :: 0 <= i < j < |b| ==> b[i] < b[j]
    requires forall x :: x in a <==> x in b
    ensures a == b
    decreases |a|
  {
    if a != [] {
      assert a[0] in b;
    }
    if b != [] {
      assert b[0] in a;
    }
    if a != [] && b != [] {
      assert a[0] == b[0] by {
        var i :| 0 <= i < |b| && b[i] == a[0];
        var j :| 0 <= j < |a| && a[j] == b[0];
        assert !(0 < i) && !(0 < j);
      }
      forall x ensures x in a[1..] <==> x in b[1..] {
        if x in a[1..] {
          var i :| 1 <= i < |a| && a[i] == x;
          assert x in b && x != b[0];
          var j :| 0 <= j < |b| && b[j] == x;
          assert b[1..][j - 1] == x;
        }
        if x in b[1..] {
          var i :| 1 <= i < |b| && b[i] == x;
          assert x in a && x != a[0];
          var j :| 0 <= j < |a| && a[j] == x;
          assert a[1..][j - 1] == x;
        }
      }
      AscendingUnique(a[1..], b[1..]);
      assert a == [a[0]] + a[1..] && b == [b[0]] + b[1..];
    }
  }

  /** The picks of class `c`: its indices in increasing order, cut to the
      quota (`indices[:n]`). */
  function ClassPicks(y: seq<nat>, c: nat): seq<nat> {
    var indices := IndicesOf(y, c, |y|);
    indices[..Min(|indices|, Quota(CountOf(y, c)))]
  }

  /** `[i for i, v in enumerate(y[:k]) if v == c]` */
  function IndicesOf(y: seq<nat>, c: nat, k: nat): (r: seq<nat>)
    requires k <= |y|
    ensures |r| == CountOf(y[..k], c)
    ensures forall j :: 0 <= j < |r| ==> r[j] < k && y[r[j]] == c && CountOf(y[..r[j]], c) == j
  {
    if k == 0 then []
    else
      assert y[..k][..k - 1] == y[..k - 1];
      IndicesOf(y, c, k - 1) + (if y[k - 1] == c then [k - 1] else [])
  }

  /** An index is selected exactly when it is among the picks of its own
      class, so the sorted concatenation of the picks is `Selection`. */
  lemma SelectionIsClassPicks(y: seq<nat>, i: nat)
    requires i < |y|
    ensures i in Selection(y) <==> i in ClassPicks(y, y[i])
  {
    var c := y[i];
    var indices := IndicesOf(y, c, |y|);
    var n := CountOf(y[..i], c);
    IndicesOfHas(y, c, |y|, i);
    assert indices[n] == i;
    assert y[..|y|] == y;
    if i in ClassPicks(y, c) {
      var j :| 0 <= j < Min(|indices|, Quota(CountOf(y, c))) && indices[j] == i;
    }
  }

  lemma {:induction false} IndicesOfHas(y: seq<nat>, c: nat, k: nat, i: nat)
    requires i < k <= |y| && y[i] == c
    ensures CountOf(y[..i], c) < |IndicesOf(y, c, k)| && IndicesOf(y, c, k)[CountOf(y[..i], c)] == i
  {
    assert y[..k][..k - 1] == y[..k - 1];
    if i < k - 1 {
      IndicesOfHas(y, c, k - 1, i);
    }
  }

  /** The picks of a class are indices of that class. */
  lemma ClassPicksMembers(y: seq<nat>, c: nat, v: nat)
    requires v in ClassPicks(y, c)
    ensures v < |y| && y[v] == c
  {
    var indices := IndicesOf(y, c, |y|);
    var j :| 0 <= j < Min(|indices|, Quota(CountOf(y, c))) && indices[j] == v;
  }

  /** The loop of the three-class script over the classes present in
      `y_train`: for each, the first `int(0.75 * n)` of its `n` indices are
      appended to `selected_indices`. */
  method ExtendPicks(y: seq<nat>) returns (selected: seq<nat>)
    ensures forall v: nat :: v in selected <==> v < |y| && v in ClassPicks(y, y[v])
  {
    var classes := set i | 0 <= i < |y| :: y[i];   // `np.unique(y_train)`
    var todo := classes;
    selected := [];
    while todo != {}
      invariant todo <= classes
      invariant forall v: nat :: v in selected <==>
        v < |y| && y[v] in classes - todo && v in ClassPicks(y, y[v])
      decreases |todo|
    {
      var c :| c in todo;
      var indices := IndicesOf(y, c, |y|);
      assert y[..|y|] == y;
      var n := Quota(|indices|);
      assert indices[..n] == ClassPicks(y, c);
      forall v | v in indices[..n] ensures v < |y| && y[v] == c {
        ClassPicksMembers(y, c, v);
      }
      selected := selected + indices[..n];
      todo := todo - {c};
    }
    forall v: nat | v < |y| && v in ClassPicks(y, y[v]) ensures y[v] in classes {
    }
  }

  /** `selected_indices.sort()` on indices below `bound`: the distinct
      members in increasing order. */
  method SortIndices(selected: seq<nat>, bound: nat) returns (sorted: seq<nat>)
    requires forall v :: v in selected ==> v < bound
    ensures forall a, b :: 0 <= a < b < |sorted| ==> sorted[a] < sorted[b]
    ensures forall v :: v in sorted <==> v in selected
  {
    sorted := [];
    var i := 0;
    while i < bound
      invariant 0 <= i <= bound
      invariant forall a, b :: 0 <= a < b < |sorted| ==> sorted[a] < sorted[b]
      invariant forall v :: v in sorted ==> v < i
      invariant forall v :: v < i ==> (v in sorted <==> v in selected)
    {
      if i in selected {
        assert forall a :: 0 <= a < |sorted| ==> sorted[a] in sorted;
        sorted := sorted + [i];
      }
      i := i + 1;
    }
  }

  /** The subset selection of the three-class script on the training split
      `x`, `y`: the picks of every class, sorted, and both `X_train` and
      `y_train` cut down to them. Each class keeps `int(0.75 * n)` of its
      `n` members. */
  method SelectSubset(x: seq<string>, y: seq<nat>) returns (xs: seq<string>, ys: seq<nat>)
    requires |x| == |y|
    ensures xs == Gather(x, Selection(y)) && ys == Gather(y, Selection(y))
    ensures forall c :: CountOf(ys, c) == Quota(CountOf(y, c))
  {
    var selected := ExtendPicks(y);
    var sorted := SortIndices(selected, |y|);
    forall v: nat ensures v in sorted <==> v in Selection(y) {
      if v < |y| {
        SelectionIsClassPicks(y, v);
      }
    }
    AscendingUnique(sorted, Selection(y));
    xs := Gather(x, sorted);
    ys := Gather(y, sorted);
    forall c ensures CountOf(ys, c) == Quota(CountOf(y, c)) {
      SubsetPerClass(y, c);
    }
  }
}
