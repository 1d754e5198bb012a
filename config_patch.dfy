/** The patch the training scripts apply to a saved model before loading
    it: the `model_config` attribute of the HDF5 file has every
    `"groups": 1,` removed by one `str.replace` pass, is written back, read
    again and asserted to be free of the pattern. The file's attributes are
    a map from names to strings. */
module ConfigPatch {
  import opened Wrappers
  import opened Text

  /** The text removed from the configuration. */
  const Pattern: string := "\"groups\": 1,"

  /** The `if` and the `replace`: every non-overlapping occurrence, found
      from the left, is removed when there is one; otherwise the text stays
      as it is. */
  function Patch(config: string): string {
    if Find(config, Pattern) != -1 then ReplaceAll(config, Pattern, "") else config
  }

  datatype Failure =
    | NoConfig   // `attrs.get` gives `None`, and `None.find` raises

  /** The attributes after `attrs.modify` and whether the final `assert`
      holds; the attributes are written before the assertion is checked. */
  datatype Outcome = Outcome(attrs: map<string, string>, assertionHolds: bool)

  const ConfigKey: string := "model_config"

  /** One run of the patch on the attributes of the model file. */
  function PatchFile(attrs: map<string, string>): (r: Result<Outcome, Failure>)
    ensures r.Err? <==> ConfigKey !in attrs
    ensures r.Ok? ==> r.value.attrs.Keys == attrs.Keys
    ensures r.Ok? ==> forall k :: k in attrs && k != ConfigKey ==> r.value.attrs[k] == attrs[k]
  {
    if ConfigKey !in attrs then Err(NoConfig)
    else
      var written := attrs[ConfigKey := Patch(attrs[ConfigKey])];
      Ok(Outcome(written, Find(written[ConfigKey], Pattern) == -1))
  }

  // ----- The replace pass -----

  /** `str.replace` on a text without the pattern returns the text. */
  lemma {:induction false} ReplaceAllAbsent(s: string, p: string, q: string)
    requires |p| > 0
    requires forall i :: !OccursAt(s, p, i)
    ensures ReplaceAll(s, p, q) == s
    decreases |s|
  {
    if |s| >= |p| {
      assert !OccursAt(s, p, 0);
      assert s[..|p|] != p;
      forall i ensures !OccursAt(s[1..], p, i) {
        if OccursAt(s[1..], p, i) {
          assert s[1..|s|] == s[1..];
          OccursInSlice(s, p, 1, |s|, i);
        }
      }
      ReplaceAllAbsent(s[1..], p, q);
    }
  }

  /** The guard only skips a pass that would change nothing: the patch is
      one `replace` whatever the text. */
  lemma PatchIsReplace(config: string)
    ensures Patch(config) == ReplaceAll(config, Pattern, "")
  {
    if Find(config, Pattern) == -1 {
      ContainsIff(config, Pattern);
      ReplaceAllAbsent(config, Pattern, "");
    }
  }

  /** How many occurrences the pass removes: those found scanning from the
      left, each scan resuming after the removed one. */
  function Removals(s: string, p: string): nat
    requires |p| > 0
    decreases |s|
  {
    if |s| < |p| then 0
    else if s[..|p|] == p then 1 + Removals(s[|p|..], p)
    else Removals(s[1..], p)
  }

  /** Removing with an empty replacement shortens the text by the pattern's
      length once per removal. */
  lemma {:induction false} RemovalLength(s: string, p: string)
    requires |p| > 0
    ensures |ReplaceAll(s, p, "")| + |p| * Removals(s, p) == |s|
    decreases |s|
  {
    if |s| >= |p| {
      if s[..|p|] == p {
        var t := s[|p|..];
        assert s == p + t;
        ReplaceAllHit(p, t, "");
        RemovalLength(t, p);
        MulSucc(|p|, Removals(t, p));
      } else {
        ReplaceAllSkip(s, p, "");
        RemovalLength(s[1..], p);
      }
    }
  }

  lemma MulSucc(a: nat, n: nat)
    ensures a * (1 + n) == a + a * n
  {
  }

  /** Something is removed exactly when the pattern occurs. */
  lemma {:induction false} RemovalsPositive(s: string, p: string)
    requires |p| > 0
    ensures Removals(s, p) > 0 <==> exists i :: OccursAt(s, p, i)
    decreases |s|
  {
    if |s| >= |p| {
      if s[..|p|] == p {
        assert OccursAt(s, p, 0);
      } else {
        RemovalsPositive(s[1..], p);
        if exists i :: OccursAt(s[1..], p, i) {
          var i :| OccursAt(s[1..], p, i);
          assert s[1..|s|] == s[1..];
          OccursInSlice(s, p, 1, |s|, i);
        }
        if exists i :: OccursAt(s, p, i) {
          var i :| OccursAt(s, p, i);
          assert i != 0;
          assert s[1..][i - 1..i - 1 + |p|] == s[i..i + |p|];
          assert OccursAt(s[1..], p, i - 1);
        }
      }
    } else {
      assert forall i :: !OccursAt(s, p, i);
    }
  }

  /** The patch removes something exactly when the configuration holds the
      pattern, and never lengthens it. */
  lemma PatchRemoves(config: string)
    ensures |Patch(config)| <= |config|
    ensures |Patch(config)| < |config| <==> Contains(config, Pattern)
  {
    PatchIsReplace(config);
    RemovalLength(config, Pattern);
    RemovalsPositive(config, Pattern);
    ContainsIff(config, Pattern);
  }

  // ----- When the assertion holds -----

  /** No occurrence of `p` in `s` is directly followed by a non-empty proper
      tail of `p`. */
  ghost predicate NoTailAfter(s: string, p: string) {
    forall i, m :: OccursAt(s, p, i) && 0 < m < |p| ==> !StartsWith(s[i + |p|..], p[m..])
  }

  lemma NoTailAfterDrop(s: string, p: string, d: nat)
    requires d <= |s| && NoTailAfter(s, p)
    ensures NoTailAfter(s[d..], p)
  {
    forall i, m | OccursAt(s[d..], p, i) && 0 < m < |p| ensures !StartsWith(s[d..][i + |p|..], p[m..]) {
      assert s[d..|s|] == s[d..];
      OccursInSlice(s, p, d, |s|, i);
      assert s[d..][i + |p|..] == s[d + i + |p|..];
    }
  }

  /** Under that condition the pass never leaves a text starting with a
      tail of the pattern unless the text already started with it. */
  lemma {:induction false} ResultStart(s: string, p: string, m: nat)
    requires |p| > 0 && 0 < m < |p|
    requires NoTailAfter(s, p)
    requires StartsWith(ReplaceAll(s, p, ""), p[m..])
    ensures StartsWith(s, p[m..])
    decreases |s|
  {
    var v := p[m..];
    if |s| >= |p| {
      if s[..|p|] == p {
        NoTailAfterDrop(s, p, |p|);
        assert OccursAt(s, p, 0);
        assert ReplaceAll(s, p, "") == ReplaceAll(s[|p|..], p, "");
        ResultStart(s[|p|..], p, m);
      } else {
        var rest := ReplaceAll(s[1..], p, "");
        assert ReplaceAll(s, p, "") == [s[0]] + rest;
        if m + 1 < |p| {
          assert StartsWith(rest, p[m + 1..]) by {
            assert ([s[0]] + rest)[1..] == rest;
            assert v[1..] == p[m + 1..];
          }
          NoTailAfterDrop(s, p, 1);
          ResultStart(s[1..], p, m + 1);
          assert s[..|v|] == [s[0]] + s[1..][..|v| - 1];
        }
      }
    }
  }

  /** If no occurrence of `p` is directly followed by a non-empty proper
      tail of `p`, removing every occurrence leaves none: a new occurrence
      would have to end in text that directly follows a removed one. */
  lemma {:induction false} RemovalLeavesNone(s: string, p: string)
    requires |p| > 0
    requires NoTailAfter(s, p)
    ensures forall k :: !OccursAt(ReplaceAll(s, p, ""), p, k)
    decreases |s|
  {
    if |s| >= |p| {
      if s[..|p|] == p {
        NoTailAfterDrop(s, p, |p|);
        assert ReplaceAll(s, p, "") == ReplaceAll(s[|p|..], p, "");
        RemovalLeavesNone(s[|p|..], p);
      } else {
        var rest := ReplaceAll(s[1..], p, "");
        var r := [s[0]] + rest;
        assert ReplaceAll(s, p, "") == r;
        NoTailAfterDrop(s, p, 1);
        RemovalLeavesNone(s[1..], p);
        if |p| > 1 && StartsWith(rest, p[1..]) {
          ResultStart(s[1..], p, 1);
        }
        OccurrenceAtFront(s[0], s[1..], rest, p);
        assert s == [s[0]] + s[1..];
        NoneAfterFront(s[0], rest, p);
      }
    }
  }

  /** Prefixing one character to a text without the pattern can only
      create an occurrence at the front. */
  lemma NoneAfterFront(c: char, rest: string, p: string)
    requires forall k :: !OccursAt(rest, p, k)
    requires !OccursAt([c] + rest, p, 0)
    ensures forall k :: !OccursAt([c] + rest, p, k)
  {
    var r := [c] + rest;
    forall k | 0 < k && k + |p| <= |r| ensures !OccursAt(r, p, k) {
      assert r[k..k + |p|] == rest[k - 1..k - 1 + |p|];
      assert !OccursAt(rest, p, k - 1);
    }
  }

  /** An occurrence at the front of `[c] + rest`, where `rest` starts with a
      tail of the pattern only where `t` does, means `[c] + t` starts with
      the pattern: the front of a pass's output over a text that does not
      start with the pattern. */
  lemma OccurrenceAtFront(c: char, t: string, rest: string, p: string)
    requires |p| > 0 && |t| >= |p| - 1
    requires |p| > 1 && StartsWith(rest, p[1..]) ==> StartsWith(t, p[1..])
    ensures OccursAt([c] + rest, p, 0) ==> ([c] + t)[..|p|] == p
  {
    var r := [c] + rest;
    if OccursAt(r, p, 0) {
      assert r[..|p|] == p;
      assert c == r[0] == p[0];
      if |p| > 1 {
        assert rest[..|p| - 1] == r[1..|p|] == p[1..];
        assert ([c] + t)[..|p|] == [c] + t[..|p| - 1];
        assert p == [p[0]] + p[1..];
      } else {
        assert ([c] + t)[..|p|] == [c] && p == [p[0]];
      }
    }
  }

  /** The assertion after the write-back holds whenever no `"groups": 1,`
      of the stored configuration is directly followed by a tail of that
      text (as in the JSON Keras writes, where `, "` follows it). */
  lemma AssertionHolds(attrs: map<string, string>)
    requires ConfigKey in attrs && NoTailAfter(attrs[ConfigKey], Pattern)
    ensures PatchFile(attrs).Ok? && PatchFile(attrs).value.assertionHolds
  {
    var c := attrs[ConfigKey];
    PatchIsReplace(c);
    RemovalLeavesNone(c, Pattern);
    ContainsIff(Patch(c), Pattern);
  }

  /** The written-back configuration is the patched one, and the assertion
      holds exactly when it is free of the pattern. */
  lemma PatchFileWrites(attrs: map<string, string>)
    requires ConfigKey in attrs
    ensures PatchFile(attrs).Ok?
    ensures PatchFile(attrs).value.attrs[ConfigKey] == ReplaceAll(attrs[ConfigKey], Pattern, "")
    ensures PatchFile(attrs).value.assertionHolds <==> !Contains(Patch(attrs[ConfigKey]), Pattern)
    ensures !Contains(attrs[ConfigKey], Pattern) ==> PatchFile(attrs).value.attrs == attrs
  {
    PatchIsReplace(attrs[ConfigKey]);
  }

  /** The text `"` + pattern + `groups": 1,`: removing the one occurrence
      splices the leading quote onto the tail. */
  const Spliced: string := "\"" + Pattern + SplicedTail

  /** The text after the removed occurrence is too short to hold another. */
  const SplicedTail: string := "groups\": 1,"

  /** One step of the pass where the text does not start with the pattern. */
  lemma ReplaceAllSkip(s: string, p: string, q: string)
    requires 0 < |p| <= |s| && s[..|p|] != p
    ensures ReplaceAll(s, p, q) == [s[0]] + ReplaceAll(s[1..], p, q)
  {
  }

  /** One step of the pass where the text starts with the pattern. */
  lemma ReplaceAllHit(p: string, t: string, q: string)
    requires 0 < |p|
    ensures ReplaceAll(p + t, p, q) == q + ReplaceAll(t, p, q)
  {
    assert (p + t)[..|p|] == p && (p + t)[|p|..] == t;
  }

  /** The pattern is a quote followed by the spliced tail. */
  lemma PatternSplits()
    ensures Pattern == ['"'] + SplicedTail
  {
  }

  lemma SplicedPass()
    ensures ReplaceAll(Spliced, Pattern, "") == Pattern
  {
    var pat, tail := Pattern, SplicedTail;
    var rest := pat + tail;
    assert Spliced == ['"'] + rest;
    assert Spliced[..|pat|] != pat by {
      assert Spliced[1] != pat[1];
    }
    assert Spliced[1..] == rest;
    ReplaceAllSkip(Spliced, pat, "");
    assert ReplaceAll(Spliced, pat, "") == ['"'] + ReplaceAll(rest, pat, "");
    ReplaceAllHit(pat, tail, "");
    assert |tail| < |pat|;
    assert ReplaceAll(tail, pat, "") == tail;
    assert ReplaceAll(rest, pat, "") == tail;
    PatternSplits();
  }

  /** One pass is not enough in general: in `""groups": 1,groups": 1,` the
      pass removes the occurrence after the first quote and splices a new
      one together, so the assertion fails. */
  lemma SpliceFormsPattern()
    ensures PatchFile(map[ConfigKey := Spliced]).Ok? && !PatchFile(map[ConfigKey := Spliced]).value.assertionHolds
  {
    SplicedPass();
    PatchIsReplace(Spliced);
    assert OccursAt(Pattern, Pattern, 0);
    ContainsIff(Pattern, Pattern);
  }
}
