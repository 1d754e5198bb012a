/** The recording-name grammar and the cutting rule of the root
    `shortenFilesIntoSegments.py`. A downloaded file is named
    `bird_(m_s)_Country_rest.mp3`; `process_audio_files` parses the name with
    `(.+?)_\(\d+_\d+\)_([A-Za-z]+)_(.+)`, chooses one to four parts from the
    duration, exports equal slices named `bird_m_s_CountryN_rest.mp3`, and
    removes the original once a slice was exported; `deleteallparts` removes
    an original whose directory already holds a slice of it, recognised with
    a second pattern. Audio is a sequence of one sample per millisecond. */
module Segments {
  import opened Wrappers
  import opened Text

  // ----- The file-name pattern -----

  /** The character classes of the two patterns: `\d`, `[A-Za-z]`, and `.`
      (anything but a newline). */
  datatype CharClass = Digit | Letter | Line

  /** The zeros of the decimal digit runs of Unicode 15.0 outside ASCII:
      each starts ten consecutive characters of general category `Nd`. */
  const OtherDigitZeros: seq<int> := [
    0x660, 0x6F0, 0x7C0, 0x966, 0x9E6, 0xA66, 0xAE6, 0xB66, 0xBE6, 0xC66, 0xCE6,
    0xD66, 0xDE6, 0xE50, 0xED0, 0xF20, 0x1040, 0x1090, 0x17E0, 0x1810, 0x1946,
    0x19D0, 0x1A80, 0x1A90, 0x1B50, 0x1BB0, 0x1C40, 0x1C50, 0xA620, 0xA8D0, 0xA900,
    0xA9D0, 0xA9F0, 0xAA50, 0xABF0, 0xFF10, 0x104A0, 0x10D30, 0x11066, 0x110F0,
    0x11136, 0x111D0, 0x112F0, 0x11450, 0x114D0, 0x11650, 0x116C0, 0x11730,
    0x118E0, 0x11950, 0x11C50, 0x11D50, 0x11DA0, 0x11F50, 0x16A60, 0x16AC0,
    0x16B50, 0x1D7CE, 0x1D7D8, 0x1D7E2, 0x1D7EC, 0x1D7F6, 0x1E140, 0x1E2F0,
    0x1E4F0, 0x1E950, 0x1FBF0
  ]

  /** Python's `\d` in a text pattern: a Unicode decimal digit (category
      `Nd`), ASCII `0`-`9` or a digit of another script. */
  predicate IsDecimalDigit(c: char) {
    IsDigit(c) || (c as int >= 0x660 && exists z :: z in OtherDigitZeros && z <= c as int <= z + 9)
  }

  predicate InClass(k: CharClass, c: char) {
    match k
    case Digit => IsDecimalDigit(c)
    case Letter => IsLetter(c)
    case Line => c != '\n'
  }

  /** Every character of `s` is in class `k`. */
  predicate AllIn(k: CharClass, s: string)
    decreases |s|
  {
    s == [] || (InClass(k, s[0]) && AllIn(k, s[1..]))
  }

  /** `s` does not continue a run of class `k`. */
  predicate StopsRun(k: CharClass, s: string) {
    s == [] || !InClass(k, s[0])
  }

  /** The longest prefix of `s` in class `k`, and what follows it. */
  function Run(k: CharClass, s: string): (r: (string, string))
    ensures r.0 + r.1 == s && AllIn(k, r.0) && StopsRun(k, r.1)
    decreases |s|
  {
    if s != [] && InClass(k, s[0]) then
      var t := Run(k, s[1..]);
      RunCons(k, s, t.0, t.1);
      ([s[0]] + t.0, t.1)
    else ([], s)
  }

  /** A character of the class in front of a run extends the run. */
  lemma RunCons(k: CharClass, s: string, a: string, rest: string)
    requires s != [] && InClass(k, s[0])
    requires a + rest == s[1..] && AllIn(k, a)
    ensures ([s[0]] + a) + rest == s && AllIn(k, [s[0]] + a)
  {
    assert ([s[0]] + a)[0] == s[0] && ([s[0]] + a)[1..] == a;
    assert [s[0]] + s[1..] == s;
  }

  /** A run followed by a character outside the class is the longest one. */
  lemma {:induction false} RunOf(k: CharClass, a: string, rest: string)
    requires AllIn(k, a) && StopsRun(k, rest)
    ensures Run(k, a + rest) == (a, rest)
    decreases |a|
  {
    if a != [] {
      assert (a + rest)[0] == a[0] && InClass(k, a[0]);
      assert (a + rest)[1..] == a[1..] + rest;
      RunOf(k, a[1..], rest);
      assert [a[0]] + a[1..] == a;
    } else {
      assert a + rest == rest;
    }
  }

  /** `s` with the literal `p` taken off its front, if it starts with `p`. */
  function Drop(s: string, p: string): (r: Option<string>)
    ensures r.Some? ==> s == p + r.value
  {
    if |p| <= |s| && s[..|p|] == p then
      assert s == s[..|p|] + s[|p|..];
      Some(s[|p|..])
    else None
  }

  lemma DropOf(p: string, r: string)
    ensures Drop(p + r, p) == Some(r)
  {
    assert (p + r)[..|p|] == p;
    assert (p + r)[|p|..] == r;
  }

  /** A successful match of the name pattern, cut into its parts: the three
      groups, the two digit runs between the parentheses, and whatever
      follows the last group (nothing, or a newline and more). */
  datatype Shape = Shape(basename: string, minutes: string, seconds: string,
                         country: string, rest: string, tail: string)

  /** The groups `match.groups()` returns. */
  datatype Groups = Groups(basename: string, country: string, rest: string)

  function Render(sh: Shape): string {
    sh.basename + ("_(" + (sh.minutes + ("_" + (sh.seconds + (")_" + (sh.country + ("_" + (sh.rest + sh.tail))))))))
  }

  /** The parts a match of `(.+?)_\(\d+_\d+\)_([A-Za-z]+)_(.+)` can have:
      `.` never matches a newline, and `(.+)` runs up to the first newline. */
  predicate Wellformed(sh: Shape) {
    sh.basename != [] && AllIn(Line, sh.basename) &&
    sh.minutes != [] && AllIn(Digit, sh.minutes) &&
    sh.seconds != [] && AllIn(Digit, sh.seconds) &&
    sh.country != [] && AllIn(Letter, sh.country) &&
    sh.rest != [] && AllIn(Line, sh.rest) &&
    StopsRun(Line, sh.tail)
  }

  /** `_(.+)` at the front of `s`: the last group and what follows it. */
  function MatchRest(s: string): (r: Option<(string, string)>)
    ensures r.Some? ==> s == "_" + (r.value.0 + r.value.1)
    ensures r.Some? ==> r.value.0 != [] && AllIn(Line, r.value.0) && StopsRun(Line, r.value.1)
  {
    match Drop(s, "_")
    case None => None
    case Some(s1) =>
      var (x, tail) := Run(Line, s1);
      if x == [] then None else Some((x, tail))
  }

  /** `\)_([A-Za-z]+)_(.+)` at the front of `s`. */
  function MatchCountry(s: string): (r: Option<(string, string, string)>)
    ensures r.Some? ==> s == ")_" + (r.value.0 + ("_" + (r.value.1 + r.value.2)))
    ensures r.Some? ==> r.value.0 != [] && AllIn(Letter, r.value.0)
    ensures r.Some? ==> r.value.1 != [] && AllIn(Line, r.value.1) && StopsRun(Line, r.value.2)
  {
    match Drop(s, ")_")
    case None => None
    case Some(s1) =>
      var (c, s2) := Run(Letter, s1);
      if c == [] then None
      else
        match MatchRest(s2)
        case None => None
        case Some(t) => Some((c, t.0, t.1))
  }

  /** `_\d+\)_([A-Za-z]+)_(.+)` at the front of `s`. */
  function MatchSeconds(s: string): (r: Option<(string, string, string, string)>)
    ensures r.Some? ==> s == "_" + (r.value.0 + (")_" + (r.value.1 + ("_" + (r.value.2 + r.value.3)))))
    ensures r.Some? ==> r.value.0 != [] && AllIn(Digit, r.value.0) && r.value.1 != [] && AllIn(Letter, r.value.1)
    ensures r.Some? ==> r.value.2 != [] && AllIn(Line, r.value.2) && StopsRun(Line, r.value.3)
  {
    match Drop(s, "_")
    case None => None
    case Some(s1) =>
      var (d, s2) := Run(Digit, s1);
      if d == [] then None
      else
        match MatchCountry(s2)
        case None => None
        case Some(t) => Some((d, t.0, t.1, t.2))
  }

  /** Everything after the first group, at the front of `s`; the result's
      base name is left empty. */
  function MatchAfterBase(s: string): (r: Option<Shape>)
    ensures r.Some? ==> r.value.basename == [] && s == Render(r.value)
    ensures r.Some? ==> r.value.minutes != [] && AllIn(Digit, r.value.minutes)
    ensures r.Some? ==> r.value.seconds != [] && AllIn(Digit, r.value.seconds)
    ensures r.Some? ==> r.value.country != [] && AllIn(Letter, r.value.country)
    ensures r.Some? ==> r.value.rest != [] && AllIn(Line, r.value.rest) && StopsRun(Line, r.value.tail)
  {
    match Drop(s, "_(")
    case None => None
    case Some(s1) =>
      var (d, s2) := Run(Digit, s1);
      if d == [] then None
      else
        match MatchSeconds(s2)
        case None => None
        case Some(t) =>
          var sh := Shape([], d, t.0, t.1, t.2, t.3);
          assert s == Render(sh);
          Some(sh)
  }

  /** The match with the first group ending at index `b`: once `b` is fixed
      every other part is forced. */
  function MatchAt(name: string, b: nat): (r: Option<Shape>)
    requires b <= |name|
    ensures r.Some? ==> Wellformed(r.value) && Render(r.value) == name && |r.value.basename| == b
  {
    var base := name[..b];
    var after := name[b..];
    assert name == base + after;
    if base == [] || !AllIn(Line, base) then None
    else
      var m := MatchAfterBase(after);
      if m.None? then None
      else
        var sh := m.value;
        var full := Shape(base, sh.minutes, sh.seconds, sh.country, sh.rest, sh.tail);
        RenderWithBase(sh, base);
        assert name == base + name[b..];
        assert Render(full) == name;
        assert Wellformed(full);
        Some(full)
  }

  /** Putting a base name in front of an empty one prefixes the rendering. */
  lemma RenderWithBase(sh: Shape, base: string)
    requires sh.basename == []
    ensures Render(Shape(base, sh.minutes, sh.seconds, sh.country, sh.rest, sh.tail)) == base + Render(sh)
  {
  }

  /** `re.match` tries the lazy first group from one character upwards. */
  function ParseFrom(name: string, b: nat): (r: Option<Shape>)
    requires 1 <= b
    ensures r.Some? ==> b <= |r.value.basename| <= |name| && MatchAt(name, |r.value.basename|) == r
    ensures r.Some? ==> forall b' :: b <= b' < |r.value.basename| ==> MatchAt(name, b').None?
    ensures r.None? ==> forall b' :: b <= b' <= |name| ==> MatchAt(name, b').None?
    decreases |name| + 1 - b
  {
    if b > |name| then None
    else
      var m := MatchAt(name, b);
      if m.Some? then m else ParseFrom(name, b + 1)
  }

  /** `re.match(r'(.+?)_\(\d+_\d+\)_([A-Za-z]+)_(.+)', base_name)`. */
  function Parse(name: string): Option<Groups> {
    match ParseFrom(name, 1)
    case None => None
    case Some(sh) => Some(Groups(sh.basename, sh.country, sh.rest))
  }

  /** No `_(` inside a string. */
  predicate NoOpenMark(s: string) {
    forall i :: 0 <= i < |s| - 1 ==> !(s[i] == '_' && s[i + 1] == '(')
  }

  /** The rendering of a shape has `_(` right after its base name. */
  lemma RenderMark(sh: Shape)
    ensures |Render(sh)| >= |sh.basename| + 2
    ensures Render(sh)[|sh.basename|] == '_' && Render(sh)[|sh.basename| + 1] == '('
  {
    var rest := sh.minutes + ("_" + (sh.seconds + (")_" + (sh.country + ("_" + (sh.rest + sh.tail))))));
    assert Render(sh) == sh.basename + ("_(" + rest);
  }

  /** A match at `b` needs `_(` at index `b`. */
  lemma MatchAtMark(name: string, b: nat)
    requires b <= |name|
    ensures MatchAt(name, b).Some? ==> b + 2 <= |name| && name[b] == '_' && name[b + 1] == '('
  {
    if MatchAt(name, b).Some? {
      RenderMark(MatchAt(name, b).value);
    }
  }

  lemma MatchRestOf(x: string, tail: string)
    requires x != [] && AllIn(Line, x) && StopsRun(Line, tail)
    ensures MatchRest("_" + (x + tail)) == Some((x, tail))
  {
    DropOf("_", x + tail);
    RunOf(Line, x, tail);
  }

  lemma MatchCountryOf(c: string, x: string, tail: string)
    requires c != [] && AllIn(Letter, c) && x != [] && AllIn(Line, x) && StopsRun(Line, tail)
    ensures MatchCountry(")_" + (c + ("_" + (x + tail)))) == Some((c, x, tail))
  {
    DropOf(")_", c + ("_" + (x + tail)));
    RunOf(Letter, c, "_" + (x + tail));
    MatchRestOf(x, tail);
  }

  lemma MatchSecondsOf(d: string, c: string, x: string, tail: string)
    requires d != [] && AllIn(Digit, d)
    requires c != [] && AllIn(Letter, c) && x != [] && AllIn(Line, x) && StopsRun(Line, tail)
    ensures MatchSeconds("_" + (d + (")_" + (c + ("_" + (x + tail)))))) == Some((d, c, x, tail))
  {
    DropOf("_", d + (")_" + (c + ("_" + (x + tail)))));
    RunOf(Digit, d, ")_" + (c + ("_" + (x + tail))));
    MatchCountryOf(c, x, tail);
  }

  lemma MatchAfterBaseOf(sh: Shape)
    requires Wellformed(sh)
    ensures MatchAfterBase(Render(sh.(basename := []))) == Some(sh.(basename := []))
  {
    var s2 := "_" + (sh.seconds + (")_" + (sh.country + ("_" + (sh.rest + sh.tail)))));
    assert Render(sh.(basename := [])) == "_(" + (sh.minutes + s2);
    DropOf("_(", sh.minutes + s2);
    RunOf(Digit, sh.minutes, s2);
    MatchSecondsOf(sh.seconds, sh.country, sh.rest, sh.tail);
  }

  /** Rendering a well-formed shape and matching with the first group ending
      where its base name ends gives the shape back. */
  lemma MatchAtRender(sh: Shape)
    requires Wellformed(sh)
    ensures MatchAt(Render(sh), |sh.basename|) == Some(sh)
  {
    var name := Render(sh);
    var empty := sh.(basename := []);
    RenderWithBase(empty, sh.basename);
    assert empty.(basename := sh.basename) == sh;
    assert name == sh.basename + Render(empty);
    assert name[..|sh.basename|] == sh.basename;
    assert name[|sh.basename|..] == Render(empty);
    MatchAfterBaseOf(sh);
  }

  /** The pattern accepts every rendering of a well-formed shape; the lazy
      first group is never longer than that shape's base name, and equals it
      when that base name holds no `_(`. */
  lemma ParseRender(sh: Shape)
    requires Wellformed(sh)
    ensures Parse(Render(sh)).Some?
    ensures |Parse(Render(sh)).value.basename| <= |sh.basename|
    ensures NoOpenMark(sh.basename) ==> Parse(Render(sh)) == Some(Groups(sh.basename, sh.country, sh.rest))
  {
    var name := Render(sh);
    MatchAtRender(sh);
    var r := ParseFrom(name, 1);
    assert r.Some?;
    if NoOpenMark(sh.basename) {
      forall b' | 1 <= b' < |sh.basename| ensures MatchAt(name, b').None? {
        assert name[..|sh.basename|] == sh.basename;
        MatchAtMark(name, b');
        if b' < |sh.basename| - 1 {
          assert name[b'] == sh.basename[b'] && name[b' + 1] == sh.basename[b' + 1];
        } else {
          RenderMark(sh);
        }
      }
      assert |r.value.basename| == |sh.basename|;
    }
  }

  /** Whatever the pattern accepts is the rendering of a well-formed shape
      whose groups are the returned ones. */
  lemma ParseSound(name: string)
    ensures Parse(name).Some? ==>
      exists sh :: Wellformed(sh) && Render(sh) == name &&
        Parse(name) == Some(Groups(sh.basename, sh.country, sh.rest))
  {
    if Parse(name).Some? {
      var sh := ParseFrom(name, 1).value;
      assert Wellformed(sh) && Render(sh) == name;
    }
  }

  // ----- Split names and the pattern of `deleteallparts` -----

  /** `f"{basename}_{new_length}_{country}{i+1}_{rest}.mp3"` with the three
      numbers already written out. */
  function SplitNameWith(g: Groups, a: string, b: string, c: string): string {
    (g.basename + "_") + (a + ("_" + (b + (("_" + g.country) + (c + ("_" + g.rest + ".mp3"))))))
  }

  /** The name of part `part` (counted from 1) of a slice `segmentMs` long:
      `new_length` is whole minutes and the seconds within the minute. */
  function SplitName(g: Groups, segmentMs: nat, part: nat): string {
    SplitNameWith(g, NatToString(segmentMs / 60000), NatToString(segmentMs / 1000 % 60), NatToString(part))
  }

  /** The digit runs of `f` when `f` fully matches
      `re.escape(basename + "_") \d+_\d+_ re.escape(country) \d+_ re.escape(rest) \.mp3`.
      Each digit run is followed by a character that is not a digit, so the
      match is unique. */
  function PatternFields(g: Groups, f: string): (r: Option<(string, string, string)>)
    ensures r.Some? ==> f == SplitNameWith(g, r.value.0, r.value.1, r.value.2)
    ensures r.Some? ==> r.value.0 != [] && AllIn(Digit, r.value.0) && r.value.1 != [] && AllIn(Digit, r.value.1)
                        && r.value.2 != [] && AllIn(Digit, r.value.2)
  {
    match Drop(f, g.basename + "_")
    case None => None
    case Some(s1) =>
      var (a, s2) := Run(Digit, s1);
      if a == [] then None
      else
        match Drop(s2, "_")
        case None => None
        case Some(s3) =>
          var (b, s4) := Run(Digit, s3);
          if b == [] then None
          else
            match Drop(s4, "_" + g.country)
            case None => None
            case Some(s5) =>
              var (c, s6) := Run(Digit, s5);
              if c == [] || s6 != "_" + g.rest + ".mp3" then None
              else
                assert f == SplitNameWith(g, a, b, c);
                Some((a, b, c))
  }

  /** `pattern.fullmatch(f)` */
  predicate PatternMatches(g: Groups, f: string) {
    PatternFields(g, f).Some?
  }

  /** The pattern recognises every name of the split-name shape and reads
      its three numbers back. */
  lemma PatternFieldsOf(g: Groups, a: string, b: string, c: string)
    requires a != [] && AllIn(Digit, a) && b != [] && AllIn(Digit, b) && c != [] && AllIn(Digit, c)
    ensures PatternFields(g, SplitNameWith(g, a, b, c)) == Some((a, b, c))
  {
    var s6 := "_" + g.rest + ".mp3";
    var s5 := c + s6;
    var s4 := ("_" + g.country) + s5;
    var s3 := b + s4;
    var s2 := "_" + s3;
    var s1 := a + s2;
    assert SplitNameWith(g, a, b, c) == (g.basename + "_") + s1;
    DropOf(g.basename + "_", s1);
    RunOf(Digit, a, s2);
    DropOf("_", s3);
    RunOf(Digit, b, s4);
    DropOf("_" + g.country, s5);
    RunOf(Digit, c, s6);
  }

  /** ASCII digits are in the class of `\d`. */
  lemma DigitsInClass(s: string)
    requires AllDigits(s)
    ensures AllIn(Digit, s)
  {
  }

  /** Round trip: every split name made from an original's groups is
      recognised by the pattern made from the same groups, which reads back
      the slice's minutes, seconds and part number. */
  lemma SplitNameMatches(g: Groups, segmentMs: nat, part: nat)
    ensures PatternFields(g, SplitName(g, segmentMs, part))
      == Some((NatToString(segmentMs / 60000), NatToString(segmentMs / 1000 % 60), NatToString(part)))
  {
    DigitsInClass(NatToString(segmentMs / 60000));
    DigitsInClass(NatToString(segmentMs / 1000 % 60));
    DigitsInClass(NatToString(part));
    PatternFieldsOf(g, NatToString(segmentMs / 60000), NatToString(segmentMs / 1000 % 60), NatToString(part));
  }

  /** Different parts get different names. */
  lemma SplitNamesDiffer(g: Groups, ms: nat, ms': nat, part: nat, part': nat)
    requires SplitName(g, ms, part) == SplitName(g, ms', part')
    ensures part == part'
  {
    SplitNameMatches(g, ms, part);
    SplitNameMatches(g, ms', part');
    NatToStringValue(part);
    NatToStringValue(part');
  }

  // ----- Parts and slices -----

  /** The duration in milliseconds stands for `audio.duration_seconds`. */
  type Audio = seq<int>

  /** `num_parts` from the duration: four above 120 s, three above 80 s, two
      above 50 s, otherwise one. */
  function NumParts(ms: nat): nat {
    if ms > 120000 then 4 else if ms > 80000 then 3 else if ms > 50000 then 2 else 1
  }

  /** One to four parts, more parts for longer files, and a split exactly
      above 50 s; every slice of a split file lasts at least 25 s, and at
      most 40 s unless the file is over two minutes. */
  lemma NumPartsFacts(ms: nat, ms': nat)
    ensures 1 <= NumParts(ms) <= 4
    ensures NumParts(ms) > 1 <==> ms > 50000
    ensures ms <= ms' ==> NumParts(ms) <= NumParts(ms')
    ensures NumParts(ms) > 1 ==> ms / NumParts(ms) >= 25000
    ensures 1 < NumParts(ms) < 4 ==> ms / NumParts(ms) <= 40000
  {
  }

  lemma MulMono(a: nat, b: nat, c: nat)
    requires a <= b
    ensures a * c <= b * c
  {
  }

  /** `audio[i * segment_length:(i + 1) * segment_length]` with
      `segment_length = len(audio) // num_parts`. */
  function Slice(audio: Audio, n: nat, i: nat): (s: Audio)
    requires 1 <= n && i < n
    ensures |s| == |audio| / n
  {
    var L := |audio| / n;
    MulMono(i + 1, n, L);
    audio[i * L..(i + 1) * L]
  }

  /** The first `k` slices one after the other. */
  function Slices(audio: Audio, n: nat, k: nat): seq<int>
    requires 1 <= n && k <= n
  {
    if k == 0 then [] else Slices(audio, n, k - 1) + Slice(audio, n, k - 1)
  }

  /** Euclidean division of a length: `n` whole quotients fit, with fewer
      than `n` left over. */
  lemma DivBounds(m: nat, n: nat)
    requires 1 <= n
    ensures n * (m / n) <= m && m - n * (m / n) < n
  {
  }

  lemma MulPred(k: nat, L: nat)
    requires 0 < k
    ensures k * L == (k - 1) * L + L
  {
  }

  /** The first `k` slices end inside the audio. */
  lemma SlicesEnd(audio: Audio, n: nat, k: nat)
    requires 1 <= n && k <= n
    ensures k * (|audio| / n) <= |audio|
  {
    DivBounds(|audio|, n);
    MulMono(k, n, |audio| / n);
  }

  /** Slice `k - 1` continues the audio where the first `k - 1` end. */
  lemma SliceStep(audio: Audio, n: nat, k: nat)
    requires 1 <= n && 0 < k <= n
    ensures (k - 1) * (|audio| / n) <= k * (|audio| / n) <= |audio|
    ensures audio[..(k - 1) * (|audio| / n)] + Slice(audio, n, k - 1) == audio[..k * (|audio| / n)]
  {
    var L := |audio| / n;
    SlicesEnd(audio, n, k);
    MulPred(k, L);
    var a := (k - 1) * L;
    assert Slice(audio, n, k - 1) == audio[a..a + L];
    assert audio[..a] + audio[a..a + L] == audio[..a + L];
  }

  /** The slices are consecutive, of equal length, and together cover the
      audio up to fewer than `n` trailing milliseconds. */
  lemma {:induction false} SlicesTile(audio: Audio, n: nat, k: nat)
    requires 1 <= n && k <= n
    ensures k * (|audio| / n) <= |audio|
    ensures Slices(audio, n, k) == audio[..k * (|audio| / n)]
    ensures k == n ==> |audio| - n * (|audio| / n) < n
  {
    SlicesEnd(audio, n, k);
    DivBounds(|audio|, n);
    if k > 0 {
      SlicesTile(audio, n, k - 1);
      SliceStep(audio, n, k);
    }
  }

  // ----- `process_audio_files` -----

  /** The files: each path and its audio. */
  type Fs = map<string, Audio>

  /** The exports of the first `k` parts into the original's directory. */
  function Exports(fs: Fs, root: string, g: Groups, audio: Audio, n: nat, k: nat): Fs
    requires 1 <= n && k <= n
  {
    if k == 0 then fs
    else Exports(fs, root, g, audio, n, k - 1)[Join(root, SplitName(g, |audio| / n, k)) := Slice(audio, n, k - 1)]
  }

  /** The loop body for one listed file; an MP3 that no longer exists makes
      `AudioSegment.from_file` raise, which ends the walk. */
  function ProcessFile(fs: Fs, root: string, file: string): Result<Fs, string> {
    if !EndsWith(file, ".mp3") then Ok(fs)
    else
      var path := Join(root, file);
      if path !in fs then Err(path)
      else
        var audio := fs[path];
        match Parse(SplitExtRoot(file))
        case None => Ok(fs)
        case Some(g) => Ok(SplitFile(fs, root, path, g, audio))
  }

  /** Exporting the parts of the original at `path`, then removing it when
      more than one part was exported. */
  function SplitFile(fs: Fs, root: string, path: string, g: Groups, audio: Audio): Fs {
    var n := NumParts(|audio|);
    if n > 1 then Exports(fs, root, g, audio, n, n) - {path} else fs
  }

  function ProcessFiles(fs: Fs, root: string, files: seq<string>): Result<Fs, string>
    decreases |files|
  {
    if files == [] then Ok(fs)
    else
      match ProcessFile(fs, root, files[0])
      case Err(e) => Err(e)
      case Ok(fs') => ProcessFiles(fs', root, files[1..])
  }

  function ProcessWalk(fs: Fs, walk: seq<Dir>): Result<Fs, string>
    decreases |walk|
  {
    if walk == [] then Ok(fs)
    else
      match ProcessFiles(fs, walk[0].root, walk[0].files)
      case Err(e) => Err(e)
      case Ok(fs') => ProcessWalk(fs', walk[1..])
  }

  /** `process_audio_files(files_dir)` over the listing `os.walk` produces. */
  method ProcessAudioFiles(fs: Fs, walk: seq<Dir>) returns (r: Result<Fs, string>)
    ensures r == ProcessWalk(fs, walk)
  {
    var cur := fs;
    var d := 0;
    while d < |walk|
      invariant 0 <= d <= |walk|
      invariant ProcessWalk(cur, walk[d..]) == ProcessWalk(fs, walk)
    {
      assert walk[d..][1..] == walk[d + 1..];
      var res := ProcessDirectory(cur, walk[d].root, walk[d].files);
      if res.Err? {
        return Err(res.error);
      }
      cur := res.value;
      d := d + 1;
    }
    return Ok(cur);
  }

  /** The file loop of one directory. */
  method ProcessDirectory(fs: Fs, root: string, files: seq<string>) returns (r: Result<Fs, string>)
    ensures r == ProcessFiles(fs, root, files)
  {
    var cur := fs;
    var j := 0;
    while j < |files|
      invariant 0 <= j <= |files|
      invariant ProcessFiles(cur, root, files[j..]) == ProcessFiles(fs, root, files)
    {
      assert files[j..][1..] == files[j + 1..];
      var res := ProcessOne(cur, root, files[j]);
      if res.Err? {
        return Err(res.error);
      }
      cur := res.value;
      j := j + 1;
    }
    return Ok(cur);
  }

  /** The loop body for one file: export the parts, then remove the
      original if a part was exported. */
  method ProcessOne(fs: Fs, root: string, file: string) returns (r: Result<Fs, string>)
    ensures r == ProcessFile(fs, root, file)
  {
    if !EndsWith(file, ".mp3") {
      return Ok(fs);
    }
    var filePath := Join(root, file);
    if filePath !in fs {
      return Err(filePath);
    }
    var audio := fs[filePath];
    var m := Parse(SplitExtRoot(file));
    if m.None? {
      return Ok(fs);
    }
    var g := m.value;
    var numParts := NumParts(|audio|);
    var splitsCreated := false;
    var cur := fs;
    if numParts > 1 {
      cur, splitsCreated := ExportParts(fs, root, g, audio, numParts);
    }
    if splitsCreated {
      cur := cur - {filePath};
    }
    assert cur == SplitFile(fs, root, filePath, g, audio);
    return Ok(cur);
  }

  /** The export loop over the parts of one file. */
  method ExportParts(fs: Fs, root: string, g: Groups, audio: Audio, numParts: nat)
    returns (cur: Fs, splitsCreated: bool)
    requires 1 <= numParts
    ensures cur == Exports(fs, root, g, audio, numParts, numParts)
    ensures splitsCreated
  {
    splitsCreated := false;
    cur := fs;
    var i := 0;
    while i < numParts
      invariant 0 <= i <= numParts
      invariant cur == Exports(fs, root, g, audio, numParts, i)
      invariant splitsCreated <==> i > 0
    {
      var segment := Slice(audio, numParts, i);
      var newFileName := SplitName(g, |segment|, i + 1);
      cur := cur[Join(root, newFileName) := segment];
      splitsCreated := true;
      i := i + 1;
    }
  }

  /** A split name is never the name of the original it came from: the
      original has `(` right after `basename_`, the split name a digit. */
  lemma SplitNameIsNotOriginal(file: string, g: Groups, ms: nat, part: nat)
    requires Parse(SplitExtRoot(file)) == Some(g)
    ensures SplitName(g, ms, part) != file
  {
    var base := SplitExtRoot(file);
    ParseSound(base);
    var sh :| Wellformed(sh) && Render(sh) == base && Parse(base) == Some(Groups(sh.basename, sh.country, sh.rest));
    RenderMark(sh);
    SplitExtRootPrefix(file);
    var b := |g.basename|;
    assert file[b + 1] == '(';
    var digits := NatToString(ms / 60000);
    assert SplitName(g, ms, part) == (g.basename + "_") + (digits + ("_" + (NatToString(ms / 1000 % 60)
      + (("_" + g.country) + (NatToString(part) + ("_" + g.rest + ".mp3"))))));
    assert SplitName(g, ms, part)[b + 1] == digits[0];
  }

  lemma DigitsHaveNoSlash(s: string)
    requires AllDigits(s)
    ensures '/' !in s
  {
    forall i | 0 <= i < |s| ensures s[i] != '/' {
      assert IsDigit(s[i]);
    }
  }

  lemma SplitNameHasNoSlash(g: Groups, ms: nat, part: nat)
    requires '/' !in g.basename && '/' !in g.country && '/' !in g.rest
    ensures '/' !in SplitName(g, ms, part)
  {
    DigitsHaveNoSlash(NatToString(ms / 60000));
    DigitsHaveNoSlash(NatToString(ms / 1000 % 60));
    DigitsHaveNoSlash(NatToString(part));
  }

  /** Different parts are exported to different paths. */
  lemma SplitPathsDiffer(root: string, g: Groups, ms: nat, p: nat, q: nat)
    requires '/' !in g.basename && '/' !in g.country && '/' !in g.rest
    ensures p != q ==> Join(root, SplitName(g, ms, p)) != Join(root, SplitName(g, ms, q))
  {
    if Join(root, SplitName(g, ms, p)) == Join(root, SplitName(g, ms, q)) {
      SplitNameHasNoSlash(g, ms, p);
      SplitNameHasNoSlash(g, ms, q);
      JoinInjective(root, SplitName(g, ms, p), SplitName(g, ms, q));
      SplitNamesDiffer(g, ms, ms, p, q);
    }
  }

  /** The path of part `i + 1` in `root`. */
  function PartPath(root: string, g: Groups, audio: Audio, n: nat, i: nat): string
    requires 1 <= n
  {
    Join(root, SplitName(g, |audio| / n, i + 1))
  }

  /** After the first `k` exports, part `i` holds the `i`-th slice. */
  lemma {:induction false} ExportsParts(fs: Fs, root: string, g: Groups, audio: Audio, n: nat, k: nat)
    requires 1 <= n && k <= n
    requires '/' !in g.basename && '/' !in g.country && '/' !in g.rest
    ensures forall i :: 0 <= i < k ==>
      PartPath(root, g, audio, n, i) in Exports(fs, root, g, audio, n, k) &&
      Exports(fs, root, g, audio, n, k)[PartPath(root, g, audio, n, i)] == Slice(audio, n, i)
    decreases k
  {
    if k > 0 {
      ExportsParts(fs, root, g, audio, n, k - 1);
      assert Join(root, SplitName(g, |audio| / n, k)) == PartPath(root, g, audio, n, k - 1);
      forall i | 0 <= i < k - 1
        ensures PartPath(root, g, audio, n, k - 1) != PartPath(root, g, audio, n, i)
      {
        SplitPathsDiffer(root, g, |audio| / n, k, i + 1);
      }
    }
  }

  /** The first `k` exports leave every other path as it was. */
  lemma {:induction false} ExportsOthers(fs: Fs, root: string, g: Groups, audio: Audio, n: nat, k: nat)
    requires 1 <= n && k <= n
    ensures forall p :: (forall i :: 0 <= i < k ==> p != PartPath(root, g, audio, n, i)) ==>
      (p in Exports(fs, root, g, audio, n, k) <==> p in fs) &&
      (p in fs ==> Exports(fs, root, g, audio, n, k)[p] == fs[p])
    decreases k
  {
    if k > 0 {
      var prev := Exports(fs, root, g, audio, n, k - 1);
      var key := PartPath(root, g, audio, n, k - 1);
      ExportsOthers(fs, root, g, audio, n, k - 1);
      assert Exports(fs, root, g, audio, n, k) == prev[key := Slice(audio, n, k - 1)];
      forall p | forall i :: 0 <= i < k ==> p != PartPath(root, g, audio, n, i)
        ensures (p in prev[key := Slice(audio, n, k - 1)] <==> p in fs) &&
          (p in fs ==> prev[key := Slice(audio, n, k - 1)][p] == fs[p])
      {
        assert p != key;
      }
    }
  }

  /** After the first `k` exports, part `i` holds the `i`-th slice, and every
      other path is as before. */
  lemma ExportsFacts(fs: Fs, root: string, g: Groups, audio: Audio, n: nat, k: nat)
    requires 1 <= n && k <= n
    requires '/' !in g.basename && '/' !in g.country && '/' !in g.rest
    ensures forall i :: 0 <= i < k ==>
      PartPath(root, g, audio, n, i) in Exports(fs, root, g, audio, n, k) &&
      Exports(fs, root, g, audio, n, k)[PartPath(root, g, audio, n, i)] == Slice(audio, n, i)
    ensures forall p :: (forall i :: 0 <= i < k ==> p != PartPath(root, g, audio, n, i)) ==>
      (p in Exports(fs, root, g, audio, n, k) <==> p in fs) &&
      (p in fs ==> Exports(fs, root, g, audio, n, k)[p] == fs[p])
  {
    ExportsParts(fs, root, g, audio, n, k);
    ExportsOthers(fs, root, g, audio, n, k);
  }

  /** The groups of a name without slashes hold no slash. */
  lemma GroupsHaveNoSlash(file: string, g: Groups)
    requires '/' !in file && Parse(SplitExtRoot(file)) == Some(g)
    ensures '/' !in g.basename && '/' !in g.country && '/' !in g.rest
  {
    var base := SplitExtRoot(file);
    ParseSound(base);
    var sh :| Wellformed(sh) && Render(sh) == base && Parse(base) == Some(Groups(sh.basename, sh.country, sh.rest));
    SplitExtRootPrefix(file);
    assert base == file[..|base|];
    assert '/' !in base;
  }

  /** No split name of a parsed name is the name itself, and its groups
      hold no slash when the name holds none. */
  lemma SplitNamesAwayFrom(file: string, g: Groups)
    requires '/' !in file && Parse(SplitExtRoot(file)) == Some(g)
    ensures '/' !in g.basename && '/' !in g.country && '/' !in g.rest
    ensures forall ms: nat, part: nat :: SplitName(g, ms, part) != file
  {
    GroupsHaveNoSlash(file, g);
    forall ms: nat, part: nat ensures SplitName(g, ms, part) != file {
      SplitNameIsNotOriginal(file, g, ms, part);
    }
  }

  /** Split names without slashes that differ from `file` land on paths
      other than `file`'s. */
  lemma PartsAwayFromName(root: string, file: string, g: Groups, audio: Audio, n: nat)
    requires '/' !in file && 1 <= n
    requires '/' !in g.basename && '/' !in g.country && '/' !in g.rest
    requires forall ms: nat, part: nat :: SplitName(g, ms, part) != file
    ensures forall i :: 0 <= i < n ==> PartPath(root, g, audio, n, i) != Join(root, file)
  {
    forall i | 0 <= i < n ensures PartPath(root, g, audio, n, i) != Join(root, file) {
      var name := SplitName(g, |audio| / n, i + 1);
      SplitNameHasNoSlash(g, |audio| / n, i + 1);
      if Join(root, name) == Join(root, file) {
        JoinInjective(root, name, file);
      }
    }
  }

  /** No part is exported onto the original's own path. */
  lemma PartsAwayFromOriginal(root: string, file: string, g: Groups, audio: Audio, n: nat)
    requires '/' !in file && Parse(SplitExtRoot(file)) == Some(g) && 1 <= n
    ensures forall i :: 0 <= i < n ==> PartPath(root, g, audio, n, i) != Join(root, file)
  {
    SplitNamesAwayFrom(file, g);
    PartsAwayFromName(root, file, g, audio, n);
  }

  /** Splitting a file whose split names differ from its own name and hold
      no slash: with one part nothing changes; with more, every part holds
      its slice, the original is gone, and nothing else changes. */
  lemma SplitFileResult(fs: Fs, root: string, file: string, g: Groups, audio: Audio)
    requires '/' !in file
    requires '/' !in g.basename && '/' !in g.country && '/' !in g.rest
    requires forall ms: nat, part: nat :: SplitName(g, ms, part) != file
    ensures NumParts(|audio|) == 1 ==> SplitFile(fs, root, Join(root, file), g, audio) == fs
    ensures NumParts(|audio|) > 1 ==> Join(root, file) !in SplitFile(fs, root, Join(root, file), g, audio)
    ensures NumParts(|audio|) > 1 ==> forall i :: 0 <= i < NumParts(|audio|) ==>
      PartPath(root, g, audio, NumParts(|audio|), i) in SplitFile(fs, root, Join(root, file), g, audio) &&
      SplitFile(fs, root, Join(root, file), g, audio)[PartPath(root, g, audio, NumParts(|audio|), i)]
        == Slice(audio, NumParts(|audio|), i)
    ensures forall p ::
      (p != Join(root, file) && forall i :: 0 <= i < NumParts(|audio|) ==> p != PartPath(root, g, audio, NumParts(|audio|), i))
      ==> (p in SplitFile(fs, root, Join(root, file), g, audio) <==> p in fs) &&
          (p in fs ==> SplitFile(fs, root, Join(root, file), g, audio)[p] == fs[p])
  {
    var n := NumParts(|audio|);
    NumPartsFacts(|audio|, |audio|);
    if n > 1 {
      ExportsFacts(fs, root, g, audio, n, n);
      PartsAwayFromName(root, file, g, audio, n);
    }
  }

  /** What processing one listed MP3 `audio` whose name parses to `g` does:
      with one part nothing changes; with more, every part is exported next
      to the original holding its slice, the original is removed, and
      nothing else changes. */
  lemma ProcessFileResult(fs: Fs, root: string, file: string, g: Groups, audio: Audio)
    requires EndsWith(file, ".mp3") && '/' !in file
    requires Join(root, file) in fs && fs[Join(root, file)] == audio
    requires Parse(SplitExtRoot(file)) == Some(g)
    ensures ProcessFile(fs, root, file).Ok?
    ensures NumParts(|audio|) == 1 ==> ProcessFile(fs, root, file).value == fs
    ensures NumParts(|audio|) > 1 ==> Join(root, file) !in ProcessFile(fs, root, file).value
    ensures NumParts(|audio|) > 1 ==> forall i :: 0 <= i < NumParts(|audio|) ==>
      PartPath(root, g, audio, NumParts(|audio|), i) in ProcessFile(fs, root, file).value &&
      ProcessFile(fs, root, file).value[PartPath(root, g, audio, NumParts(|audio|), i)]
        == Slice(audio, NumParts(|audio|), i)
    ensures forall p ::
      (p != Join(root, file) && forall i :: 0 <= i < NumParts(|audio|) ==> p != PartPath(root, g, audio, NumParts(|audio|), i))
      ==> (p in ProcessFile(fs, root, file).value <==> p in fs) &&
          (p in fs ==> ProcessFile(fs, root, file).value[p] == fs[p])
  {
    assert ProcessFile(fs, root, file) == Ok(SplitFile(fs, root, Join(root, file), g, audio));
    SplitNamesAwayFrom(file, g);
    SplitFileResult(fs, root, file, g, audio);
  }

  // ----- `deleteallparts` -----

  /** `any(pattern.fullmatch(f) for f in files_set)` */
  predicate HasSplitSibling(g: Groups, names: seq<string>) {
    exists f :: f in names && PatternMatches(g, f)
  }

  /** A listed file that `deleteallparts` removes: an MP3 whose name parses
      and whose directory listing holds a split name of it. */
  predicate Doomed(file: string, names: seq<string>) {
    EndsWith(file, ".mp3") && Parse(SplitExtRoot(file)).Some? &&
    HasSplitSibling(Parse(SplitExtRoot(file)).value, names)
  }

  /** The doomed names of a listing, decided once against the listing
      taken when the walk reached the directory. */
  function DoomedNames(names: seq<string>): (r: set<string>)
    ensures forall f :: f in r <==> f in names && Doomed(f, names)
  {
    set f | f in names && Doomed(f, names)
  }

  /** The file loop of one directory over the files still to visit, with
      `doomed` the listing's doomed names. Removing a file that no longer
      exists raises, which ends the walk. */
  function DeleteFiles(fs: Fs, root: string, todo: seq<string>, doomed: set<string>): Result<Fs, string>
    decreases |todo|
  {
    if todo == [] then Ok(fs)
    else
      var path := Join(root, todo[0]);
      if todo[0] !in doomed then DeleteFiles(fs, root, todo[1..], doomed)
      else if path !in fs then Err(path)
      else DeleteFiles(fs - {path}, root, todo[1..], doomed)
  }

  function DeleteWalk(fs: Fs, walk: seq<Dir>): Result<Fs, string>
    decreases |walk|
  {
    if walk == [] then Ok(fs)
    else
      match DeleteFiles(fs, walk[0].root, walk[0].files, DoomedNames(walk[0].files))
      case Err(e) => Err(e)
      case Ok(fs') => DeleteWalk(fs', walk[1..])
  }

  /** `deleteallparts(files_dir)` over the listing `os.walk` produces. */
  method DeleteAllParts(fs: Fs, walk: seq<Dir>) returns (r: Result<Fs, string>)
    ensures r == DeleteWalk(fs, walk)
  {
    var cur := fs;
    var d := 0;
    while d < |walk|
      invariant 0 <= d <= |walk|
      invariant DeleteWalk(cur, walk[d..]) == DeleteWalk(fs, walk)
    {
      assert walk[d..][1..] == walk[d + 1..];
      var res := DeleteInDirectory(cur, walk[d].root, walk[d].files);
      if res.Err? {
        return Err(res.error);
      }
      cur := res.value;
      d := d + 1;
    }
    return Ok(cur);
  }

  method DeleteInDirectory(fs: Fs, root: string, files: seq<string>) returns (r: Result<Fs, string>)
    ensures r == DeleteFiles(fs, root, files, DoomedNames(files))
  {
    ghost var D := DoomedNames(files);
    var cur := fs;
    var j := 0;
    while j < |files|
      invariant 0 <= j <= |files|
      invariant DeleteFiles(cur, root, files[j..], D) == DeleteFiles(fs, root, files, D)
    {
      var file := files[j];
      var doomed := IsDoomed(file, files);
      DeleteStep(cur, root, files[j..], D, doomed);
      assert files[j..][1..] == files[j + 1..];
      if doomed {
        var path := Join(root, file);
        if path !in cur {
          return Err(path);
        }
        cur := cur - {path};
      }
      j := j + 1;
    }
    assert files[j..] == [];
    return Ok(cur);
  }

  /** One turn of the file loop, for a file whose doom is known. */
  lemma DeleteStep(cur: Fs, root: string, todo: seq<string>, D: set<string>, doomed: bool)
    requires todo != [] && (doomed <==> todo[0] in D)
    ensures !doomed ==> DeleteFiles(cur, root, todo, D) == DeleteFiles(cur, root, todo[1..], D)
    ensures doomed && Join(root, todo[0]) !in cur ==> DeleteFiles(cur, root, todo, D) == Err(Join(root, todo[0]))
    ensures doomed && Join(root, todo[0]) in cur ==>
      DeleteFiles(cur, root, todo, D) == DeleteFiles(cur - {Join(root, todo[0])}, root, todo[1..], D)
  {
  }

  /** The test for one listed file. */
  method IsDoomed(file: string, files: seq<string>) returns (doomed: bool)
    requires file in files
    ensures doomed <==> file in DoomedNames(files)
  {
    if !EndsWith(file, ".mp3") {
      return false;
    }
    var m := Parse(SplitExtRoot(file));
    if m.None? {
      return false;
    }
    doomed := FindSibling(m.value, files);
  }

  /** The `any` loop over the listing. */
  method FindSibling(g: Groups, files: seq<string>) returns (found: bool)
    ensures found == HasSplitSibling(g, files)
  {
    found := false;
    var k := 0;
    while k < |files| && !found
      invariant 0 <= k <= |files|
      invariant found ==> HasSplitSibling(g, files)
      invariant !found ==> forall i :: 0 <= i < k ==> !PatternMatches(g, files[i])
    {
      if PatternMatches(g, files[k]) {
        found := true;
      }
      k := k + 1;
    }
  }

  /** The paths of the doomed files among `todo`. */
  function DoomedPaths(root: string, todo: seq<string>, doomed: set<string>): set<string>
    decreases |todo|
  {
    if todo == [] then {}
    else (if todo[0] in doomed then {Join(root, todo[0])} else {}) + DoomedPaths(root, todo[1..], doomed)
  }

  /** The paths of exactly the doomed files of `todo`. */
  lemma {:induction false} DoomedPathsMembers(root: string, todo: seq<string>, doomed: set<string>)
    ensures forall t :: t in todo && t in doomed ==> Join(root, t) in DoomedPaths(root, todo, doomed)
    ensures forall p :: p in DoomedPaths(root, todo, doomed) ==>
      exists t :: t in todo && t in doomed && p == Join(root, t)
    decreases |todo|
  {
    if todo != [] {
      DoomedPathsMembers(root, todo[1..], doomed);
      assert forall t :: t in todo[1..] ==> t in todo;
      assert forall t :: t in todo ==> t == todo[0] || t in todo[1..];
    }
  }

  /** In a listing of distinct names without slashes, the first file's path
      is not among the doomed paths of the rest. */
  lemma FirstNotDoomedLater(root: string, todo: seq<string>, doomed: set<string>)
    requires todo != []
    requires forall i, j :: 0 <= i < j < |todo| ==> todo[i] != todo[j]
    requires forall i :: 0 <= i < |todo| ==> '/' !in todo[i]
    ensures Join(root, todo[0]) !in DoomedPaths(root, todo[1..], doomed)
  {
    var path := Join(root, todo[0]);
    forall i | 1 <= i < |todo| ensures Join(root, todo[i]) != path {
      if Join(root, todo[i]) == path {
        JoinInjective(root, todo[i], todo[0]);
      }
    }
    DoomedPathsMembers(root, todo[1..], doomed);
  }

  lemma RemoveTwice<V>(m: map<string, V>, x: string, later: set<string>)
    ensures (m - {x}) - later == m - ({x} + later)
  {
  }

  /** Over a listing of distinct names without slashes whose doomed files
      all exist, one directory's pass removes exactly the doomed files. */
  lemma {:induction false} DeleteFilesResult(fs: Fs, root: string, todo: seq<string>, doomed: set<string>)
    requires forall i, j :: 0 <= i < j < |todo| ==> todo[i] != todo[j]
    requires forall i :: 0 <= i < |todo| ==> '/' !in todo[i]
    requires DoomedPaths(root, todo, doomed) <= fs.Keys
    ensures DeleteFiles(fs, root, todo, doomed) == Ok(fs - DoomedPaths(root, todo, doomed))
    decreases |todo|
  {
    if todo == [] {
      assert fs - {} == fs;
    } else {
      var path := Join(root, todo[0]);
      var rest := todo[1..];
      var later := DoomedPaths(root, rest, doomed);
      assert forall i, j :: 0 <= i < j < |rest| ==> rest[i] != rest[j] by {
        forall i, j | 0 <= i < j < |rest| ensures rest[i] != rest[j] {
          assert rest[i] == todo[i + 1] && rest[j] == todo[j + 1];
        }
      }
      assert forall i :: 0 <= i < |rest| ==> '/' !in rest[i] by {
        forall i | 0 <= i < |rest| ensures '/' !in rest[i] {
          assert rest[i] == todo[i + 1];
        }
      }
      if todo[0] in doomed {
        assert DoomedPaths(root, todo, doomed) == {path} + later;
        FirstNotDoomedLater(root, todo, doomed);
        assert later <= (fs - {path}).Keys;
        DeleteFilesResult(fs - {path}, root, rest, doomed);
        RemoveTwice(fs, path, later);
      } else {
        assert DoomedPaths(root, todo, doomed) == later;
        DeleteFilesResult(fs, root, rest, doomed);
      }
    }
  }

  /** Round trip: an original whose directory holds any split name made from
      its own groups is removed by `deleteallparts`. */
  lemma SplitSiblingDooms(file: string, names: seq<string>, ms: nat, part: nat)
    requires EndsWith(file, ".mp3") && Parse(SplitExtRoot(file)).Some?
    requires SplitName(Parse(SplitExtRoot(file)).value, ms, part) in names
    ensures Doomed(file, names)
  {
    SplitNameMatches(Parse(SplitExtRoot(file)).value, ms, part);
  }
}
