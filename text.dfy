/** String and path operations the scripts rely on, over `seq<char>`:
    JavaScript's `includes`, `replace` (first occurrence and `/ /g`) and
    `toLowerCase`; Python's `str.find`, `str.replace`, `str.strip`,
    `str.endswith`, `str(int)`; and the POSIX `os.path` helpers `join`,
    `basename`, `dirname` and `splitext`. */
module Text {

  predicate StartsWith(s: string, p: string) {
    |p| <= |s| && s[..|p|] == p
  }

  predicate EndsWith(s: string, p: string) {
    |p| <= |s| && s[|s| - |p|..] == p
  }

  /** `p` occurs in `s` starting at index `i`. */
  predicate OccursAt(s: string, p: string, i: int) {
    0 <= i && i + |p| <= |s| && s[i..i + |p|] == p
  }

  /** The lowest index at or after `from` where `p` occurs in `s`, or -1. */
  function FindFrom(s: string, p: string, from: nat): (r: int)
    decreases |s| - from
    ensures r == -1 || (from <= r && OccursAt(s, p, r))
    ensures forall j {:trigger OccursAt(s, p, j)} ::
      from <= j && (r == -1 || j < r) ==> !OccursAt(s, p, j)
  {
    if from + |p| > |s| then -1
    else if s[from..from + |p|] == p then from
    else FindFrom(s, p, from + 1)
  }

  /** Python's `s.find(p)`: the lowest index of an occurrence, or -1. */
  function Find(s: string, p: string): int {
    FindFrom(s, p, 0)
  }

  /** JavaScript's `s.includes(p)` and Python's `p in s`. */
  predicate Contains(s: string, p: string) {
    Find(s, p) != -1
  }

  lemma ContainsIff(s: string, p: string)
    ensures Contains(s, p) <==> exists i :: OccursAt(s, p, i)
  {
  }

  /** An occurrence at a known index makes `Contains` true. */
  lemma OccursContains(s: string, p: string, i: int)
    requires OccursAt(s, p, i)
    ensures Contains(s, p)
  {
  }

  /** An occurrence inside a slice is an occurrence in the whole string. */
  lemma OccursInSlice(s: string, p: string, a: nat, b: nat, i: int)
    requires a <= b <= |s|
    requires OccursAt(s[a..b], p, i)
    ensures OccursAt(s, p, a + i)
  {
    forall k | 0 <= k < |p| ensures s[a + i + k] == p[k] {
      assert s[a..b][i..i + |p|][k] == s[a..b][i + k];
    }
    assert s[a + i..a + i + |p|] == p;
  }

  /** Python's `s.replace(p, q)` and JavaScript's `s.replace(/p/g, q)` for a
      non-empty pattern: every non-overlapping occurrence, scanning from the
      left, is replaced. */
  function ReplaceAll(s: string, p: string, q: string): string
    requires |p| > 0
    decreases |s|
  {
    if |s| < |p| then s
    else if s[..|p|] == p then q + ReplaceAll(s[|p|..], p, q)
    else [s[0]] + ReplaceAll(s[1..], p, q)
  }

  /** JavaScript's `s.replace(p, q)` with a string pattern: only the first
      occurrence is replaced. */
  function ReplaceFirst(s: string, p: string, q: string): string {
    var i := Find(s, p);
    if i < 0 then s else s[..i] + q + s[i + |p|..]
  }

  /** `s` with every `c` dropped. */
  function Without(s: string, c: char): (r: string)
    ensures c !in r
    ensures forall x :: x in r <==> x in s && x != c
  {
    if s == [] then []
    else if s[0] == c then Without(s[1..], c)
    else [s[0]] + Without(s[1..], c)
  }

  /** Number of occurrences of the character `c` in `s`. */
  function CountChar(s: string, c: char): nat {
    if s == [] then 0 else (if s[0] == c then 1 else 0) + CountChar(s[1..], c)
  }

  lemma CountCharAppend(a: string, b: string, c: char)
    ensures CountChar(a + b, c) == CountChar(a, c) + CountChar(b, c)
  {
    if a == [] {
      assert a + b == b;
    } else {
      assert (a + b)[1..] == a[1..] + b;
      CountCharAppend(a[1..], b, c);
    }
  }

  /** Replacing every one-character pattern by nothing is the same as
      dropping that character. */
  lemma {:induction false} ReplaceAllCharIsWithout(s: string, c: char)
    ensures ReplaceAll(s, [c], []) == Without(s, c)
    decreases |s|
  {
    if s != [] {
      ReplaceAllCharIsWithout(s[1..], c);
      if s[0] == c {
        assert s[..1] == [c];
      } else {
        assert s[..1] != [c];
      }
    }
  }

  /** JavaScript's `s.replace(/ /g, '')` and the type-folder rule. */
  function RemoveSpaces(s: string): (r: string)
    ensures ' ' !in r
    ensures forall x :: x in r <==> x in s && x != ' '
  {
    ReplaceAllCharIsWithout(s, ' ');
    ReplaceAll(s, " ", "")
  }

  /** Removing the first space by `replace(' ', '')` drops exactly one space
      when there is one, and keeps every later space. */
  lemma {:induction false} ReplaceFirstSpace(s: string)
    ensures ' ' in s ==> CountChar(ReplaceFirst(s, " ", ""), ' ') == CountChar(s, ' ') - 1
    ensures ' ' !in s ==> ReplaceFirst(s, " ", "") == s
  {
    if ' ' in s {
      ReplaceFoundSpace(s);
    } else {
      ReplaceNoSpace(s);
    }
  }

  lemma ReplaceFoundSpace(s: string)
    requires ' ' in s
    ensures CountChar(ReplaceFirst(s, " ", ""), ' ') == CountChar(s, ' ') - 1
  {
    var i := Find(s, " ");
    var k :| 0 <= k < |s| && s[k] == ' ';
    assert OccursAt(s, " ", k);
    assert i >= 0;
    assert s[i] == ' ';
    assert s == s[..i] + [s[i]] + s[i + 1..];
    CountCharAppend(s[..i] + [s[i]], s[i + 1..], ' ');
    CountCharAppend(s[..i], [s[i]], ' ');
    CountCharAppend(s[..i], s[i + 1..], ' ');
    assert ReplaceFirst(s, " ", "") == s[..i] + s[i + 1..];
  }

  lemma ReplaceNoSpace(s: string)
    requires ' ' !in s
    ensures ReplaceFirst(s, " ", "") == s
  {
    forall j | 0 <= j && j + 1 <= |s| ensures !OccursAt(s, " ", j) {
      assert s[j..j + 1][0] == s[j];
    }
  }

  function LowerChar(c: char): char {
    if 'A' <= c <= 'Z' then (c as int + 32) as char else c
  }

  /** JavaScript's `toLowerCase`, for ASCII letters. */
  function ToLower(s: string): (r: string)
    ensures |r| == |s|
    ensures forall i :: 0 <= i < |s| ==> r[i] == LowerChar(s[i])
  {
    seq(|s|, i requires 0 <= i < |s| => LowerChar(s[i]))
  }

  predicate IsDigit(c: char) { '0' <= c <= '9' }

  predicate IsLetter(c: char) { 'A' <= c <= 'Z' || 'a' <= c <= 'z' }

  predicate AllDigits(s: string) { forall i :: 0 <= i < |s| ==> IsDigit(s[i]) }

  function DigitChar(d: nat): char
    requires d < 10
  {
    ('0' as int + d) as char
  }

  /** Python's `str(n)` and an f-string field for a non-negative int. */
  function NatToString(n: nat): (r: string)
    ensures |r| > 0 && AllDigits(r)
  {
    if n < 10 then [DigitChar(n)] else NatToString(n / 10) + [DigitChar(n % 10)]
  }

  /** The value of a string of decimal digits. */
  function DigitsValue(s: string): nat
    requires AllDigits(s)
  {
    if s == [] then 0 else DigitsValue(s[..|s| - 1]) * 10 + (s[|s| - 1] as int - '0' as int)
  }

  lemma {:induction false} NatToStringValue(n: nat)
    ensures DigitsValue(NatToString(n)) == n
  {
    if n >= 10 {
      var s := NatToString(n);
      assert s[..|s| - 1] == NatToString(n / 10);
      NatToStringValue(n / 10);
    }
  }

  /** The characters Python's `str.strip()` removes, those for which
      `str.isspace()` holds: tab, line feed, vertical tab, form feed,
      carriage return, the separators U+001C-U+001F, space, next line U+0085,
      no-break space, the Unicode space separators (U+1680, U+2000-U+200A,
      U+202F, U+205F, U+3000) and the line and paragraph separators U+2028
      and U+2029. */
  predicate IsSpace(c: char) {
    var n := c as int;
    if n <= 0x20 then n == 0x20 || 0x9 <= n <= 0xD || 0x1C <= n <= 0x1F
    else
      n == 0x85 || n == 0xA0 || n == 0x1680 || 0x2000 <= n <= 0x200A || n == 0x2028 || n == 0x2029 ||
      n == 0x202F || n == 0x205F || n == 0x3000
  }

  function TrimStart(s: string): (r: string)
    ensures r == [] || !IsSpace(r[0])
  {
    if s != [] && IsSpace(s[0]) then TrimStart(s[1..]) else s
  }

  function TrimEnd(s: string): (r: string)
    ensures r == [] || !IsSpace(r[|r| - 1])
    ensures r == [] || (s != [] && r[0] == s[0])
  {
    if s != [] && IsSpace(s[|s| - 1]) then TrimEnd(s[..|s| - 1]) else s
  }

  /** Python's `s.strip()`. */
  function Strip(s: string): (r: string)
    ensures r == [] || (!IsSpace(r[0]) && !IsSpace(r[|r| - 1]))
  {
    TrimEnd(TrimStart(s))
  }

  /** The ideographic space U+3000 is white space to `strip` as well. */
  lemma StripIdeographicSpace()
    ensures Strip("\U{3000}Parus\U{3000}") == "Parus"
  {
    var s := "\U{3000}Parus\U{3000}";
    assert TrimStart(s) == TrimStart(s[1..]) == s[1..];
    assert TrimEnd(s[1..]) == TrimEnd(s[1..6]) == "Parus";
  }

  /** Index of the first `c` in `s`, or `|s|` when there is none. */
  function FirstIndexOf(s: string, c: char): (i: nat)
    ensures i <= |s|
  {
    if s == [] || s[0] == c then 0 else 1 + FirstIndexOf(s[1..], c)
  }

  /** The first `c` of `a + r` is where `r` starts, when `a` has no `c` and
      `r` is empty or starts with one. */
  lemma {:induction false} FirstIndexOfAfter(a: string, r: string, c: char)
    requires c !in a && (r == [] || r[0] == c)
    ensures FirstIndexOf(a + r, c) == |a|
    decreases |a|
  {
    if a == [] {
      assert a + r == r;
    } else {
      assert a[0] in a;
      assert (a + r)[1..] == a[1..] + r;
      FirstIndexOfAfter(a[1..], r, c);
    }
  }

  /** Index of the last `c` in `s`, or -1. */
  function LastIndexOf(s: string, c: char): (r: int)
    ensures -1 <= r < |s|
    ensures r >= 0 ==> s[r] == c
    ensures forall j :: r < j < |s| ==> s[j] != c
  {
    if s == [] then -1
    else if s[|s| - 1] == c then |s| - 1
    else LastIndexOf(s[..|s| - 1], c)
  }

  /** POSIX `os.path.basename`: what follows the last `/`. */
  function BaseName(p: string): string {
    p[LastIndexOf(p, '/') + 1..]
  }

  function TrimTrailingSlashes(s: string): string {
    if s != [] && s[|s| - 1] == '/' then TrimTrailingSlashes(s[..|s| - 1]) else s
  }

  /** POSIX `os.path.dirname`: up to the last `/`, with trailing slashes
      removed unless the head consists of slashes only. */
  function DirName(p: string): string {
    var head := p[..LastIndexOf(p, '/') + 1];
    if head != [] && exists i :: 0 <= i < |head| && head[i] != '/' then TrimTrailingSlashes(head)
    else head
  }

  /** POSIX `os.path.join` of two parts. */
  function Join(a: string, b: string): string {
    if StartsWith(b, "/") then b
    else if a == [] || EndsWith(a, "/") then a + b
    else a + "/" + b
  }

  /** `os.path.basename(os.path.dirname(p))`: the name of the directory that
      holds `p`. */
  function ParentName(p: string): string {
    BaseName(DirName(p))
  }

  /** The last `c` of `x + [c] + y`, when `y` holds no `c`, is the one
      between them. */
  lemma {:induction false} LastIndexOfSplit(x: string, c: char, y: string)
    requires c !in y
    ensures LastIndexOf(x + [c] + y, c) == |x|
    decreases |y|
  {
    var s := x + [c] + y;
    if y != [] {
      assert s[..|s| - 1] == x + [c] + y[..|y| - 1];
      assert s[|s| - 1] == y[|y| - 1];
      LastIndexOfSplit(x, c, y[..|y| - 1]);
    }
  }

  /** The directory part of `d + "/" + f`, for a file name `f` and a
      directory `d` that does not end in a slash, is `d`. */
  lemma DirNameOfChild(d: string, f: string)
    requires d != [] && d[|d| - 1] != '/' && '/' !in f
    ensures DirName(d + "/" + f) == d
  {
    var p := d + "/" + f;
    LastIndexOfSplit(d, '/', f);
    var head := p[..|d| + 1];
    assert head == d + "/";
    assert head[|d| - 1] != '/';
    assert exists i :: 0 <= i < |head| && head[i] != '/';
    assert head[..|head| - 1] == d;
    assert TrimTrailingSlashes(d) == d;
    assert TrimTrailingSlashes(head) == d;
  }

  /** The base name of `x + "/" + n`, or of `n` alone, is `n` when `n` has
      no slash. */
  lemma BaseNameOfLast(x: string, n: string, withSep: bool)
    requires '/' !in n
    ensures BaseName(if withSep then x + "/" + n else n) == n
  {
    if withSep {
      LastIndexOfSplit(x, '/', n);
      assert (x + "/" + n)[|x| + 1..] == n;
    } else {
      assert LastIndexOf(n, '/') == -1;
    }
  }

  /** The name of the class directory is recovered from any file path built
      by joining a directory, that name and a file name. */
  lemma ParentNameOfJoin(dir: string, name: string, file: string)
    requires name != [] && '/' !in name && '/' !in file
    ensures ParentName(Join(Join(dir, name), file)) == name
  {
    var d := Join(dir, name);
    JoinOfName(dir, name);
    assert !StartsWith(file, "/") by {
      if file != [] {
        assert file[0] in file;
        assert file[..1][0] == file[0];
      }
    }
    assert Join(d, file) == d + "/" + file;
    DirNameOfChild(d, file);
  }

  /** Joining a non-empty name without slashes gives a path that ends in
      that name, with no slash after it. */
  lemma JoinOfName(dir: string, name: string)
    requires name != [] && '/' !in name
    ensures var d := Join(dir, name);
      d != [] && d[|d| - 1] != '/' && !EndsWith(d, "/") && BaseName(d) == name
  {
    JoinNameShape(dir, name);
    var d := Join(dir, name);
    assert d[|d| - 1] == name[|name| - 1];
    assert name[|name| - 1] in name;
    BaseNameOfJoin(dir, name);
  }

  lemma BaseNameOfJoin(dir: string, name: string)
    requires name != [] && '/' !in name
    ensures BaseName(Join(dir, name)) == name
  {
    JoinNameShape(dir, name);
    if !(dir == [] || EndsWith(dir, "/")) {
      BaseNameOfLast(dir, name, true);
    } else if dir == [] {
      BaseNameOfLast(dir, name, false);
    } else {
      var x := dir[..|dir| - 1];
      assert dir == x + "/";
      assert dir + name == x + "/" + name;
      BaseNameOfLast(x, name, true);
    }
  }

  /** Joining a name that does not start with a slash onto a directory
      that does not end with one puts one slash between them. */
  lemma JoinNameShape(dir: string, name: string)
    requires name != [] && '/' !in name
    ensures Join(dir, name) == if dir == [] || EndsWith(dir, "/") then dir + name else dir + "/" + name
  {
    assert name[0] in name;
    assert !StartsWith(name, "/") by { assert name[..1][0] == name[0]; }
  }

  // ----- os.path.normpath -----

  /** `p.split('/')` */
  function SplitSlash(p: string): (parts: seq<string>)
    ensures parts != [] && forall i :: 0 <= i < |parts| ==> '/' !in parts[i]
    decreases |p|
  {
    var k := LastIndexOf(p, '/');
    if k < 0 then [p] else SplitSlash(p[..k]) + [p[k + 1..]]
  }

  /** A part that `normpath` keeps as it is: not empty, not `.` or `..`,
      and without `/`. */
  predicate PlainPart(c: string) {
    c != "" && c != "." && c != ".." && '/' !in c
  }

  /** One turn of `normpath`'s loop over the parts: an empty part and `.`
      are skipped; `..` is kept at the start of a relative path or after
      another `..`, and otherwise drops the previous part (or vanishes at
      the root); every other part is kept. */
  function NormStep(acc: seq<string>, c: string, absolute: bool): seq<string> {
    if c == "" || c == "." then acc
    else if c != ".." || (!absolute && acc == []) || (acc != [] && acc[|acc| - 1] == "..") then acc + [c]
    else if acc != [] then acc[..|acc| - 1]
    else acc
  }

  /** The parts `normpath` keeps, left to right. */
  function NormParts(parts: seq<string>, absolute: bool): (r: seq<string>)
    ensures forall i :: 0 <= i < |r| ==> r[i] != "" && r[i] in parts
  {
    if parts == [] then []
    else NormStep(NormParts(parts[..|parts| - 1], absolute), parts[|parts| - 1], absolute)
  }

  /** `'/'.join(parts)` */
  function JoinSlash(parts: seq<string>): string {
    if parts == [] then ""
    else if |parts| == 1 then parts[0]
    else JoinSlash(parts[..|parts| - 1]) + "/" + parts[|parts| - 1]
  }

  /** The leading slashes `normpath` keeps: two when the path starts with
      exactly two, one when it starts with one or with more than two. */
  function LeadingSlashes(p: string): string {
    if StartsWith(p, "//") && !StartsWith(p, "///") then "//"
    else if StartsWith(p, "/") then "/"
    else ""
  }

  /** POSIX `os.path.normpath`. */
  function NormPath(p: string): string {
    if p == "" then "."
    else
      var lead := LeadingSlashes(p);
      var path := lead + JoinSlash(NormParts(SplitSlash(p), lead != ""));
      if path == "" then "." else path
  }

  lemma SplitSlashChild(x: string, n: string)
    requires '/' !in n
    ensures SplitSlash(x + "/" + n) == SplitSlash(x) + [n]
  {
    var p := x + "/" + n;
    LastIndexOfSplit(x, '/', n);
    assert p[..|x|] == x && p[|x| + 1..] == n;
  }

  /** `'/'.join` of parts whose last part is not empty ends with that
      part's last character. */
  lemma JoinSlashLast(parts: seq<string>)
    requires parts != [] && parts[|parts| - 1] != ""
    ensures var s := JoinSlash(parts); var l := parts[|parts| - 1];
      s != "" && s[|s| - 1] == l[|l| - 1]
  {
  }

  /** A plain part at the end is kept after the parts before it. */
  lemma NormPartsPlain(ps: seq<string>, c: string, absolute: bool)
    requires PlainPart(c)
    ensures NormParts(ps + [c], absolute) == NormParts(ps, absolute) + [c]
  {
    assert (ps + [c])[..|ps|] == ps;
  }

  lemma JoinSlashSnoc(xs: seq<string>, c: string)
    ensures JoinSlash(xs + [c]) == if xs == [] then c else JoinSlash(xs) + "/" + c
  {
    assert (xs + [c])[..|xs|] == xs;
  }

  lemma NormPartsTail(d: string, a: string, b: string, absolute: bool)
    requires PlainPart(a) && PlainPart(b)
    ensures NormParts(SplitSlash(d + "/" + a + "/" + b), absolute) == NormParts(SplitSlash(d), absolute) + [a, b]
  {
    SplitSlashChild(d, a);
    SplitSlashChild(d + "/" + a, b);
    NormPartsPlain(SplitSlash(d), a, absolute);
    NormPartsPlain(SplitSlash(d) + [a], b, absolute);
    assert SplitSlash(d) + [a] + [b] == SplitSlash(d) + [a, b];
    assert NormParts(SplitSlash(d), absolute) + [a] + [b] == NormParts(SplitSlash(d), absolute) + [a, b];
  }

  lemma JoinSlashTail(xs: seq<string>, a: string, b: string)
    ensures JoinSlash(xs + [a, b]) == (if xs == [] then a else JoinSlash(xs) + "/" + a) + "/" + b
  {
    JoinSlashSnoc(xs, a);
    JoinSlashSnoc(xs + [a], b);
    assert xs + [a] + [b] == xs + [a, b];
  }

  /** Two plain parts at the end of a path survive `normpath` as they are,
      after the normalised parts of the directory before them. */
  lemma NormPathTail(d: string, a: string, b: string)
    requires PlainPart(a) && PlainPart(b)
    ensures var p := d + "/" + a + "/" + b;
      var xs := NormParts(SplitSlash(d), LeadingSlashes(p) != "");
      NormPath(p) == LeadingSlashes(p) + ((if xs == [] then a else JoinSlash(xs) + "/" + a) + "/" + b)
  {
    var p := d + "/" + a + "/" + b;
    var abs := LeadingSlashes(p) != "";
    var xs := NormParts(SplitSlash(d), abs);
    NormPartsTail(d, a, b, abs);
    JoinSlashTail(xs, a, b);
    NormPathOf(p, (if xs == [] then a else JoinSlash(xs) + "/" + a) + "/" + b);
  }

  /** The directory that holds the last of two plain parts, after
      `normpath`, is named by the first. */
  lemma NormPathParent(d: string, a: string, b: string)
    requires PlainPart(a) && PlainPart(b)
    ensures ParentName(NormPath(d + "/" + a + "/" + b)) == a
  {
    var p := d + "/" + a + "/" + b;
    NormPathTail(d, a, b);
    var lead := LeadingSlashes(p);
    assert lead == "" || EndsWith(lead, "/");
    ParentNameAfterParts(lead, NormParts(SplitSlash(d), lead != ""), a, b);
  }

  /** The parent name of `b` after the leading slashes, the directory parts
      `xs` and `a` is `a`. */
  lemma ParentNameAfterParts(lead: string, xs: seq<string>, a: string, b: string)
    requires lead == "" || EndsWith(lead, "/")
    requires PlainPart(a) && PlainPart(b)
    ensures ParentName(lead + ((if xs == [] then a else JoinSlash(xs) + "/" + a) + "/" + b)) == a
  {
    if xs == [] {
      assert lead + ((a + "/") + b) == ((lead + a) + "/") + b;
      ParentNameUnder(lead, a, b);
    } else {
      var dir := lead + JoinSlash(xs) + "/";
      assert EndsWith(dir, "/") by { assert dir[|dir| - 1..] == "/"; }
      SlashAssoc(lead, JoinSlash(xs), a, b);
      ParentNameUnder(dir, a, b);
    }
  }

  /** Below a directory that is empty or ends in a slash, the file `b` of
      the subdirectory `a` has the parent name `a`. */
  lemma ParentNameUnder(dir: string, a: string, b: string)
    requires dir == "" || EndsWith(dir, "/")
    requires PlainPart(a) && PlainPart(b)
    ensures ParentName(dir + a + "/" + b) == a
  {
    var x := dir + a;
    JoinNameShape(dir, a);
    assert x[|x| - 1] == a[|a| - 1] && a[|a| - 1] in a;
    JoinNameShape(x, b);
    ParentNameOfJoin(dir, a, b);
  }

  lemma ConcatAssoc(x: string, y: string, z: string)
    ensures x + (y + z) == (x + y) + z
  {
  }

  lemma SlashAssoc(l: string, j: string, a: string, b: string)
    ensures l + ((j + "/" + a) + "/" + b) == ((l + j + "/") + a) + "/" + b
  {
  }

  lemma NormPathOf(p: string, tail: string)
    requires p != "" && JoinSlash(NormParts(SplitSlash(p), LeadingSlashes(p) != "")) == tail
    requires tail != ""
    ensures NormPath(p) == LeadingSlashes(p) + tail
  {
  }

  /** Python's `os.path.splitext(name)[0]` for a name without `/`: the name
      without its last extension; a name whose last dot is preceded only by
      dots has no extension. */
  function SplitExtRoot(name: string): string {
    var dot := LastIndexOf(name, '.');
    if dot <= 0 || forall i :: 0 <= i < dot ==> name[i] == '.' then name
    else name[..dot]
  }

  /** A name `stem + ext`, where `ext` is one dot and dot-free letters and
      `stem` holds a character other than a dot, loses exactly `ext`. */
  lemma SplitExtRootOf(stem: string, ext: string)
    requires |ext| > 0 && ext[0] == '.' && '.' !in ext[1..]
    requires exists i :: 0 <= i < |stem| && stem[i] != '.'
    ensures SplitExtRoot(stem + ext) == stem
  {
    var name := stem + ext;
    assert LastIndexOf(name, '.') == |stem| by {
      assert name[|stem|] == '.';
      forall j | |stem| < j < |name| ensures name[j] != '.' {
        assert name[j] == ext[1..][j - |stem| - 1];
      }
    }
    var i :| 0 <= i < |stem| && stem[i] != '.';
    assert name[i] != '.';
    assert name[..|stem|] == stem;
  }

  /** `os.path.join` keeps different names apart. */
  lemma JoinInjective(root: string, x: string, y: string)
    requires '/' !in x && '/' !in y
    requires Join(root, x) == Join(root, y)
    ensures x == y
  {
    assert !StartsWith(x, "/") by { if |x| > 0 { assert x[..1][0] == x[0]; assert x[0] in x; } }
    assert !StartsWith(y, "/") by { if |y| > 0 { assert y[..1][0] == y[0]; assert y[0] in y; } }
    if root == [] || EndsWith(root, "/") {
      assert root + x == root + y;
      assert x == (root + x)[|root|..];
    } else {
      assert root + "/" + x == root + "/" + y;
      assert x == (root + "/" + x)[|root| + 1..];
    }
  }

  /** `splitext` keeps the front of the name. */
  lemma SplitExtRootPrefix(name: string)
    ensures StartsWith(name, SplitExtRoot(name))
  {
  }

  /** Python's `<` on strings: code-point lexicographic order. */
  predicate StrLess(a: string, b: string)
    decreases |a|
  {
    if a == [] then b != []
    else if b == [] then false
    else if a[0] != b[0] then a[0] < b[0]
    else StrLess(a[1..], b[1..])
  }

  lemma {:induction false} StrLessIrreflexive(a: string)
    ensures !StrLess(a, a)
    decreases |a|
  {
    if a != [] {
      StrLessIrreflexive(a[1..]);
    }
  }

  lemma {:induction false} StrLessTotal(a: string, b: string)
    ensures a == b || StrLess(a, b) || StrLess(b, a)
    decreases |a|
  {
    if a != [] && b != [] && a[0] == b[0] {
      StrLessTotal(a[1..], b[1..]);
      if a[1..] == b[1..] {
        assert a == [a[0]] + a[1..] && b == [b[0]] + b[1..];
      }
    }
  }

  lemma {:induction false} StrLessTransitive(a: string, b: string, c: string)
    requires StrLess(a, b) && StrLess(b, c)
    ensures StrLess(a, c)
    decreases |a|
  {
    if a != [] && a[0] == b[0] && b[0] == c[0] {
      StrLessTransitive(a[1..], b[1..], c[1..]);
    }
  }

  /** One step of `os.walk`: a directory and the names of its files, listed
      when the walk reaches it. */
  datatype Dir = Dir(root: string, files: seq<string>)
}
