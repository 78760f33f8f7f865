/**
 The paths of the depot, as filepath.Join and os.CreateTemp make them on Unix.  A path is kept in
 its clean form, so that two spellings of one path are equal.
 */
module DepotPaths {

  /** A clean path: whether it starts at the root, and its components from there. */
  datatype Path = Path(rooted: bool, parts: seq<string>)

  /** Where c is last in s, or -1. */
  function LastIndex(s: string, c: char): (i: int)
    ensures -1 <= i < |s|
  {
    if s == [] then -1
    else if s[|s| - 1] == c then |s| - 1
    else LastIndex(s[..|s| - 1], c)
  }

  lemma {:induction false} NoneAfter(s: string, c: char)
    ensures var i := LastIndex(s, c);
            (i >= 0 ==> s[i] == c) && forall k :: i < k < |s| ==> s[k] != c
    decreases |s|
  {
    if s != [] && s[|s| - 1] != c {
      NoneAfter(s[..|s| - 1], c);
    }
  }

  lemma IsLastIndex(s: string, c: char)
    ensures var i := LastIndex(s, c);
            (i >= 0 ==> s[i] == c) && c !in s[i + 1..]
    ensures LastIndex(s, c) == -1 <==> c !in s
  {
    hide LastIndex;
    NoneAfter(s, c);
  }

  function Child(dir: Path, name: string): Path { Path(dir.rooted, dir.parts + [name]) }

  // ---------- filepath.Clean ----------

  /** Goes on from the clean components `parts` by one component. */
  function Enter(rooted: bool, parts: seq<string>, name: string): seq<string> {
    if name == "" || name == "." then parts
    else if name != ".." then parts + [name]
    else if parts != [] && parts[|parts| - 1] != ".." then parts[..|parts| - 1]
    else if rooted then parts
    else parts + [".."]
  }

  function Walk(rooted: bool, p: string): seq<string>
    decreases |p|
  {
    var i := LastIndex(p, '/');
    Enter(rooted, if i < 0 then [] else Walk(rooted, p[..i]), p[i + 1..])
  }

  function Rooted(p: string): bool { p != [] && p[0] == '/' }

  function Clean(p: string): Path { Path(Rooted(p), Walk(Rooted(p), p)) }

  /** filepath.Join of two elements; an empty one is ignored. */
  function Join(dir: string, base: string): Path { Clean(if dir == "" then base else dir + "/" + base) }

  // ---------- the names of os.CreateTemp ----------

  type uint32 = n: nat | n < 0x1_0000_0000

  const DIGITS := "0123456789"

  function Numeral(n: nat): string {
    if n < 10 then [DIGITS[n]] else Numeral(n / 10) + [DIGITS[n % 10]]
  }

  /** The number that a string of decimal digits is read as. */
  function Value(s: string): int {
    if s == [] then 0 else 10 * Value(s[..|s| - 1]) + (s[|s| - 1] as int - '0' as int)
  }

  /** The numeral is read as the number, consists of digits, and has no leading zero. */
  lemma {:induction false} NumeralIsDigits(n: nat)
    ensures Numeral(n) != [] && forall c :: c in Numeral(n) ==> '0' <= c <= '9'
    ensures Value(Numeral(n)) == n && (Numeral(n)[0] == '0' ==> n == 0)
  {
    var last := DIGITS[n % 10];
    assert last as int - '0' as int == n % 10;
    if n >= 10 {
      NumeralIsDigits(n / 10);
      assert Numeral(n)[..|Numeral(n)| - 1] == Numeral(n / 10);
    } else {
      assert Numeral(n)[..0] == [];
    }
  }

  /** The random number replaces the last '*', or is appended when there is none. */
  function TempName(pattern: string, random: uint32): string {
    var i := LastIndex(pattern, '*');
    if i < 0 then pattern + Numeral(random) else pattern[..i] + Numeral(random) + pattern[i + 1..]
  }

  /** What os.TempDir returns when the environment does not say otherwise. */
  const TEMP_DIR := "/tmp"

  function TempDir(dir: string): string { if dir == "" then TEMP_DIR else dir }

  function TempPath(dir: string, pattern: string, random: uint32): Path {
    var d := TempDir(dir);
    Clean((if d[|d| - 1] == '/' then d else d + "/") + TempName(pattern, random))
  }

  // ---------- cleaning keeps one form of each path ----------

  /** No empty component, none that is ".", and ".." only at the start of a relative path. */
  predicate IsClean(p: Path) {
    forall i :: 0 <= i < |p.parts| ==>
      && p.parts[i] !in {"", "."} && '/' !in p.parts[i]
      && (p.parts[i] == ".." ==> !p.rooted && forall k :: 0 <= k < i ==> p.parts[k] == "..")
  }

  lemma EnterIsClean(rooted: bool, parts: seq<string>, name: string)
    requires IsClean(Path(rooted, parts)) && '/' !in name
    ensures IsClean(Path(rooted, Enter(rooted, parts, name)))
  {
    var q := Enter(rooted, parts, name);
    if name == ".." && q == parts + [".."] {
      forall k | 0 <= k < |parts| ensures parts[k] == ".." {
        assert parts[|parts| - 1] == "..";
      }
    }
  }

  lemma {:induction false} WalkIsClean(rooted: bool, p: string)
    ensures IsClean(Path(rooted, Walk(rooted, p)))
    decreases |p|
  {
    hide IsClean, Enter, LastIndex;
    var i := LastIndex(p, '/');
    var name := p[i + 1..];
    NoParts(rooted);
    if i >= 0 {
      WalkIsClean(rooted, p[..i]);
    }
    IsLastIndex(p, '/');
    EnterIsClean(rooted, if i < 0 then [] else Walk(rooted, p[..i]), name);
  }

  lemma NoParts(rooted: bool)
    ensures IsClean(Path(rooted, []))
  {
  }

  /** A clean path written out, with a slash before every component but the first of a relative one. */
  function Written(p: Path): string
    decreases |p.parts|
  {
    if p.parts == [] then if p.rooted then "/" else "."
    else
      var last, dir := p.parts[|p.parts| - 1], Path(p.rooted, p.parts[..|p.parts| - 1]);
      if dir.parts == [] then (if p.rooted then "/" else "") + last else Written(dir) + "/" + last
  }

  lemma {:induction false} LastIndexOfSuffix(a: string, b: string, c: char)
    requires c !in b
    ensures LastIndex(a + b, c) == LastIndex(a, c)
    decreases |b|
  {
    if b == [] {
      assert a + b == a;
    } else {
      var front := b[..|b| - 1];
      assert b[|b| - 1] in b && forall x :: x in front ==> x in b;
      assert (a + b)[..|a + b| - 1] == a + front;
      LastIndexOfSuffix(a, front, c);
    }
  }

  lemma WalkSlash(rooted: bool, dir: string, name: string)
    requires '/' !in name
    ensures Walk(rooted, dir + "/" + name) == Enter(rooted, Walk(rooted, dir), name)
  {
    var p := dir + "/" + name;
    LastIndexOfSuffix(dir + "/", name, '/');
    assert LastIndex(dir + "/", '/') == |dir|;
    assert p[..|dir|] == dir && p[|dir| + 1..] == name;
  }

  lemma WalkOne(rooted: bool, name: string)
    requires '/' !in name
    ensures Walk(rooted, name) == Enter(rooted, [], name)
  {
    hide Enter;
    IsLastIndex(name, '/');
    assert name[0..] == name;
  }

  /** A clean component goes on from a clean path. */
  lemma EnterClean(p: Path)
    requires IsClean(p) && p.parts != []
    ensures var k := |p.parts| - 1;
            && IsClean(Path(p.rooted, p.parts[..k]))
            && p.parts[k] != "" && '/' !in p.parts[k]
            && Enter(p.rooted, p.parts[..k], p.parts[k]) == p.parts
  {
    var k := |p.parts| - 1;
    assert p.parts == p.parts[..k] + [p.parts[k]];
    if p.parts[k] == ".." && k > 0 {
      assert p.parts[k - 1] == "..";
    }
  }

  /** Writing a clean path out and cleaning that gives it back. */
  lemma {:induction false} CleanRoundTrip(p: Path)
    requires IsClean(p)
    ensures Written(p) != "" && Clean(Written(p)) == p
    decreases |p.parts|
  {
    hide IsClean, Walk, LastIndex;
    if p.parts == [] {
      WalkOne(false, ".");
      WalkOne(true, "");
      WalkSlash(true, "", "");
      assert "" + "/" + "" == "/";
    } else {
      EnterClean(p);
      var k := |p.parts| - 1;
      var last, dir := p.parts[k], Path(p.rooted, p.parts[..k]);
      if k > 0 {
        hide Enter;
        CleanRoundTrip(dir);
        WalkSlash(p.rooted, Written(dir), last);
      } else if p.rooted {
        WalkOne(true, "");
        WalkSlash(true, "", last);
        assert "" + "/" + last == "/" + last;
      } else {
        assert Written(p) == "" + last == last && last[0] in last;
        WalkOne(false, last);
      }
    }
  }

  /** Cleaning gives a clean path, and cleaning again changes nothing. */
  lemma CleanIsIdempotent(p: string)
    ensures IsClean(Clean(p)) && Clean(Written(Clean(p))) == Clean(p)
  {
    WalkIsClean(Rooted(p), p);
    CleanRoundTrip(Clean(p));
  }

  lemma {:induction false} WalkOn(rooted: bool, d: string, e: string, base: string)
    requires Walk(rooted, d) == Walk(rooted, e)
    ensures Walk(rooted, d + "/" + base) == Walk(rooted, e + "/" + base)
    decreases |base|
  {
    hide Walk, LastIndex;
    var i := LastIndex(base, '/');
    IsLastIndex(base, '/');
    if i < 0 {
      WalkSlash(rooted, d, base);
      WalkSlash(rooted, e, base);
    } else {
      var front, last := base[..i], base[i + 1..];
      assert base == front + "/" + last;
      WalkOn(rooted, d, e, front);
      WalkSlash(rooted, d + "/" + front, last);
      WalkSlash(rooted, e + "/" + front, last);
      assert d + "/" + base == d + "/" + front + "/" + last;
      assert e + "/" + base == e + "/" + front + "/" + last;
    }
  }

  /** Two spellings of one directory, such as "d" and "d/", give the same files. */
  lemma SameDirectory(d: string, e: string, base: string)
    requires d != "" && e != "" && Clean(d) == Clean(e)
    ensures Join(d, base) == Join(e, base)
  {
    hide Walk;
    WalkOn(Rooted(d), d, e, base);
  }

  predicate PlainName(name: string) { name !in {"", ".", ".."} && '/' !in name }

  /** The rules of filepath.Clean, each of which removes something within or at the end of a path:
      a second slash, a ".", a name with the ".." after it, and a ".." at the root. */
  lemma CleanRules(d: string, name: string, base: string)
    requires PlainName(name)
    ensures Clean(d + "/" + "/" + base) == Clean(d + "/" + base)
    ensures Clean(d + "/." + "/" + base) == Clean(d + "/" + base)
    ensures Clean(d + "/" + name + "/.." + "/" + base) == Clean(d + "/" + base)
    ensures Clean("/.." + "/" + base) == Clean("/" + base)
    ensures d != "" ==> Clean(d + "/") == Clean(d) && Clean(d + "/.") == Clean(d) && Clean(d + "/" + name + "/..") == Clean(d)
  {
    hide Walk, IsClean;
    assert d + "/." == d + "/" + "." && d + "/" + name + "/.." == d + "/" + name + "/" + ".." && d + "/" == d + "/" + "";
    forall rooted: bool
      ensures Walk(rooted, d + "/") == Walk(rooted, d) && Walk(rooted, d + "/.") == Walk(rooted, d)
      ensures Walk(rooted, d + "/" + name + "/..") == Walk(rooted, d)
    {
      WalkSlash(rooted, d, "");
      WalkSlash(rooted, d, ".");
      WalkSlash(rooted, d, name);
      WalkSlash(rooted, d + "/" + name, "..");
    }
    forall rooted: bool, e | Walk(rooted, e) == Walk(rooted, d) ensures Walk(rooted, e + "/" + base) == Walk(rooted, d + "/" + base) {
      WalkOn(rooted, e, d, base);
    }
    AboveRoot(base);
  }

  lemma AboveRoot(base: string)
    ensures Clean("/.." + "/" + base) == Clean("/" + base)
  {
    hide Walk;
    assert "/.." == "" + "/" + ".." && "" + "/" + base == "/" + base;
    WalkOne(true, "");
    WalkSlash(true, "", "..");
    WalkOn(true, "/..", "", base);
  }

  /** A plain name is put after the components of the directory. */
  lemma JoinIsChild(dir: string, name: string)
    requires PlainName(name)
    ensures Join(dir, name) == if dir == "" then Path(false, [name]) else Child(Clean(dir), name)
  {
    hide Walk;
    assert name[0] in name;
    if dir == "" {
      WalkOne(false, name);
    } else {
      WalkSlash(Rooted(dir), dir, name);
    }
  }

  // ---------- the paths of certificates ----------

  /** Where the text before an extension leads, and the name that the extension is put to. */
  function Dir(x: string): Path {
    var i := LastIndex(x, '/');
    Path(Rooted(x), if i < 0 then [] else Walk(Rooted(x), x[..i]))
  }

  function Base(x: string): string { x[LastIndex(x, '/') + 1..] }

  lemma CleanLast(p: string)
    ensures Clean(p) == Path(Rooted(p), Enter(Rooted(p), Dir(p).parts, Base(p)))
  {
  }

  lemma SuffixSplits(x: string, extension: string)
    requires extension != "" && '/' !in extension
    ensures Dir(x + extension) == Dir(x) && Base(x + extension) == Base(x) + extension
  {
    hide Walk, LastIndex;
    var p, i := x + extension, LastIndex(x, '/');
    LastIndexOfSuffix(x, extension, '/');
    assert extension[0] in extension;
    assert i >= 0 ==> p[..i] == x[..i];
    assert p[i + 1..] == x[i + 1..] + extension;
  }

  lemma WithExtension(x: string, extension: string)
    requires |extension| >= 3 && '/' !in extension
    ensures Clean(x + extension) == Child(Dir(x), Base(x) + extension)
  {
    CleanLast(x + extension);
    SuffixSplits(x, extension);
    hide Dir, Base, Clean;
    assert Dir(x).rooted == Rooted(x + extension) by { DirRooted(x + extension); }
  }

  lemma DirRooted(x: string)
    ensures Dir(x).rooted == Rooted(x)
  {
  }

  lemma AppendInjective(a: string, b: string, suffix: string)
    requires a + suffix == b + suffix
    ensures a == b
  {
    assert |a| == |b|;
    forall i | 0 <= i < |a| ensures a[i] == b[i] {
      assert (a + suffix)[i] == (b + suffix)[i];
    }
  }

  lemma ChildInjective(d: Path, x: string, e: Path, y: string)
    requires Child(d, x) == Child(e, y)
    ensures d == e && x == y
  {
    assert |d.parts| == |e.parts| && (d.parts + [x])[|d.parts|] == x && (e.parts + [y])[|e.parts|] == y;
    assert (d.parts + [x])[..|d.parts|] == d.parts && (e.parts + [y])[..|e.parts|] == e.parts;
  }

  /** Whether two files of one extension coincide does not depend on the extension. */
  lemma ExtensionsAgree(x: string, y: string, e: string, f: string)
    requires |e| >= 3 && '/' !in e && |f| >= 3 && '/' !in f && Clean(x + e) == Clean(y + e)
    ensures Clean(x + f) == Clean(y + f)
  {
    hide *;
    WithExtension(x, e);
    WithExtension(y, e);
    WithExtension(x, f);
    WithExtension(y, f);
    ChildInjective(Dir(x), Base(x) + e, Dir(y), Base(y) + e);
    AppendInjective(Base(x), Base(y), e);
  }

  /** The last component of a path. */
  function Leaf(p: Path): string
    requires p.parts != []
  {
    p.parts[|p.parts| - 1]
  }

  predicate EndsIn(p: Path, c: char) { p.parts != [] && Leaf(p) != "" && Leaf(p)[|Leaf(p)| - 1] == c }

  lemma EndsInExtension(x: string, extension: string)
    requires |extension| >= 3 && '/' !in extension
    ensures EndsIn(Clean(x + extension), extension[|extension| - 1])
  {
    hide Clean, Dir, Base;
    WithExtension(x, extension);
  }

  // ---------- the paths of temporary files ----------

  /** The number stands for the last '*' of the pattern, or at its end if there is none. */
  lemma TempNameIs(before: string, after: string, random: uint32)
    requires '*' !in after
    ensures TempName(before + "*" + after, random) == before + Numeral(random) + after
    ensures TempName(after, random) == after + Numeral(random)
  {
    hide Numeral;
    var p := before + "*" + after;
    IsLastIndex(after, '*');
    LastIndexOfSuffix(before + "*", after, '*');
    assert LastIndex(before + "*", '*') == |before|;
    assert p[..|before|] == before && p[|before| + 1..] == after;
  }

  lemma TempNameIsPlain(pattern: string, random: uint32)
    requires '/' !in pattern
    ensures var name := TempName(pattern, random);
            '/' !in name && exists i :: 0 <= i < |name| && '0' <= name[i] <= '9'
  {
    hide Numeral, LastIndex;
    NumeralIsDigits(random);
    var i, r := LastIndex(pattern, '*'), Numeral(random);
    var name := TempName(pattern, random);
    var k := if i < 0 then |pattern| else i;
    assert r[0] in r && name[k] == r[0] && '0' <= name[k] <= '9';
  }

  /** A temporary file is a child of the directory asked for. */
  lemma TempIsChild(dir: string, pattern: string, random: uint32)
    requires '/' !in pattern
    ensures TempPath(dir, pattern, random) == Child(Clean(TempDir(dir)), TempName(pattern, random))
  {
    hide Walk, TempName;
    var d, name := TempDir(dir), TempName(pattern, random);
    TempNameIsPlain(pattern, random);
    if d[|d| - 1] == '/' {
      var d0 := d[..|d| - 1];
      assert d == d0 + "/" + "" && d + name == d0 + "/" + name;
      WalkSlash(Rooted(d), d0, "");
      WalkSlash(Rooted(d), d0, name);
    } else {
      WalkSlash(Rooted(d), d, name);
    }
  }

  lemma EndsInDigit(dir: string, pattern: string, random: uint32)
    requires '/' !in pattern && '*' !in pattern
    ensures exists c :: '0' <= c <= '9' && EndsIn(TempPath(dir, pattern, random), c)
  {
    hide TempPath, Clean, Numeral;
    TempIsChild(dir, pattern, random);
    IsLastIndex(pattern, '*');
    NumeralIsDigits(random);
    var r := Numeral(random);
    assert r[|r| - 1] in r;
    assert (pattern + r)[|pattern + r| - 1] == r[|r| - 1];
    assert EndsIn(TempPath(dir, pattern, random), r[|r| - 1]);
  }

  lemma OneDigitNames(pattern: string, m: nat, n: nat)
    requires m < 10 && n < 10 && m != n
    ensures TempName(pattern, m) != TempName(pattern, n)
  {
    hide TempName, LastIndex;
    DigitAt(pattern, m);
    DigitAt(pattern, n);
    assert forall k :: 0 <= k < 10 ==> DIGITS[k] == '0' + k as char;
  }

  lemma DigitAt(pattern: string, n: nat)
    requires n < 10
    ensures var i := LastIndex(pattern, '*');
            var k := if i < 0 then |pattern| else i;
            k < |TempName(pattern, n)| && TempName(pattern, n)[k] == DIGITS[n]
  {
    assert Numeral(n) == [DIGITS[n]];
  }

  lemma OneDigitPaths(dir: string, pattern: string, m: nat, n: nat)
    requires '/' !in pattern && m < 10 && n < 10 && m != n
    ensures TempPath(dir, pattern, m) != TempPath(dir, pattern, n)
  {
    hide *;
    TempIsChild(dir, pattern, m);
    TempIsChild(dir, pattern, n);
    OneDigitNames(pattern, m, n);
    if TempPath(dir, pattern, m) == TempPath(dir, pattern, n) {
      ChildInjective(Clean(TempDir(dir)), TempName(pattern, m), Clean(TempDir(dir)), TempName(pattern, n));
    }
  }

  /** Whatever four paths are taken, one of five numbers draws another path. */
  lemma AnotherDraw(dir: string, pattern: string, a: Path, b: Path, c: Path, d: Path) returns (random: uint32)
    requires '/' !in pattern
    ensures TempPath(dir, pattern, random) !in {a, b, c, d}
  {
    hide *;
    random := 0;
    while random < 4 && TempPath(dir, pattern, random) in {a, b, c, d}
      invariant random <= 4
      invariant forall n :: 0 <= n < random ==> TempPath(dir, pattern, n) in {a, b, c, d}
    {
      random := random + 1;
    }
    if random == 4 {
      forall m: nat, n: nat | m < n < 5 ensures TempPath(dir, pattern, m) != TempPath(dir, pattern, n) {
        OneDigitPaths(dir, pattern, m, n);
      }
      Pigeons(TempPath(dir, pattern, 0), TempPath(dir, pattern, 1), TempPath(dir, pattern, 2), TempPath(dir, pattern, 3),
              a, b, c, d);
      assert forall n :: 0 <= n < 4 ==> TempPath(dir, pattern, n) != TempPath(dir, pattern, 4);
    }
  }

  lemma Pigeons(p: Path, q: Path, r: Path, s: Path, a: Path, b: Path, c: Path, d: Path)
    requires {p, q, r, s} <= {a, b, c, d}
    requires p != q && p != r && p != s && q != r && q != s && r != s
    ensures {p, q, r, s} == {a, b, c, d}
  {
    assert a in {p, q, r, s} && b in {p, q, r, s} && c in {p, q, r, s} && d in {p, q, r, s};
  }
}
