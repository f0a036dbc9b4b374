/** Relative paths as component lists, their '/'-joined text, and text order. */
module Paths {
  type Name = string
  type Path = seq<Name>

  /** A component that the text form can carry: no separator, no traversal. */
  predicate IsName(name: Name) {
    name != "" && name != "." && name != ".." && '/' !in name && '\\' !in name
  }

  predicate IsRelative(path: Path) {
    path != [] && forall i | 0 <= i < |path| :: IsName(path[i])
  }

  /** No name of the path contains the separator. */
  predicate Unseparated(path: Path) {
    path != [] && forall i | 0 <= i < |path| :: '/' !in path[i]
  }

  function Parent(path: Path): Path
    requires path != []
  {
    path[..|path| - 1]
  }

  /** A strict ancestor. */
  predicate Above(dir: Path, path: Path) {
    |dir| < |path| && dir == path[..|dir|]
  }

  predicate AtOrUnder(path: Path, dir: Path) {
    |dir| <= |path| && dir == path[..|dir|]
  }

  lemma AtOrUnderTransitive(a: Path, b: Path, c: Path)
    requires AtOrUnder(a, b) && AtOrUnder(b, c)
    ensures AtOrUnder(a, c)
  {
    assert a[..|c|] == a[..|b|][..|c|];
  }

  function Join(path: Path): string {
    if path == [] then ""
    else if |path| == 1 then path[0]
    else path[0] + ("/" + Join(path[1..]))
  }

  /** Where the first component of a joined path ends. */
  function FirstSeparator(text: string): (n: nat)
    ensures n <= |text|
  {
    if text == "" || text[0] == '/' then 0 else 1 + FirstSeparator(text[1..])
  }

  lemma {:induction false} NameEndsAtFirstSeparator(name: Name, rest: string)
    requires '/' !in name
    requires rest == "" || rest[0] == '/'
    ensures FirstSeparator(name + rest) == |name|
  {
    if name == "" {
      assert name + rest == rest;
    } else {
      assert (name + rest)[1..] == name[1..] + rest;
      assert (name + rest)[0] == name[0];
      NameEndsAtFirstSeparator(name[1..], rest);
    }
  }

  lemma FirstNameIsDetermined(a: Name, b: Name, x: string, y: string)
    requires '/' !in a && '/' !in b
    requires x == "" || x[0] == '/'
    requires y == "" || y[0] == '/'
    requires a + x == b + y
    ensures a == b && x == y
  {
    NameEndsAtFirstSeparator(a, x);
    NameEndsAtFirstSeparator(b, y);
    var text := a + x;
    assert a == text[..|a|] && x == text[|a|..];
    assert b == text[..|b|] && y == text[|b|..];
  }

  function Tail(path: Path): string
    requires path != []
  {
    if |path| == 1 then "" else "/" + Join(path[1..])
  }

  lemma JoinSplits(path: Path)
    requires Unseparated(path)
    ensures Join(path) == path[0] + Tail(path)
    ensures Tail(path) == "" <==> |path| == 1
    ensures Tail(path) != "" ==> Tail(path)[0] == '/' && Tail(path)[1..] == Join(path[1..])
  {
    if |path| > 1 {
      assert Tail(path)[1..] == Join(path[1..]);
    }
  }

  lemma {:induction false} JoinIsInjective(p: Path, q: Path)
    requires Unseparated(p) && Unseparated(q) && Join(p) == Join(q)
    ensures p == q
    decreases |p|
  {
    JoinSplits(p);
    JoinSplits(q);
    FirstNameIsDetermined(p[0], q[0], Tail(p), Tail(q));
    if |p| > 1 {
      JoinIsInjective(p[1..], q[1..]);
      assert p == [p[0]] + p[1..] && q == [q[0]] + q[1..];
    }
  }

  lemma {:induction false} JoinOfAncestor(dir: Path, path: Path)
    requires IsRelative(path) && Above(dir, path) && dir != []
    ensures Join(dir) + "/" <= Join(path)
    decreases |dir|
  {
    JoinSplits(path);
    if |dir| > 1 {
      assert dir[1..] == path[1..][..|dir| - 1];
      JoinOfAncestor(dir[1..], path[1..]);
      assert Join(dir) + "/" == dir[0] + ("/" + (Join(dir[1..]) + "/"));
    }
  }

  lemma DropFirst(text: string, name: string, rest: string)
    requires text == name + rest
    ensures text[|name|..] == rest
  {
  }

  lemma AboveAfterFirst(dir: Path, path: Path)
    requires |dir| > 0 && |path| > 0 && dir[0] == path[0]
    requires Above(dir[1..], path[1..])
    ensures Above(dir, path)
  {
    assert forall i | 1 <= i < |dir| :: dir[i] == dir[1..][i - 1] == path[1..][i - 1] == path[i];
  }

  lemma FirstNamesAgree(dir: Path, path: Path, x: string)
    requires IsRelative(dir) && IsRelative(path)
    requires Join(path) == Join(dir) + ("/" + x)
    ensures dir[0] == path[0] && Tail(path) == Tail(dir) + ("/" + x)
  {
    JoinSplits(dir);
    JoinSplits(path);
    var rest := Tail(dir) + ("/" + x);
    Regroup(dir[0], Tail(dir), "/" + x);
    FirstNameIsDetermined(dir[0], path[0], rest, Tail(path));
  }

  lemma Regroup(a: string, b: string, c: string)
    ensures (a + b) + c == a + (b + c)
  {
  }

  lemma {:induction false} AncestorOfJoin(dir: Path, path: Path, x: string)
    requires IsRelative(dir) && IsRelative(path)
    requires Join(path) == Join(dir) + ("/" + x)
    ensures Above(dir, path)
    decreases |dir|
  {
    FirstNamesAgree(dir, path, x);
    JoinSplits(path);
    assert |path| > 1;
    if |dir| == 1 {
      assert dir == path[..1];
    } else {
      var rest := Join(dir[1..]) + ("/" + x);
      assert Join(path[1..]) == rest by {
        assert Tail(path) == "/" + rest;
        DropFirst(Tail(path), "/", rest);
      }
      AncestorOfJoin(dir[1..], path[1..], x);
      AboveAfterFirst(dir, path);
    }
  }

  lemma PrefixAndRest(a: string, b: string)
    requires a <= b
    ensures b == a + b[|a|..]
  {
  }

  /** The text tests `path == dir || path.starts_with(dir + "/")` decide descent. */
  lemma TextTestDecidesDescent(dir: Path, path: Path)
    requires IsRelative(dir) && IsRelative(path)
    ensures Join(path) == Join(dir) || Join(dir) + "/" <= Join(path) <==> AtOrUnder(path, dir)
  {
    if Join(path) == Join(dir) {
      JoinIsInjective(path, dir);
    } else if Join(dir) + "/" <= Join(path) {
      var x := Join(path)[|Join(dir)| + 1..];
      PrefixAndRest(Join(dir) + "/", Join(path));
      Regroup(Join(dir), "/", x);
      AncestorOfJoin(dir, path, x);
    }
    if AtOrUnder(path, dir) {
      if |dir| < |path| {
        JoinOfAncestor(dir, path);
      } else {
        assert path == path[..|dir|];
      }
    }
  }

  /** `to_ascii_lowercase`, character by character. */
  function LowerChar(c: char): (r: char)
    ensures (r == '/' <==> c == '/') && (r == '\\' <==> c == '\\') && (r == '.' <==> c == '.')
  {
    if 'A' <= c <= 'Z' then (c as int + 32) as char else c
  }

  function Lower(s: string): (r: string)
    ensures |r| == |s|
    ensures forall i | 0 <= i < |s| :: r[i] == LowerChar(s[i])
  {
    seq(|s|, i requires 0 <= i < |s| => LowerChar(s[i]))
  }

  /** Where a volume that ignores case files a path. */
  function Key(path: Path): (r: Path)
    ensures |r| == |path|
    ensures forall i | 0 <= i < |path| :: r[i] == Lower(path[i])
  {
    seq(|path|, i requires 0 <= i < |path| => Lower(path[i]))
  }

  lemma KeyOfPrefix(path: Path, n: nat)
    requires n <= |path|
    ensures Key(path[..n]) == Key(path)[..n]
  {
  }

  lemma KeyAppend(path: Path, name: Name)
    ensures Key(path + [name]) == Key(path) + [Lower(name)]
  {
    var longer := path + [name];
    assert forall i | 0 <= i < |path| :: longer[i] == path[i];
    assert forall i | 0 <= i < |longer| :: Key(longer)[i] == (Key(path) + [Lower(name)])[i];
  }

  lemma KeyIsRelative(path: Path)
    requires IsRelative(path)
    ensures IsRelative(Key(path))
  {
    forall i | 0 <= i < |path| ensures IsName(Key(path)[i]) {
      LowerKeepsNames(path[i]);
    }
  }

  lemma LowerKeepsNames(name: Name)
    requires IsName(name)
    ensures IsName(Lower(name))
  {
    var low := Lower(name);
    assert forall i | 0 <= i < |low| :: low[i] != '/' && low[i] != '\\';
    assert |name| == 1 ==> name == [name[0]] && low == [low[0]];
    assert |name| == 2 ==> name == [name[0], name[1]] && low == [low[0], low[1]];
  }

  /** Byte order of texts, as `str::cmp` orders them. */
  predicate TextAtMost(a: string, b: string) {
    if a == "" then true
    else if b == "" then false
    else if a[0] != b[0] then a[0] < b[0]
    else TextAtMost(a[1..], b[1..])
  }

  lemma TextOrderIsTotal(a: string, b: string)
    ensures TextAtMost(a, b) || TextAtMost(b, a)
  {
  }

  lemma {:induction false} TextOrderIsAntisymmetric(a: string, b: string)
    requires TextAtMost(a, b) && TextAtMost(b, a)
    ensures a == b
  {
    if a != "" && b != "" {
      TextOrderIsAntisymmetric(a[1..], b[1..]);
      assert a == [a[0]] + a[1..] && b == [b[0]] + b[1..];
    }
  }

  lemma TextOrderIsTransitive(a: string, b: string, c: string)
    requires TextAtMost(a, b) && TextAtMost(b, c)
    ensures TextAtMost(a, c)
  {
  }
}
