/**
  The page guard: an ordered table of `(path, rolesAllowed)` entries is
  walked in order, and the first entry whose path equals the requested
  path, or whose path read as a pattern (each `[name]` segment standing
  for one run of non-`/` characters) matches the whole requested path,
  decides whether the role may see the page.

  Patterns are token sequences rather than regular expressions: `Lit(c)`
  matches the character `c`, `Wild` matches one or more characters none of
  which is `/`.
 */
module RouteGuard {
  import opened Common

  datatype Token = Lit(c: char) | Wild

  datatype Route = Route(path: string, rolesAllowed: seq<Role>)

  /** The pattern of a path with no `[name]` segment: one literal per character. */
  function Lits(s: string): (r: seq<Token>)
    ensures |r| == |s|
    ensures forall i :: 0 <= i < |s| ==> r[i] == Lit(s[i])
  {
    seq(|s|, i requires 0 <= i < |s| => Lit(s[i]))
  }

  predicate BracketFree(s: string)
  {
    '[' !in s
  }

  /** Index of the first `]` at or after position `i`, if any. */
  function FindClose(s: string, i: nat): (r: Option<nat>)
    requires i <= |s|
    ensures r.Some? ==> i <= r.value < |s| && s[r.value] == ']'
    ensures r.Some? ==> forall k :: i <= k < r.value ==> s[k] != ']'
    ensures r.None? ==> forall k :: i <= k < |s| ==> s[k] != ']'
    decreases |s| - i
  {
    if i == |s| then None
    else if s[i] == ']' then Some(i)
    else FindClose(s, i + 1)
  }

  /** The dynamic pattern of a route path: the leftmost-first replacement
      of every `[` + one or more non-`]` characters + `]` by a wildcard.
      A `[` that does not open such a group stays a literal. */
  function Compile(p: string): (r: seq<Token>)
    ensures |r| <= |p|
    ensures Wild in r ==> '[' in p
    ensures BracketFree(p) ==> r == Lits(p)
    decreases |p|
  {
    if p == [] then []
    else if p[0] == '[' then
      match FindClose(p, 1)
      case Some(j) =>
        if j > 1 then [Wild] + Compile(p[j + 1..]) else [Lit('[')] + Compile(p[1..])
      case None => [Lit('[')] + Compile(p[1..])
    else [Lit(p[0])] + Compile(p[1..])
  }

  /** The characters of an all-literal pattern. */
  function LitChars(pat: seq<Token>): (s: string)
    requires Wild !in pat
    ensures |s| == |pat|
    ensures forall i :: 0 <= i < |pat| ==> pat[i] == Lit(s[i])
  {
    assert forall i :: 0 <= i < |pat| ==> pat[i].Lit? by {
      forall i | 0 <= i < |pat|
        ensures pat[i].Lit?
      {
        assert pat[i] in pat;
      }
    }
    seq(|pat|, i requires 0 <= i < |pat| => pat[i].c)
  }

  predicate NoSlash(s: string)
  {
    '/' !in s
  }

  /** Anchored matching: the pattern must consume the whole of `s`. */
  function Matches(pat: seq<Token>, s: string): (b: bool)
    ensures b ==> |pat| <= |s|
    ensures b && Wild !in pat ==> s == LitChars(pat)
    decreases |pat|, 1
  {
    if pat == [] then s == []
    else match pat[0]
      case Lit(c) => |s| > 0 && s[0] == c && Matches(pat[1..], s[1..])
      case Wild => exists k :: 1 <= k <= |s| && WildThen(pat[1..], s, k)
  }

  /** The wildcard takes `s[..k]` and the rest of the pattern takes `s[k..]`. */
  predicate WildThen(rest: seq<Token>, s: string, k: int)
    decreases |rest| + 1, 0
  {
    1 <= k <= |s| && NoSlash(s[..k]) && Matches(rest, s[k..])
  }

  /** A table entry applies to a path: exact equality, or the pattern matches. */
  predicate EntryMatches(route: Route, path: string)
  {
    path == route.path || Matches(Compile(route.path), path)
  }

  /** Entry `i` is the first entry of the table that applies to `path`. */
  predicate IsFirstMatch(table: seq<Route>, path: string, i: int)
  {
    && 0 <= i < |table|
    && EntryMatches(table[i], path)
    && forall j :: 0 <= j < i ==> !EntryMatches(table[j], path)
  }

  /** Reference meaning of the guard: the first applicable entry lets the role in. */
  predicate Permitted(table: seq<Route>, path: string, role: Role)
  {
    exists i :: 0 <= i < |table| && IsFirstMatch(table, path, i) && role in table[i].rolesAllowed
  }

  /** `checkRoutePermission`: walk the table in order; the first entry whose
      path equals the requested one, or whose pattern matches it, decides. */
  method CheckRoutePermission(table: seq<Route>, path: string, role: Role) returns (allowed: bool)
    ensures allowed <==> Permitted(table, path, role)
    ensures (forall i :: 0 <= i < |table| ==> !EntryMatches(table[i], path)) ==> !allowed
    ensures forall i :: IsFirstMatch(table, path, i) ==> (allowed <==> role in table[i].rolesAllowed)
  {
    var i := 0;
    while i < |table|
      invariant 0 <= i <= |table|
      invariant forall j :: 0 <= j < i ==> !EntryMatches(table[j], path)
    {
      if path == table[i].path {
        assert IsFirstMatch(table, path, i);
        FirstMatchUnique(table, path, i);
        return role in table[i].rolesAllowed;
      }
      if Matches(Compile(table[i].path), path) {
        assert IsFirstMatch(table, path, i);
        FirstMatchUnique(table, path, i);
        return role in table[i].rolesAllowed;
      }
      i := i + 1;
    }
    return false;
  }

  /** At most one entry is the first applicable one. */
  lemma FirstMatchUnique(table: seq<Route>, path: string, i: int)
    requires IsFirstMatch(table, path, i)
    ensures forall k :: IsFirstMatch(table, path, k) ==> k == i
    ensures forall role :: Permitted(table, path, role) <==> role in table[i].rolesAllowed
  {
  }

  /** If the path equals an entry's path and no earlier entry applies, that
      entry's role list decides; later entries are never consulted. */
  lemma ExactEntryDecides(table: seq<Route>, path: string, role: Role, i: int)
    requires 0 <= i < |table| && path == table[i].path
    requires forall j :: 0 <= j < i ==> !EntryMatches(table[j], path)
    ensures Permitted(table, path, role) <==> role in table[i].rolesAllowed
    ensures forall later: seq<Route> :: Permitted(table + later, path, role) <==> Permitted(table, path, role)
  {
    FirstMatchUnique(table, path, i);
    forall later: seq<Route>
      ensures Permitted(table + later, path, role) <==> Permitted(table, path, role)
    {
      assert IsFirstMatch(table + later, path, i);
      FirstMatchUnique(table + later, path, i);
    }
  }

  /** With no applicable entry, no role is let in. */
  lemma NoMatchDenies(table: seq<Route>, path: string)
    requires forall i :: 0 <= i < |table| ==> !EntryMatches(table[i], path)
    ensures forall role :: !Permitted(table, path, role)
  {
  }

  /** Literal tokens match exactly their own characters, then hand over. */
  lemma {:induction false} LitsThen(x: string, rest: seq<Token>, s: string)
    ensures Matches(Lits(x) + rest, s)
        <==> |x| <= |s| && s[..|x|] == x && Matches(rest, s[|x|..])
    decreases |x|
  {
    if x != [] {
      var p := Lits(x) + rest;
      assert p[0] == Lit(x[0]);
      assert p[1..] == Lits(x[1..]) + rest;
      if |s| > 0 {
        LitsThen(x[1..], rest, s[1..]);
        if |x| <= |s| {
          assert s[1..][|x| - 1..] == s[|x|..];
          assert s[..|x|] == [s[0]] + s[1..][..|x| - 1];
        }
      }
    } else {
      assert Lits(x) + rest == rest;
    }
  }

  /** Anchoring: a literal pattern matches the path itself and nothing else,
      in particular no proper prefix or extension of it. */
  lemma LitsMatchExactly(x: string, s: string)
    ensures Matches(Lits(x), s) <==> s == x
  {
    LitsThen(x, [], s);
    assert Lits(x) + [] == Lits(x);
  }

  /** A path with no `[` compiles to its own characters as literals. */
  lemma {:induction false} CompileBracketFree(x: string, rest: string)
    requires BracketFree(x)
    ensures Compile(x + rest) == Lits(x) + Compile(rest)
    decreases |x|
  {
    if x != [] {
      assert (x + rest)[0] == x[0];
      assert (x + rest)[1..] == x[1..] + rest;
      CompileBracketFree(x[1..], rest);
      assert Lits(x) == [Lit(x[0])] + Lits(x[1..]);
    } else {
      assert x + rest == rest;
    }
  }

  /** For a bracket-free route path the pattern branch accepts exactly the
      paths the exact-equality branch accepts. */
  lemma BracketFreePatternIsExact(p: string, s: string)
    requires BracketFree(p)
    ensures Matches(Compile(p), s) <==> s == p
    ensures EntryMatches(Route(p, []), s) <==> s == p
  {
    CompileBracketFree(p, []);
    assert p + [] == p;
    assert Lits(p) + [] == Lits(p);
    LitsMatchExactly(p, s);
  }

  /** A lone wildcard matches exactly the non-empty strings without `/`. */
  lemma WildMatchesOneSegment(s: string)
    ensures Matches([Wild], s) <==> |s| > 0 && NoSlash(s)
  {
    assert [Wild][1..] == [];
    if |s| > 0 && NoSlash(s) {
      assert s[..|s|] == s;
      assert WildThen([], s, |s|);
    }
  }

  /** A `[name]` segment compiles to a single wildcard. */
  lemma CompileParam(name: string, rest: string)
    requires |name| > 0 && ']' !in name
    ensures Compile(['['] + name + [']'] + rest) == [Wild] + Compile(rest)
  {
    var p := ['['] + name + [']'] + rest;
    var j := |name| + 1;
    assert p[j] == ']';
    forall k | 1 <= k < j
      ensures p[k] != ']'
    {
      assert p[k] == name[k - 1];
    }
    assert FindClose(p, 1) == Some(j);
    assert p[j + 1..] == rest;
  }

  /** Reading a table entry for `prefix[name]`: it applies to exactly the
      paths made of `prefix` and one non-empty run of non-`/` characters. */
  lemma {:induction false} PrefixParamMatches(prefix: string, name: string, s: string)
    requires BracketFree(prefix) && |name| > 0 && ']' !in name
    ensures Matches(Compile(prefix + ['['] + name + [']']), s)
        <==> |prefix| < |s| && s[..|prefix|] == prefix && NoSlash(s[|prefix|..])
  {
    var tail := ['['] + name + [']'];
    assert prefix + ['['] + name + [']'] == prefix + tail;
    CompileBracketFree(prefix, tail);
    CompileParam(name, []);
    assert tail + [] == tail;
    assert Compile([]) == [];
    assert [Wild] + [] == [Wild];
    LitsThen(prefix, [Wild], s);
    if |prefix| <= |s| {
      WildMatchesOneSegment(s[|prefix|..]);
    }
  }

  /** Entry `i` is the first entry whose path is literally `path`. */
  predicate IsFirstExact(table: seq<Route>, path: string, i: int)
  {
    && 0 <= i < |table|
    && table[i].path == path
    && forall j :: 0 <= j < i ==> table[j].path != path
  }

  /** On a table whose paths have no `[name]` segment the guard is a plain
      lookup: the first entry with exactly this path decides. */
  lemma BracketFreeTableIsLookup(table: seq<Route>, path: string, role: Role)
    requires forall i :: 0 <= i < |table| ==> BracketFree(table[i].path)
    ensures forall i :: IsFirstMatch(table, path, i) <==> IsFirstExact(table, path, i)
    ensures Permitted(table, path, role)
        <==> exists i :: 0 <= i < |table| && IsFirstExact(table, path, i) && role in table[i].rolesAllowed
    ensures (forall i :: 0 <= i < |table| ==> table[i].path != path) ==> !Permitted(table, path, role)
  {
    forall j | 0 <= j < |table|
      ensures EntryMatches(table[j], path) <==> table[j].path == path
    {
      BracketFreePatternIsExact(table[j].path, path);
    }
  }
}
