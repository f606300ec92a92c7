/** Placeholder resolution for hosted processes: the chain
    `x.replace("$root_dir", root).replace("$cfg_dir", cfg).replace("~", home)`. */
module Placeholders {
  import opened Text

  const ROOT_VAR := "$root_dir"
  const CFG_VAR := "$cfg_dir"
  const HOME_VAR := "~"

  /** `s.replace(pat, sub)`: occurrences are found from the left and do not overlap. */
  function Replace(s: string, pat: string, sub: string): string
    requires pat != []
  {
    if s == [] then []
    else if pat <= s then sub + Replace(s[|pat|..], pat, sub)
    else [s[0]] + Replace(s[1..], pat, sub)
  }

  datatype Directories = Directories(root: string, cfg: string, home: string)

  function WithVars(x: string, d: Directories): string {
    Replace(Replace(Replace(x, ROOT_VAR, d.root), CFG_VAR, d.cfg), HOME_VAR, d.home)
  }

  /** No placeholder is left. */
  predicate Resolved(s: string) {
    !Contains(s, ROOT_VAR) && !Contains(s, CFG_VAR) && !Contains(s, HOME_VAR)
  }

  /** The text begins with a character no placeholder holds, as "/..." and "." do. */
  predicate Firm(sub: string) {
    sub != [] && sub[0] !in ROOT_VAR && sub[0] !in CFG_VAR && sub[0] !in HOME_VAR
  }

  /** No suffix of the text is the beginning of `v` or begins with `v`, so that whatever
      follows, no `v` begins inside the text. */
  predicate Sealed(sub: string, v: string) {
    forall i :: 0 <= i < |sub| ==> !Begins(sub, v, i)
  }

  predicate Begins(sub: string, v: string, i: nat)
    requires i < |sub|
  {
    v <= sub[i..] || sub[i..] <= v
  }

  predicate AllFirm(d: Directories) {
    Firm(d.root) && Firm(d.cfg) && Firm(d.home)
  }

  /** A directory may not begin a placeholder that is replaced before it or with it. */
  predicate AllSealed(d: Directories) {
    && Sealed(d.root, ROOT_VAR)
    && Sealed(d.cfg, ROOT_VAR) && Sealed(d.cfg, CFG_VAR)
    && Sealed(d.home, ROOT_VAR) && Sealed(d.home, CFG_VAR) && Sealed(d.home, HOME_VAR)
  }

  // ---- Replacement and occurrences ------------------------------------------

  lemma ContainsTail(s: string, pat: string)
    requires s != [] && !Contains(s, pat)
    ensures !Contains(s[1..], pat)
  {
    forall i | 0 <= i <= |s[1..]| ensures !OccursAt(s[1..], pat, i) {
      if OccursAt(s[1..], pat, i) {
        assert s[i + 1..i + 1 + |pat|] == s[1..][i..i + |pat|];
        assert OccursAt(s, pat, i + 1);
      }
    }
  }

  lemma {:induction false} ContainsSuffix(s: string, pat: string, n: nat)
    requires n <= |s| && !Contains(s, pat)
    ensures !Contains(s[n..], pat)
    decreases n
  {
    if n == 0 {
      assert s[n..] == s;
    } else {
      ContainsTail(s, pat);
      ContainsSuffix(s[1..], pat, n - 1);
      assert s[1..][n - 1..] == s[n..];
    }
  }

  /** A prefix of the output that avoids the first character of the inserted
      text was already a prefix of the input. */
  lemma {:induction false} PrefixReflects(s: string, pat: string, sub: string, p: string)
    requires pat != [] && sub != [] && sub[0] !in p
    requires p <= Replace(s, pat, sub)
    ensures p <= s
    decreases |s|
  {
    if p != [] {
      assert p[0] == Replace(s, pat, sub)[0] && p[0] != sub[0];
    }
    if p != [] && s != [] && !(pat <= s) {
      var rest := Replace(s[1..], pat, sub);
      assert Replace(s, pat, sub)[1..] == rest;
      assert p[1..] <= rest by {
        assert p == Replace(s, pat, sub)[..|p|];
      }
      PrefixReflects(s[1..], pat, sub, p[1..]);
      assert s == [s[0]] + s[1..] && p == [p[0]] + p[1..];
    }
  }

  lemma OccursShift(front: string, rest: string, v: string, i: int)
    requires |front| <= i
    ensures OccursAt(front + rest, v, i) <==> OccursAt(rest, v, i - |front|)
  {
    if i + |v| <= |front + rest| {
      assert (front + rest)[i..i + |v|] == rest[i - |front|..i - |front| + |v|];
    }
  }

  lemma NothingBegins(front: string, rest: string, v: string, i: nat)
    requires Sealed(front, v) && i < |front|
    ensures !OccursAt(front + rest, v, i)
  {
    assert !Begins(front, v, i);
    if i + |v| <= |front + rest| {
      var window, suffix := (front + rest)[i..i + |v|], front[i..];
      if |v| <= |suffix| {
        assert window == suffix[..|v|];
      } else {
        assert suffix == window[..|suffix|];
      }
    }
  }

  lemma NotAtStart(s: string, pat: string, sub: string, v: string)
    requires pat != [] && sub != [] && v != [] && sub[0] !in v
    requires v == pat || !Contains(s, v)
    requires !(pat <= s)
    ensures !OccursAt(Replace(s, pat, sub), v, 0)
  {
    if v <= Replace(s, pat, sub) { PrefixReflects(s, pat, sub, v); }
    assert OccursAt(s, v, 0) <==> v <= s;
  }

  /** Replacing `pat` creates no occurrence of `v`, when `v` is `pat` itself or
      was absent before. */
  lemma {:induction false} NothingCreated(s: string, pat: string, sub: string, v: string, i: nat)
    requires pat != [] && sub != [] && v != []
    requires sub[0] !in v && Sealed(sub, v)
    requires v == pat || !Contains(s, v)
    ensures !OccursAt(Replace(s, pat, sub), v, i)
    decreases |s|
  {
    if s == [] {
    } else if pat <= s {
      var rest := Replace(s[|pat|..], pat, sub);
      if v != pat { ContainsSuffix(s, v, |pat|); }
      if i < |sub| {
        NothingBegins(sub, rest, v, i);
      } else {
        NothingCreated(s[|pat|..], pat, sub, v, i - |sub|);
        OccursShift(sub, rest, v, i);
      }
    } else {
      if v != pat { ContainsTail(s, v); }
      if i == 0 {
        NotAtStart(s, pat, sub, v);
      } else {
        NothingCreated(s[1..], pat, sub, v, i - 1);
        OccursShift([s[0]], Replace(s[1..], pat, sub), v, i);
      }
    }
  }

  lemma ReplaceRemoves(s: string, pat: string, sub: string, v: string)
    requires pat != [] && sub != [] && v != []
    requires sub[0] !in v && Sealed(sub, v)
    requires v == pat || !Contains(s, v)
    ensures !Contains(Replace(s, pat, sub), v)
  {
    forall i | 0 <= i <= |Replace(s, pat, sub)| ensures !OccursAt(Replace(s, pat, sub), v, i) {
      NothingCreated(s, pat, sub, v, i);
    }
  }

  lemma {:induction false} ReplaceAbsent(s: string, pat: string, sub: string)
    requires pat != [] && !Contains(s, pat)
    ensures Replace(s, pat, sub) == s
    decreases |s|
  {
    if s != [] {
      assert !OccursAt(s, pat, 0);
      ContainsTail(s, pat);
      ReplaceAbsent(s[1..], pat, sub);
    }
  }

  lemma {:induction false} ReplaceBefore(a: string, tail: string, pat: string, sub: string)
    requires pat != [] && forall i :: 0 <= i < |a| ==> !OccursAt(a + tail, pat, i)
    ensures Replace(a + tail, pat, sub) == a + Replace(tail, pat, sub)
    decreases |a|
  {
    if a == [] {
      assert a + tail == tail;
    } else {
      var s := a + tail;
      assert s == [s[0]] + (a[1..] + tail);
      if pat <= s { PrefixOccurs(s, pat); }
      forall i | 0 <= i < |a[1..]| ensures !OccursAt(a[1..] + tail, pat, i) {
        OccursShift([s[0]], a[1..] + tail, pat, i + 1);
      }
      ReplaceBefore(a[1..], tail, pat, sub);
      assert s[1..] == a[1..] + tail;
      assert a + Replace(tail, pat, sub) == [a[0]] + (a[1..] + Replace(tail, pat, sub));
    }
  }

  lemma PrefixOccurs(s: string, pat: string)
    requires pat <= s
    ensures OccursAt(s, pat, 0)
  {
  }

  /** The first occurrence is replaced, what precedes it stays, and the rest is treated
      the same way. */
  lemma ReplaceFirst(a: string, pat: string, b: string, sub: string)
    requires pat != [] && forall i :: 0 <= i < |a| ==> !OccursAt(a + (pat + b), pat, i)
    ensures Replace(a + (pat + b), pat, sub) == a + (sub + Replace(b, pat, sub))
  {
    ReplaceBefore(a, pat + b, pat, sub);
    assert (pat + b)[|pat|..] == b;
  }

  // ---- The chain --------------------------------------------------------------

  /** After resolution no placeholder is left, in any input. */
  lemma ResolutionComplete(x: string, d: Directories)
    requires AllFirm(d) && AllSealed(d)
    ensures Resolved(WithVars(x, d))
  {
    var a := Replace(x, ROOT_VAR, d.root);
    var b := Replace(a, CFG_VAR, d.cfg);
    ReplaceRemoves(x, ROOT_VAR, d.root, ROOT_VAR);
    ReplaceRemoves(a, CFG_VAR, d.cfg, ROOT_VAR);
    ReplaceRemoves(a, CFG_VAR, d.cfg, CFG_VAR);
    ReplaceRemoves(b, HOME_VAR, d.home, ROOT_VAR);
    ReplaceRemoves(b, HOME_VAR, d.home, CFG_VAR);
    ReplaceRemoves(b, HOME_VAR, d.home, HOME_VAR);
  }

  /** A text without placeholders is left alone, whatever the directories are. */
  lemma ResolvedIsFixed(x: string, d: Directories)
    requires Resolved(x)
    ensures WithVars(x, d) == x
  {
    ReplaceAbsent(x, ROOT_VAR, d.root);
    ReplaceAbsent(x, CFG_VAR, d.cfg);
    ReplaceAbsent(x, HOME_VAR, d.home);
  }

  // ---- Directories that are not sealed --------------------------------------------

  /** What has to follow `sub` for the occurrence of `v` that begins at `i`. */
  function Missing(sub: string, v: string, i: nat): string
    requires i < |sub|
  {
    if |v| <= |sub| - i then [] else v[|sub| - i..]
  }

  lemma MissingCompletes(sub: string, v: string, i: nat)
    requires i < |sub| && Begins(sub, v, i)
    ensures OccursAt(sub + Missing(sub, v, i), v, i)
  {
    var tail := Missing(sub, v, i);
    assert (sub + tail)[i..] == sub[i..] + tail;
    assert (sub + tail)[i..i + |v|] == (sub[i..] + tail)[..|v|];
  }

  lemma {:induction false} PrefixKept(s: string, pat: string, sub: string, p: string)
    requires pat != [] && p <= s && pat[0] !in p
    ensures p <= Replace(s, pat, sub)
    decreases |p|
  {
    if p != [] {
      assert p[0] == s[0] && pat[0] != p[0];
      PrefixKept(s[1..], pat, sub, p[1..]);
      assert p == [p[0]] + p[1..];
    }
  }

  /** Two patterns of which no occurrences can overlap. */
  predicate Apart(pat: string, v: string) {
    pat != [] && v != [] && pat[0] !in v[1..] && v[0] !in pat[1..] && !(pat <= v) && !(v <= pat)
  }

  lemma OccurrenceBehind(s: string, pat: string, v: string, q: nat)
    requires Apart(pat, v) && OccursAt(s, v, q) && pat <= s
    ensures |pat| <= q
  {
    assert v == s[q..q + |v|] && v[0] == s[q];
    assert q == 0 ==> pat <= v || v <= pat;
    forall k | 0 < k < |pat| ensures s[k] != v[0] {
      assert pat[1..][k - 1] == s[k];
    }
  }

  lemma OccurrenceAhead(s: string, pat: string, sub: string, v: string)
    requires Apart(pat, v) && OccursAt(s, v, 0) && !(pat <= s)
    ensures OccursAt(Replace(s, pat, sub), v, 0)
  {
    assert s[1..][..|v| - 1] == v[1..];
    PrefixKept(s[1..], pat, sub, v[1..]);
    assert v == [s[0]] + v[1..];
  }

  lemma OccursBehind(s: string, v: string, q: nat, n: nat)
    requires OccursAt(s, v, q) && n <= q
    ensures OccursAt(s[n..], v, q - n)
  {
    assert s[n..][q - n..q - n + |v|] == s[q..q + |v|];
  }

  /** An occurrence of `v` is moved, but not lost. */
  lemma {:induction false} OccurrenceKept(s: string, pat: string, sub: string, v: string, q: nat) returns (k: nat)
    requires Apart(pat, v) && OccursAt(s, v, q)
    ensures OccursAt(Replace(s, pat, sub), v, k)
    decreases |s|
  {
    if pat <= s {
      OccurrenceBehind(s, pat, v, q);
      OccursBehind(s, v, q, |pat|);
      k := OccurrenceKept(s[|pat|..], pat, sub, v, q - |pat|);
      k := k + |sub|;
      OccursShift(sub, Replace(s[|pat|..], pat, sub), v, k);
    } else if q == 0 {
      OccurrenceAhead(s, pat, sub, v);
      k := 0;
    } else {
      OccursBehind(s, v, q, 1);
      k := OccurrenceKept(s[1..], pat, sub, v, q - 1);
      k := k + 1;
      OccursShift([s[0]], Replace(s[1..], pat, sub), v, k);
    }
  }

  lemma StaysContained(s: string, pat: string, sub: string, v: string)
    requires Apart(pat, v) && Contains(s, v)
    ensures Contains(Replace(s, pat, sub), v)
  {
    var q :| 0 <= q <= |s| && OccursAt(s, v, q);
    var k := OccurrenceKept(s, pat, sub, v, q);
  }

  lemma PlaceholdersApart()
    ensures Apart(CFG_VAR, ROOT_VAR) && Apart(HOME_VAR, ROOT_VAR) && Apart(HOME_VAR, CFG_VAR)
  {
    assert ROOT_VAR[1] == 'r' && CFG_VAR[1] == 'c' && ROOT_VAR[0] == CFG_VAR[0] == '$' && HOME_VAR[0] == '~';
  }

  lemma FirstMissing(s: string, v: string)
    requires v != [] && v[0] !in s
    ensures !Contains(s, v)
  {
    forall i | 0 <= i <= |s| ensures !OccursAt(s, v, i) {
      if i + |v| <= |s| {
        assert s[i..i + |v|][0] == s[i];
      }
    }
  }

  /** The placeholder followed by what its directory lacks becomes an occurrence of `v`. */
  lemma ReplaceCompletes(pat: string, sub: string, v: string, i: nat)
    requires pat != [] && i < |sub| && Begins(sub, v, i) && pat[0] !in Missing(sub, v, i)
    ensures Replace(pat + Missing(sub, v, i), pat, sub) == sub + Missing(sub, v, i)
    ensures Contains(sub + Missing(sub, v, i), v)
  {
    var tail := Missing(sub, v, i);
    assert (pat + tail)[|pat|..] == tail;
    FirstMissing(tail, pat);
    ReplaceAbsent(tail, pat, sub);
    MissingCompletes(sub, v, i);
  }

  /** The text that is left unresolved by an unsealed root. */
  lemma UnsealedRoot(d: Directories) returns (x: string)
    requires !Sealed(d.root, ROOT_VAR)
    ensures !Resolved(WithVars(x, d))
  {
    var i: nat :| i < |d.root| && Begins(d.root, ROOT_VAR, i);
    x := ROOT_VAR + Missing(d.root, ROOT_VAR, i);
    ReplaceCompletes(ROOT_VAR, d.root, ROOT_VAR, i);
    PlaceholdersApart();
    var a := Replace(x, ROOT_VAR, d.root);
    StaysContained(a, CFG_VAR, d.cfg, ROOT_VAR);
    StaysContained(Replace(a, CFG_VAR, d.cfg), HOME_VAR, d.home, ROOT_VAR);
  }

  lemma UnsealedConfig(d: Directories, v: string) returns (x: string)
    requires !Sealed(d.cfg, v) && (v == ROOT_VAR || v == CFG_VAR)
    ensures !Resolved(WithVars(x, d))
  {
    var i: nat :| i < |d.cfg| && Begins(d.cfg, v, i);
    var tail := Missing(d.cfg, v, i);
    x := CFG_VAR + tail;
    MissingIsPlain(d.cfg, v, i);
    ReplaceCompletes(CFG_VAR, d.cfg, v, i);
    PlaceholdersApart();
    ConfigHoldsNoRoot(tail);
    ReplaceAbsent(x, ROOT_VAR, d.root);
    StaysContained(d.cfg + tail, HOME_VAR, d.home, v);
  }

  lemma ConfigHoldsNoRoot(tail: string)
    requires '$' !in tail
    ensures !Contains(CFG_VAR + tail, ROOT_VAR)
  {
    var x := CFG_VAR + tail;
    forall i | 0 <= i <= |x| ensures !OccursAt(x, ROOT_VAR, i) {
      if i + |ROOT_VAR| <= |x| {
        assert x[i..i + |ROOT_VAR|][0] == x[i] && x[i..i + |ROOT_VAR|][1] == x[i + 1];
      }
    }
  }

  lemma MissingIsPlain(sub: string, v: string, i: nat)
    requires i < |sub| && (v == ROOT_VAR || v == CFG_VAR || v == HOME_VAR)
    ensures '$' !in Missing(sub, v, i) && '~' !in Missing(sub, v, i)
  {
    assert ROOT_VAR[1..] == "root_dir" && CFG_VAR[1..] == "cfg_dir" && HOME_VAR[1..] == "";
    var rest, k := v[1..], |sub| - i;
    assert '$' !in rest && '~' !in rest;
    if k < |v| { assert v[k..] == rest[k - 1..]; }
  }

  lemma UnsealedHome(d: Directories, v: string) returns (x: string)
    requires !Sealed(d.home, v) && (v == ROOT_VAR || v == CFG_VAR || v == HOME_VAR)
    ensures !Resolved(WithVars(x, d))
  {
    var i: nat :| i < |d.home| && Begins(d.home, v, i);
    var tail := Missing(d.home, v, i);
    x := HOME_VAR + tail;
    MissingIsPlain(d.home, v, i);
    ReplaceCompletes(HOME_VAR, d.home, v, i);
    FirstMissing(x, ROOT_VAR);
    FirstMissing(x, CFG_VAR);
    ReplaceAbsent(x, ROOT_VAR, d.root);
    ReplaceAbsent(x, CFG_VAR, d.cfg);
  }

  lemma UnsealedLeaves(d: Directories) returns (x: string)
    requires !AllSealed(d)
    ensures !Resolved(WithVars(x, d))
  {
    if !Sealed(d.root, ROOT_VAR) {
      x := UnsealedRoot(d);
    } else if !Sealed(d.cfg, ROOT_VAR) {
      x := UnsealedConfig(d, ROOT_VAR);
    } else if !Sealed(d.cfg, CFG_VAR) {
      x := UnsealedConfig(d, CFG_VAR);
    } else if !Sealed(d.home, ROOT_VAR) {
      x := UnsealedHome(d, ROOT_VAR);
    } else if !Sealed(d.home, CFG_VAR) {
      x := UnsealedHome(d, CFG_VAR);
    } else {
      x := UnsealedHome(d, HOME_VAR);
    }
  }

  // ---- Resolving a text that holds a placeholder changes it -----------------------------

  predicate IsForeign(c: char) {
    c !in ROOT_VAR && c !in CFG_VAR && c !in HOME_VAR
  }

  /** How many characters of the text no placeholder holds. */
  function Foreign(s: string): nat {
    if s == [] then 0 else (if IsForeign(s[0]) then 1 else 0) + Foreign(s[1..])
  }

  lemma {:induction false} ForeignConcat(a: string, b: string)
    ensures Foreign(a + b) == Foreign(a) + Foreign(b)
    decreases |a|
  {
    if a == [] {
      assert a + b == b;
    } else {
      ForeignConcat(a[1..], b);
      assert (a + b)[1..] == a[1..] + b;
    }
  }

  lemma {:induction false} NoneForeign(s: string)
    requires forall c :: c in s ==> !IsForeign(c)
    ensures Foreign(s) == 0
  {
    if s != [] { NoneForeign(s[1..]); }
  }

  /** Every replacement puts a foreign character where there was none. */
  lemma {:induction false} ForeignGrows(s: string, pat: string, sub: string)
    requires pat != [] && Firm(sub) && forall c :: c in pat ==> !IsForeign(c)
    ensures Foreign(Replace(s, pat, sub)) >= Foreign(s) + (if Contains(s, pat) then 1 else 0)
    decreases |s|
  {
    if s == [] {
    } else if pat <= s {
      var rest := s[|pat|..];
      ForeignGrows(rest, pat, sub);
      ForeignConcat(sub, Replace(rest, pat, sub));
      ForeignConcat(pat, rest);
      NoneForeign(pat);
      assert s == pat + rest;
    } else {
      ForeignGrows(s[1..], pat, sub);
      if Contains(s, pat) {
        var i :| 0 <= i <= |s| && OccursAt(s, pat, i);
        assert s[..|pat|] == pat <==> pat <= s;
        assert s[1..][i - 1..i - 1 + |pat|] == s[i..i + |pat|];
        assert OccursAt(s[1..], pat, i - 1);
      }
    }
  }

  lemma UnresolvedChanges(y: string, d: Directories)
    requires AllFirm(d) && !Resolved(y)
    ensures WithVars(y, d) != y
  {
    var a := Replace(y, ROOT_VAR, d.root);
    var b := Replace(a, CFG_VAR, d.cfg);
    ForeignGrows(y, ROOT_VAR, d.root);
    ForeignGrows(a, CFG_VAR, d.cfg);
    ForeignGrows(b, HOME_VAR, d.home);
    if !Contains(y, ROOT_VAR) {
      ReplaceAbsent(y, ROOT_VAR, d.root);
      if !Contains(y, CFG_VAR) { ReplaceAbsent(y, CFG_VAR, d.cfg); }
    }
  }

  // ---- The exact condition ------------------------------------------------------------------

  /** Resolution leaves no placeholder in any text exactly when the directories are sealed. */
  lemma ResolutionExactly(d: Directories)
    requires AllFirm(d)
    ensures (forall x :: Resolved(WithVars(x, d))) <==> AllSealed(d)
  {
    if AllSealed(d) {
      forall x ensures Resolved(WithVars(x, d)) {
        ResolutionComplete(x, d);
      }
    } else {
      var x := UnsealedLeaves(d);
    }
  }

  /** Resolving again changes nothing, for every text, exactly when the directories are sealed. */
  lemma ResolutionIdempotent(d: Directories)
    requires AllFirm(d)
    ensures (forall x :: WithVars(WithVars(x, d), d) == WithVars(x, d)) <==> AllSealed(d)
  {
    if AllSealed(d) {
      forall x ensures WithVars(WithVars(x, d), d) == WithVars(x, d) {
        ResolutionComplete(x, d);
        ResolvedIsFixed(WithVars(x, d), d);
      }
    } else {
      var x := UnsealedLeaves(d);
      UnresolvedChanges(WithVars(x, d), d);
    }
  }

  /** Absolute paths and paths from "." are firm, and sealed when they hold neither '$' nor '~'. */
  lemma PlainPathsAreSealed(sub: string, v: string)
    requires sub != [] && (sub[0] == '/' || sub[0] == '.')
    requires v == ROOT_VAR || v == CFG_VAR || v == HOME_VAR
    ensures Firm(sub)
    ensures '$' !in sub && '~' !in sub ==> Sealed(sub, v)
  {
    forall i | 0 <= i < |sub| && '$' !in sub && '~' !in sub ensures !Begins(sub, v, i) {
      assert sub[i..][0] == sub[i] && v[0] != sub[i];
    }
  }

  /** A root that ends in '$' is completed by the text behind it; a '~' or a '$' inside
      a root does no harm. */
  lemma DollarAtTheEndMatters()
    ensures !Sealed("/a$", ROOT_VAR) && Sealed("/a~", ROOT_VAR) && Sealed("/a$b", ROOT_VAR)
    ensures WithVars("$root_dirroot_dir", Directories("/a$", "/c", "/h")) == "/a$root_dir"
  {
    var r := "/a$";
    assert r[2..] == "$" && "$" <= ROOT_VAR && Begins(r, ROOT_VAR, 2);
    FirstLetters("/a~");
    FirstLetters("/a$b");
    assert Missing(r, ROOT_VAR, 2) == "root_dir" && ROOT_VAR + "root_dir" == "$root_dirroot_dir";
    ReplaceCompletes(ROOT_VAR, r, ROOT_VAR, 2);
    assert r + "root_dir" == "/a$root_dir";
    AloneIsKept();
  }

  lemma BeginsLetters(sub: string, v: string, i: nat)
    requires |v| > 1 && i < |sub| && Begins(sub, v, i)
    ensures sub[i] == v[0] && (i + 1 < |sub| ==> sub[i + 1] == v[1])
  {
    var suffix := sub[i..];
    assert suffix[0] == v[0] && (|suffix| > 1 ==> suffix[1] == v[1]);
  }

  /** No '$' at `i`, or one that another letter than 'r' follows. */
  predicate Harmless(sub: string, i: nat)
    requires i < |sub|
  {
    sub[i] != '$' || (i + 1 < |sub| && sub[i + 1] != 'r')
  }

  lemma FirstLetters(sub: string)
    requires forall i :: 0 <= i < |sub| ==> Harmless(sub, i)
    ensures Sealed(sub, ROOT_VAR)
  {
    forall i | 0 <= i < |sub| ensures !Begins(sub, ROOT_VAR, i) {
      assert ROOT_VAR[0] == '$' && ROOT_VAR[1] == 'r';
      assert Harmless(sub, i);
      if Begins(sub, ROOT_VAR, i) { BeginsLetters(sub, ROOT_VAR, i); }
    }
  }

  lemma AloneIsKept()
    ensures Replace("/a$root_dir", CFG_VAR, "/c") == "/a$root_dir" && Replace("/a$root_dir", HOME_VAR, "/h") == "/a$root_dir"
  {
    var s := "/a$root_dir";
    forall i | 0 <= i <= |s| ensures !OccursAt(s, CFG_VAR, i) {
      if i + |CFG_VAR| <= |s| {
        assert s[i..i + |CFG_VAR|][1] == s[i + 1] != 'c';
      }
    }
    ReplaceAbsent(s, CFG_VAR, "/c");
    FirstMissing(s, HOME_VAR);
    ReplaceAbsent(s, HOME_VAR, "/h");
  }
}
