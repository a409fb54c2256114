/** Segments of qualified names and the scopes around a scope, told from where separators stand. */
module Segments {
  import opened Wrappers
  import opened Names
  import opened Scopes

  // ---------------------------------------------------------------------------------------------
  // Segments of a name
  // ---------------------------------------------------------------------------------------------

  ghost predicate HasSeparator(name: string) {
    exists k: nat :: SeparatorAt(name, k)
  }

  lemma {:induction false} FindFromIsFirst(s: string, pattern: string, k: nat)
    requires k <= |s|
    ensures var r := FindFrom(s, pattern, k);
      && (forall j :: k <= j < (if r.Some? then r.value else |s| + 1) ==> !StartsWith(s[j..], pattern))
    decreases |s| - k
  {
    hide StartsWith;
    if !StartsWith(s[k..], pattern) && k < |s| {
      FindFromIsFirst(s, pattern, k + 1);
    }
  }

  lemma SeparatorIsPrefix(s: string, k: nat)
    requires k <= |s|
    ensures StartsWith(s[k..], "::") <==> SeparatorAt(s, k)
  {
    if SeparatorAt(s, k) {
      assert s[k..][..2] == [s[k], s[k + 1]] == "::";
    }
    if StartsWith(s[k..], "::") {
      assert s[k..][..2][0] == s[k] && s[k..][..2][1] == s[k + 1];
    }
  }

  /** A name has a separator exactly if the search for one finds it. */
  lemma FindFindsSeparator(name: string)
    ensures Find(name, "::").Some? <==> HasSeparator(name)
  {
    hide SeparatorAt;
    FindFromIsFirst(name, "::", 0);
    if k: nat :| SeparatorAt(name, k) {
      SeparatorIsInside(name, k);
      SeparatorIsPrefix(name, k);
    }
    if Find(name, "::").Some? {
      SeparatorIsPrefix(name, Find(name, "::").value);
    }
  }

  lemma SeparatorIsInside(s: string, k: nat)
    requires SeparatorAt(s, k)
    ensures k + 1 < |s|
  {
  }

  /** The first segment has no separator that begins in it, and nothing but a separator lies between it and the
      rest. */
  ghost predicate FirstAndRest(path: string, first: string, rest: string) {
    path == first + "::" + rest && forall k: nat :: k < |first| ==> !SeparatorAt(path, k)
  }

  /** A name is split once at the last separator, if it has one. */
  ghost predicate InitAndLast(name: string, init: string, last: string) {
    name == init + "::" + last && forall k: nat :: k > |init| ==> !SeparatorAt(name, k)
  }

  lemma RSplitIsLast(name: string)
    ensures RSplitOnce(name).Some? <==> HasSeparator(name)
    ensures RSplitOnce(name).Some? ==> InitAndLast(name, RSplitOnce(name).value.0, RSplitOnce(name).value.1)
  {
    var k := LastSeparator(name);
    if k.Some? {
      assert name[..k.value] + "::" + name[k.value + 2..] == name by {
        assert name == name[..k.value] + name[k.value..k.value + 2] + name[k.value + 2..];
        assert name[k.value..k.value + 2] == "::";
      }
      assert SeparatorAt(name, k.value);
    }
  }

  lemma LastIsUnique(name: string, init: string, last: string)
    requires InitAndLast(name, init, last)
    ensures HasSeparator(name) && RSplitOnce(name) == Some((init, last))
  {
    assert SeparatorAt(name, |init|);
    RSplitIsLast(name);
    var (i, l) := RSplitOnce(name).value;
    assert SeparatorAt(name, |i|);
    assert name[..|init|] == init && name[..|i|] == i;
    assert name[|init| + 2..] == last && name[|i| + 2..] == l;
  }

  // ---------------------------------------------------------------------------------------------
  // The chain of scopes
  // ---------------------------------------------------------------------------------------------

  /** The scope around a scope: what precedes its last separator, or the root. */
  ghost predicate IsAround(outer: string, scope: string) {
    if HasSeparator(scope) then exists segment: string :: InitAndLast(scope, outer, segment)
    else outer == "" && scope != ""
  }

  /** From a scope outwards up to the root. */
  ghost predicate IsOutward(chain: seq<string>, scope: string) {
    && chain != [] && chain[0] == scope && chain[|chain| - 1] == ""
    && forall k :: 0 <= k < |chain| - 1 ==> IsAround(chain[k + 1], chain[k])
  }

  lemma UpIsAround(scope: string)
    ensures Up(scope).Some? ==> IsAround(Up(scope).value, scope)
    ensures Up(scope).None? <==> scope == ""
  {
    hide InitAndLast, RSplitOnce;
    RSplitIsLast(scope);
  }

  lemma {:induction false} ChainIsOutward(scope: string)
    ensures IsOutward(LexicalChain(scope), scope)
    decreases |scope|
  {
    hide IsAround, Up;
    UpIsAround(scope);
    var up := Up(scope);
    if up.Some? {
      ChainIsOutward(up.value);
      assert LexicalChain(scope) == [scope] + LexicalChain(up.value);
    }
  }

  lemma AroundIsUnique(scope: string, a: string, b: string)
    requires IsAround(a, scope) && IsAround(b, scope)
    ensures a == b
  {
    hide InitAndLast, RSplitOnce;
    if HasSeparator(scope) {
      var x: string :| InitAndLast(scope, a, x);
      var y: string :| InitAndLast(scope, b, y);
      LastIsUnique(scope, a, x);
      LastIsUnique(scope, b, y);
    }
  }

  lemma RootHasNothingAround(outer: string)
    ensures !IsAround(outer, "")
  {
  }

  /** There is one such chain. */
  lemma {:induction false} OutwardIsUnique(chain: seq<string>, scope: string)
    requires IsOutward(chain, scope)
    ensures chain == LexicalChain(scope)
    decreases |chain|
  {
    hide IsAround, Up;
    UpIsAround(scope);
    var up := Up(scope);
    RootHasNothingAround(if |chain| > 1 then chain[1] else "");
    if up.None? {
      assert |chain| == 1;
    } else {
      assert |chain| > 1 && IsAround(chain[1], chain[0]);
      AroundIsUnique(scope, chain[1], up.value);
      assert IsOutward(chain[1..], up.value) by {
        assert forall k :: 0 <= k < |chain[1..]| ==> chain[1..][k] == chain[k + 1];
      }
      OutwardIsUnique(chain[1..], up.value);
      assert chain == [scope] + chain[1..];
    }
  }

  /** A name written inside a scope; the root adds nothing. */
  ghost function InsideOf(scope: string, name: string): string {
    if |scope| > 0 then scope + "::" + name else name
  }

  // ---------------------------------------------------------------------------------------------
  // Suffixes
  // ---------------------------------------------------------------------------------------------

  function Repeated(s: string, n: nat): string {
    if n == 0 then "" else Repeated(s, n - 1) + s
  }

  /** A name without the suffixes at its end. */
  ghost predicate IsTrimmed(name: string, suffix: string, rest: string) {
    (exists n: nat :: name == rest + Repeated(suffix, n)) && !(exists shorter: string :: rest == shorter + suffix)
  }

  lemma EndsWithIsSuffix(s: string, suffix: string)
    ensures EndsWith(s, suffix) <==> exists init: string :: s == init + suffix
  {
    if EndsWith(s, suffix) {
      var init := s[..|s| - |suffix|];
      assert s == init + suffix by {
        assert forall i :: 0 <= i < |suffix| ==> s[|init| + i] == suffix[i];
      }
    }
  }

  lemma RepeatedOnceMore(rest: string, suffix: string, n: nat)
    ensures (rest + Repeated(suffix, n)) + suffix == rest + Repeated(suffix, n + 1)
  {
  }

  lemma {:induction false} TrimEndIsTrimmed(s: string, suffix: string)
    requires suffix != ""
    ensures IsTrimmed(s, suffix, TrimEnd(s, suffix))
    decreases |s|
  {
    hide EndsWith, Repeated;
    EndsWithIsSuffix(s, suffix);
    if EndsWith(s, suffix) {
      EndsWithLength(s, suffix);
      var init := s[..|s| - |suffix|];
      TrimEndIsTrimmed(init, suffix);
      var n: nat :| init == TrimEnd(init, suffix) + Repeated(suffix, n);
      RepeatedOnceMore(TrimEnd(init, suffix), suffix, n);
    } else {
      NotRepeated(s, suffix);
    }
  }

  /** There is one such name. */
  lemma {:induction false} TrimmedIsUnique(name: string, suffix: string, rest: string)
    requires suffix != "" && IsTrimmed(name, suffix, rest)
    ensures TrimEnd(name, suffix) == rest
  {
    hide EndsWith, Repeated;
    var n: nat :| name == rest + Repeated(suffix, n);
    TrimRepeated(suffix, rest, n);
  }

  lemma {:induction false} TrimRepeated(suffix: string, rest: string, n: nat)
    requires suffix != "" && !exists shorter: string :: rest == shorter + suffix
    ensures TrimEnd(rest + Repeated(suffix, n), suffix) == rest
  {
    hide EndsWith;
    var name := rest + Repeated(suffix, n);
    EndsWithIsSuffix(name, suffix);
    if n == 0 {
      assert name == rest;
    } else {
      RepeatedOnceMore(rest, suffix, n - 1);
      var init := rest + Repeated(suffix, n - 1);
      assert name == init + suffix;
      assert name[..|name| - |suffix|] == init;
      TrimRepeated(suffix, rest, n - 1);
    }
  }

  lemma NotRepeated(s: string, suffix: string)
    ensures s == s + Repeated(suffix, 0)
  {
  }

  lemma EndsWithLength(s: string, suffix: string)
    requires EndsWith(s, suffix)
    ensures |suffix| <= |s| && s == s[..|s| - |suffix|] + suffix
  {
    var init := s[..|s| - |suffix|];
    assert forall i :: 0 <= i < |suffix| ==> s[|init| + i] == suffix[i];
  }
}
