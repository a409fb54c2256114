/** Enclosing scopes of a qualified name, found forwards by `parent_scope` and backwards by the scan that
    walks up all of them at once. */
module Scopes {
  import opened Wrappers
  import opened Names

  /** The last separator outside angle brackets, scanning forward from `i`. A closing bracket without an
      opening one is ignored, and the second colon of a separator is skipped. */
  function LastTopFrom(s: string, i: nat, depth: nat, last: Option<nat>): (r: Option<nat>)
    requires i <= |s| && (last.Some? ==> last.value < |s|)
    ensures r.Some? ==> r.value < |s|
    decreases |s| - i
  {
    if i == |s| then last
    else if s[i] == '<' then LastTopFrom(s, i + 1, depth + 1, last)
    else if s[i] == '>' then LastTopFrom(s, i + 1, if depth > 0 then depth - 1 else 0, last)
    else if depth == 0 && SeparatorAt(s, i) then LastTopFrom(s, i + 2, depth, Some(i))
    else LastTopFrom(s, i + 1, depth, last)
  }

  /** The scope that encloses a qualified name; imports carry theirs before the `::import:` mark. */
  function ParentScope(q: string): (r: Option<string>)
    ensures r.Some? ==> |r.value| < |q|
  {
    if q == "" then None
    else
      var mark := Find(q, "::import:");
      if mark.Some? then Some(q[..mark.value])
      else if StartsWith(q, "import:") then Some("")
      else
        var last := LastTopFrom(q, 0, 0, None);
        Some(if last.Some? then q[..last.value] else "")
  }

  method FindParentScope(q: string) returns (r: Option<string>)
    ensures r == ParentScope(q)
  {
    if q == "" {
      return None;
    }
    var mark := Find(q, "::import:");
    if mark.Some? {
      return Some(q[..mark.value]);
    }
    if StartsWith(q, "import:") {
      return Some("");
    }
    var depth, last, i := 0, None, 0;
    while i < |q|
      invariant 0 <= depth && 0 <= i <= |q| && (last.Some? ==> 0 <= last.value < |q|)
      invariant LastTopFrom(q, i, depth, last) == LastTopFrom(q, 0, 0, None)
    {
      if q[i] == '<' {
        depth := depth + 1;
      } else if q[i] == '>' {
        if depth > 0 {
          depth := depth - 1;
        }
      } else if depth == 0 && i + 1 < |q| && q[i] == ':' && q[i + 1] == ':' {
        last := Some(i);
        i := i + 1;
      }
      i := i + 1;
    }
    return Some(if last.Some? then q[..last.value] else "");
  }

  /** The separator before `i` at which as many brackets have closed as opened, scanning backward. */
  function PreviousTop(s: string, i: nat, depth: int): (r: Option<nat>)
    requires i <= |s|
    ensures r.Some? ==> r.value + 1 < i && SeparatorAt(s, r.value)
  {
    if i <= 1 then None
    else
      var j := i - 1;
      if s[j] == '>' then PreviousTop(s, j, depth + 1)
      else if s[j] == '<' then PreviousTop(s, j, depth - 1)
      else if s[j] == ':' && depth == 0 && s[j - 1] == ':' then Some(j - 1)
      else PreviousTop(s, j, depth)
  }

  /** The prefixes of `s[..end]` that the backward walk visits, nearest first. */
  function VisitedBackward(s: string, end: nat): seq<string>
    requires end <= |s|
  {
    if end <= 1 then []
    else
      var previous := PreviousTop(s, end, 0);
      if previous.None? then [] else [s[..previous.value]] + VisitedBackward(s, previous.value)
  }

  /** The non-empty enclosing scopes, nearest first. */
  function EnclosingScopes(q: string): seq<string>
    decreases |q|
  {
    var parent := ParentScope(q);
    if parent.None? || parent.value == "" then [] else [parent.value] + EnclosingScopes(parent.value)
  }

  /** One step up the lexical chain: cut at the last separator, then the root, then nothing. */
  function Up(scope: string): (r: Option<string>)
    ensures r.Some? ==> |r.value| < |scope|
  {
    var split := RSplitOnce(scope);
    if split.Some? then Some(split.value.0) else if scope != "" then Some("") else None
  }

  /** A scope and everything above it up to the root, nearest first. */
  function LexicalChain(scope: string): (r: seq<string>)
    ensures r != [] && r[0] == scope
    decreases |scope|
  {
    var up := Up(scope);
    if up.None? then [scope] else [scope] + LexicalChain(up.value)
  }

  /** A name inside a scope. */
  function Inside(scope: string, name: string): string {
    if scope == "" then name else scope + "::" + name
  }

  // ---------------------------------------------------------------------------------------------
  // Brackets
  // ---------------------------------------------------------------------------------------------

  function Step(c: char): int {
    if c == '<' then 1 else if c == '>' then -1 else 0
  }

  /** How many brackets are open before position `i`. */
  function Open(s: string, i: nat): int
    requires i <= |s|
  {
    if i == 0 then 0 else Open(s, i - 1) + Step(s[i - 1])
  }

  ghost predicate Balanced(s: string) {
    Open(s, |s|) == 0 && forall i :: 0 <= i <= |s| ==> Open(s, i) >= 0
  }

  ghost predicate NoTripleColon(s: string) {
    forall k :: 0 <= k < |s| && SeparatorAt(s, k) ==> !SeparatorAt(s, k + 1)
  }

  ghost predicate NoImportPart(s: string) {
    && !StartsWith(s, "import:")
    && forall k :: 0 <= k <= |s| ==> !StartsWith(s[k..], "::import:")
  }

  predicate IsTop(s: string, k: nat) {
    SeparatorAt(s, k) && Open(s, k) == 0
  }

  /** `r` is the last separator of `s[..n]` outside brackets. */
  ghost predicate IsLastTop(s: string, n: nat, r: Option<nat>) {
    && (r.Some? ==> IsTop(s, r.value) && r.value + 1 < n)
    && (forall k :: (if r.Some? then r.value + 1 else 0) <= k && k + 1 < n ==> !IsTop(s, k))
  }

  /** What the forward scan has seen before position `i`. */
  lemma {:induction false} ForwardFindsLast(s: string, i: nat, last: Option<nat>)
    requires i <= |s| && Balanced(s) && NoTripleColon(s)
    requires last.Some? ==> IsTop(s, last.value) && last.value < i
    requires forall k :: (if last.Some? then last.value + 1 else 0) <= k < i ==> !IsTop(s, k)
    ensures IsLastTop(s, |s|, LastTopFrom(s, i, Open(s, i), last))
    decreases |s| - i
  {
    if i < |s| {
      assert Open(s, i + 1) == Open(s, i) + Step(s[i]);
      if IsTop(s, i) {
        assert Open(s, i + 2) == Open(s, i + 1) + Step(s[i + 1]);
        ForwardFindsLast(s, i + 2, Some(i));
      } else {
        ForwardFindsLast(s, i + 1, last);
      }
    }
  }

  lemma {:induction false} BackwardFindsLast(s: string, n: nat, i: nat)
    requires i <= n <= |s| && Open(s, n) == 0
    requires forall k: nat :: i <= k + 1 < n ==> !IsTop(s, k)
    ensures IsLastTop(s, n, PreviousTop(s, i, Open(s, i)))
    decreases i
  {
    if i > 1 {
      assert Open(s, i) == Open(s, i - 1) + Step(s[i - 1]);
      assert Open(s, i - 1) == Open(s, i - 2) + Step(s[i - 2]);
      if !(s[i - 1] == ':' && Open(s, i) == 0 && s[i - 2] == ':') {
        assert !IsTop(s, i - 2);
        BackwardFindsLast(s, n, i - 1);
      }
    }
  }

  // ---------------------------------------------------------------------------------------------
  // Both scans agree
  // ---------------------------------------------------------------------------------------------

  lemma {:induction false} OpenOfPrefix(s: string, n: nat, i: nat)
    requires i <= n <= |s|
    ensures Open(s[..n], i) == Open(s, i)
  {
    if i > 0 {
      OpenOfPrefix(s, n, i - 1);
    }
  }

  ghost predicate WellFormed(s: string) {
    Balanced(s) && NoTripleColon(s) && NoImportPart(s)
  }

  lemma SeparatorOfPrefix(s: string, n: nat, k: nat)
    requires n <= |s|
    ensures SeparatorAt(s[..n], k) ==> SeparatorAt(s, k)
  {
  }

  /** Cutting a well-formed name at a separator outside brackets leaves a well-formed name. */
  lemma CutIsWellFormed(s: string, n: nat)
    requires WellFormed(s) && n <= |s| && Open(s, n) == 0
    ensures WellFormed(s[..n])
  {
    var p := s[..n];
    OpenOfPrefix(s, n, n);
    forall i | 0 <= i <= |p| ensures Open(p, i) >= 0 {
      OpenOfPrefix(s, n, i);
    }
    forall k | 0 <= k < |p| && SeparatorAt(p, k) ensures !SeparatorAt(p, k + 1) {
      SeparatorOfPrefix(s, n, k);
      SeparatorOfPrefix(s, n, k + 1);
    }
    PrefixStarts(s, n, 0, "import:");
    assert s[0..] == s && p[0..] == p;
    forall k | 0 <= k <= |p| ensures !StartsWith(p[k..], "::import:") {
      PrefixStarts(s, n, k, "::import:");
    }
  }

  lemma PrefixStarts(s: string, n: nat, k: nat, pattern: string)
    requires k <= n <= |s|
    ensures StartsWith(s[..n][k..], pattern) ==> StartsWith(s[k..], pattern)
  {
    if StartsWith(s[..n][k..], pattern) {
      assert s[k..][..|pattern|] == s[..n][k..][..|pattern|];
    }
  }

  lemma ParentIsCut(s: string)
    requires WellFormed(s) && s != ""
    ensures ParentScope(s) == Some(if PreviousTop(s, |s|, 0).Some? then s[..PreviousTop(s, |s|, 0).value] else "")
  {
    ForwardFindsLast(s, 0, None);
    BackwardFindsLast(s, |s|, |s|);
  }

  /** Scanning back inside a prefix is scanning back from its end. */
  lemma {:induction false} PreviousTopOfPrefix(s: string, n: nat, i: nat, depth: int)
    requires i <= n <= |s|
    ensures PreviousTop(s[..n], i, depth) == PreviousTop(s, i, depth)
  {
    if i > 1 {
      PreviousTopOfPrefix(s, n, i - 1, depth);
      PreviousTopOfPrefix(s, n, i - 1, depth + 1);
      PreviousTopOfPrefix(s, n, i - 1, depth - 1);
    }
  }

  lemma {:induction false} VisitedOfPrefix(s: string, n: nat, end: nat)
    requires end <= n <= |s|
    ensures VisitedBackward(s[..n], end) == VisitedBackward(s, end)
    decreases end
  {
    if end > 1 {
      PreviousTopOfPrefix(s, n, end, 0);
      var previous := PreviousTop(s, end, 0);
      if previous.Some? {
        VisitedOfPrefix(s, n, previous.value);
        assert s[..n][..previous.value] == s[..previous.value];
      }
    }
  }

  lemma NoTopInShort(s: string)
    requires |s| <= 1
    ensures EnclosingScopes(s) == [] && VisitedBackward(s, |s|) == [] && !StartsWith(s, "::")
  {
    if |s| == 1 {
      assert Find(s, "::import:").None?;
    }
  }

  /** For names with balanced brackets, without triple colons and without an import part, the backward walk
      visits exactly the non-empty enclosing scopes, nearest first, and the root at the end if the name
      starts with a separator. So it agrees with `parent_scope` exactly on names that do not. */
  lemma {:induction false} BackwardVisitsEnclosing(s: string)
    requires WellFormed(s)
    ensures VisitedBackward(s, |s|) == EnclosingScopes(s) + (if StartsWith(s, "::") then [""] else [])
    ensures VisitedBackward(s, |s|) == EnclosingScopes(s) <==> !StartsWith(s, "::")
    decreases |s|
  {
    if |s| <= 1 {
      NoTopInShort(s);
    } else {
      ParentIsCut(s);
      var previous := PreviousTop(s, |s|, 0);
      BackwardFindsLast(s, |s|, |s|);
      if previous.Some? {
        var p := s[..previous.value];
        CutIsWellFormed(s, previous.value);
        VisitedOfPrefix(s, previous.value, previous.value);
        BackwardVisitsEnclosing(p);
        if p == "" {
          assert s[..2] == "::";
        } else {
          LeadingSeparator(s, previous.value);
        }
      } else {
        NoLeadingSeparator(s);
      }
    }
  }

  lemma StartsWithSeparator(s: string)
    ensures StartsWith(s, "::") <==> SeparatorAt(s, 0)
  {
    if |s| >= 2 {
      assert s[..2] == [s[0], s[1]];
    }
  }

  lemma LeadingSeparator(s: string, n: nat)
    requires n + 1 < |s| && n > 0 && SeparatorAt(s, n) && NoTripleColon(s)
    ensures StartsWith(s[..n], "::") == StartsWith(s, "::")
  {
    StartsWithSeparator(s);
    StartsWithSeparator(s[..n]);
  }

  lemma NoLeadingSeparator(s: string)
    requires IsLastTop(s, |s|, None)
    ensures !StartsWith(s, "::")
  {
    StartsWithSeparator(s);
    assert !IsTop(s, 0);
  }

  /** The shortest name on which the two walks differ visibly: the backward walk visits the root as well. */
  lemma RootIsVisitedToo()
    ensures WellFormed("::A") && VisitedBackward("::A", 3) == [""] && EnclosingScopes("::A") == []
  {
    var s := "::A";
    assert Open(s, 1) == 0 && Open(s, 2) == 0 && Open(s, 3) == 0;
    assert WellFormed(s) by {
      assert forall k :: 0 <= k <= |s| ==> |s[k..]| <= 3;
    }
    BackwardVisitsEnclosing(s);
    assert StartsWith(s, "::");
    assert PreviousTop(s, 3, 0) == Some(0) && s[..0] == "";
    assert VisitedBackward(s, 3) == [""];
    assert EnclosingScopes(s) + [""] == [""];
  }
}
