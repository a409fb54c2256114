/** The scope that encloses a name, told from where its separators, its brackets and its import marks stand. */
module ParentScopes {
  import opened Wrappers
  import opened Names
  import opened Scopes
  import opened Segments

  /** How many angle brackets are open before a position; a closing one without an opening one is ignored. */
  ghost function OpenBefore(q: string, k: nat): nat
    requires k <= |q|
  {
    if k == 0 then 0
    else
      var n := OpenBefore(q, k - 1);
      if q[k - 1] == '<' then n + 1 else if q[k - 1] == '>' && n > 0 then n - 1 else n
  }

  /** A separator outside brackets counts, unless its first colon is the second one of another that counts. */
  ghost predicate Counts(q: string, k: nat) {
    SeparatorAt(q, k) && OpenBefore(q, k) == 0 && (k > 0 ==> !Counts(q, k - 1))
  }

  ghost predicate ImportMarkAt(q: string, k: nat) {
    k <= |q| && "::import:" <= q[k..]
  }

  /** What stands before the first import mark; or the root, of what begins with one; or what stands before the last
      separator that counts; or else the root. */
  ghost predicate IsParentScope(q: string, parent: string) {
    q != "" &&
      if exists k: nat :: ImportMarkAt(q, k) then
        exists k: nat :: ImportMarkAt(q, k) && parent == q[..k] && forall j: nat :: j < k ==> !ImportMarkAt(q, j)
      else if "import:" <= q then parent == ""
      else if exists k: nat :: Counts(q, k) then
        exists k: nat :: k <= |q| && Counts(q, k) && parent == q[..k] && forall j: nat :: j > k ==> !Counts(q, j)
      else parent == ""
  }

  ghost predicate LastCounting(q: string, n: nat, r: Option<nat>) {
    && (r.Some? ==> r.value < n && Counts(q, r.value))
    && (forall k :: (if r.Some? then r.value + 1 else 0) <= k < n ==> !Counts(q, k))
  }

  lemma {:induction false} ScanFindsLast(q: string, i: nat, last: Option<nat>)
    requires i <= |q| && (last.Some? ==> last.value < |q|)
    requires LastCounting(q, i, last) && (i > 0 ==> !Counts(q, i - 1))
    ensures LastCounting(q, |q|, LastTopFrom(q, i, OpenBefore(q, i), last))
    decreases |q| - i
  {
    if i < |q| {
      if OpenBefore(q, i) == 0 && SeparatorAt(q, i) {
        assert Counts(q, i) && !Counts(q, i + 1);
        assert OpenBefore(q, i + 2) == OpenBefore(q, i + 1) == 0;
        ScanFindsLast(q, i + 2, Some(i));
      } else {
        assert !Counts(q, i);
        ScanFindsLast(q, i + 1, last);
      }
    }
  }

  lemma MarkIsFirst(q: string)
    ensures var mark := Find(q, "::import:");
      && (mark.Some? <==> exists k: nat :: ImportMarkAt(q, k))
      && (mark.Some? ==> ImportMarkAt(q, mark.value) && forall j: nat :: j < mark.value ==> !ImportMarkAt(q, j))
  {
    FindFromIsFirst(q, "::import:", 0);
    forall k: nat | k <= |q| ensures StartsWith(q[k..], "::import:") <==> ImportMarkAt(q, k) {
    }
  }

  lemma CountsInside(q: string, k: nat)
    requires Counts(q, k)
    ensures k < |q|
  {
  }

  /** The scan finds the enclosing scope, whatever the name; only the empty name has none. */
  lemma ParentScopeIsFound(q: string, parent: string)
    ensures ParentScope(q) == Some(parent) <==> IsParentScope(q, parent)
    ensures ParentScope(q) == None <==> q == ""
  {
    hide Counts, ImportMarkAt, LastTopFrom;
    MarkIsFirst(q);
    ScanFindsLast(q, 0, None);
    forall k: nat | Counts(q, k) ensures k < |q| {
      CountsInside(q, k);
    }
    var last := LastTopFrom(q, 0, 0, None);
    if last.Some? {
      assert Counts(q, last.value);
    }
  }
}
