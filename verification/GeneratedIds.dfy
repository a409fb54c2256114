/** Ids that the translation generates never collide with each other or with ordinary symbol ids. */
module GeneratedIds {
  import opened ModelGraph
  import opened Wrapping
  import opened Names
  import opened Integrate

  datatype IdClass = Ordinary | ExternalClass | RelClass | WrapClass | ValueClass | LiteralClass

  /** The shape of an id: prefixes are decided before suffixes. */
  function ClassOf(x: Id): IdClass {
    if StartsWith(x, "_ext_") then ExternalClass
    else if StartsWith(x, "rel_") then RelClass
    else if EndsWith(x, "-m") then WrapClass
    else if EndsWith(x, "-fv") then ValueClass
    else if EndsWith(x, "-fv-lit") then LiteralClass
    else Ordinary
  }

  lemma PrefixBeforeDash(x: Id, suffix: string, prefix: string)
    requires suffix != "" && suffix[0] == '-' && '-' !in prefix
    ensures StartsWith(x + suffix, prefix) ==> StartsWith(x, prefix)
  {
    assert (x + suffix)[|x|] == '-';
    assert forall i :: 0 <= i < |prefix| ==> prefix[i] != '-';
    if StartsWith(x + suffix, prefix) {
      assert forall i :: 0 <= i < |prefix| ==> (x + suffix)[i] == (x + suffix)[..|prefix|][i] == prefix[i];
      assert (x + suffix)[..|prefix|] == x[..|prefix|];
    }
  }

  lemma SuffixedIsNotPrefixed(x: Id, suffix: string)
    requires ClassOf(x) == Ordinary && suffix != "" && suffix[0] == '-'
    ensures !StartsWith(x + suffix, "_ext_") && !StartsWith(x + suffix, "rel_")
    ensures EndsWith(x + suffix, suffix)
  {
    PrefixBeforeDash(x, suffix, "_ext_");
    PrefixBeforeDash(x, suffix, "rel_");
  }

  lemma LastChar(s: string, suffix: string)
    requires EndsWith(s, suffix) && suffix != ""
    ensures s != "" && s[|s| - 1] == suffix[|suffix| - 1]
  {
  }

  lemma ClassOfWrap(x: Id)
    requires ClassOf(x) == Ordinary
    ensures ClassOf(WrapId(x)) == WrapClass
  {
    SuffixedIsNotPrefixed(x, "-m");
  }

  lemma ClassOfValue(x: Id)
    requires ClassOf(x) == Ordinary
    ensures ClassOf(ValueId(x)) == ValueClass
  {
    SuffixedIsNotPrefixed(x, "-fv");
    if EndsWith(ValueId(x), "-m") {
      LastChar(ValueId(x), "-m");
    }
  }

  lemma ClassOfLiteral(x: Id)
    requires ClassOf(x) == Ordinary
    ensures ClassOf(LiteralId(x)) == LiteralClass
  {
    SuffixedIsNotPrefixed(x, "-fv-lit");
    if EndsWith(LiteralId(x), "-m") {
      LastChar(LiteralId(x), "-m");
    }
    if EndsWith(LiteralId(x), "-fv") {
      LastChar(LiteralId(x), "-fv");
    }
  }

  lemma ClassOfRel(n: nat)
    ensures ClassOf(RelId(n)) == RelClass
  {
    assert RelId(n)[..4] == "rel_";
    assert RelId(n)[0] == 'r';
  }

  lemma ClassOfExternal(target: string)
    ensures ClassOf(ExternalId(target)) == ExternalClass
  {
    assert ExternalId(target)[..5] == "_ext_";
  }

  lemma AppendIsInjective(x: Id, y: Id, suffix: string)
    requires x + suffix == y + suffix
    ensures x == y
  {
    assert |x| == |y|;
    assert (x + suffix)[..|x|] == x && (y + suffix)[..|y|] == y;
  }

  lemma RelIdIsInjective(a: nat, b: nat)
    requires RelId(a) == RelId(b)
    ensures a == b
  {
    assert RelId(a)[4..] == Decimal(a) && RelId(b)[4..] == Decimal(b);
    DecimalIsInjective(a, b);
  }
}
