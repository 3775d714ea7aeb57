/** `normalize_peer_hint_capabilities`. */
module HintNames {
  import opened Prelude
  import opened StringOrder
  import opened Text
  import opened TextMeaning

  function LowerChar(c: char): char {
    if 'A' <= c <= 'Z' then (c as int + 32) as char else c
  }

  function Lower(s: string): (t: string) {
    Map(s, LowerChar)
  }

  function Clean(name: string): (t: string) {
    Lower(Trim(name))
  }

  predicate NonEmpty(name: string) {
    name != ""
  }

  function Normalized(names: seq<string>): (r: seq<string>) {
    SortDedup(Filter(Map(names, Clean), NonEmpty))
  }

  /** The loop rewrites each name in place; `retain`, `sort` and `dedup` follow. */
  method NormalizeNames(names: seq<string>) returns (r: seq<string>)
    ensures r == Normalized(names)
  {
    var cleaned := names;
    for i := 0 to |names|
      invariant |cleaned| == |names|
      invariant forall k :: 0 <= k < |names| ==> cleaned[k] == if k < i then Clean(names[k]) else names[k]
    {
      cleaned := cleaned[i := Clean(names[i])];
    }
    assert cleaned == Map(names, Clean);
    r := SortDedup(Filter(cleaned, NonEmpty));
  }

  lemma {:induction false} TrimStartDone(s: string)
    ensures TrimStart(s) == "" || !IsWhitespace(TrimStart(s)[0])
  {
    if s != "" && IsWhitespace(s[0]) { TrimStartDone(s[1..]); }
  }

  lemma {:induction false} TrimEndDone(s: string)
    ensures TrimEnd(s) == "" || !IsWhitespace(TrimEnd(s)[|TrimEnd(s)| - 1])
    ensures TrimEnd(s) <= s
  {
    if s != "" && IsWhitespace(s[|s| - 1]) { TrimEndDone(s[..|s| - 1]); }
  }

  /** A trimmed name has no white space at either end, in lower case too. */
  lemma CleanEnds(name: string)
    ensures var t := Clean(name); t == "" || (!IsWhitespace(t[0]) && !IsWhitespace(t[|t| - 1]))
  {
    TrimStartDone(name);
    TrimEndDone(TrimStart(name));
  }

  lemma CleanIdempotent(name: string)
    ensures Clean(Clean(name)) == Clean(name)
  {
    CleanEnds(name);
    assert forall c :: LowerChar(LowerChar(c)) == LowerChar(c);
    assert Lower(Clean(name)) == Clean(name);
  }

  /** The result lists exactly the non-empty cleaned names, in strictly ascending order. */
  lemma NormalizedMeaning(names: seq<string>)
    ensures Pairwise(Normalized(names), StrLt)
    ensures forall x :: x in Normalized(names) <==> x != "" && exists i :: 0 <= i < |names| && x == Clean(names[i])
  {
    var kept := Filter(Map(names, Clean), NonEmpty);
    SortDedupStrict(kept);
    FilterElements(Map(names, Clean), NonEmpty);
    forall x ensures x in kept <==> x != "" && exists i :: 0 <= i < |names| && x == Clean(names[i]) {
      if i :| 0 <= i < |names| && x == Clean(names[i]) {
        assert Map(names, Clean)[i] == x;
      }
    }
  }

  /** `lower` is `name` without the white space around it, in lower case. */
  ghost predicate Lowered(name: string, lower: string) {
    exists left, core, right ::
      && name == left + core + right && AllSpace(left) && Trimmed(core) && AllSpace(right)
      && |lower| == |core|
      && forall i :: 0 <= i < |core| ==>
           if 'A' <= core[i] <= 'Z' then lower[i] as int == core[i] as int + 32 else lower[i] == core[i]
  }

  lemma CleanMeaning(name: string, lower: string)
    ensures lower == Clean(name) <==> Lowered(name, lower)
  {
    var left, right := TrimSplits(name);
    if lower == Clean(name) {
      assert name == left + Trim(name) + right;
    }
    if Lowered(name, lower) {
      var l, core, r :|
        && name == l + core + r && AllSpace(l) && Trimmed(core) && AllSpace(r)
        && |lower| == |core|
        && forall i :: 0 <= i < |core| ==>
             if 'A' <= core[i] <= 'Z' then lower[i] as int == core[i] as int + 32 else lower[i] == core[i];
      TrimOf(l, core, r);
      assert forall i :: 0 <= i < |core| ==> lower[i] == LowerChar(core[i]);
    }
  }

  /** In terms of the names given: exactly the non-empty ones, without the white space around them, in lower case. */
  lemma NormalizedReads(names: seq<string>, x: string)
    ensures x in Normalized(names) <==> x != "" && exists i :: 0 <= i < |names| && Lowered(names[i], x)
  {
    NormalizedMeaning(names);
    forall i | 0 <= i < |names| ensures x == Clean(names[i]) <==> Lowered(names[i], x) {
      CleanMeaning(names[i], x);
    }
  }

  lemma NormalizedIdempotent(names: seq<string>)
    ensures Normalized(Normalized(names)) == Normalized(names)
  {
    var once := Normalized(names);
    var twice := Normalized(once);
    NormalizedMeaning(names);
    NormalizedMeaning(once);
    forall i | 0 <= i < |once| ensures Clean(once[i]) == once[i] {
      assert once[i] in once;
      var k :| 0 <= k < |names| && once[i] == Clean(names[k]);
      CleanIdempotent(names[k]);
    }
    StrictUnique(twice, once);
  }
}
