/** `dump` writes only the flags that differ from the defaults; `gen_flags` fills the rest in again. */
module FlagTable {
  /** Flag names and their JSON values. */
  type Table = map<string, string>

  function Diff(defaults: Table, current: Table): (t: Table) {
    map k | k in defaults && k in current && current[k] != defaults[k] :: current[k]
  }

  function Merge(defaults: Table, given: Table): (t: Table) {
    map k | k in defaults :: if k in given then given[k] else defaults[k]
  }

  method DumpFlags(defaults: Table, current: Table) returns (t: Table)
    ensures t == Diff(defaults, current)
  {
    t := map[];
    var left := defaults.Keys;
    while left != {}
      invariant left <= defaults.Keys
      invariant t == map k | k in defaults && k !in left && k in current && current[k] != defaults[k] :: current[k]
      decreases left
    {
      var k :| k in left;
      if k in current && current[k] != defaults[k] { t := t[k := current[k]]; }
      left := left - {k};
    }
  }

  method GenFlagTable(defaults: Table, given: Table) returns (t: Table)
    ensures t == Merge(defaults, given)
  {
    t := map[];
    var flags := given;
    var left := defaults.Keys;
    while left != {}
      invariant left <= defaults.Keys
      invariant flags == map k | k in given && (k in left || k !in defaults) :: given[k]
      invariant t == map k | k in defaults && k !in left :: if k in given then given[k] else defaults[k]
      decreases left
    {
      var k :| k in left;
      if k in flags {
        t := t[k := flags[k]];
        flags := flags - {k};
      } else {
        t := t[k := defaults[k]];
      }
      left := left - {k};
    }
  }

  /** What is dumped reads back as it was, and is the least table that does. */
  lemma DumpRoundTrip(defaults: Table, current: Table)
    requires current.Keys == defaults.Keys
    ensures Merge(defaults, Diff(defaults, current)) == current
    ensures forall given: Table :: Merge(defaults, given) == current ==> Diff(defaults, current).Items <= given.Items
  {
    forall given: Table | Merge(defaults, given) == current ensures Diff(defaults, current).Items <= given.Items {
      forall k | k in Diff(defaults, current) ensures k in given && given[k] == current[k] {
        assert Merge(defaults, given)[k] == current[k];
      }
    }
  }
}
