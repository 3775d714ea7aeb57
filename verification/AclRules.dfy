/** Compilation of chains into rule vectors, and what the compiled vectors mean. */
module AclRules {
  import opened Prelude
  import opened Ordering
  import opened AclTypes
  import opened AclMeaning

  datatype Compiled = Compiled(
    inbound: seq<FastRule>,
    outbound: seq<FastRule>,
    forward: seq<FastRule>,
    defaultInbound: Action,
    defaultOutbound: Action,
    defaultForward: Action)
  {
    function Rules(chain: ChainType): seq<FastRule>
      requires chain != UnspecifiedChain
    {
      match chain
      case Inbound => inbound
      case Outbound => outbound
      case Forward => forward
    }

    function Default(chain: ChainType): Action
      requires chain != UnspecifiedChain
    {
      match chain
      case Inbound => defaultInbound
      case Outbound => defaultOutbound
      case Forward => defaultForward
    }
  }

  predicate PriorityFirst(a: FastRule, b: FastRule) {
    a.priority >= b.priority
  }

  function EnabledRules(rules: seq<Rule>): (fast: seq<FastRule>) {
    if rules == [] then []
    else (if rules[0].enabled then [Convert(rules[0])] else []) + EnabledRules(rules[1..])
  }

  /** The vector one enabled chain contributes: its enabled rules, sorted stably by priority. */
  function ChainRules(chain: Chain): (fast: seq<FastRule>) {
    if chain.enabled then SortBy(EnabledRules(chain.rules), PriorityFirst) else []
  }

  function RulesFor(chains: seq<Chain>, t: ChainType): (fast: seq<FastRule>) {
    if chains == [] then []
    else (if chains[0].chainType == t then ChainRules(chains[0]) else []) + RulesFor(chains[1..], t)
  }

  lemma Associative<T>(a: seq<T>, b: seq<T>, c: seq<T>)
    ensures a + b + c == a + (b + c)
  {
  }

  lemma {:induction false} RulesForAppend(chains: seq<Chain>, more: seq<Chain>, t: ChainType)
    ensures RulesFor(chains + more, t) == RulesFor(chains, t) + RulesFor(more, t)
  {
    if chains == [] {
      assert chains + more == more;
    } else {
      assert (chains + more)[1..] == chains[1..] + more;
      RulesForAppend(chains[1..], more, t);
      var head := if chains[0].chainType == t then ChainRules(chains[0]) else [];
      Associative(head, RulesFor(chains[1..], t), RulesFor(more, t));
    }
  }

  /** `build_default_actions`: the first chain of the type decides, enabled or not. */
  function DefaultFor(chains: seq<Chain>, t: ChainType): (a: Action) {
    if chains == [] then Allow
    else if chains[0].chainType == t then chains[0].defaultAction
    else DefaultFor(chains[1..], t)
  }

  function Compile(acl: Acl): (c: Compiled) {
    var chains := acl.Chains();
    Compiled(
      RulesFor(chains, Inbound), RulesFor(chains, Outbound), RulesFor(chains, Forward),
      DefaultFor(chains, Inbound), DefaultFor(chains, Outbound), DefaultFor(chains, Forward))
  }

  /** `build_rules`: one pass over the chains, extending three vectors. */
  method BuildRules(acl: Acl) returns (inbound: seq<FastRule>, outbound: seq<FastRule>, forward: seq<FastRule>)
    ensures inbound == Compile(acl).inbound
    ensures outbound == Compile(acl).outbound
    ensures forward == Compile(acl).forward
  {
    inbound, outbound, forward := [], [], [];
    var chains := acl.Chains();
    for i := 0 to |chains|
      invariant inbound == RulesFor(chains[..i], Inbound)
      invariant outbound == RulesFor(chains[..i], Outbound)
      invariant forward == RulesFor(chains[..i], Forward)
    {
      var chain := chains[i];
      assert chains[..i + 1] == chains[..i] + [chain];
      RulesForAppend(chains[..i], [chain], Inbound);
      RulesForAppend(chains[..i], [chain], Outbound);
      RulesForAppend(chains[..i], [chain], Forward);
      if chain.enabled {
        var rules := SortBy(EnabledRules(chain.rules), PriorityFirst);
        match chain.chainType {
          case Inbound => inbound := inbound + rules;
          case Outbound => outbound := outbound + rules;
          case Forward => forward := forward + rules;
          case UnspecifiedChain =>
        }
      }
    }
    assert chains[..|chains|] == chains;
  }

  // --- What a compiled configuration decides ---

  datatype Verdict = NoMatch(action: Action) | Matched(index: nat, rule: FastRule)

  function Decide(c: Compiled, t: ChainType, pkt: PacketInfo): (v: Verdict)
    requires t != UnspecifiedChain
    ensures v.Matched? ==> v.index < |c.Rules(t)| && c.Rules(t)[v.index] == v.rule && Eligible(v.rule, pkt)
  {
    var i := FirstMatch(c.Rules(t), pkt, 0);
    if i < |c.Rules(t)| then Matched(i, c.Rules(t)[i]) else NoMatch(c.Default(t))
  }

  // --- The winner, stated on the configuration alone ---

  /** A rule of the configuration, by position: `chains[chain].rules[rule]`. */
  datatype Origin = Origin(chain: nat, rule: nat)

  predicate InConfig(chains: seq<Chain>, o: Origin) {
    o.chain < |chains| && o.rule < |chains[o.chain].rules|
  }

  function RuleAt(chains: seq<Chain>, o: Origin): Rule
    requires InConfig(chains, o)
  {
    chains[o.chain].rules[o.rule]
  }

  /** An enabled rule of an enabled chain of type `t`. */
  predicate Live(chains: seq<Chain>, t: ChainType, o: Origin) {
    && InConfig(chains, o)
    && chains[o.chain].chainType == t
    && chains[o.chain].enabled
    && RuleAt(chains, o).enabled
  }

  ghost predicate Candidate(chains: seq<Chain>, t: ChainType, pkt: PacketInfo, o: Origin) {
    Live(chains, t, o) && Meets(RuleAt(chains, o), pkt)
  }

  /** Chain position first; priority, then position, only inside one chain. */
  predicate Precedes(chains: seq<Chain>, a: Origin, b: Origin)
    requires InConfig(chains, a) && InConfig(chains, b)
  {
    || a.chain < b.chain
    || (&& a.chain == b.chain
        && (|| RuleAt(chains, a).priority > RuleAt(chains, b).priority
            || (RuleAt(chains, a).priority == RuleAt(chains, b).priority && a.rule < b.rule)))
  }

  ghost predicate IsWinner(chains: seq<Chain>, t: ChainType, pkt: PacketInfo, o: Origin) {
    && Candidate(chains, t, pkt, o)
    && forall other :: Candidate(chains, t, pkt, other) && other != o ==> Precedes(chains, o, other)
  }

  // The compiled vector, with the origin of every rule.

  datatype Tagged = Tagged(origin: Origin, rule: Rule)

  predicate TagFirst(a: Tagged, b: Tagged) {
    a.rule.priority >= b.rule.priority
  }

  predicate TagPrecedes(a: Tagged, b: Tagged) {
    || a.origin.chain < b.origin.chain
    || (&& a.origin.chain == b.origin.chain
        && (|| a.rule.priority > b.rule.priority
            || (a.rule.priority == b.rule.priority && a.origin.rule < b.origin.rule)))
  }

  function ConvertTag(tag: Tagged): FastRule {
    Convert(tag.rule)
  }

  function EnabledTags(rules: seq<Rule>, chain: nat, from: nat): (tags: seq<Tagged>)
    requires from <= |rules|
    decreases |rules| - from
  {
    if from == |rules| then []
    else
      var tag := if rules[from].enabled then [Tagged(Origin(chain, from), rules[from])] else [];
      tag + EnabledTags(rules, chain, from + 1)
  }

  lemma {:induction false} EnabledTagsListed(rules: seq<Rule>, chain: nat, from: nat)
    requires from <= |rules|
    ensures forall t :: t in EnabledTags(rules, chain, from) <==>
              && t.origin.chain == chain && from <= t.origin.rule < |rules|
              && t.rule == rules[t.origin.rule] && t.rule.enabled
    ensures forall i, j :: 0 <= i < j < |EnabledTags(rules, chain, from)| ==>
              EnabledTags(rules, chain, from)[i].origin.rule < EnabledTags(rules, chain, from)[j].origin.rule
    decreases |rules| - from
  {
    if from < |rules| {
      EnabledTagsListed(rules, chain, from + 1);
      var rest := EnabledTags(rules, chain, from + 1);
      assert forall j :: 0 <= j < |rest| ==> rest[j] in rest;
    }
  }

  lemma {:induction false} EnabledConverted(rules: seq<Rule>, chain: nat, from: nat)
    requires from <= |rules|
    ensures EnabledRules(rules[from..]) == Map(EnabledTags(rules, chain, from), ConvertTag)
    decreases |rules| - from
  {
    if from < |rules| {
      EnabledConverted(rules, chain, from + 1);
      assert rules[from..][1..] == rules[from + 1..];
      var head := if rules[from].enabled then [Tagged(Origin(chain, from), rules[from])] else [];
      MapConcat(head, EnabledTags(rules, chain, from + 1), ConvertTag);
    }
  }

  function ChainTags(chain: Chain, at: nat): (tags: seq<Tagged>) {
    if chain.enabled then SortBy(EnabledTags(chain.rules, at, 0), TagFirst) else []
  }

  lemma ChainTagsListed(chain: Chain, at: nat)
    ensures forall t :: t in ChainTags(chain, at) <==>
              && chain.enabled && t.origin.chain == at && t.origin.rule < |chain.rules|
              && t.rule == chain.rules[t.origin.rule] && t.rule.enabled
  {
    EnabledTagsListed(chain.rules, at, 0);
    SortElements(EnabledTags(chain.rules, at, 0), TagFirst);
  }

  lemma ChainTagsOrdered(chain: Chain, at: nat)
    ensures Pairwise(ChainTags(chain, at), TagPrecedes)
    ensures ChainRules(chain) == Map(ChainTags(chain, at), ConvertTag)
  {
    if chain.enabled {
      var tags := EnabledTags(chain.rules, at, 0);
      EnabledTagsListed(chain.rules, at, 0);
      forall i, j | 0 <= i < j < |tags|
        ensures if TagFirst(tags[i], tags[j]) then TagPrecedes(tags[i], tags[j]) else TagPrecedes(tags[j], tags[i])
      {
        assert tags[i] in tags && tags[j] in tags;
      }
      SortPairwise(tags, TagFirst, TagPrecedes);
      EnabledConverted(chain.rules, at, 0);
      assert chain.rules[0..] == chain.rules;
      SortMap(tags, TagFirst, PriorityFirst, ConvertTag);
    }
  }

  /** The rules of the compiled vector for `t`, with origins, from chain position `from` on. */
  function Tags(chains: seq<Chain>, t: ChainType, from: nat): (tags: seq<Tagged>)
    requires from <= |chains|
    decreases |chains| - from
  {
    if from == |chains| then []
    else (if chains[from].chainType == t then ChainTags(chains[from], from) else []) + Tags(chains, t, from + 1)
  }

  lemma {:induction false} TagsListed(chains: seq<Chain>, t: ChainType, from: nat)
    requires from <= |chains|
    ensures forall tag :: tag in Tags(chains, t, from) <==>
              from <= tag.origin.chain && Live(chains, t, tag.origin) && tag.rule == RuleAt(chains, tag.origin)
    decreases |chains| - from
  {
    if from < |chains| {
      TagsListed(chains, t, from + 1);
      ChainTagsListed(chains[from], from);
    }
  }

  lemma ChainsApart(chains: seq<Chain>, t: ChainType, from: nat)
    requires from < |chains|
    ensures forall a, b :: a in ChainTags(chains[from], from) && b in Tags(chains, t, from + 1) ==>
            a.origin.chain < b.origin.chain
  {
    TagsListed(chains, t, from + 1);
    ChainTagsListed(chains[from], from);
  }

  lemma {:induction false} TagsOrdered(chains: seq<Chain>, t: ChainType, from: nat)
    requires from <= |chains|
    ensures RulesFor(chains[from..], t) == Map(Tags(chains, t, from), ConvertTag)
    ensures Pairwise(Tags(chains, t, from), TagPrecedes)
    decreases |chains| - from
  {
    if from < |chains| {
      TagsOrdered(chains, t, from + 1);
      assert chains[from..][1..] == chains[from + 1..];
      if chains[from].chainType == t {
        ChainTagsOrdered(chains[from], from);
        ChainsApart(chains, t, from);
        TagsConcat(ChainTags(chains[from], from), Tags(chains, t, from + 1));
      }
    }
  }

  lemma TagsConcat(here: seq<Tagged>, rest: seq<Tagged>)
    requires Pairwise(here, TagPrecedes) && Pairwise(rest, TagPrecedes)
    requires forall a, b :: a in here && b in rest ==> a.origin.chain < b.origin.chain
    ensures Pairwise(here + rest, TagPrecedes)
    ensures Map(here + rest, ConvertTag) == Map(here, ConvertTag) + Map(rest, ConvertTag)
  {
    MapConcat(here, rest, ConvertTag);
    var all := here + rest;
    forall i, j | 0 <= i < j < |all| ensures TagPrecedes(all[i], all[j]) {
      if i < |here| <= j {
        assert all[i] in here && all[j] in rest;
      }
    }
  }

  /** The default of a type is that of its first chain, enabled or not, and `Allow` without one. */
  lemma {:induction false} DefaultIsFirst(chains: seq<Chain>, t: ChainType)
    ensures (forall i :: 0 <= i < |chains| ==> chains[i].chainType != t) ==> DefaultFor(chains, t) == Allow
    ensures forall i :: 0 <= i < |chains| && chains[i].chainType == t
                        && (forall j :: 0 <= j < i ==> chains[j].chainType != t)
                        ==> DefaultFor(chains, t) == chains[i].defaultAction
  {
    if chains != [] && chains[0].chainType != t {
      DefaultIsFirst(chains[1..], t);
      forall i | 0 <= i < |chains| && chains[i].chainType == t && (forall j :: 0 <= j < i ==> chains[j].chainType != t)
        ensures DefaultFor(chains, t) == chains[i].defaultAction
      {
        assert i > 0 && chains[1..][i - 1] == chains[i];
        forall j | 0 <= j < i - 1 ensures chains[1..][j].chainType != t { assert chains[1..][j] == chains[j + 1]; }
      }
      if forall i :: 0 <= i < |chains| ==> chains[i].chainType != t {
        forall j | 0 <= j < |chains[1..]| ensures chains[1..][j].chainType != t {
          assert chains[1..][j] == chains[j + 1];
        }
      }
    }
  }

  /** No candidate comes before the first eligible rule of the vector. */
  lemma CandidateAfter(chains: seq<Chain>, t: ChainType, pkt: PacketInfo, tags: seq<Tagged>, rules: seq<FastRule>,
                       i: nat, o: Origin)
    requires Pairwise(tags, TagPrecedes) && rules == Map(tags, ConvertTag) && i == FirstMatch(rules, pkt, 0)
    requires Candidate(chains, t, pkt, o) && Tagged(o, RuleAt(chains, o)) in tags
    requires forall tag :: tag in tags ==> Live(chains, t, tag.origin) && tag.rule == RuleAt(chains, tag.origin)
    ensures i < |rules| && Live(chains, t, tags[i].origin) && Live(chains, t, o)
    ensures o != tags[i].origin ==> Precedes(chains, tags[i].origin, o)
  {
    var k :| 0 <= k < |tags| && tags[k] == Tagged(o, RuleAt(chains, o));
    assert rules[k] == Convert(tags[k].rule);
    MatchesMeaning(tags[k].rule, pkt);
    assert Eligible(rules[k], pkt);
    assert i <= k;
    if i < k {
      assert tags[i] in tags && TagPrecedes(tags[i], tags[k]);
    }
  }

  /** The first eligible rule of the compiled vector comes from the winner. */
  lemma FirstMatchIsWinner(chains: seq<Chain>, t: ChainType, pkt: PacketInfo, tags: seq<Tagged>, rules: seq<FastRule>,
                           i: nat)
    requires tags == Tags(chains, t, 0) && Pairwise(tags, TagPrecedes)
    requires rules == Map(tags, ConvertTag)
    requires i == FirstMatch(rules, pkt, 0)
    ensures i < |rules| ==> IsWinner(chains, t, pkt, tags[i].origin)
    ensures i < |rules| ==> rules[i] == Convert(RuleAt(chains, tags[i].origin))
    ensures i == |rules| ==> forall o :: !Candidate(chains, t, pkt, o)
  {
    TagsListed(chains, t, 0);
    if i < |rules| {
      assert tags[i] in tags;
      MatchesMeaning(tags[i].rule, pkt);
    }
    forall o | Candidate(chains, t, pkt, o)
      ensures i < |rules| && (o != tags[i].origin ==> Precedes(chains, tags[i].origin, o))
    {
      assert Tagged(o, RuleAt(chains, o)) in tags;
      CandidateAfter(chains, t, pkt, tags, rules, i, o);
    }
  }

  /** Two winners would precede each other. */
  lemma WinnerUnique(chains: seq<Chain>, t: ChainType, pkt: PacketInfo, a: Origin, b: Origin)
    requires IsWinner(chains, t, pkt, a) && IsWinner(chains, t, pkt, b)
    ensures a == b
  {
  }

  /** The winner is what the compiled scan finds; without one the default applies. */
  lemma WinnerDecides(acl: Acl, t: ChainType, pkt: PacketInfo)
    requires t != UnspecifiedChain
    ensures forall o :: IsWinner(acl.Chains(), t, pkt, o) ==>
              && Decide(Compile(acl), t, pkt).Matched?
              && Decide(Compile(acl), t, pkt).rule == Convert(RuleAt(acl.Chains(), o))
    ensures Decide(Compile(acl), t, pkt).Matched? <==> exists o :: IsWinner(acl.Chains(), t, pkt, o)
    ensures Decide(Compile(acl), t, pkt).NoMatch? <==> forall o :: !Candidate(acl.Chains(), t, pkt, o)
    ensures Decide(Compile(acl), t, pkt).NoMatch? ==>
              Decide(Compile(acl), t, pkt).action == DefaultFor(acl.Chains(), t)
  {
    var chains := acl.Chains();
    TagsOrdered(chains, t, 0);
    assert chains[0..] == chains;
    var tags := Tags(chains, t, 0);
    var rules := Compile(acl).Rules(t);
    assert rules == RulesFor(chains, t);
    var i := FirstMatch(rules, pkt, 0);
    FirstMatchIsWinner(chains, t, pkt, tags, rules, i);
    if i < |rules| {
      assert IsWinner(chains, t, pkt, tags[i].origin);
      forall o | IsWinner(chains, t, pkt, o) ensures o == tags[i].origin {
        WinnerUnique(chains, t, pkt, o, tags[i].origin);
      }
    }
  }

  lemma WinnerDecided(acl: Acl, t: ChainType, pkt: PacketInfo, o: Origin)
    requires t != UnspecifiedChain && IsWinner(acl.Chains(), t, pkt, o)
    ensures Decide(Compile(acl), t, pkt).Matched?
    ensures Decide(Compile(acl), t, pkt).rule == Convert(RuleAt(acl.Chains(), o))
  {
    WinnerDecides(acl, t, pkt);
  }

  lemma NoMatchNoCandidate(acl: Acl, t: ChainType, pkt: PacketInfo)
    requires t != UnspecifiedChain
    ensures Decide(Compile(acl), t, pkt).NoMatch? <==> forall o :: !Candidate(acl.Chains(), t, pkt, o)
    ensures Decide(Compile(acl), t, pkt).NoMatch? ==>
            Decide(Compile(acl), t, pkt) == NoMatch(DefaultFor(acl.Chains(), t))
  {
    WinnerDecides(acl, t, pkt);
  }
}
