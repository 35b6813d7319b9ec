/**
 The iptables rule compiler: a configuration becomes an ordered list of rules for the nat
 table. A first-match interpreter gives the rules their meaning.
 */
module Iptables {
  import opened GoTypes
  import opened Strings

  /** `APISIX_INBOUND`, `APISIX_REDIRECT`, `APISIX_INBOUND_REDIRECT` and two built-in chains. */
  datatype Chain = Prerouting | Output | Inbound | Redirect | InboundRedirect

  datatype Match =
    | Tcp | Dport(token: string) | OutInterface(name: string) | Destination(net: string) | NotDestination(net: string)
    | UidOwner(uid: string) | GidOwner(gid: string)

  datatype Target = Return | RedirectTo(port: string) | Jump(chain: Chain)

  datatype Rule = Rule(chain: Chain, matches: seq<Match>, target: Target)

  datatype Config = Config(
    proxyPort: string, inboundCapturePort: string, proxyUid: string, proxyGid: string,
    inboundInclude: string, inboundExclude: string, outboundInclude: string, outboundExclude: string)

  // The text of a port list.

  function NonEmpty(parts: seq<string>): seq<string> {
    if parts == [] then [] else NonEmpty(Init(parts)) + if Last(parts) == "" then [] else [Last(parts)]
  }

  /** `filterEmpty`. */
  method FilterEmpty(strs: seq<string>) returns (filtered: seq<string>)
    ensures filtered == NonEmpty(strs)
  {
    filtered := [];
    for i := 0 to |strs|
      invariant filtered == NonEmpty(strs[..i])
    {
      Snoc(strs, i);
      if strs[i] == "" {
        continue;
      }
      filtered := filtered + [strs[i]];
    }
    assert strs[..|strs|] == strs;
  }

  /** `split`: the non-empty tokens of a comma-separated list. */
  function Tokens(s: string): seq<string> {
    NonEmpty(SplitAt(s, ','))
  }

  lemma {:induction false} NonEmptyConcat(a: seq<string>, b: seq<string>)
    ensures NonEmpty(a + b) == NonEmpty(a) + NonEmpty(b)
  {
    if b == [] {
      assert a + b == a;
    } else {
      assert Init(a + b) == a + Init(b) && Last(a + b) == Last(b);
      NonEmptyConcat(a, Init(b));
    }
  }

  /**
   The tokens of a list, exactly: those of its two halves one after the other wherever it is cut
   at a comma, and the text itself, unless it is empty, where there is none. So order and
   repetitions are kept.
   */
  lemma TokensExact(s: string, t: string)
    ensures Tokens(s + "," + t) == Tokens(s) + Tokens(t)
    ensures ',' !in s ==> Tokens(s) == if s == "" then [] else [s]
  {
    SplitConcat(s, ',', t);
    NonEmptyConcat(SplitAt(s, ','), SplitAt(t, ','));
    if ',' !in s {
      SplitWhole(s, ',');
      assert Init([s]) == [] && NonEmpty([]) == [];
    }
  }

  lemma {:induction false} NonEmptyMember(parts: seq<string>, t: string)
    ensures t in NonEmpty(parts) <==> t != "" && t in parts
  {
    if parts != [] {
      InitLast(parts);
      NonEmptyMember(Init(parts), t);
    }
  }

  /** The list names the token: it stands there, not empty, between two commas or ends. */
  ghost predicate Names(list: string, t: string) {
    t != "" && exists i: nat :: PartAt(list, ',', t, i)
  }

  lemma TokenIffNamed(s: string, t: string)
    ensures t in Tokens(s) <==> Names(s, t)
  {
    hide PartAt, SplitAt, NonEmpty;
    NonEmptyMember(SplitAt(s, ','), t);
    SplitMember(s, ',', t);
  }

  method SplitPorts(s: string) returns (tokens: seq<string>)
    ensures tokens == Tokens(s)
  {
    if s == "" {
      assert NonEmpty([""]) == NonEmpty(Init([""])) + [];
      return [];
    }
    tokens := FilterEmpty(SplitAt(s, ','));
  }

  // The rules.

  function PortRules(chain: Chain, tokens: seq<string>, target: Target): seq<Rule> {
    seq(|tokens|, i requires 0 <= i < |tokens| => Rule(chain, [Tcp, Dport(tokens[i])], target))
  }

  function BaseRules(cfg: Config): seq<Rule> {
    [Rule(Redirect, [Tcp], RedirectTo(cfg.proxyPort)), Rule(InboundRedirect, [Tcp], RedirectTo(cfg.inboundCapturePort))]
  }

  const LOOPBACK := "127.0.0.1/32"

  function SkipRules(cfg: Config): seq<Rule> {
    [Rule(Output, [OutInterface("lo"), NotDestination(LOOPBACK), UidOwner(cfg.proxyUid)], Return),
     Rule(Output, [Destination(LOOPBACK)], Return),
     Rule(Output, [GidOwner(cfg.proxyGid)], Return)]
  }

  function InboundRules(cfg: Config): seq<Rule> {
    if cfg.inboundInclude == "" then []
    else
      [Rule(Prerouting, [Tcp], Jump(Inbound))] +
      if cfg.inboundInclude == "*" then
        [Rule(Inbound, [Tcp, Dport("22")], Return)] +
        PortRules(Inbound, Tokens(cfg.inboundExclude), Return) +
        [Rule(Inbound, [Tcp], Jump(InboundRedirect))]
      else PortRules(Inbound, Tokens(cfg.inboundInclude), Jump(InboundRedirect))
  }

  function OutboundRules(cfg: Config): seq<Rule> {
    if cfg.outboundInclude == "" then []
    else if cfg.outboundInclude == "*" then
      PortRules(Output, Tokens(cfg.outboundExclude), Return) + [Rule(Output, [Tcp], Jump(Redirect))]
    else PortRules(Output, Tokens(cfg.outboundInclude), Jump(Redirect))
  }

  function Program(cfg: Config): seq<Rule> {
    BaseRules(cfg) + SkipRules(cfg) + InboundRules(cfg) + OutboundRules(cfg)
  }

  /** The constructor object: its methods append rules to one list. */
  class IptablesConstructor {
    const cfg: Config
    var rules: seq<Rule>

    constructor (cfg: Config)
      ensures this.cfg == cfg && rules == []
    {
      this.cfg := cfg;
      rules := [];
    }

    method AppendRule(chain: Chain, matches: seq<Match>, target: Target)
      modifies this
      ensures rules == old(rules) + [Rule(chain, matches, target)]
    {
      rules := rules + [Rule(chain, matches, target)];
    }

    method AppendPorts(chain: Chain, list: string, target: Target)
      modifies this
      ensures rules == old(rules) + PortRules(chain, Tokens(list), target)
    {
      hide Tokens;
      var tokens := SplitPorts(list);
      ghost var all := PortRules(chain, tokens, target);
      for i := 0 to |tokens|
        invariant rules == old(rules) + all[..i]
      {
        Snoc(all, i);
        AppendRule(chain, [Tcp, Dport(tokens[i])], target);
      }
      assert all[..|tokens|] == all;
    }

    method InsertSkipRules()
      modifies this
      ensures rules == old(rules) + SkipRules(cfg)
    {
      AppendRule(Output, [OutInterface("lo"), NotDestination(LOOPBACK), UidOwner(cfg.proxyUid)], Return);
      AppendRule(Output, [Destination(LOOPBACK)], Return);
      AppendRule(Output, [GidOwner(cfg.proxyGid)], Return);
    }

    method InsertInboundRules()
      modifies this
      ensures rules == old(rules) + InboundRules(cfg)
    {
      if cfg.inboundInclude == "" {
        return;
      }
      AppendRule(Prerouting, [Tcp], Jump(Inbound));
      if cfg.inboundInclude == "*" {
        AppendRule(Inbound, [Tcp, Dport("22")], Return);
        if cfg.inboundExclude != "" {
          AppendPorts(Inbound, cfg.inboundExclude, Return);
        } else {
          NoTokens();
        }
        AppendRule(Inbound, [Tcp], Jump(InboundRedirect));
      } else {
        AppendPorts(Inbound, cfg.inboundInclude, Jump(InboundRedirect));
      }
    }

    method InsertOutboundRules()
      modifies this
      ensures rules == old(rules) + OutboundRules(cfg)
    {
      if cfg.outboundInclude == "" {
        return;
      }
      if cfg.outboundInclude == "*" {
        if cfg.outboundExclude != "" {
          AppendPorts(Output, cfg.outboundExclude, Return);
        } else {
          NoTokens();
        }
        AppendRule(Output, [Tcp], Jump(Redirect));
      } else {
        AppendPorts(Output, cfg.outboundInclude, Jump(Redirect));
      }
    }

    /** `run`, up to the execution of the commands. */
    method Generate()
      requires rules == []
      modifies this
      ensures rules == Program(cfg)
    {
      AppendRule(Redirect, [Tcp], RedirectTo(cfg.proxyPort));
      AppendRule(InboundRedirect, [Tcp], RedirectTo(cfg.inboundCapturePort));
      assert rules == BaseRules(cfg);
      hide BaseRules, SkipRules, InboundRules, OutboundRules;
      InsertSkipRules();
      InsertInboundRules();
      InsertOutboundRules();
    }
  }

  lemma NoTokens()
    ensures Tokens("") == []
  {
    assert NonEmpty([""]) == NonEmpty(Init([""]));
  }

  // What the rules mean.

  datatype Packet = Packet(tcp: bool, dport: int, outInterface: string, destination: string, uid: string, gid: string)

  /** What iptables makes of a port token: a number, a range or a service name. */
  type PortMeaning = string -> iset<int>

  ghost predicate MatchHolds(ports: PortMeaning, m: Match, p: Packet) {
    match m
    case Tcp => p.tcp
    case Dport(token) => p.dport in ports(token)
    case OutInterface(name) => p.outInterface == name
    case Destination(net) => p.destination + "/32" == net
    case NotDestination(net) => p.destination + "/32" != net
    case UidOwner(uid) => p.uid == uid
    case GidOwner(gid) => p.gid == gid
  }

  ghost predicate RuleMatches(ports: PortMeaning, r: Rule, p: Packet) {
    forall i :: 0 <= i < |r.matches| ==> MatchHolds(ports, r.matches[i], p)
  }

  function Rank(chain: Chain): nat {
    match chain
    case Prerouting => 2
    case Output => 2
    case Inbound => 1
    case Redirect => 0
    case InboundRedirect => 0
  }

  datatype Verdict = Redirected(port: string) | Returned | FellThrough

  /**
   First-match evaluation of the rules `rest` that belong to `chain`; `table` holds all rules,
   and a jump evaluates the target chain over it. iptables refuses loops of chains; here jumps
   lead from the built-in chains down, and one that does not would have no effect.
   */
  ghost function Eval(ports: PortMeaning, table: seq<Rule>, chain: Chain, rest: seq<Rule>, p: Packet): Verdict
    decreases Rank(chain), |rest|
  {
    if rest == [] then FellThrough
    else if rest[0].chain != chain || !RuleMatches(ports, rest[0], p) then Eval(ports, table, chain, rest[1..], p)
    else if rest[0].target.Return? then Returned
    else if rest[0].target.RedirectTo? then Redirected(rest[0].target.port)
    else
      var to := rest[0].target.chain;
      var v := if Rank(to) < Rank(chain) then Eval(ports, table, to, table, p) else FellThrough;
      if v.Redirected? then v else Eval(ports, table, chain, rest[1..], p)
  }

  /** A packet enters the table at a built-in chain. */
  ghost function Traverse(ports: PortMeaning, table: seq<Rule>, chain: Chain, p: Packet): Option<string> {
    var v := Eval(ports, table, chain, table, p);
    if v.Redirected? then Some(v.port) else None
  }

  lemma {:induction false} EvalConcat(ports: PortMeaning, table: seq<Rule>, chain: Chain, a: seq<Rule>,
                                      b: seq<Rule>, p: Packet)
    ensures Eval(ports, table, chain, a + b, p) ==
            var v := Eval(ports, table, chain, a, p);
            if v.FellThrough? then Eval(ports, table, chain, b, p) else v
  {
    if a == [] {
      assert a + b == b;
    } else {
      assert (a + b)[1..] == a[1..] + b;
      EvalConcat(ports, table, chain, a[1..], b, p);
    }
  }

  lemma {:induction false} EvalOther(ports: PortMeaning, table: seq<Rule>, chain: Chain, rest: seq<Rule>, p: Packet)
    requires forall r :: r in rest ==> r.chain != chain || (Tcp in r.matches && !p.tcp)
    ensures Eval(ports, table, chain, rest, p) == FellThrough
  {
    if rest != [] {
      if rest[0].chain == chain {
        assert rest[0] in rest;
        assert !MatchHolds(ports, Tcp, p);
      }
      EvalOther(ports, table, chain, rest[1..], p);
    }
  }

  lemma EvalOne(ports: PortMeaning, table: seq<Rule>, r: Rule, p: Packet)
    ensures Eval(ports, table, r.chain, [r], p) ==
            if !RuleMatches(ports, r, p) then FellThrough
            else if r.target.Return? then Returned
            else if r.target.RedirectTo? then Redirected(r.target.port)
            else
              var to := r.target.chain;
              var v := if Rank(to) < Rank(r.chain) then Eval(ports, table, to, table, p) else FellThrough;
              if v.Redirected? then v else FellThrough
  {
    assert [r][1..] == [];
  }

  ghost predicate SomeToken(ports: PortMeaning, tokens: seq<string>, p: Packet) {
    exists i :: 0 <= i < |tokens| && p.dport in ports(tokens[i])
  }

  /** Some token that the list names stands for the packet's port. */
  ghost predicate NamesPort(ports: PortMeaning, list: string, p: Packet) {
    exists t :: Names(list, t) && p.dport in ports(t)
  }

  lemma SomeTokenNamed(ports: PortMeaning, list: string, p: Packet)
    ensures SomeToken(ports, Tokens(list), p) <==> NamesPort(ports, list, p)
  {
    hide Tokens, Names;
    forall t ensures t in Tokens(list) <==> Names(list, t) {
      TokenIffNamed(list, t);
    }
    if SomeToken(ports, Tokens(list), p) {
      var i :| 0 <= i < |Tokens(list)| && p.dport in ports(Tokens(list)[i]);
      assert Names(list, Tokens(list)[i]);
    }
    if NamesPort(ports, list, p) {
      var t :| Names(list, t) && p.dport in ports(t);
      var i :| 0 <= i < |Tokens(list)| && Tokens(list)[i] == t;
    }
  }

  lemma PortRule(ports: PortMeaning, chain: Chain, token: string, target: Target, p: Packet)
    ensures RuleMatches(ports, Rule(chain, [Tcp, Dport(token)], target), p) <==> p.tcp && p.dport in ports(token)
  {
    var r := Rule(chain, [Tcp, Dport(token)], target);
    assert r.matches[0] == Tcp && r.matches[1] == Dport(token);
  }

  lemma TcpRule(ports: PortMeaning, chain: Chain, target: Target, p: Packet)
    ensures RuleMatches(ports, Rule(chain, [Tcp], target), p) <==> p.tcp
  {
    assert Rule(chain, [Tcp], target).matches[0] == Tcp;
  }

  /** A list of port rules that return. */
  lemma {:induction false} EvalReturns(ports: PortMeaning, table: seq<Rule>, chain: Chain, tokens: seq<string>,
                                       p: Packet)
    ensures Eval(ports, table, chain, PortRules(chain, tokens, Return), p) ==
            if p.tcp && SomeToken(ports, tokens, p) then Returned else FellThrough
  {
    if tokens != [] {
      var rules := PortRules(chain, tokens, Return);
      assert rules[1..] == PortRules(chain, tokens[1..], Return);
      PortRule(ports, chain, tokens[0], Return, p);
      EvalReturns(ports, table, chain, tokens[1..], p);
      TokensCons(ports, tokens, p);
    }
  }

  /** A list of port rules that jump to a chain which redirects. */
  lemma {:induction false} EvalJumps(ports: PortMeaning, table: seq<Rule>, chain: Chain, to: Chain, port: string,
                                     tokens: seq<string>, p: Packet)
    requires Rank(to) < Rank(chain) && (p.tcp ==> Eval(ports, table, to, table, p) == Redirected(port))
    ensures Eval(ports, table, chain, PortRules(chain, tokens, Jump(to)), p) ==
            if p.tcp && SomeToken(ports, tokens, p) then Redirected(port) else FellThrough
  {
    if tokens != [] {
      var rules := PortRules(chain, tokens, Jump(to));
      assert rules[1..] == PortRules(chain, tokens[1..], Jump(to));
      PortRule(ports, chain, tokens[0], Jump(to), p);
      EvalJumps(ports, table, chain, to, port, tokens[1..], p);
      TokensCons(ports, tokens, p);
    }
  }

  lemma TokensCons(ports: PortMeaning, tokens: seq<string>, p: Packet)
    requires tokens != []
    ensures SomeToken(ports, tokens, p) <==> p.dport in ports(tokens[0]) || SomeToken(ports, tokens[1..], p)
  {
    if SomeToken(ports, tokens[1..], p) {
      var i :| 0 <= i < |tokens[1..]| && p.dport in ports(tokens[1..][i]);
      assert p.dport in ports(tokens[i + 1]);
    }
    if SomeToken(ports, tokens, p) && p.dport !in ports(tokens[0]) {
      var i :| 0 <= i < |tokens| && p.dport in ports(tokens[i]);
      assert tokens[1..][i - 1] == tokens[i];
    }
  }

  /** The four parts of the program one after the other. */
  lemma EvalProgram(ports: PortMeaning, cfg: Config, chain: Chain, p: Packet)
    ensures var table := Program(cfg);
            Eval(ports, table, chain, table, p) ==
            var base := Eval(ports, table, chain, BaseRules(cfg), p);
            if !base.FellThrough? then base
            else
              var skip := Eval(ports, table, chain, SkipRules(cfg), p);
              if !skip.FellThrough? then skip
              else
                var inbound := Eval(ports, table, chain, InboundRules(cfg), p);
                if !inbound.FellThrough? then inbound
                else Eval(ports, table, chain, OutboundRules(cfg), p)
  {
    var table, b, s, i, o := Program(cfg), BaseRules(cfg), SkipRules(cfg), InboundRules(cfg), OutboundRules(cfg);
    EvalConcat(ports, table, chain, b + s + i, o, p);
    EvalConcat(ports, table, chain, b + s, i, p);
    EvalConcat(ports, table, chain, b, s, p);
  }

  /** The two redirect chains redirect every TCP packet, to their own port. */
  lemma EvalRedirectChains(ports: PortMeaning, cfg: Config, p: Packet)
    requires p.tcp
    ensures var table := Program(cfg);
            && Eval(ports, table, Redirect, table, p) == Redirected(cfg.proxyPort)
            && Eval(ports, table, InboundRedirect, table, p) == Redirected(cfg.inboundCapturePort)
  {
    hide SkipRules, InboundRules, OutboundRules;
    var table := Program(cfg);
    EvalProgram(ports, cfg, Redirect, p);
    EvalProgram(ports, cfg, InboundRedirect, p);
    TcpRule(ports, Redirect, RedirectTo(cfg.proxyPort), p);
    TcpRule(ports, InboundRedirect, RedirectTo(cfg.inboundCapturePort), p);
    assert BaseRules(cfg)[1..][0] == BaseRules(cfg)[1];
  }

  /** The skip rules return exactly for local traffic of the proxy user, loopback destinations and the proxy group. */
  ghost predicate Skipped(cfg: Config, p: Packet) {
    || (p.outInterface == "lo" && p.destination != "127.0.0.1" && p.uid == cfg.proxyUid)
    || p.destination == "127.0.0.1"
    || p.gid == cfg.proxyGid
  }

  lemma OneAddress(a: string)
    ensures a + "/32" == LOOPBACK <==> a == "127.0.0.1"
  {
    assert LOOPBACK == "127.0.0.1" + "/32";
    assert (a + "/32")[..|a + "/32"| - 3] == a && LOOPBACK[..9] == "127.0.0.1";
  }

  lemma EvalSkip(ports: PortMeaning, table: seq<Rule>, cfg: Config, p: Packet)
    ensures Eval(ports, table, Output, SkipRules(cfg), p) == if Skipped(cfg, p) then Returned else FellThrough
  {
    var rules := SkipRules(cfg);
    var a, b, c := rules[0], rules[1], rules[2];
    OneAddress(p.destination);
    assert rules == [a] + ([b] + [c]);
    EvalConcat(ports, table, Output, [a], [b] + [c], p);
    EvalConcat(ports, table, Output, [b], [c], p);
    EvalOne(ports, table, a, p);
    EvalOne(ports, table, b, p);
    EvalOne(ports, table, c, p);
    assert a.matches[0] == OutInterface("lo") && a.matches[1] == NotDestination(LOOPBACK) &&
           a.matches[2] == UidOwner(cfg.proxyUid);
    assert b.matches[0] == Destination(LOOPBACK) && c.matches[0] == GidOwner(cfg.proxyGid);
  }

  /** The chain `APISIX_INBOUND`, as the inbound rules fill it. */
  lemma EvalInbound(ports: PortMeaning, cfg: Config, p: Packet)
    requires p.tcp && cfg.inboundInclude != ""
    ensures Eval(ports, Program(cfg), Inbound, InboundRules(cfg), p) ==
            if cfg.inboundInclude == "*" then
              if p.dport in ports("22") || SomeToken(ports, Tokens(cfg.inboundExclude), p) then Returned
              else Redirected(cfg.inboundCapturePort)
            else if SomeToken(ports, Tokens(cfg.inboundInclude), p) then Redirected(cfg.inboundCapturePort)
            else FellThrough
  {
    hide Program, Tokens;
    var table, first := Program(cfg), [Rule(Prerouting, [Tcp], Jump(Inbound))];
    EvalRedirectChains(ports, cfg, p);
    EvalOther(ports, table, Inbound, first, p);
    if cfg.inboundInclude == "*" {
      var ssh, ports', all := Rule(Inbound, [Tcp, Dport("22")], Return),
          PortRules(Inbound, Tokens(cfg.inboundExclude), Return), Rule(Inbound, [Tcp], Jump(InboundRedirect));
      EvalConcat(ports, table, Inbound, first, [ssh] + ports' + [all], p);
      EvalConcat(ports, table, Inbound, [ssh] + ports', [all], p);
      EvalConcat(ports, table, Inbound, [ssh], ports', p);
      EvalOne(ports, table, ssh, p);
      PortRule(ports, Inbound, "22", Return, p);
      EvalReturns(ports, table, Inbound, Tokens(cfg.inboundExclude), p);
      EvalOne(ports, table, all, p);
      TcpRule(ports, Inbound, Jump(InboundRedirect), p);
    } else {
      var ports' := PortRules(Inbound, Tokens(cfg.inboundInclude), Jump(InboundRedirect));
      EvalConcat(ports, table, Inbound, first, ports', p);
      EvalJumps(ports, table, Inbound, InboundRedirect, cfg.inboundCapturePort, Tokens(cfg.inboundInclude), p);
    }
  }

  lemma PortRulesShape(chain: Chain, tokens: seq<string>, target: Target)
    ensures forall r :: r in PortRules(chain, tokens, target) ==>
                          r.chain == chain && Tcp in r.matches && r.target == target
  {
    forall r | r in PortRules(chain, tokens, target)
      ensures r.chain == chain && Tcp in r.matches && r.target == target
    {
      var i :| 0 <= i < |tokens| && PortRules(chain, tokens, target)[i] == r;
      assert r.matches[0] == Tcp;
    }
  }

  lemma InboundShape(cfg: Config)
    ensures forall r :: r in InboundRules(cfg) ==>
              r.chain in {Prerouting, Inbound} && (r.target.Jump? ==> r.target.chain in {Inbound, InboundRedirect})
  {
    hide PortRules, Tokens;
    PortRulesShape(Inbound, Tokens(cfg.inboundExclude), Return);
    PortRulesShape(Inbound, Tokens(cfg.inboundInclude), Jump(InboundRedirect));
  }

  lemma OutboundShape(cfg: Config)
    ensures forall r :: r in OutboundRules(cfg) ==>
              r.chain == Output && Tcp in r.matches && (r.target.Jump? ==> r.target.chain == Redirect)
  {
    hide PortRules, Tokens;
    PortRulesShape(Output, Tokens(cfg.outboundExclude), Return);
    PortRulesShape(Output, Tokens(cfg.outboundInclude), Jump(Redirect));
  }

  /** The rules of one part that lie outside a chain do not matter to it. */
  lemma OtherParts(cfg: Config)
    ensures forall r :: r in BaseRules(cfg) ==> r.chain in {Redirect, InboundRedirect} && !r.target.Jump?
    ensures forall r :: r in SkipRules(cfg) ==> r.chain == Output && !r.target.Jump?
    ensures forall r :: r in InboundRules(cfg) ==> r.chain != Output
    ensures forall r :: r in OutboundRules(cfg) ==> r.chain == Output && (Tcp in r.matches)
  {
    hide InboundRules, OutboundRules;
    InboundShape(cfg);
    OutboundShape(cfg);
  }

  lemma EvalInboundChain(ports: PortMeaning, cfg: Config, p: Packet)
    ensures var table := Program(cfg);
            Eval(ports, table, Inbound, table, p) == Eval(ports, table, Inbound, InboundRules(cfg), p)
  {
    hide Program, BaseRules, SkipRules, InboundRules, OutboundRules;
    var table := Program(cfg);
    OtherParts(cfg);
    EvalProgram(ports, cfg, Inbound, p);
    EvalOther(ports, table, Inbound, BaseRules(cfg), p);
    EvalOther(ports, table, Inbound, SkipRules(cfg), p);
    EvalOther(ports, table, Inbound, OutboundRules(cfg), p);
  }

  lemma EvalPrerouting(ports: PortMeaning, cfg: Config, p: Packet)
    requires cfg.inboundInclude != ""
    ensures var table := Program(cfg);
            Eval(ports, table, Prerouting, InboundRules(cfg), p) ==
            Eval(ports, table, Prerouting, [Rule(Prerouting, [Tcp], Jump(Inbound))], p)
  {
    hide Program, Tokens;
    var table, first := Program(cfg), [Rule(Prerouting, [Tcp], Jump(Inbound))];
    var others := InboundRules(cfg)[1..];
    assert InboundRules(cfg) == first + others;
    assert forall r :: r in others ==> r.chain == Inbound;
    EvalConcat(ports, table, Prerouting, first, others, p);
    EvalOther(ports, table, Prerouting, others, p);
  }

  /** Which inbound packets the configuration asks to capture. */
  ghost predicate InboundCaptured(ports: PortMeaning, cfg: Config, p: Packet) {
    && p.tcp && cfg.inboundInclude != ""
    && if cfg.inboundInclude == "*" then
         p.dport !in ports("22") && !NamesPort(ports, cfg.inboundExclude, p)
       else NamesPort(ports, cfg.inboundInclude, p)
  }

  /** Inbound: for every configuration and packet, the generated chains capture exactly what is asked for. */
  lemma InboundDecision(ports: PortMeaning, cfg: Config, p: Packet)
    ensures Traverse(ports, Program(cfg), Prerouting, p) ==
            if InboundCaptured(ports, cfg, p) then Some(cfg.inboundCapturePort) else None
  {
    hide Program, BaseRules, SkipRules, InboundRules, OutboundRules, Tokens, SomeToken, NamesPort;
    SomeTokenNamed(ports, cfg.inboundInclude, p);
    SomeTokenNamed(ports, cfg.inboundExclude, p);
    var table := Program(cfg);
    OtherParts(cfg);
    EvalProgram(ports, cfg, Prerouting, p);
    EvalOther(ports, table, Prerouting, BaseRules(cfg), p);
    EvalOther(ports, table, Prerouting, SkipRules(cfg), p);
    EvalOther(ports, table, Prerouting, OutboundRules(cfg), p);
    if cfg.inboundInclude != "" {
      EvalPrerouting(ports, cfg, p);
      EvalOne(ports, table, Rule(Prerouting, [Tcp], Jump(Inbound)), p);
      TcpRule(ports, Prerouting, Jump(Inbound), p);
      if p.tcp {
        EvalInboundChain(ports, cfg, p);
        EvalInbound(ports, cfg, p);
      }
    } else {
      NoInbound(cfg);
    }
  }

  lemma NoInbound(cfg: Config)
    requires cfg.inboundInclude == ""
    ensures InboundRules(cfg) == []
  {
  }

  /** Which outbound packets the configuration asks to redirect. */
  ghost predicate OutboundCaptured(ports: PortMeaning, cfg: Config, p: Packet) {
    && p.tcp && !Skipped(cfg, p) && cfg.outboundInclude != ""
    && if cfg.outboundInclude == "*" then !NamesPort(ports, cfg.outboundExclude, p)
       else NamesPort(ports, cfg.outboundInclude, p)
  }

  lemma EvalOutbound(ports: PortMeaning, cfg: Config, p: Packet)
    requires p.tcp && cfg.outboundInclude != ""
    ensures Eval(ports, Program(cfg), Output, OutboundRules(cfg), p) ==
            if cfg.outboundInclude == "*" then
              if SomeToken(ports, Tokens(cfg.outboundExclude), p) then Returned else Redirected(cfg.proxyPort)
            else if SomeToken(ports, Tokens(cfg.outboundInclude), p) then Redirected(cfg.proxyPort) else FellThrough
  {
    hide Program, Tokens, SomeToken;
    var table := Program(cfg);
    EvalRedirectChains(ports, cfg, p);
    if cfg.outboundInclude == "*" {
      var excluded, all := PortRules(Output, Tokens(cfg.outboundExclude), Return), Rule(Output, [Tcp], Jump(Redirect));
      EvalConcat(ports, table, Output, excluded, [all], p);
      EvalReturns(ports, table, Output, Tokens(cfg.outboundExclude), p);
      EvalOne(ports, table, all, p);
      TcpRule(ports, Output, Jump(Redirect), p);
    } else {
      EvalJumps(ports, table, Output, Redirect, cfg.proxyPort, Tokens(cfg.outboundInclude), p);
    }
  }

  /**
   Outbound: for every configuration and packet, the generated chains redirect exactly what is
   asked for; in particular the proxy group's own traffic is never redirected.
   */
  lemma OutboundDecision(ports: PortMeaning, cfg: Config, p: Packet)
    ensures Traverse(ports, Program(cfg), Output, p) ==
            if OutboundCaptured(ports, cfg, p) then Some(cfg.proxyPort) else None
    ensures p.gid == cfg.proxyGid ==> Traverse(ports, Program(cfg), Output, p) == None
  {
    hide Program, BaseRules, SkipRules, InboundRules, OutboundRules, Tokens, SomeToken, NamesPort, Skipped;
    SomeTokenNamed(ports, cfg.outboundInclude, p);
    SomeTokenNamed(ports, cfg.outboundExclude, p);
    var table := Program(cfg);
    OtherParts(cfg);
    EvalProgram(ports, cfg, Output, p);
    EvalOther(ports, table, Output, BaseRules(cfg), p);
    EvalSkip(ports, table, cfg, p);
    EvalOther(ports, table, Output, InboundRules(cfg), p);
    if cfg.outboundInclude == "" {
      NoOutbound(cfg);
    } else if !p.tcp {
      EvalOther(ports, table, Output, OutboundRules(cfg), p);
    } else {
      EvalOutbound(ports, cfg, p);
    }
    assert p.gid == cfg.proxyGid ==> Skipped(cfg, p) by { OwnTrafficSkipped(cfg, p); }
  }

  lemma OwnTrafficSkipped(cfg: Config, p: Packet)
    ensures p.gid == cfg.proxyGid ==> Skipped(cfg, p)
  {
  }

  lemma NoOutbound(cfg: Config)
    requires cfg.outboundInclude == ""
    ensures OutboundRules(cfg) == []
  {
  }

  /** Every jump leads to a chain that some rule belongs to, and so to a chain that gets created. */
  ghost predicate JumpsDefined(table: seq<Rule>) {
    forall r :: r in table && r.target.Jump? ==> exists t :: t in table && t.chain == r.target.chain
  }

  lemma InProgram(cfg: Config, r: Rule)
    ensures r in Program(cfg) <==>
            r in BaseRules(cfg) || r in SkipRules(cfg) || r in InboundRules(cfg) || r in OutboundRules(cfg)
  {
    hide BaseRules, SkipRules, InboundRules, OutboundRules;
  }

  /** Is some rule in the chain `APISIX_INBOUND`, and does some rule jump there? */
  lemma InboundUse(cfg: Config)
    ensures (exists r :: r in InboundRules(cfg) && r.chain == Inbound) <==>
            cfg.inboundInclude == "*" || (cfg.inboundInclude != "" && Tokens(cfg.inboundInclude) != [])
    ensures (exists r :: r in InboundRules(cfg) && r.target == Jump(Inbound)) <==> cfg.inboundInclude != ""
  {
    hide Tokens, PortRules;
    var tokens, all :=
      Tokens(cfg.inboundInclude), PortRules(Inbound, Tokens(cfg.inboundInclude), Jump(InboundRedirect));
    PortRulesShape(Inbound, tokens, Jump(InboundRedirect));
    PortRulesShape(Inbound, Tokens(cfg.inboundExclude), Return);
    PortRulesSize(Inbound, tokens, Jump(InboundRedirect));
    if cfg.inboundInclude != "" {
      assert Rule(Prerouting, [Tcp], Jump(Inbound)) in InboundRules(cfg);
      if cfg.inboundInclude == "*" {
        assert Rule(Inbound, [Tcp], Jump(InboundRedirect)) in InboundRules(cfg);
      } else if tokens != [] {
        assert all[0] in InboundRules(cfg);
      }
    }
  }

  lemma PortRulesSize(chain: Chain, tokens: seq<string>, target: Target)
    ensures |PortRules(chain, tokens, target)| == |tokens|
  {
  }

  /** Jumps are sound except when the inbound list is given but names no port, such as a lone comma. */
  lemma JumpsDefinedIff(cfg: Config)
    ensures JumpsDefined(Program(cfg)) <==>
            cfg.inboundInclude == "" || cfg.inboundInclude == "*" || Tokens(cfg.inboundInclude) != []
  {
    hide Tokens, Program, SkipRules, InboundRules, OutboundRules;
    var toProxy, toCapture := BaseRules(cfg)[0], BaseRules(cfg)[1];
    forall r
      ensures r in Program(cfg) <==>
              r in BaseRules(cfg) || r in SkipRules(cfg) || r in InboundRules(cfg) || r in OutboundRules(cfg)
    {
      InProgram(cfg, r);
    }
    assert toProxy in Program(cfg) && toCapture in Program(cfg);
    OtherParts(cfg);
    InboundShape(cfg);
    OutboundShape(cfg);
    InboundUse(cfg);
    assert (exists r :: r in Program(cfg) && r.chain == Inbound) <==>
           exists r :: r in InboundRules(cfg) && r.chain == Inbound;
    assert (exists r :: r in Program(cfg) && r.target == Jump(Inbound)) <==>
           exists r :: r in InboundRules(cfg) && r.target == Jump(Inbound);
  }

  ghost predicate AllEmpty(parts: seq<string>) {
    forall i :: 0 <= i < |parts| ==> |parts[i]| == 0
  }

  ghost predicate OnlyCommas(s: string) {
    forall i :: 0 <= i < |s| ==> s[i] == ','
  }

  lemma {:induction false} NoneNonEmpty(parts: seq<string>)
    ensures NonEmpty(parts) == [] <==> AllEmpty(parts)
  {
    if parts != [] {
      NoneNonEmpty(Init(parts));
      assert |NonEmpty(parts)| == |NonEmpty(Init(parts))| + if Last(parts) == "" then 0 else 1;
      assert AllEmpty(parts) <==> AllEmpty(Init(parts)) && |Last(parts)| == 0;
    }
  }

  lemma ConsEmpty(part: string, parts: seq<string>)
    ensures AllEmpty([part] + parts) <==> |part| == 0 && AllEmpty(parts)
  {
    assert ([part] + parts)[0] == part;
    assert forall i :: 0 <= i < |parts| ==> ([part] + parts)[i + 1] == parts[i];
  }

  lemma ConsComma(s: string)
    requires s != ""
    ensures OnlyCommas(s) <==> s[0] == ',' && OnlyCommas(s[1..])
  {
    assert s == [s[0]] + s[1..];
    assert forall i :: 0 < i < |s| ==> s[i] == s[1..][i - 1];
  }

  /** A list names no port exactly when it consists of commas. */
  lemma {:induction false} NoTokensIff(s: string)
    ensures AllEmpty(SplitAt(s, ',')) <==> OnlyCommas(s)
  {
    if s != "" {
      var rest := SplitAt(s[1..], ',');
      NoTokensIff(s[1..]);
      ConsComma(s);
      if s[0] == ',' {
        ConsEmpty("", rest);
      } else {
        ConsEmpty([s[0]] + rest[0], rest[1..]);
      }
    }
  }

  /** The dangling jump, on the text of the flag: it is there exactly for an inbound list of commas only. */
  lemma DanglingIff(cfg: Config)
    ensures JumpsDefined(Program(cfg)) <==> cfg.inboundInclude == "" || !OnlyCommas(cfg.inboundInclude)
  {
    hide JumpsDefined, Program, NonEmpty, SplitAt;
    JumpsDefinedIff(cfg);
    NoneNonEmpty(SplitAt(cfg.inboundInclude, ','));
    NoTokensIff(cfg.inboundInclude);
    assert cfg.inboundInclude == "*" ==> cfg.inboundInclude[0] == '*';
  }

  /** `--inbound-ports ,` is such a list, whatever else is configured: a jump, and no rule where it leads. */
  lemma LoneComma(cfg: Config)
    requires cfg.inboundInclude == ","
    ensures !JumpsDefined(Program(cfg))
    ensures InboundRules(cfg) == [Rule(Prerouting, [Tcp], Jump(Inbound))]
  {
    hide JumpsDefined, Program, SplitAt, NonEmpty;
    DanglingIff(cfg);
    NoneNonEmpty(SplitAt(cfg.inboundInclude, ','));
    NoTokensIff(cfg.inboundInclude);
    assert Tokens(cfg.inboundInclude) == [];
  }
}
