/** The heuristic risk report on the capabilities a plugin is granted. */
module RiskAnalysis {
  import opened GoTypes

  type Level = n: int | 0 <= n <= 4

  const NONE: Level := 0
  const LOW: Level := 1
  const MEDIUM: Level := 2
  const HIGH: Level := 3
  const CRITICAL: Level := 4

  datatype NetworkRule = NetworkRule(hosts: seq<string>, ports: seq<string>)

  datatype FileSystemRule = FileSystemRule(read: seq<string>, write: seq<string>)

  /** `None` is a capability that is not granted at all. */
  datatype GrantSet = GrantSet(
    network: Option<seq<NetworkRule>>,
    fs: Option<seq<FileSystemRule>>,
    exec: Option<seq<string>>,
    env: Option<seq<string>>)

  /** The rule a factor is about. */
  datatype Rule = Network(hosts: seq<string>, ports: seq<string>) | FSWrite(paths: seq<string>) | FSRead(paths: seq<string>)
                | Exec(commands: seq<string>) | Env(variables: seq<string>)

  datatype RiskFactor = RiskFactor(level: Level, description: string, rule: Rule)

  datatype RiskReport = RiskReport(level: Level, factors: seq<RiskFactor>)

  function OrNone<T>(rules: Option<seq<T>>): seq<T> {
    if rules.None? then [] else rules.value
  }

  // ---------- The factors ----------

  predicate IsWildcard(host: string) {
    host == "*" || host == "0.0.0.0"
  }

  predicate Unrestricted(rule: NetworkRule) {
    exists h :: h in rule.hosts && IsWildcard(h)
  }

  function NetworkFactor(rule: NetworkRule): RiskFactor {
    if Unrestricted(rule) then RiskFactor(CRITICAL, "Unrestricted network access", Network(rule.hosts, rule.ports))
    else RiskFactor(MEDIUM, "Outbound network access", Network(rule.hosts, rule.ports))
  }

  function NetworkFactors(rules: seq<NetworkRule>): seq<RiskFactor> {
    if rules == [] then []
    else NetworkFactors(rules[..|rules| - 1]) + [NetworkFactor(rules[|rules| - 1])]
  }

  function WriteFactor(rule: FileSystemRule): seq<RiskFactor> {
    if rule.write == [] then [] else [RiskFactor(HIGH, "Filesystem write access", FSWrite(rule.write))]
  }

  function ReadFactor(rule: FileSystemRule): seq<RiskFactor> {
    if rule.read == [] then [] else [RiskFactor(MEDIUM, "Filesystem read access", FSRead(rule.read))]
  }

  function FileSystemFactors(rules: seq<FileSystemRule>): seq<RiskFactor> {
    if rules == [] then []
    else
      var last := rules[|rules| - 1];
      FileSystemFactors(rules[..|rules| - 1]) + WriteFactor(last) + ReadFactor(last)
  }

  function ExecFactors(commands: seq<string>): seq<RiskFactor> {
    if commands == [] then [] else [RiskFactor(CRITICAL, "Arbitrary command execution", Exec(commands))]
  }

  function EnvFactors(variables: seq<string>): seq<RiskFactor> {
    if variables == [] then [] else [RiskFactor(LOW, "Environment variable access", Env(variables))]
  }

  function Factors(g: GrantSet): seq<RiskFactor> {
    NetworkFactors(OrNone(g.network)) + FileSystemFactors(OrNone(g.fs)) + ExecFactors(OrNone(g.exec)) + EnvFactors(OrNone(g.env))
  }

  /** The highest level of any factor; none without factors. */
  ghost predicate IsHighest(level: Level, factors: seq<RiskFactor>) {
    && (forall f :: f in factors ==> f.level <= level)
    && (level > NONE ==> exists f :: f in factors && f.level == level)
  }

  // ---------- The analyzer ----------

  /** The report so far, and the closure that adds to it. */
  class Reporter {
    var level: Level
    var factors: seq<RiskFactor>

    constructor ()
      ensures level == NONE && factors == []
    {
      level, factors := NONE, [];
    }

    method AddFactor(l: Level, description: string, rule: Rule)
      requires IsHighest(level, factors)
      modifies this
      ensures IsHighest(level, factors)
      ensures factors == if l > NONE then old(factors) + [RiskFactor(l, description, rule)] else old(factors)
    {
      if l > NONE {
        var factor := RiskFactor(l, description, rule);
        assert factor in factors + [factor] && forall f :: f in factors ==> f in factors + [factor];
        factors := factors + [factor];
        if l > level {
          level := l;
        }
      }
    }
  }

  method HasWildcardHost(hosts: seq<string>) returns (found: bool)
    ensures found <==> exists h :: h in hosts && IsWildcard(h)
  {
    found := false;
    for i := 0 to |hosts|
      invariant !found && forall k :: 0 <= k < i ==> !IsWildcard(hosts[k])
    {
      if hosts[i] == "*" || hosts[i] == "0.0.0.0" {
        assert hosts[i] in hosts && IsWildcard(hosts[i]);
        found := true;
        break;
      }
    }
  }

  /** Reports the factors of every rule in order, at the highest of their levels; `None` is a nil grant set. */
  method Analyze(grants: Option<GrantSet>) returns (report: RiskReport)
    ensures report.factors == if grants.None? then [] else Factors(grants.value)
    ensures IsHighest(report.level, report.factors)
  {
    var r := new Reporter();
    if grants.None? {
      return RiskReport(r.level, r.factors);
    }
    var g := grants.value;
    if g.network.Some? {
      AnalyzeNetwork(r, g.network.value);
    }
    assert r.factors == NetworkFactors(OrNone(g.network));
    if g.fs.Some? {
      AnalyzeFileSystem(r, g.fs.value);
    }
    assert r.factors == NetworkFactors(OrNone(g.network)) + FileSystemFactors(OrNone(g.fs));
    AnalyzeExecAndEnv(r, g.exec, g.env);
    report := RiskReport(r.level, r.factors);
  }

  method AnalyzeExecAndEnv(r: Reporter, exec: Option<seq<string>>, env: Option<seq<string>>)
    requires IsHighest(r.level, r.factors)
    modifies r
    ensures IsHighest(r.level, r.factors)
    ensures r.factors == old(r.factors) + ExecFactors(OrNone(exec)) + EnvFactors(OrNone(env))
  {
    if exec.Some? && |exec.value| > 0 {
      r.AddFactor(CRITICAL, "Arbitrary command execution", Exec(exec.value));
    }
    assert r.factors == old(r.factors) + ExecFactors(OrNone(exec));
    if env.Some? && |env.value| > 0 {
      r.AddFactor(LOW, "Environment variable access", Env(env.value));
    }
  }

  lemma Regroup(a: seq<RiskFactor>, b: seq<RiskFactor>, c: seq<RiskFactor>)
    ensures (a + b) + c == a + (b + c)
  {}

  lemma NetworkFactorsStep(rules: seq<NetworkRule>, i: nat)
    requires i < |rules|
    ensures NetworkFactors(rules[..i + 1]) == NetworkFactors(rules[..i]) + [NetworkFactor(rules[i])]
  {
    assert rules[..i + 1][..i] == rules[..i];
  }

  lemma FileSystemFactorsStep(rules: seq<FileSystemRule>, i: nat)
    requires i < |rules|
    ensures FileSystemFactors(rules[..i + 1]) == FileSystemFactors(rules[..i]) + (WriteFactor(rules[i]) + ReadFactor(rules[i]))
  {
    assert rules[..i + 1][..i] == rules[..i];
  }

  method AnalyzeNetwork(r: Reporter, rules: seq<NetworkRule>)
    requires IsHighest(r.level, r.factors)
    modifies r
    ensures IsHighest(r.level, r.factors) && r.factors == old(r.factors) + NetworkFactors(rules)
  {
    for i := 0 to |rules|
      invariant IsHighest(r.level, r.factors) && r.factors == old(r.factors) + NetworkFactors(rules[..i])
    {
      var rule := rules[i];
      NetworkFactorsStep(rules, i);
      AnalyzeNetworkRule(r, rule);
      Regroup(old(r.factors), NetworkFactors(rules[..i]), [NetworkFactor(rule)]);
    }
    assert rules[..|rules|] == rules;
  }

  /** A rule for a wildcard host is critical, any other of medium risk. */
  method AnalyzeNetworkRule(r: Reporter, rule: NetworkRule)
    requires IsHighest(r.level, r.factors)
    modifies r
    ensures IsHighest(r.level, r.factors) && r.factors == old(r.factors) + [NetworkFactor(rule)]
  {
    var isWildcardHost := HasWildcardHost(rule.hosts);
    if isWildcardHost {
      r.AddFactor(CRITICAL, "Unrestricted network access", Network(rule.hosts, rule.ports));
    } else {
      r.AddFactor(MEDIUM, "Outbound network access", Network(rule.hosts, rule.ports));
    }
  }

  method AnalyzeFileSystem(r: Reporter, rules: seq<FileSystemRule>)
    requires IsHighest(r.level, r.factors)
    modifies r
    ensures IsHighest(r.level, r.factors) && r.factors == old(r.factors) + FileSystemFactors(rules)
  {
    for i := 0 to |rules|
      invariant IsHighest(r.level, r.factors) && r.factors == old(r.factors) + FileSystemFactors(rules[..i])
    {
      var rule := rules[i];
      FileSystemFactorsStep(rules, i);
      AnalyzeFileSystemRule(r, rule);
      Regroup(old(r.factors), FileSystemFactors(rules[..i]), WriteFactor(rule) + ReadFactor(rule));
    }
    assert rules[..|rules|] == rules;
  }

  /** One rule can add two factors, for writing and for reading. */
  method AnalyzeFileSystemRule(r: Reporter, rule: FileSystemRule)
    requires IsHighest(r.level, r.factors)
    modifies r
    ensures IsHighest(r.level, r.factors) && r.factors == old(r.factors) + (WriteFactor(rule) + ReadFactor(rule))
  {
    if |rule.write| > 0 {
      r.AddFactor(HIGH, "Filesystem write access", FSWrite(rule.write));
    }
    if |rule.read| > 0 {
      r.AddFactor(MEDIUM, "Filesystem read access", FSRead(rule.read));
    }
  }

  // ---------- What the level means ----------

  /** The level of a report on `g`. */
  ghost predicate Rates(g: GrantSet, level: Level) {
    IsHighest(level, Factors(g))
  }

  /** Some rule of the grant set alone justifies the level `l`. */
  ghost predicate Justifies(g: GrantSet, l: Level) {
    || (exists rule :: rule in OrNone(g.network) && NetworkFactor(rule).level >= l)
    || (exists rule :: rule in OrNone(g.fs) && ((rule.write != [] && HIGH >= l) || (rule.read != [] && MEDIUM >= l)))
    || (OrNone(g.exec) != [] && CRITICAL >= l)
    || (OrNone(g.env) != [] && LOW >= l)
  }

  lemma {:induction false} NetworkFactorsAre(rules: seq<NetworkRule>, f: RiskFactor)
    ensures f in NetworkFactors(rules) <==> exists rule :: rule in rules && f == NetworkFactor(rule)
  {
    if rules != [] {
      NetworkFactorsAre(rules[..|rules| - 1], f);
      assert rules == rules[..|rules| - 1] + [rules[|rules| - 1]];
    }
  }

  lemma {:induction false} FileSystemFactorsAre(rules: seq<FileSystemRule>, f: RiskFactor)
    ensures f in FileSystemFactors(rules) <==> exists rule :: rule in rules && (f in WriteFactor(rule) || f in ReadFactor(rule))
  {
    if rules != [] {
      FileSystemFactorsAre(rules[..|rules| - 1], f);
      assert rules == rules[..|rules| - 1] + [rules[|rules| - 1]];
    }
  }

  lemma FactorsAre(g: GrantSet, f: RiskFactor)
    ensures f in Factors(g) <==>
            || f in NetworkFactors(OrNone(g.network)) || f in FileSystemFactors(OrNone(g.fs))
            || f in ExecFactors(OrNone(g.exec)) || f in EnvFactors(OrNone(g.env))
  {}

  lemma FactorIsJustified(g: GrantSet, l: Level, f: RiskFactor)
    requires f in Factors(g) && f.level >= l
    ensures Justifies(g, l)
  {
    FactorsAre(g, f);
    NetworkFactorsAre(OrNone(g.network), f);
    FileSystemFactorsAre(OrNone(g.fs), f);
  }

  lemma JustificationHasFactor(g: GrantSet, l: Level) returns (f: RiskFactor)
    requires Justifies(g, l)
    ensures f in Factors(g) && f.level >= l
  {
    if rule :| rule in OrNone(g.network) && NetworkFactor(rule).level >= l {
      f := NetworkFactor(rule);
      NetworkFactorsAre(OrNone(g.network), f);
    } else if rule :| rule in OrNone(g.fs) && ((rule.write != [] && HIGH >= l) || (rule.read != [] && MEDIUM >= l)) {
      f := if rule.write != [] && HIGH >= l then WriteFactor(rule)[0] else ReadFactor(rule)[0];
      FileSystemFactorsAre(OrNone(g.fs), f);
    } else if OrNone(g.exec) != [] && CRITICAL >= l {
      f := ExecFactors(OrNone(g.exec))[0];
    } else {
      f := EnvFactors(OrNone(g.env))[0];
    }
    FactorsAre(g, f);
  }

  /** A grant set has a factor at level `l` or above exactly when some rule justifies it. */
  lemma FactorIffJustified(g: GrantSet, l: Level)
    ensures (exists f :: f in Factors(g) && f.level >= l) <==> Justifies(g, l)
  {
    if f :| f in Factors(g) && f.level >= l { FactorIsJustified(g, l, f); }
    if Justifies(g, l) { var f := JustificationHasFactor(g, l); }
  }

  /** The level reached is the highest level that is justified. */
  lemma LevelIsHighestJustified(g: GrantSet, level: Level, l: Level)
    requires Rates(g, level) && l > NONE
    ensures level >= l <==> Justifies(g, l)
  {
    FactorIffJustified(g, l);
    if level >= l {
      var f :| f in Factors(g) && f.level == level;
      assert f.level >= l;
    }
  }

  predicate AnyHost(rule: NetworkRule) {
    "*" in rule.hosts || "0.0.0.0" in rule.hosts
  }

  lemma NetworkLevel(rule: NetworkRule)
    ensures NetworkFactor(rule).level == if AnyHost(rule) then 4 else 2
  {
    assert IsWildcard("*") && IsWildcard("0.0.0.0");
    if Unrestricted(rule) { var h :| h in rule.hosts && IsWildcard(h); }
  }

  lemma NetworkLevels(rules: seq<NetworkRule>)
    ensures forall rule :: rule in rules ==> NetworkFactor(rule).level == if AnyHost(rule) then 4 else 2
  {
    forall rule | rule in rules ensures NetworkFactor(rule).level == if AnyHost(rule) then 4 else 2 {
      NetworkLevel(rule);
    }
  }

  /** Critical means exactly a network rule with a wildcard host, or commands to execute. */
  lemma CriticalExactlyWhen(g: GrantSet, level: Level)
    requires Rates(g, level)
    ensures level == 4 <==> (exists rule :: rule in OrNone(g.network) && AnyHost(rule)) || OrNone(g.exec) != []
  {
    LevelIsHighestJustified(g, level, 4);
    NetworkLevels(OrNone(g.network));
  }

  /** High or above: that, or a path to write. */
  lemma HighExactlyWhen(g: GrantSet, level: Level)
    requires Rates(g, level)
    ensures level >= 3 <==> level == 4 || exists rule :: rule in OrNone(g.fs) && rule.write != []
  {
    LevelIsHighestJustified(g, level, 3);
    LevelIsHighestJustified(g, level, 4);
    NetworkLevels(OrNone(g.network));
  }

  /** Medium or above: that, any network rule, or a path to read. */
  lemma MediumExactlyWhen(g: GrantSet, level: Level)
    requires Rates(g, level)
    ensures level >= 2 <==> level >= 3 || OrNone(g.network) != [] || exists rule :: rule in OrNone(g.fs) && rule.read != []
  {
    LevelIsHighestJustified(g, level, 2);
    LevelIsHighestJustified(g, level, 3);
    NetworkLevels(OrNone(g.network));
    if OrNone(g.network) != [] { assert OrNone(g.network)[0] in OrNone(g.network); }
  }

  /** Low or above: that, or a variable to read; none otherwise. */
  lemma LowExactlyWhen(g: GrantSet, level: Level)
    requires Rates(g, level)
    ensures level >= 1 <==> level >= 2 || OrNone(g.env) != []
  {
    LevelIsHighestJustified(g, level, 1);
    LevelIsHighestJustified(g, level, 2);
    NetworkLevels(OrNone(g.network));
  }

  // ---------- What the factors are ----------

  lemma {:induction false} NetworkFactorsConcat(a: seq<NetworkRule>, b: seq<NetworkRule>)
    ensures NetworkFactors(a + b) == NetworkFactors(a) + NetworkFactors(b)
    decreases |b|
  {
    if b == [] {
      assert a + b == a;
    } else {
      assert (a + b)[..|a + b| - 1] == a + b[..|b| - 1];
      NetworkFactorsConcat(a, b[..|b| - 1]);
    }
  }

  lemma FileSystemFactorsLast(rules: seq<FileSystemRule>, last: FileSystemRule)
    ensures FileSystemFactors(rules + [last]) == FileSystemFactors(rules) + (WriteFactor(last) + ReadFactor(last))
  {
    assert (rules + [last])[..|rules|] == rules;
    Regroup(FileSystemFactors(rules), WriteFactor(last), ReadFactor(last));
  }

  lemma {:induction false} FileSystemFactorsConcat(a: seq<FileSystemRule>, b: seq<FileSystemRule>)
    ensures FileSystemFactors(a + b) == FileSystemFactors(a) + FileSystemFactors(b)
    decreases |b|
  {
    if b == [] {
      assert a + b == a;
    } else {
      var most, last := b[..|b| - 1], b[|b| - 1];
      assert a + b == (a + most) + [last] && b == most + [last];
      FileSystemFactorsConcat(a, most);
      FileSystemFactorsLast(a + most, last);
      FileSystemFactorsLast(most, last);
      Regroup(FileSystemFactors(a), FileSystemFactors(most), WriteFactor(last) + ReadFactor(last));
    }
  }

  /** The factors of a single network rule, and of a single file-system rule: writing before reading. */
  lemma FactorsOfOneRule(rule: NetworkRule, files: FileSystemRule)
    ensures NetworkFactors([rule]) ==
            [if AnyHost(rule) then RiskFactor(4, "Unrestricted network access", Network(rule.hosts, rule.ports))
             else RiskFactor(2, "Outbound network access", Network(rule.hosts, rule.ports))]
    ensures FileSystemFactors([files]) ==
            (if files.write == [] then [] else [RiskFactor(3, "Filesystem write access", FSWrite(files.write))])
            + (if files.read == [] then [] else [RiskFactor(2, "Filesystem read access", FSRead(files.read))])
  {
    NetworkLevel(rule);
    assert [rule][..0] == [] && [files][..0] == [];
  }

  /** The factors of a grant set: its network rules', its file-system rules', then one for commands and one for variables. */
  lemma FactorsBySection(g: GrantSet)
    ensures var exec := if OrNone(g.exec) == [] then [] else [RiskFactor(4, "Arbitrary command execution", Exec(OrNone(g.exec)))];
            var env := if OrNone(g.env) == [] then [] else [RiskFactor(1, "Environment variable access", Env(OrNone(g.env)))];
            Factors(g) == NetworkFactors(OrNone(g.network)) + FileSystemFactors(OrNone(g.fs)) + exec + env
  {}

  /** Every rule of `g` is one of `h`'s; order and repetition do not matter. */
  ghost predicate Within(g: GrantSet, h: GrantSet) {
    && (forall rule :: rule in OrNone(g.network) ==> rule in OrNone(h.network))
    && (forall rule :: rule in OrNone(g.fs) ==> rule in OrNone(h.fs))
    && (forall c :: c in OrNone(g.exec) ==> c in OrNone(h.exec))
    && (forall v :: v in OrNone(g.env) ==> v in OrNone(h.env))
  }

  lemma JustificationGrows(g: GrantSet, h: GrantSet, l: Level)
    requires Within(g, h) && Justifies(g, l)
    ensures Justifies(h, l)
  {
    if OrNone(g.exec) != [] { assert OrNone(g.exec)[0] in OrNone(h.exec); }
    if OrNone(g.env) != [] { assert OrNone(g.env)[0] in OrNone(h.env); }
  }

  /** Granting more never lowers the level. */
  lemma LevelIsMonotone(g: GrantSet, h: GrantSet, level: Level, more: Level)
    requires Within(g, h) && Rates(g, level) && Rates(h, more)
    ensures level <= more
  {
    if level > NONE {
      LevelIsHighestJustified(g, level, level);
      JustificationGrows(g, h, level);
      LevelIsHighestJustified(h, more, level);
    }
  }

  /** The level depends on the set of rules only. */
  lemma LevelDependsOnTheRules(g: GrantSet, h: GrantSet, level: Level, other: Level)
    requires Within(g, h) && Within(h, g) && Rates(g, level) && Rates(h, other)
    ensures level == other
  {
    LevelIsMonotone(g, h, level, other);
    LevelIsMonotone(h, g, other, level);
  }

  function Both<T>(a: Option<seq<T>>, b: Option<seq<T>>): Option<seq<T>> {
    if a.None? then b else if b.None? then a else Some(a.value + b.value)
  }

  /** The rules of both grant sets, one after the other. */
  function Join(g: GrantSet, h: GrantSet): GrantSet {
    GrantSet(Both(g.network, h.network), Both(g.fs, h.fs), Both(g.exec, h.exec), Both(g.env, h.env))
  }

  lemma InBoth<T>(a: Option<seq<T>>, b: Option<seq<T>>, x: T)
    ensures x in OrNone(Both(a, b)) <==> x in OrNone(a) || x in OrNone(b)
  {}

  lemma BothEmpty<T>(a: Option<seq<T>>, b: Option<seq<T>>)
    ensures OrNone(Both(a, b)) == [] <==> OrNone(a) == [] && OrNone(b) == []
  {}

  lemma LeftWithinJoin(g: GrantSet, h: GrantSet)
    ensures Within(g, Join(g, h))
  {
    forall rule | rule in OrNone(g.network) ensures rule in OrNone(Join(g, h).network) { InBoth(g.network, h.network, rule); }
    forall rule | rule in OrNone(g.fs) ensures rule in OrNone(Join(g, h).fs) { InBoth(g.fs, h.fs, rule); }
    forall c | c in OrNone(g.exec) ensures c in OrNone(Join(g, h).exec) { InBoth(g.exec, h.exec, c); }
    forall v | v in OrNone(g.env) ensures v in OrNone(Join(g, h).env) { InBoth(g.env, h.env, v); }
  }

  lemma RightWithinJoin(g: GrantSet, h: GrantSet)
    ensures Within(h, Join(g, h))
  {
    forall rule | rule in OrNone(h.network) ensures rule in OrNone(Join(g, h).network) { InBoth(g.network, h.network, rule); }
    forall rule | rule in OrNone(h.fs) ensures rule in OrNone(Join(g, h).fs) { InBoth(g.fs, h.fs, rule); }
    forall c | c in OrNone(h.exec) ensures c in OrNone(Join(g, h).exec) { InBoth(g.exec, h.exec, c); }
    forall v | v in OrNone(h.env) ensures v in OrNone(Join(g, h).env) { InBoth(g.env, h.env, v); }
  }

  /** What the joined rules justify, one of the two sides justifies on its own. */
  lemma JustifiedByOneSide(g: GrantSet, h: GrantSet, l: Level)
    requires Justifies(Join(g, h), l)
    ensures Justifies(g, l) || Justifies(h, l)
  {
    var j := Join(g, h);
    BothEmpty(g.exec, h.exec);
    BothEmpty(g.env, h.env);
    if rule :| rule in OrNone(j.network) && NetworkFactor(rule).level >= l {
      InBoth(g.network, h.network, rule);
    } else if rule :| rule in OrNone(j.fs) && ((rule.write != [] && HIGH >= l) || (rule.read != [] && MEDIUM >= l)) {
      InBoth(g.fs, h.fs, rule);
    }
  }

  /** Joining grant sets joins their levels. */
  lemma LevelOfJoinIsMaximum(g: GrantSet, h: GrantSet, left: Level, right: Level, joined: Level)
    requires Rates(g, left) && Rates(h, right) && Rates(Join(g, h), joined)
    ensures joined == if left >= right then left else right
  {
    LeftWithinJoin(g, h);
    RightWithinJoin(g, h);
    LevelIsMonotone(g, Join(g, h), left, joined);
    LevelIsMonotone(h, Join(g, h), right, joined);
    if joined > NONE {
      LevelIsHighestJustified(Join(g, h), joined, joined);
      JustifiedByOneSide(g, h, joined);
      LevelIsHighestJustified(g, left, joined);
      LevelIsHighestJustified(h, right, joined);
    }
  }
}
