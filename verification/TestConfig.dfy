/** Reducing a test configuration file to one set of values for a variant and an architecture. */
module TestConfig {
  import opened Prelude
  import V = Variant

  function Or<T>(a: Option<T>, b: Option<T>): Option<T> {
    if a.Some? then a else b
  }

  // Values, and what it means for one to be set.

  datatype DeveloperConfig = DeveloperConfig(
    clusterDestructionPolicy: Option<string>,
    bottlerocketDestructionPolicy: Option<string>,
    keepTestsRunning: Option<bool>,
    imageAccountId: Option<string>)

  datatype VariantConfig = VariantConfig(
    clusterNames: seq<string>,
    instanceType: Option<string>,
    secrets: map<string, string>,
    agentRole: Option<string>,
    conformanceImage: Option<string>,
    conformanceRegistry: Option<string>,
    controlPlaneEndpoint: Option<string>,
    userdata: Option<string>,
    osImageDir: Option<string>,
    hardwareCsv: Option<string>,
    workloads: map<string, string>,
    dev: DeveloperConfig)

  const NoDev := DeveloperConfig(None, None, None, None)
  const NoValues := VariantConfig([], None, map[], None, None, None, None, None, None,
                                  None, map[], NoDev)

  /** `DeveloperConfig::merge`. */
  function MergeDev(a: DeveloperConfig, b: DeveloperConfig): DeveloperConfig {
    DeveloperConfig(
      Or(a.clusterDestructionPolicy, b.clusterDestructionPolicy),
      Or(a.bottlerocketDestructionPolicy, b.bottlerocketDestructionPolicy),
      Or(a.keepTestsRunning, b.keepTestsRunning),
      Or(a.imageAccountId, b.imageAccountId))
  }

  /** `GenericVariantConfig::merge`. */
  function Merge(a: VariantConfig, b: VariantConfig): VariantConfig {
    VariantConfig(
      if a.clusterNames == [] then b.clusterNames else a.clusterNames,
      Or(a.instanceType, b.instanceType),
      if a.secrets == map[] then b.secrets else a.secrets,
      Or(a.agentRole, b.agentRole),
      Or(a.conformanceImage, b.conformanceImage),
      Or(a.conformanceRegistry, b.conformanceRegistry),
      Or(a.controlPlaneEndpoint, b.controlPlaneEndpoint),
      Or(a.userdata, b.userdata),
      Or(a.osImageDir, b.osImageDir),
      Or(a.hardwareCsv, b.hardwareCsv),
      if a.workloads == map[] then b.workloads else a.workloads,
      MergeDev(a.dev, b.dev))
  }

  datatype Field =
    | ClusterNames | InstanceType | Secrets | AgentRole | ConformanceImage | ConformanceRegistry
    | ControlPlaneEndpoint | Userdata | OsImageDir | HardwareCsv | Workloads
    | ClusterDestructionPolicy | BottlerocketDestructionPolicy | KeepTestsRunning | ImageAccountId

  datatype Value = Unset | Names(names: seq<string>) | Text(text: string)
                 | Table(table: map<string, string>) | Flag(flag: bool)

  function TextOf(o: Option<string>): Value {
    if o.Some? then Text(o.value) else Unset
  }

  function TableOf(m: map<string, string>): Value {
    if m == map[] then Unset else Table(m)
  }

  function Get(c: VariantConfig, f: Field): Value {
    match f
    case ClusterNames => if c.clusterNames == [] then Unset else Names(c.clusterNames)
    case InstanceType => TextOf(c.instanceType)
    case Secrets => TableOf(c.secrets)
    case AgentRole => TextOf(c.agentRole)
    case ConformanceImage => TextOf(c.conformanceImage)
    case ConformanceRegistry => TextOf(c.conformanceRegistry)
    case ControlPlaneEndpoint => TextOf(c.controlPlaneEndpoint)
    case Userdata => TextOf(c.userdata)
    case OsImageDir => TextOf(c.osImageDir)
    case HardwareCsv => TextOf(c.hardwareCsv)
    case Workloads => TableOf(c.workloads)
    case ClusterDestructionPolicy => TextOf(c.dev.clusterDestructionPolicy)
    case BottlerocketDestructionPolicy => TextOf(c.dev.bottlerocketDestructionPolicy)
    case KeepTestsRunning =>
      if c.dev.keepTestsRunning.Some? then Flag(c.dev.keepTestsRunning.value) else Unset
    case ImageAccountId => TextOf(c.dev.imageAccountId)
  }

  function FirstOf(a: Value, b: Value): Value {
    if a == Unset then b else a
  }

  lemma {:induction false} MergeField(a: VariantConfig, b: VariantConfig, f: Field)
    ensures Get(Merge(a, b), f) == FirstOf(Get(a, f), Get(b, f))
  {}

  lemma {:induction false} MergeMonoid(a: VariantConfig, b: VariantConfig, c: VariantConfig)
    ensures Merge(Merge(a, b), c) == Merge(a, Merge(b, c))
    ensures Merge(NoValues, a) == a == Merge(a, NoValues)
  {}

  /** The first value set for `f`. */
  function FirstSet(cs: seq<VariantConfig>, f: Field): Value {
    if cs == [] then Unset else FirstOf(Get(cs[0], f), FirstSet(cs[1..], f))
  }

  /** It is the value at the earliest position that sets the field. */
  lemma {:induction false} FirstSetIsEarliest(cs: seq<VariantConfig>, f: Field, i: nat)
    requires i < |cs| && Get(cs[i], f) != Unset
    requires forall j :: 0 <= j < i ==> Get(cs[j], f) == Unset
    ensures FirstSet(cs, f) == Get(cs[i], f)
  {
    if i > 0 { FirstSetIsEarliest(cs[1..], f, i - 1); }
  }

  lemma {:induction false} FirstSetConcat(a: seq<VariantConfig>, b: seq<VariantConfig>, f: Field)
    ensures FirstSet(a + b, f) == FirstOf(FirstSet(a, f), FirstSet(b, f))
  {
    if a == [] {
      assert a + b == b;
    } else {
      assert (a + b)[1..] == a[1..] + b;
      FirstSetConcat(a[1..], b, f);
    }
  }

  /** `fold(start, merge)`. */
  function MergeAll(start: VariantConfig, cs: seq<VariantConfig>): VariantConfig
    decreases |cs|
  {
    if cs == [] then start else MergeAll(Merge(start, cs[0]), cs[1..])
  }

  /** The starting config only lies on top: by the monoid law the rest can be folded on its own. */
  lemma {:induction false} FoldFromStart(start: VariantConfig, cs: seq<VariantConfig>)
    ensures MergeAll(start, cs) == Merge(start, MergeAll(NoValues, cs))
    decreases |cs|
  {
    MergeMonoid(start, NoValues, NoValues);
    if cs != [] {
      FoldFromStart(Merge(start, cs[0]), cs[1..]);
      FoldFromStart(cs[0], cs[1..]);
      MergeMonoid(start, cs[0], MergeAll(NoValues, cs[1..]));
      MergeMonoid(cs[0], NoValues, NoValues);
    }
  }

  lemma {:induction false} FoldFirst(cs: seq<VariantConfig>, f: Field)
    ensures Get(MergeAll(NoValues, cs), f) == FirstSet(cs, f)
  {
    if cs != [] {
      MergeMonoid(cs[0], NoValues, NoValues);
      FoldFromStart(cs[0], cs[1..]);
      MergeField(cs[0], MergeAll(NoValues, cs[1..]), f);
      FoldFirst(cs[1..], f);
    }
  }

  lemma {:induction false} MergeAllFirst(start: VariantConfig, cs: seq<VariantConfig>, f: Field)
    ensures Get(MergeAll(start, cs), f) == FirstSet([start] + cs, f)
  {
    FoldFromStart(start, cs);
    MergeField(start, MergeAll(NoValues, cs), f);
    FoldFirst(cs, f);
    assert ([start] + cs)[1..] == cs;
  }

  // Tables and their redirects between test types.

  datatype GenericConfig = GenericConfig(
    aarch64: VariantConfig,
    x86_64: VariantConfig,
    config: VariantConfig,
    configuration: map<string, GenericConfig>,
    testType: Option<string>)

  const NoConfig := GenericConfig(NoValues, NoValues, NoValues, map[], None)

  function ForArch(c: GenericConfig, arch: string): VariantConfig {
    if arch == "x86_64" then c.x86_64 else if arch == "aarch64" then c.aarch64 else NoValues
  }

  /** `GenericConfig::test`. */
  function Test(c: GenericConfig, testType: string): GenericConfig {
    if testType in c.configuration then c.configuration[testType] else NoConfig
  }

  function Redirect(c: GenericConfig, t: string): Option<string> {
    Test(c, t).testType
  }

  /** The test type after `n` redirects, if there are that many. */
  function Hop(c: GenericConfig, t: string, n: nat): Option<string>
    decreases n
  {
    if n == 0 then Some(t)
    else
      var next := Redirect(c, t);
      if next.None? then None else Hop(c, next.value, n - 1)
  }

  predicate StopsAfter(c: GenericConfig, t: string, n: nat) {
    Hop(c, t, n).Some? && Redirect(c, Hop(c, t, n).value).None?
  }

  ghost predicate Stops(c: GenericConfig, t: string) {
    exists n: nat :: StopsAfter(c, t, n)
  }

  /** No test type comes up twice along the redirects. */
  ghost predicate Acyclic(c: GenericConfig, t: string) {
    forall i: nat, j: nat :: i < j && Hop(c, t, i).Some? && Hop(c, t, j).Some? ==>
      Hop(c, t, i) != Hop(c, t, j)
  }

  lemma {:induction false} HopAdd(c: GenericConfig, t: string, i: nat, j: nat)
    requires Hop(c, t, i).Some?
    ensures Hop(c, t, i + j) == Hop(c, Hop(c, t, i).value, j)
    decreases i
  {
    if i > 0 { HopAdd(c, Redirect(c, t).value, i - 1, j); }
  }

  lemma {:induction false} HopPrefix(c: GenericConfig, t: string, i: nat, j: nat)
    requires i <= j && Hop(c, t, j).Some?
    ensures Hop(c, t, i).Some?
    ensures i < j ==> Redirect(c, Hop(c, t, i).value).Some?
    decreases i
  {
    if i > 0 { HopPrefix(c, Redirect(c, t).value, i - 1, j - 1); }
  }

  /** A chain that stops after `n` redirects goes no further. */
  lemma {:induction false} StopsOnce(c: GenericConfig, t: string, n: nat, m: nat)
    requires StopsAfter(c, t, n) && n < m
    ensures Hop(c, t, m).None?
  {
    HopAdd(c, t, n, m - n);
  }

  /** Coming back to a type means never stopping. */
  lemma {:induction false} CycleGoesOn(c: GenericConfig, t: string, i: nat, j: nat, n: nat)
    requires i < j && Hop(c, t, i).Some? && Hop(c, t, i) == Hop(c, t, j)
    ensures Hop(c, t, n).Some? && !StopsAfter(c, t, n)
    decreases n
  {
    if n < j {
      HopPrefix(c, t, n, j);
    } else {
      CycleGoesOn(c, t, i, j, n - (j - i));
      HopAdd(c, t, i, n - j);
      HopAdd(c, t, j, n - j);
      assert Hop(c, t, n) == Hop(c, t, n - (j - i));
    }
  }

  /** The types from which the first `n` redirects start. */
  function Sources(c: GenericConfig, t: string, n: nat): (s: seq<string>)
    requires Hop(c, t, n).Some?
    ensures |s| == n
    ensures forall i :: 0 <= i < n ==> Hop(c, t, i) == Some(s[i]) && s[i] in c.configuration
    decreases n
  {
    if n == 0 then []
    else
      var next := Redirect(c, t).value;
      var rest := Sources(c, next, n - 1);
      assert forall i :: 0 < i < n ==> Hop(c, t, i) == Hop(c, next, i - 1);
      [t] + rest
  }

  lemma {:induction false} DistinctFit(s: seq<string>, keys: set<string>)
    requires forall i :: 0 <= i < |s| ==> s[i] in keys
    requires forall i, j :: 0 <= i < j < |s| ==> s[i] != s[j]
    ensures |s| <= |keys|
  {
    if s != [] {
      DistinctFit(s[1..], keys - {s[0]});
    }
  }

  /** An acyclic chain has at most as many redirects as the table has test types. */
  lemma {:induction false} AcyclicIsShort(c: GenericConfig, t: string, n: nat)
    requires Acyclic(c, t) && Hop(c, t, n).Some?
    ensures n <= |c.configuration|
  {
    var s := Sources(c, t, n);
    forall i, j | 0 <= i < j < |s| ensures s[i] != s[j] {
      assert Hop(c, t, i) != Hop(c, t, j);
    }
    DistinctFit(s, c.configuration.Keys);
  }

  lemma {:induction false} RunsTo(c: GenericConfig, t: string, n: nat)
    requires forall m: nat :: m < n ==> !StopsAfter(c, t, m)
    ensures Hop(c, t, n).Some?
  {
    if n > 0 {
      RunsTo(c, t, n - 1);
      HopAdd(c, t, n - 1, 1);
      assert !StopsAfter(c, t, n - 1);
    }
  }

  /** The loop of `test_configs` ends exactly on acyclic chains, and then within one round per test
      type of the table and one more; on a cyclic chain no number of rounds is enough. */
  lemma {:induction false} StopsIffAcyclic(c: GenericConfig, t: string)
    ensures Stops(c, t) <==> Acyclic(c, t)
    ensures Acyclic(c, t) ==> exists n: nat :: n <= |c.configuration| && StopsAfter(c, t, n)
    ensures !Acyclic(c, t) ==> forall n: nat :: Hop(c, t, n).Some? && !StopsAfter(c, t, n)
  {
    if Acyclic(c, t) {
      var bound := |c.configuration| + 1;
      if forall m: nat :: m < bound ==> !StopsAfter(c, t, m) {
        RunsTo(c, t, bound);
        AcyclicIsShort(c, t, bound);
        assert false;
      }
    } else {
      var i: nat, j: nat :| i < j && Hop(c, t, i).Some? && Hop(c, t, j).Some? && Hop(c, t, i) == Hop(c, t, j);
      forall n: nat ensures Hop(c, t, n).Some? && !StopsAfter(c, t, n) { CycleGoesOn(c, t, i, j, n); }
    }
  }

  /** The configs of the first `n + 1` test types of the chain. */
  function Along(c: GenericConfig, t: string, n: nat): (cs: seq<GenericConfig>)
    requires Hop(c, t, n).Some?
    ensures |cs| == n + 1
    decreases n
  {
    [Test(c, t)] + if n == 0 then [] else Along(c, Redirect(c, t).value, n - 1)
  }

  lemma {:induction false} AlongMore(c: GenericConfig, t: string, n: nat)
    requires Hop(c, t, n + 1).Some?
    ensures Hop(c, t, n).Some?
    ensures Along(c, t, n + 1) == Along(c, t, n) + [Test(c, Hop(c, t, n + 1).value)]
    decreases n
  {
    HopPrefix(c, t, n, n + 1);
    if n > 0 { AlongMore(c, Redirect(c, t).value, n - 1); }
  }

  /** What `test_configs` returns; nothing if it does not return. */
  function TestConfigsOf(c: GenericConfig, t: string): Option<(seq<GenericConfig>, string)> {
    var r := Rounds(c, t, |c.configuration| + 1);
    if r.None? then None else Some((r.value.0 + [c], r.value.1))
  }

  function Rounds(c: GenericConfig, t: string, limit: nat): Option<(seq<GenericConfig>, string)>
    decreases limit
  {
    if limit == 0 then None
    else if Redirect(c, t).None? then Some(([Test(c, t)], t))
    else
      var r := Rounds(c, Redirect(c, t).value, limit - 1);
      if r.None? then None else Some(([Test(c, t)] + r.value.0, r.value.1))
  }

  lemma {:induction false} RoundsReach(c: GenericConfig, t: string, limit: nat, n: nat)
    requires StopsAfter(c, t, n)
    ensures Rounds(c, t, limit) ==
            if n < limit then Some((Along(c, t, n), Hop(c, t, n).value)) else None
    decreases n
  {
    if limit > 0 {
      if n > 0 {
        RoundsReach(c, Redirect(c, t).value, limit - 1, n - 1);
      } else {
        assert Along(c, t, 0) == [Test(c, t)];
      }
    }
  }

  lemma {:induction false} RoundsNever(c: GenericConfig, t: string, limit: nat)
    requires forall n: nat :: Hop(c, t, n).Some? && !StopsAfter(c, t, n)
    ensures Rounds(c, t, limit).None?
    decreases limit
  {
    if limit > 0 {
      assert Hop(c, t, 1).Some?;
      var next := Redirect(c, t).value;
      forall n: nat ensures Hop(c, next, n).Some? && !StopsAfter(c, next, n) {
        assert Hop(c, t, n + 1) == Hop(c, next, n) && !StopsAfter(c, t, n + 1);
      }
      RoundsNever(c, next, limit - 1);
    }
  }

  lemma {:induction false} TestConfigsMeaning(c: GenericConfig, t: string)
    ensures TestConfigsOf(c, t).Some? <==> Acyclic(c, t)
    ensures forall n: nat :: StopsAfter(c, t, n) ==>
      TestConfigsOf(c, t) == Some((Along(c, t, n) + [c], Hop(c, t, n).value))
  {
    StopsIffAcyclic(c, t);
    if Acyclic(c, t) {
      var n: nat :| n <= |c.configuration| && StopsAfter(c, t, n);
      RoundsReach(c, t, |c.configuration| + 1, n);
      forall m: nat | StopsAfter(c, t, m) ensures m == n {
        if m < n { StopsOnce(c, t, m, n); }
        if n < m { StopsOnce(c, t, n, m); }
      }
    } else {
      RoundsNever(c, t, |c.configuration| + 1);
    }
  }

  /** `GenericConfig::test_configs`, on the chains for which it returns. */
  method TestConfigs(c: GenericConfig, testType: string) returns (configs: seq<GenericConfig>, resolved: string)
    requires Acyclic(c, testType)
    ensures TestConfigsOf(c, testType) == Some((configs, resolved))
    ensures Redirect(c, resolved).None?
    ensures 2 <= |configs| <= |c.configuration| + 2
  {
    StopsIffAcyclic(c, testType);
    ghost var n: nat :| StopsAfter(c, testType, n);
    configs := [];
    var cur := testType;
    ghost var i: nat := 0;
    while true
      invariant i <= n && Hop(c, testType, i) == Some(cur)
      invariant i == 0 ==> configs == []
      invariant i > 0 ==> Hop(c, testType, i - 1).Some? && configs == Along(c, testType, i - 1)
      decreases n - i
    {
      var config := Test(c, cur);
      configs := configs + [config];
      assert configs == Along(c, testType, i) by {
        if i > 0 { AlongMore(c, testType, i - 1); }
      }
      if config.testType.Some? {
        assert i < n;
        HopAdd(c, testType, i, 1);
        cur := config.testType.value;
        i := i + 1;
      } else {
        break;
      }
    }
    AcyclicIsShort(c, testType, i);
    configs := configs + [c];
    resolved := cur;
    TestConfigsMeaning(c, testType);
    assert StopsAfter(c, testType, i);
  }

  // The two folds of `reduced_config`.

  function Reverse<T>(s: seq<T>): seq<T> {
    if s == [] then [] else Reverse(s[1..]) + [s[0]]
  }

  function Flatten<T>(s: seq<seq<T>>): seq<T> {
    if s == [] then [] else s[0] + Flatten(s[1..])
  }

  /** The tables that exist among the keys. */
  function Tables(configs: map<string, GenericConfig>, keys: seq<string>): seq<GenericConfig> {
    if keys == [] then []
    else (if keys[0] in configs then [configs[keys[0]]] else []) + Tables(configs, keys[1..])
  }

  /** The first fold: least specific table first, handing on the test type. */
  function FoldTypes(tables: seq<GenericConfig>, t: string, groups: seq<seq<GenericConfig>>)
    : Option<(string, seq<seq<GenericConfig>>)>
    decreases |tables|
  {
    if tables == [] then Some((t, groups))
    else
      var step := TestConfigsOf(tables[0], t);
      if step.None? then None
      else FoldTypes(tables[1..], step.value.1, groups + [step.value.0])
  }

  /** Each config as its values for the architecture and then its general values. */
  function Expand(cs: seq<GenericConfig>, arch: string): seq<VariantConfig> {
    if cs == [] then [] else [ForArch(cs[0], arch), cs[0].config] + Expand(cs[1..], arch)
  }

  function ReduceTables(tables: seq<GenericConfig>, arch: string, start: Option<VariantConfig>, t: string)
    : Option<(VariantConfig, string)>
  {
    var folded := FoldTypes(Reverse(tables), t, []);
    if folded.None? then None
    else
      var ordered := Flatten(Reverse(folded.value.1));
      Some((MergeAll(if start.Some? then start.value else NoValues, Expand(ordered, arch)), folded.value.0))
  }

  /** `config_keys`, most specific first. */
  function ConfigKeys(v: V.Variant): seq<string> {
    [v.variant,
     if v.flavor.Some? then v.family + "-" + v.flavor.value else "",
     v.family,
     if v.flavor.Some? then v.platform + "-" + v.flavor.value else "",
     v.platform,
     "test"]
  }

  /** `TestConfig::reduced_config`; nothing if it does not return. */
  function ReducedConfig(configs: map<string, GenericConfig>, v: V.Variant, arch: string,
                         start: Option<VariantConfig>, t: string): Option<(VariantConfig, string)> {
    ReduceTables(Tables(configs, ConfigKeys(v)), arch, start, t)
  }

  /** The specification: the most specific table comes first in precedence but last in resolving the
      test type. */
  function Precedence(tables: seq<GenericConfig>, t: string): Option<(seq<GenericConfig>, string)> {
    if tables == [] then Some(([], t))
    else
      var rest := Precedence(tables[1..], t);
      if rest.None? then None
      else
        var own := TestConfigsOf(tables[0], rest.value.1);
        if own.None? then None
        else Some((own.value.0 + rest.value.0, own.value.1))
  }

  lemma {:induction false} FoldSnoc(a: seq<GenericConfig>, x: GenericConfig, t: string, groups: seq<seq<GenericConfig>>)
    ensures FoldTypes(a + [x], t, groups) ==
      var front := FoldTypes(a, t, groups);
      if front.None? then None
      else
        var step := TestConfigsOf(x, front.value.0);
        if step.None? then None else Some((step.value.1, front.value.1 + [step.value.0]))
    decreases |a|
  {
    if a == [] {
      assert a + [x] == [x];
      assert [x][1..] == [];
    } else {
      assert (a + [x])[1..] == a[1..] + [x];
      var step := TestConfigsOf(a[0], t);
      if step.Some? { FoldSnoc(a[1..], x, step.value.1, groups + [step.value.0]); }
    }
  }

  lemma {:induction false} ReverseSnoc<T>(a: seq<T>, x: T)
    ensures Reverse(a + [x]) == [x] + Reverse(a)
  {
    if a == [] {
      assert a + [x] == [x];
    } else {
      assert (a + [x])[1..] == a[1..] + [x];
      ReverseSnoc(a[1..], x);
    }
  }

  /** Folding one way for the types and reading the groups the other way is the specification. */
  lemma {:induction false} FoldIsPrecedence(tables: seq<GenericConfig>, t: string)
    ensures var folded := FoldTypes(Reverse(tables), t, []);
            var spec := Precedence(tables, t);
            && folded.None? == spec.None?
            && (folded.Some? ==> spec == Some((Flatten(Reverse(folded.value.1)), folded.value.0)))
  {
    if tables != [] {
      FoldIsPrecedence(tables[1..], t);
      FoldSnoc(Reverse(tables[1..]), tables[0], t, []);
      var front := FoldTypes(Reverse(tables[1..]), t, []);
      if front.Some? {
        var step := TestConfigsOf(tables[0], front.value.0);
        if step.Some? {
          ReverseSnoc(front.value.1, step.value.0);
          var all := [step.value.0] + Reverse(front.value.1);
          assert all[1..] == Reverse(front.value.1);
        }
      }
    }
  }

  /** The test type that reaches the tables in front of these. */
  function Arriving(tables: seq<GenericConfig>, t: string): string {
    var rest := Precedence(tables, t);
    if rest.Some? then rest.value.1 else t
  }

  /** Every table's redirects are acyclic from the test type that reaches it, least specific table first. */
  ghost predicate ChainsAcyclic(tables: seq<GenericConfig>, t: string) {
    tables == [] || (ChainsAcyclic(tables[1..], t) && Acyclic(tables[0], Arriving(tables[1..], t)))
  }

  lemma {:induction false} ReturnsIffAcyclic(tables: seq<GenericConfig>, t: string)
    ensures Precedence(tables, t).Some? <==> ChainsAcyclic(tables, t)
  {
    if tables != [] {
      ReturnsIffAcyclic(tables[1..], t);
      TestConfigsMeaning(tables[0], Arriving(tables[1..], t));
    }
  }

  /** `reduced_config` returns exactly if every redirect chain it meets is acyclic.  It gives each field
      the first value set in: the starting config, then each table from most to least specific, each as
      its redirect chain and then itself, and each of those as its values for the architecture and then
      its general values. */
  lemma {:induction false} ReducedIsFirstSet(configs: map<string, GenericConfig>, v: V.Variant, arch: string,
                          start: Option<VariantConfig>, t: string, f: Field)
    ensures var r := ReducedConfig(configs, v, arch, start, t);
            var tables := Tables(configs, ConfigKeys(v));
            var spec := Precedence(tables, t);
            && (r.Some? <==> ChainsAcyclic(tables, t))
            && r.None? == spec.None?
            && (r.Some? ==>
                 && r.value.1 == spec.value.1
                 && Get(r.value.0, f) ==
                    FirstSet([if start.Some? then start.value else NoValues] + Expand(spec.value.0, arch), f))
  {
    var tables := Tables(configs, ConfigKeys(v));
    FoldIsPrecedence(tables, t);
    ReturnsIffAcyclic(tables, t);
    var spec := Precedence(tables, t);
    if spec.Some? {
      MergeAllFirst(if start.Some? then start.value else NoValues, Expand(spec.value.0, arch), f);
    }
  }

  // What a table says about a field, by the names of its parts.

  function Says(c: GenericConfig, arch: string, f: Field): Value {
    FirstOf(if arch == "x86_64" then Get(c.x86_64, f) else if arch == "aarch64" then Get(c.aarch64, f) else Unset,
            Get(c.config, f))
  }

  function FirstSaid(cs: seq<GenericConfig>, arch: string, f: Field): Value {
    if cs == [] then Unset else FirstOf(Says(cs[0], arch, f), FirstSaid(cs[1..], arch, f))
  }

  lemma {:induction false} NothingSet(f: Field)
    ensures Get(NoValues, f) == Unset
  {}

  lemma {:induction false} ExpandSays(cs: seq<GenericConfig>, arch: string, f: Field)
    ensures FirstSet(Expand(cs, arch), f) == FirstSaid(cs, arch, f)
  {
    if cs != [] {
      ExpandSays(cs[1..], arch, f);
      NothingSet(f);
      var own, rest := [ForArch(cs[0], arch), cs[0].config], Expand(cs[1..], arch);
      FirstSetConcat(own, rest, f);
      assert own[1..] == [cs[0].config];
      FirstSetPair(own, f);
    }
  }

  lemma {:induction false} FirstSetPair(own: seq<VariantConfig>, f: Field)
    requires |own| == 2
    ensures FirstSet(own, f) == FirstOf(Get(own[0], f), Get(own[1], f))
  {
    assert own == [own[0]] + [own[1]];
    FirstSetConcat([own[0]], [own[1]], f);
  }

  /** The value is what the earliest config that says anything says: its own value for the architecture,
      or else its general value. */
  lemma {:induction false} FirstSaidIsEarliest(cs: seq<GenericConfig>, arch: string, f: Field, i: nat)
    requires i < |cs| && forall j :: 0 <= j < i ==> Says(cs[j], arch, f) == Unset
    ensures Says(cs[i], arch, f) != Unset ==> FirstSaid(cs, arch, f) == Says(cs[i], arch, f)
    ensures (forall j :: 0 <= j < |cs| ==> Says(cs[j], arch, f) == Unset) ==> FirstSaid(cs, arch, f) == Unset
  {
    if i > 0 {
      FirstSaidIsEarliest(cs[1..], arch, f, i - 1);
    } else if |cs| > 1 && Says(cs[0], arch, f) == Unset {
      FirstSaidIsEarliest(cs[1..], arch, f, 0);
    }
  }

  /** Two tables, the more specific one first: the less specific one resolves the test type first, by the
      redirects from `t` to `u`, and the other goes on from `u`; but the more specific one is consulted first. */
  lemma {:induction false} LessSpecificResolvesFirst(c: GenericConfig, d: GenericConfig, arch: string,
                                                     start: Option<VariantConfig>, t: string, n: nat, u: string, m: nat, f: Field)
    requires StopsAfter(d, t, n) && Hop(d, t, n) == Some(u) && StopsAfter(c, u, m)
    ensures var r := ReduceTables([c, d], arch, start, t);
            && r.Some? && Some(r.value.1) == Hop(c, u, m)
            && Get(r.value.0, f) ==
               FirstOf(if start.Some? then Get(start.value, f) else Unset,
                       FirstSaid((Along(c, u, m) + [c]) + (Along(d, t, n) + [d]), arch, f))
  {
    StopsIffAcyclic(d, t);
    StopsIffAcyclic(c, u);
    TestConfigsMeaning(d, t);
    TestConfigsMeaning(c, u);
    assert [c, d][1..] == [d] && [d][1..] == [];
    var low, high := Along(d, t, n) + [d], Along(c, u, m) + [c];
    assert low + [] == low;
    assert Precedence([d], t) == Some((low, u));
    assert Precedence([c, d], t) == Some((high + low, Hop(c, u, m).value));
    ReduceField([c, d], arch, start, t, f);
    ExpandSays(high + low, arch, f);
    NothingSet(f);
  }

  // Without redirects.

  /** What the table with this key says when the test type is `t`: its part for that type, then itself. */
  function KeySays(configs: map<string, GenericConfig>, key: string, t: string, arch: string, f: Field): Value {
    if key !in configs then Unset
    else
      var c := configs[key];
      FirstOf(if t in c.configuration then Says(c.configuration[t], arch, f) else Unset, Says(c, arch, f))
  }

  predicate NoRedirects(configs: map<string, GenericConfig>, t: string) {
    forall key :: key in configs && t in configs[key].configuration ==> configs[key].configuration[t].testType == None
  }

  lemma {:induction false} StaysAt(c: GenericConfig, t: string)
    requires Redirect(c, t).None?
    ensures TestConfigsOf(c, t) == Some(([Test(c, t), c], t))
  {
    assert Rounds(c, t, |c.configuration| + 1) == Some(([Test(c, t)], t));
    assert [Test(c, t)] + [c] == [Test(c, t), c];
  }

  lemma {:induction false} NoConfigSays(arch: string, f: Field)
    ensures Says(NoConfig, arch, f) == Unset
  {
    NothingSet(f);
  }

  /** One more table in front. */
  lemma {:induction false} KeyInFront(configs: map<string, GenericConfig>, key: string, rest: seq<GenericConfig>,
                                      t: string, arch: string, f: Field)
    requires NoRedirects(configs, t)
    requires Precedence(rest, t).Some? && Precedence(rest, t).value.1 == t
    ensures var p, q := Precedence(rest, t), Precedence(TableAt(configs, key) + rest, t);
            && q.Some? && q.value.1 == t
            && FirstSaid(q.value.0, arch, f) == FirstOf(KeySays(configs, key, t, arch, f), FirstSaid(p.value.0, arch, f))
  {
    var front := TableAt(configs, key);
    if key in configs {
      var c := configs[key];
      StaysAt(c, t);
      NoConfigSays(arch, f);
      assert (front + rest)[0] == c && (front + rest)[1..] == rest;
      var own, more := [Test(c, t), c], Precedence(rest, t).value.0;
      assert Precedence(front + rest, t) == Some((own + more, t));
      assert (own + more)[0] == Test(c, t) && (own + more)[1..] == [c] + more && ([c] + more)[1..] == more;
    } else {
      assert front + rest == rest;
    }
  }

  /** What the six keys say, in order. */
  function SixSay(configs: map<string, GenericConfig>, a: string, b: string, c: string, d: string, e: string, g: string,
                  t: string, arch: string, f: Field): Value {
    FirstOf(KeySays(configs, a, t, arch, f), FirstOf(KeySays(configs, b, t, arch, f),
    FirstOf(KeySays(configs, c, t, arch, f), FirstOf(KeySays(configs, d, t, arch, f),
    FirstOf(KeySays(configs, e, t, arch, f), KeySays(configs, g, t, arch, f))))))
  }

  lemma {:induction false} SixInOrder(configs: map<string, GenericConfig>, a: string, b: string, c: string, d: string,
                                      e: string, g: string, t: string, arch: string, f: Field)
    requires NoRedirects(configs, t)
    ensures var tables := TableAt(configs, a) + (TableAt(configs, b) + (TableAt(configs, c) + (TableAt(configs, d) +
                          (TableAt(configs, e) + (TableAt(configs, g) + [])))));
            var p := Precedence(tables, t);
            p.Some? && p.value.1 == t && FirstSaid(p.value.0, arch, f) == SixSay(configs, a, b, c, d, e, g, t, arch, f)
  {
    var r6: seq<GenericConfig> := [];
    var r5 := TableAt(configs, g) + r6;
    var r4 := TableAt(configs, e) + r5;
    var r3 := TableAt(configs, d) + r4;
    var r2 := TableAt(configs, c) + r3;
    var r1 := TableAt(configs, b) + r2;
    KeyInFront(configs, g, r6, t, arch, f);
    KeyInFront(configs, e, r5, t, arch, f);
    KeyInFront(configs, d, r4, t, arch, f);
    KeyInFront(configs, c, r3, t, arch, f);
    KeyInFront(configs, b, r2, t, arch, f);
    KeyInFront(configs, a, r1, t, arch, f);
  }

  /** `reduced_config` for a variant with a flavor, when no table redirects the test type: the starting
      config, then the tables of the variant, family-flavor, family, platform-flavor, platform and `test`;
      of each the part for the test type and then the table, and of each of those the values for the
      architecture and then the general ones. */
  lemma {:induction false} FourPartLookup(configs: map<string, GenericConfig>, platform: string, runtime: string,
                                          version: string, flavor: string, tail: Option<string>,
                                          arch: string, start: Option<VariantConfig>, t: string, f: Field)
    requires V.NameLike(platform) && V.NameLike(runtime) && V.NameLike(version) && V.NameLike(flavor)
    requires NoRedirects(configs, t)
    ensures var family := V.Dash(platform, runtime);
            var s := V.WithTail(V.Dash(V.Dash(family, version), flavor), tail);
            && V.Parse(s).Ok?
            && var r := ReducedConfig(configs, V.Parse(s).value, arch, start, t);
               && r.Some? && r.value.1 == t
               && Get(r.value.0, f) ==
                  FirstOf(if start.Some? then Get(start.value, f) else Unset,
                          SixSay(configs, s, V.Dash(family, flavor), family, V.Dash(platform, flavor), platform, "test",
                                 t, arch, f))
  {
    var family := V.Dash(platform, runtime);
    var s := V.WithTail(V.Dash(V.Dash(family, version), flavor), tail);
    FourPartTables(configs, platform, runtime, version, flavor, tail);
    SixInOrder(configs, s, V.Dash(family, flavor), family, V.Dash(platform, flavor), platform, "test", t, arch, f);
    LookupValue(configs, V.Parse(s).value, arch, start, t, f);
  }

  /** The same without a flavor. */
  lemma {:induction false} ThreePartLookup(configs: map<string, GenericConfig>, platform: string, runtime: string,
                                           version: string, arch: string, start: Option<VariantConfig>, t: string, f: Field)
    requires V.NameLike(platform) && V.NameLike(runtime) && V.NameLike(version) && NoRedirects(configs, t)
    ensures var family := V.Dash(platform, runtime);
            var s := V.Dash(family, version);
            && V.Parse(s).Ok?
            && var r := ReducedConfig(configs, V.Parse(s).value, arch, start, t);
               && r.Some? && r.value.1 == t
               && Get(r.value.0, f) ==
                  FirstOf(if start.Some? then Get(start.value, f) else Unset,
                          SixSay(configs, s, "", family, "", platform, "test", t, arch, f))
  {
    var family := V.Dash(platform, runtime);
    var s := V.Dash(family, version);
    ThreePartTables(configs, platform, runtime, version);
    SixInOrder(configs, s, "", family, "", platform, "test", t, arch, f);
    LookupValue(configs, V.Parse(s).value, arch, start, t, f);
  }

  /** And with neither version nor flavor. */
  lemma {:induction false} TwoPartLookup(configs: map<string, GenericConfig>, platform: string, runtime: string,
                                         arch: string, start: Option<VariantConfig>, t: string, f: Field)
    requires V.NameLike(platform) && V.NameLike(runtime) && NoRedirects(configs, t)
    ensures var s := V.Dash(platform, runtime);
            && V.Parse(s).Ok?
            && var r := ReducedConfig(configs, V.Parse(s).value, arch, start, t);
               && r.Some? && r.value.1 == t
               && Get(r.value.0, f) ==
                  FirstOf(if start.Some? then Get(start.value, f) else Unset,
                          SixSay(configs, s, "", s, "", platform, "test", t, arch, f))
  {
    var s := V.Dash(platform, runtime);
    V.ParseTwo(platform, runtime);
    SixTables(configs, s, "", s, "", platform, "test");
    SixInOrder(configs, s, "", s, "", platform, "test", t, arch, f);
    LookupValue(configs, V.Parse(s).value, arch, start, t, f);
  }

  lemma {:induction false} DevFieldsDecide(a: VariantConfig, b: VariantConfig)
    requires Get(a, ClusterDestructionPolicy) == Get(b, ClusterDestructionPolicy)
    requires Get(a, BottlerocketDestructionPolicy) == Get(b, BottlerocketDestructionPolicy)
    requires Get(a, KeepTestsRunning) == Get(b, KeepTestsRunning)
    requires Get(a, ImageAccountId) == Get(b, ImageAccountId)
    ensures a.dev == b.dev
  {}

  lemma {:induction false} ListFieldsDecide(a: VariantConfig, b: VariantConfig)
    requires Get(a, ClusterNames) == Get(b, ClusterNames)
    requires Get(a, Secrets) == Get(b, Secrets) && Get(a, Workloads) == Get(b, Workloads)
    ensures a.clusterNames == b.clusterNames && a.secrets == b.secrets && a.workloads == b.workloads
  {}

  lemma {:induction false} TextFieldsDecide(a: VariantConfig, b: VariantConfig)
    requires Get(a, InstanceType) == Get(b, InstanceType) && Get(a, AgentRole) == Get(b, AgentRole)
    requires Get(a, ConformanceImage) == Get(b, ConformanceImage) && Get(a, HardwareCsv) == Get(b, HardwareCsv)
    ensures a.instanceType == b.instanceType && a.agentRole == b.agentRole
    ensures a.conformanceImage == b.conformanceImage && a.hardwareCsv == b.hardwareCsv
  {}

  lemma {:induction false} MoreTextFieldsDecide(a: VariantConfig, b: VariantConfig)
    requires Get(a, ConformanceRegistry) == Get(b, ConformanceRegistry) && Get(a, Userdata) == Get(b, Userdata)
    requires Get(a, ControlPlaneEndpoint) == Get(b, ControlPlaneEndpoint) && Get(a, OsImageDir) == Get(b, OsImageDir)
    ensures a.conformanceRegistry == b.conformanceRegistry && a.userdata == b.userdata
    ensures a.controlPlaneEndpoint == b.controlPlaneEndpoint && a.osImageDir == b.osImageDir
  {}

  /** A configuration is its fields, so the lookups say everything about the result. */
  lemma {:induction false} FieldsDecide(a: VariantConfig, b: VariantConfig)
    requires forall f :: Get(a, f) == Get(b, f)
    ensures a == b
  {
    DevFieldsDecide(a, b);
    ListFieldsDecide(a, b);
    TextFieldsDecide(a, b);
    MoreTextFieldsDecide(a, b);
  }

  /** The result of the reduction is the only configuration with these values. */
  lemma {:induction false} OnlyResult(configs: map<string, GenericConfig>, v: V.Variant, arch: string,
                                      start: Option<VariantConfig>, t: string, c: VariantConfig)
    requires Precedence(Tables(configs, ConfigKeys(v)), t).Some?
    requires forall f ::
      Get(c, f) ==
      FirstOf(if start.Some? then Get(start.value, f) else Unset,
              FirstSaid(Precedence(Tables(configs, ConfigKeys(v)), t).value.0, arch, f))
    ensures ReducedConfig(configs, v, arch, start, t) ==
            Some((c, Precedence(Tables(configs, ConfigKeys(v)), t).value.1))
  {
    var tables := Tables(configs, ConfigKeys(v));
    FoldIsPrecedence(tables, t);
    var r := ReducedConfig(configs, v, arch, start, t);
    forall f ensures Get(r.value.0, f) == Get(c, f) { LookupValue(configs, v, arch, start, t, f); }
    FieldsDecide(r.value.0, c);
  }

  /** In general, with redirects: the first thing said in the order of precedence. */
  lemma {:induction false} LookupValue(configs: map<string, GenericConfig>, v: V.Variant, arch: string,
                                       start: Option<VariantConfig>, t: string, f: Field)
    requires Precedence(Tables(configs, ConfigKeys(v)), t).Some?
    ensures var p := Precedence(Tables(configs, ConfigKeys(v)), t).value;
            var r := ReducedConfig(configs, v, arch, start, t);
            && r.Some? && r.value.1 == p.1
            && Get(r.value.0, f) == FirstOf(if start.Some? then Get(start.value, f) else Unset, FirstSaid(p.0, arch, f))
  {
    var cs := Precedence(Tables(configs, ConfigKeys(v)), t).value.0;
    ReducedIsFirstSet(configs, v, arch, start, t, f);
    FirstSetConcat([StartOf(start)], Expand(cs, arch), f);
    FirstSetOne(StartOf(start), f);
    ExpandSays(cs, arch, f);
    NothingSet(f);
  }

  lemma {:induction false} FirstSetOne(c: VariantConfig, f: Field)
    ensures FirstSet([c], f) == Get(c, f)
  {
    assert [c][1..] == [];
  }

  // A variant with two parts names the same table twice.

  function TableAt(configs: map<string, GenericConfig>, key: string): seq<GenericConfig> {
    if key in configs then [configs[key]] else []
  }

  /** The table of a two-part variant is consulted as the variant and as the family; in between and after
      it a table with the empty name, if the file has one. */
  lemma {:induction false} TwoPartTables(configs: map<string, GenericConfig>, s: string)
    requires V.Parse(s).Ok? && V.Parse(s).value.version.None?
    ensures var v := V.Parse(s).value;
            && ConfigKeys(v)[0] == ConfigKeys(v)[2] == s
            && Tables(configs, ConfigKeys(v)) ==
               TableAt(configs, s) + (TableAt(configs, "") + (TableAt(configs, s) + (TableAt(configs, "") +
               Tables(configs, [v.platform, "test"]))))
  {
    V.ParseRebuilds(s);
    var v := V.Parse(s).value;
    var keys := ConfigKeys(v);
    assert keys == [s, "", s, "", v.platform, "test"];
    var last := [v.platform, "test"];
    TablesCons(configs, "", last);
    TablesCons(configs, s, [""] + last);
    TablesCons(configs, "", [s] + ([""] + last));
    TablesCons(configs, s, [""] + ([s] + ([""] + last)));
    assert keys == [s] + ([""] + ([s] + ([""] + last)));
  }

  /** The tables that a variant with a version consults, most specific first; `""` is looked up in place of
      the keys with a flavor. */
  lemma {:induction false} ThreePartTables(configs: map<string, GenericConfig>, platform: string, runtime: string, version: string)
    requires V.NameLike(platform) && V.NameLike(runtime) && V.NameLike(version)
    ensures var family := V.Dash(platform, runtime);
            var s := V.Dash(family, version);
            && V.Parse(s).Ok?
            && Tables(configs, ConfigKeys(V.Parse(s).value)) ==
               TableAt(configs, s) + (TableAt(configs, "") + (TableAt(configs, family) + (TableAt(configs, "") +
               (TableAt(configs, platform) + (TableAt(configs, "test") + [])))))
  {
    V.ParseThree(platform, runtime, version);
    var family := V.Dash(platform, runtime);
    var s := V.Dash(family, version);
    SixTables(configs, s, "", family, "", platform, "test");
  }

  /** The same with a flavor; what follows the flavor only counts for the first key. */
  lemma {:induction false} FourPartTables(configs: map<string, GenericConfig>, platform: string, runtime: string,
                                          version: string, flavor: string, tail: Option<string>)
    requires V.NameLike(platform) && V.NameLike(runtime) && V.NameLike(version) && V.NameLike(flavor)
    ensures var family := V.Dash(platform, runtime);
            var s := V.WithTail(V.Dash(V.Dash(family, version), flavor), tail);
            && V.Parse(s).Ok?
            && Tables(configs, ConfigKeys(V.Parse(s).value)) ==
               TableAt(configs, s) + (TableAt(configs, V.Dash(family, flavor)) + (TableAt(configs, family) +
               (TableAt(configs, V.Dash(platform, flavor)) + (TableAt(configs, platform) +
               (TableAt(configs, "test") + [])))))
  {
    V.ParseFour(platform, runtime, version, flavor, tail);
    var family := V.Dash(platform, runtime);
    var s := V.WithTail(V.Dash(V.Dash(family, version), flavor), tail);
    SixTables(configs, s, V.Dash(family, flavor), family, V.Dash(platform, flavor), platform, "test");
  }

  lemma {:induction false} SixTables(configs: map<string, GenericConfig>, a: string, b: string, c: string, d: string, e: string, f: string)
    ensures Tables(configs, [a, b, c, d, e, f]) ==
      TableAt(configs, a) + (TableAt(configs, b) + (TableAt(configs, c) + (TableAt(configs, d) +
      (TableAt(configs, e) + (TableAt(configs, f) + [])))))
  {
    TablesCons(configs, f, []);
    TablesCons(configs, e, [f] + []);
    TablesCons(configs, d, [e] + ([f] + []));
    TablesCons(configs, c, [d] + ([e] + ([f] + [])));
    TablesCons(configs, b, [c] + ([d] + ([e] + ([f] + []))));
    TablesCons(configs, a, [b] + ([c] + ([d] + ([e] + ([f] + [])))));
    assert [a, b, c, d, e, f] == [a] + ([b] + ([c] + ([d] + ([e] + ([f] + [])))));
  }

  lemma {:induction false} TablesCons(configs: map<string, GenericConfig>, key: string, keys: seq<string>)
    ensures Tables(configs, [key] + keys) == TableAt(configs, key) + Tables(configs, keys)
  {
    assert ([key] + keys)[1..] == keys;
  }

  /** The configs that redirect, when the type reaching table `c` is `u`. */
  function Redirecting(c: GenericConfig, u: string): seq<GenericConfig>
    requires TestConfigsOf(c, u).Some?
  {
    var cs := TestConfigsOf(c, u).value.0;
    if |cs| < 2 then [] else cs[..|cs| - 2]
  }

  /** The config of the resolved type and the table itself. */
  function Settled(c: GenericConfig, u: string): seq<GenericConfig>
    requires TestConfigsOf(c, u).Some?
  {
    [Test(c, TestConfigsOf(c, u).value.1), c]
  }

  lemma {:induction false} AlongLast(c: GenericConfig, t: string, n: nat)
    requires Hop(c, t, n).Some?
    ensures Along(c, t, n)[n] == Test(c, Hop(c, t, n).value)
    decreases n
  {
    if n > 0 { AlongLast(c, Redirect(c, t).value, n - 1); }
  }

  lemma {:induction false} WalkParts(c: GenericConfig, u: string)
    requires TestConfigsOf(c, u).Some?
    ensures var (cs, w) := TestConfigsOf(c, u).value;
            && cs == Redirecting(c, u) + Settled(c, u)
            && TestConfigsOf(c, w) == Some((Settled(c, u), w))
            && (Redirect(c, u).None? ==> Redirecting(c, u) == [])
  {
    TestConfigsMeaning(c, u);
    StopsIffAcyclic(c, u);
    var n: nat :| StopsAfter(c, u, n);
    var (cs, w) := TestConfigsOf(c, u).value;
    AlongLast(c, u, n);
    assert cs == Along(c, u, n) + [c];
    assert cs[|cs| - 2] == Test(c, w) && cs[|cs| - 1] == c;
    assert Redirecting(c, u) + [cs[|cs| - 2], cs[|cs| - 1]] == cs;
    assert Rounds(c, w, |c.configuration| + 1) == Some(([Test(c, w)], w));
    assert [Test(c, w)] + [c] == [Test(c, w), c];
  }

  lemma {:induction false} ExpandConcat(a: seq<GenericConfig>, b: seq<GenericConfig>, arch: string)
    ensures Expand(a + b, arch) == Expand(a, arch) + Expand(b, arch)
  {
    if a == [] {
      assert a + b == b;
    } else {
      ExpandConcat(a[1..], b, arch);
      assert (a + b)[1..] == a[1..] + b;
    }
  }

  function StartOf(start: Option<VariantConfig>): VariantConfig {
    if start.Some? then start.value else NoValues
  }

  lemma {:induction false} ReduceField(tables: seq<GenericConfig>, arch: string, start: Option<VariantConfig>, t: string, f: Field)
    requires Precedence(tables, t).Some?
    ensures ReduceTables(tables, arch, start, t).Some?
    ensures ReduceTables(tables, arch, start, t).value.1 == Precedence(tables, t).value.1
    ensures Get(ReduceTables(tables, arch, start, t).value.0, f) ==
            FirstOf(Get(StartOf(start), f), FirstSet(Expand(Precedence(tables, t).value.0, arch), f))
  {
    FoldIsPrecedence(tables, t);
    var cs := Expand(Precedence(tables, t).value.0, arch);
    MergeAllFirst(StartOf(start), cs, f);
    FirstSetConcat([StartOf(start)], cs, f);
  }

  lemma {:induction false} SwapFirst(s: Value, a: Value, b: Value, l: Value)
    ensures FirstOf(s, FirstOf(a, FirstOf(b, l))) == FirstOf(s, FirstOf(b, FirstOf(a, l))) <==>
            s != Unset || a == Unset || b == Unset || a == b
  {}

  /** What the redirecting configs, the settled ones and the other tables say about a field. */
  datatype Votes = Votes(redirecting: Value, settled: Value, later: Value)

  function VotesFor(c: GenericConfig, rest: seq<GenericConfig>, arch: string, t: string, f: Field): Votes
    requires Precedence(rest, t).Some? && TestConfigsOf(c, Precedence(rest, t).value.1).Some?
  {
    var (r, u) := Precedence(rest, t).value;
    Votes(FirstSet(Expand(Redirecting(c, u), arch), f), FirstSet(Expand(Settled(c, u), arch), f),
          FirstSet(Expand(r, arch), f))
  }

  lemma {:induction false} OnceValue(c: GenericConfig, rest: seq<GenericConfig>, arch: string,
                  start: Option<VariantConfig>, t: string, f: Field)
    requires Precedence(rest, t).Some? && TestConfigsOf(c, Precedence(rest, t).value.1).Some?
    ensures var once := ReduceTables([c] + rest, arch, start, t);
            var v := VotesFor(c, rest, arch, t, f);
            && once.Some? && once.value.1 == TestConfigsOf(c, Precedence(rest, t).value.1).value.1
            && Get(once.value.0, f) ==
               FirstOf(Get(StartOf(start), f), FirstOf(v.redirecting, FirstOf(v.settled, v.later)))
  {
    var (r, u) := Precedence(rest, t).value;
    WalkParts(c, u);
    var (cs, w) := TestConfigsOf(c, u).value;
    assert ([c] + rest)[1..] == rest;
    assert Precedence([c] + rest, t) == Some((cs + r, w));
    ReduceField([c] + rest, arch, start, t, f);
    ThreeParts(Redirecting(c, u), Settled(c, u), r, arch, f);
  }

  lemma {:induction false} ThreeParts(a: seq<GenericConfig>, b: seq<GenericConfig>, c: seq<GenericConfig>, arch: string, f: Field)
    ensures FirstSet(Expand(a + b + c, arch), f) ==
            FirstOf(FirstSet(Expand(a, arch), f), FirstOf(FirstSet(Expand(b, arch), f), FirstSet(Expand(c, arch), f)))
  {
    ExpandConcat(a + b, c, arch);
    ExpandConcat(a, b, arch);
    FirstSetConcat(Expand(a + b, arch), Expand(c, arch), f);
    FirstSetConcat(Expand(a, arch), Expand(b, arch), f);
  }

  lemma {:induction false} TwicePrecedence(c: GenericConfig, rest: seq<GenericConfig>, t: string)
    requires Precedence(rest, t).Some? && TestConfigsOf(c, Precedence(rest, t).value.1).Some?
    ensures var (r, u) := Precedence(rest, t).value;
            var (cs, w) := TestConfigsOf(c, u).value;
            Precedence([c, c] + rest, t) == Some((Settled(c, u) + (cs + r), w))
  {
    var (r, u) := Precedence(rest, t).value;
    WalkParts(c, u);
    var (cs, w) := TestConfigsOf(c, u).value;
    assert ([c] + rest)[1..] == rest && ([c, c] + rest)[1..] == [c] + rest;
    assert Precedence([c] + rest, t) == Some((cs + r, w));
  }

  lemma {:induction false} TwiceValue(c: GenericConfig, rest: seq<GenericConfig>, arch: string,
                   start: Option<VariantConfig>, t: string, f: Field)
    requires Precedence(rest, t).Some? && TestConfigsOf(c, Precedence(rest, t).value.1).Some?
    ensures var twice := ReduceTables([c, c] + rest, arch, start, t);
            var v := VotesFor(c, rest, arch, t, f);
            && twice.Some? && twice.value.1 == TestConfigsOf(c, Precedence(rest, t).value.1).value.1
            && Get(twice.value.0, f) ==
               FirstOf(Get(StartOf(start), f), FirstOf(v.settled, FirstOf(v.redirecting, v.later)))
  {
    var (r, u) := Precedence(rest, t).value;
    WalkParts(c, u);
    var (cs, w) := TestConfigsOf(c, u).value;
    TwicePrecedence(c, rest, t);
    ReduceField([c, c] + rest, arch, start, t, f);
    ThreeParts(Redirecting(c, u), Settled(c, u), r, arch, f);
    ExpandConcat(Settled(c, u), cs + r, arch);
    FirstSetConcat(Expand(Settled(c, u), arch), Expand(cs + r, arch), f);
  }

  /** Naming table `c` twice resolves the same test type.  It gives field `f` the same value exactly
      when the starting config sets it, or the table and its resolved type leave it open, or the
      redirecting configs leave it open, or those two agree; in particular when nothing redirects. */
  lemma {:induction false} DuplicateTable(c: GenericConfig, rest: seq<GenericConfig>, arch: string,
                       start: Option<VariantConfig>, t: string, f: Field)
    requires Precedence(rest, t).Some? && TestConfigsOf(c, Precedence(rest, t).value.1).Some?
    ensures var once := ReduceTables([c] + rest, arch, start, t);
            var twice := ReduceTables([c, c] + rest, arch, start, t);
            var v := VotesFor(c, rest, arch, t, f);
            && once.Some? && twice.Some? && once.value.1 == twice.value.1
            && (Get(once.value.0, f) == Get(twice.value.0, f) <==>
                  || Get(StartOf(start), f) != Unset
                  || v.settled == Unset
                  || v.redirecting == Unset
                  || v.settled == v.redirecting)
            && (Redirect(c, Precedence(rest, t).value.1).None? ==> Get(once.value.0, f) == Get(twice.value.0, f))
  {
    OnceValue(c, rest, arch, start, t, f);
    TwiceValue(c, rest, arch, start, t, f);
    var v := VotesFor(c, rest, arch, t, f);
    SwapFirst(Get(StartOf(start), f), v.redirecting, v.settled, v.later);
    WalkParts(c, Precedence(rest, t).value.1);
  }

  // A file in which the duplicate changes the winner.

  const Quick := GenericConfig(NoValues, NoValues, NoValues.(instanceType := Some("m5.small")), map[], Some("full"))
  const AwsDev := GenericConfig(NoValues, NoValues, NoValues.(instanceType := Some("m5.large")), map["quick" := Quick], None)

  lemma {:induction false} SampleWalk()
    ensures TestConfigsOf(AwsDev, "quick") == Some(([Quick, NoConfig, AwsDev], "full"))
  {
    assert Redirect(AwsDev, "quick") == Some("full") && Redirect(AwsDev, "full").None?;
    assert Rounds(AwsDev, "full", 1) == Some(([NoConfig], "full"));
    assert AwsDev.configuration.Keys == {"quick"};
    assert Rounds(AwsDev, "quick", 2) == Some(([Quick] + [NoConfig], "full"));
    assert [Quick] + [NoConfig] + [AwsDev] == [Quick, NoConfig, AwsDev];
  }

  lemma {:induction false} SampleValues(arch: string)
    ensures FirstSet(Expand([Quick], arch), InstanceType) == Text("m5.small")
    ensures FirstSet(Expand([NoConfig, AwsDev], arch), InstanceType) == Text("m5.large")
  {
    var q := Expand([Quick], arch);
    assert q[0] == NoValues && q[1] == Quick.config;
    FirstSetIsEarliest(q, InstanceType, 1);
    assert [NoConfig, AwsDev][1..] == [AwsDev];
    var s := Expand([NoConfig, AwsDev], arch);
    assert s == [NoValues, NoValues] + Expand([AwsDev], arch);
    assert s[2] == NoValues && s[3] == AwsDev.config;
    FirstSetIsEarliest(s, InstanceType, 3);
  }

  const AwsDevFile := map["aws-dev" := AwsDev]

  lemma {:induction false} ParseAwsDev()
    ensures V.Parse("aws-dev") == Ok(V.Variant("aws-dev", "aws", "dev", "aws-dev", None, None))
  {
    V.ParseTwo("aws", "dev");
    assert V.Dash("aws", "dev") == "aws-dev";
  }

  lemma {:induction false} AwsDevTables()
    ensures V.Parse("aws-dev").Ok?
    ensures Tables(AwsDevFile, ConfigKeys(V.Parse("aws-dev").value)) == [AwsDev, AwsDev] + []
  {
    ParseAwsDev();
    TwoPartTables(AwsDevFile, "aws-dev");
    var last := ["aws", "test"];
    assert last[1..] == ["test"] && ["test"][1..] == [];
    assert "aws" !in AwsDevFile && "test" !in AwsDevFile && "" !in AwsDevFile;
    assert Tables(AwsDevFile, ["test"]) == [] && Tables(AwsDevFile, last) == [];
  }

  lemma {:induction false} SampleVotes(arch: string)
    ensures Precedence([], "quick") == Some(([], "quick")) && TestConfigsOf(AwsDev, "quick").Some?
    ensures VotesFor(AwsDev, [], arch, "quick", InstanceType) == Votes(Text("m5.small"), Text("m5.large"), Unset)
  {
    SampleWalk();
    SampleValues(arch);
    assert Redirecting(AwsDev, "quick") == [Quick];
  }

  /** Variant `aws-dev`, where test type `quick` redirects to `full` and asks for a small instance: the
      table named once would honour that, but `reduced_config` consults it twice and the general value
      wins. */
  lemma {:induction false} DuplicateCanMatter(arch: string)
    ensures V.Parse("aws-dev").Ok?
    ensures var once := ReduceTables([AwsDev] + [], arch, None, "quick");
            var reduced := ReducedConfig(AwsDevFile, V.Parse("aws-dev").value, arch, None, "quick");
            && once.Some? && reduced.Some?
            && Get(once.value.0, InstanceType) == Text("m5.small")
            && Get(reduced.value.0, InstanceType) == Text("m5.large")
  {
    ParseAwsDev();
    AwsDevTables();
    SampleVotes(arch);
    NothingSet(InstanceType);
    OnceValue(AwsDev, [], arch, None, "quick", InstanceType);
    TwiceValue(AwsDev, [], arch, None, "quick", InstanceType);
  }
}
