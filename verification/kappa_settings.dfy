/** `KappaPipelineSettings` and `KappaGlobalSettings`: typed getters over a
    read-only property tree. The list getters memoise their value in a
    cache slot of their own and resolve a key that is either scoped to the
    pipeline ("Pipelines.<name>.<Key>") or bare; the scalar getters with a
    declared default fall back to it when the tree has no entry.

    The property-tree readers and the caching macros are not part of this
    model: the tree enters as lookup functions, the cache as a map from
    getter to value. */
module KappaSettings {
  import opened Wrappers

  /** Which of the two settings classes a getter belongs to. */
  datatype Scope = Pipeline(name: string) | Global

  /** The key a getter resolves in the property tree. */
  function SettingKey(scope: Scope, key: string): string {
    match scope
    case Pipeline(name) => "Pipelines." + name + "." + key
    case Global => key
  }

  // ---------------------------------------------------------------------
  // The cached list getters.

  datatype ListSetting =
    | Quantities | JsonFiles
    | RunWhitelist | RunBlacklist | LumiWhitelist | LumiBlacklist | EventWhitelist | EventBlacklist
    | HltPaths | TauDiscriminators | BosonPdgId
    | ElectronLowerPtCuts | MuonLowerPtCuts | TauLowerPtCuts | JetLowerPtCuts
    | ElectronUpperAbsEtaCuts | MuonUpperAbsEtaCuts | TauUpperAbsEtaCuts | JetUpperAbsEtaCuts

  function KeyName(s: ListSetting): string {
    match s
    case Quantities => "Quantities"
    case JsonFiles => "JsonFiles"
    case RunWhitelist => "RunWhitelist"
    case RunBlacklist => "RunBlacklist"
    case LumiWhitelist => "LumiWhitelist"
    case LumiBlacklist => "LumiBlacklist"
    case EventWhitelist => "EventWhitelist"
    case EventBlacklist => "EventBlacklist"
    case HltPaths => "HltPaths"
    case TauDiscriminators => "TauDiscriminators"
    case BosonPdgId => "BosonPdgId"
    case ElectronLowerPtCuts => "ElectronLowerPtCuts"
    case MuonLowerPtCuts => "MuonLowerPtCuts"
    case TauLowerPtCuts => "TauLowerPtCuts"
    case JetLowerPtCuts => "JetLowerPtCuts"
    case ElectronUpperAbsEtaCuts => "ElectronUpperAbsEtaCuts"
    case MuonUpperAbsEtaCuts => "MuonUpperAbsEtaCuts"
    case TauUpperAbsEtaCuts => "TauUpperAbsEtaCuts"
    case JetUpperAbsEtaCuts => "JetUpperAbsEtaCuts"
  }

  /** The getter a key name belongs to, if any. */
  function FromKeyName(k: string): Option<ListSetting> {
    if |k| == 8 then (if k == "HltPaths" then Some(HltPaths) else None)
    else if |k| == 9 then (if k == "JsonFiles" then Some(JsonFiles) else None)
    else if |k| == 10 then
      (if k == "Quantities" then Some(Quantities) else if k == "BosonPdgId" then Some(BosonPdgId) else None)
    else if |k| == 12 then
      (if k == "RunWhitelist" then Some(RunWhitelist) else if k == "RunBlacklist" then Some(RunBlacklist) else None)
    else if |k| == 13 then
      (if k == "LumiWhitelist" then Some(LumiWhitelist) else if k == "LumiBlacklist" then Some(LumiBlacklist) else None)
    else if |k| == 14 then
      (if k == "EventWhitelist" then Some(EventWhitelist)
       else if k == "EventBlacklist" then Some(EventBlacklist)
       else if k == "TauLowerPtCuts" then Some(TauLowerPtCuts)
       else if k == "JetLowerPtCuts" then Some(JetLowerPtCuts)
       else None)
    else if |k| == 15 then (if k == "MuonLowerPtCuts" then Some(MuonLowerPtCuts) else None)
    else if |k| == 17 then (if k == "TauDiscriminators" then Some(TauDiscriminators) else None)
    else if |k| == 18 then
      (if k == "TauUpperAbsEtaCuts" then Some(TauUpperAbsEtaCuts)
       else if k == "JetUpperAbsEtaCuts" then Some(JetUpperAbsEtaCuts)
       else None)
    else if |k| == 19 then
      (if k == "ElectronLowerPtCuts" then Some(ElectronLowerPtCuts)
       else if k == "MuonUpperAbsEtaCuts" then Some(MuonUpperAbsEtaCuts)
       else None)
    else if |k| == 23 then (if k == "ElectronUpperAbsEtaCuts" then Some(ElectronUpperAbsEtaCuts) else None)
    else None
  }

  /** The quantity list exists only per pipeline and the boson PDG ids only
      globally; every other list getter exists in both classes. */
  predicate DeclaredIn(s: ListSetting, scope: Scope) {
    match scope
    case Pipeline(_) => s != BosonPdgId
    case Global => s != Quantities
  }

  /** The run, lumi and event lists are read as integers, the others as
      strings. */
  predicate IsIntList(s: ListSetting) {
    s in {RunWhitelist, RunBlacklist, LumiWhitelist, LumiBlacklist, EventWhitelist, EventBlacklist}
  }

  predicate DotFree(k: string) {
    forall i :: 0 <= i < |k| ==> k[i] != '.'
  }

  /** Each key name leads back to its getter, so no two getters share one. */
  lemma KeyNameRoundTrip(s: ListSetting)
    ensures FromKeyName(KeyName(s)) == Some(s)
  {
  }

  /** No key name holds a dot. */
  lemma KeyNameDotFree(s: ListSetting)
    ensures DotFree(KeyName(s))
  {
    match s
    case Quantities | JsonFiles | RunWhitelist | RunBlacklist | LumiWhitelist =>
      RunKeysDotFree();
    case LumiBlacklist | EventWhitelist | EventBlacklist | HltPaths | TauDiscriminators =>
      EventKeysDotFree();
    case BosonPdgId | ElectronLowerPtCuts | MuonLowerPtCuts | TauLowerPtCuts | JetLowerPtCuts =>
      LowerPtKeysDotFree();
    case ElectronUpperAbsEtaCuts | MuonUpperAbsEtaCuts | TauUpperAbsEtaCuts | JetUpperAbsEtaCuts =>
      UpperAbsEtaKeysDotFree();
  }

  lemma RunKeysDotFree()
    ensures DotFree("Quantities")
    ensures DotFree("JsonFiles")
    ensures DotFree("RunWhitelist")
    ensures DotFree("RunBlacklist")
    ensures DotFree("LumiWhitelist")
  {
  }

  lemma EventKeysDotFree()
    ensures DotFree("LumiBlacklist")
    ensures DotFree("EventWhitelist")
    ensures DotFree("EventBlacklist")
    ensures DotFree("HltPaths")
    ensures DotFree("TauDiscriminators")
  {
  }

  lemma LowerPtKeysDotFree()
    ensures DotFree("BosonPdgId")
    ensures DotFree("ElectronLowerPtCuts")
    ensures DotFree("MuonLowerPtCuts")
    ensures DotFree("TauLowerPtCuts")
    ensures DotFree("JetLowerPtCuts")
  {
  }

  lemma UpperAbsEtaKeysDotFree()
    ensures DotFree("ElectronUpperAbsEtaCuts")
    ensures DotFree("MuonUpperAbsEtaCuts")
    ensures DotFree("TauUpperAbsEtaCuts")
    ensures DotFree("JetUpperAbsEtaCuts")
  {
  }

  /** What follows the last dot of a string, or all of it if it has none. */
  function AfterLastDot(s: string): string
    decreases |s|
  {
    if |s| == 0 then s
    else if s[|s| - 1] == '.' then []
    else AfterLastDot(s[..|s| - 1]) + [s[|s| - 1]]
  }

  lemma {:induction false} AfterLastDotOfJoin(a: string, k: string)
    requires DotFree(k)
    ensures AfterLastDot(a + "." + k) == k
    decreases |k|
  {
    var s := a + "." + k;
    if |k| == 0 {
      assert s[|s| - 1] == '.';
    } else {
      var front := k[..|k| - 1];
      assert s[..|s| - 1] == a + "." + front;
      AfterLastDotOfJoin(a, front);
      assert k == front + [k[|k| - 1]];
    }
  }

  /** A dot-free last component is fixed by the string it ends: two joins
      around a dot with dot-free right-hand sides are equal only when both
      sides are. */
  lemma SplitAtLastDot(a: string, k1: string, b: string, k2: string)
    requires DotFree(k1) && DotFree(k2)
    requires a + "." + k1 == b + "." + k2
    ensures a == b && k1 == k2
  {
    AfterLastDotOfJoin(a, k1);
    AfterLastDotOfJoin(b, k2);
    var s := a + "." + k1;
    assert a == s[..|a|];
    assert b == s[..|b|];
  }

  /** A pipeline key always holds a dot after "Pipelines", so it is never
      a dot-free global key. */
  lemma PipelineKeyIsNotGlobal(name: string, k1: string, k2: string)
    requires DotFree(k2)
    ensures SettingKey(Pipeline(name), k1) != SettingKey(Global, k2)
  {
    assert SettingKey(Pipeline(name), k1)[9] == '.';
  }

  /** Pipeline keys with dot-free key names determine the pipeline and the
      key name. */
  lemma PipelineKeysInjective(n1: string, k1: string, n2: string, k2: string)
    requires DotFree(k1) && DotFree(k2)
    requires SettingKey(Pipeline(n1), k1) == SettingKey(Pipeline(n2), k2)
    ensures n1 == n2 && k1 == k2
  {
    SplitAtLastDot("Pipelines." + n1, k1, "Pipelines." + n2, k2);
    assert n1 == ("Pipelines." + n1)[10..];
    assert n2 == ("Pipelines." + n2)[10..];
  }

  lemma KeyNameInjective(s1: ListSetting, s2: ListSetting)
    requires KeyName(s1) == KeyName(s2)
    ensures s1 == s2
  {
    KeyNameRoundTrip(s1);
    KeyNameRoundTrip(s2);
  }

  /** Keys built from dot-free key names determine the scope, the pipeline
      and the key name. */
  lemma ScopedKeysDistinct(scope1: Scope, k1: string, scope2: Scope, k2: string)
    requires DotFree(k1) && DotFree(k2)
    requires SettingKey(scope1, k1) == SettingKey(scope2, k2)
    ensures scope1 == scope2 && k1 == k2
  {
    match (scope1, scope2)
    case (Pipeline(n1), Pipeline(n2)) =>
      PipelineKeysInjective(n1, k1, n2, k2);
    case (Pipeline(n1), Global) =>
      PipelineKeyIsNotGlobal(n1, k1, k2);
    case (Global, Pipeline(n2)) =>
      PipelineKeyIsNotGlobal(n2, k2, k1);
    case (Global, Global) =>
  }

  /** No two getters of the two classes, in any pipeline, read the same
      key: the key names the scope, the pipeline and the getter. */
  lemma KeysDistinct(scope1: Scope, s1: ListSetting, scope2: Scope, s2: ListSetting)
    requires SettingKey(scope1, KeyName(s1)) == SettingKey(scope2, KeyName(s2))
    ensures scope1 == scope2 && s1 == s2
  {
    KeyNameDotFree(s1);
    KeyNameDotFree(s2);
    ScopedKeysDistinct(scope1, KeyName(s1), scope2, KeyName(s2));
    KeyNameInjective(s1, s2);
  }

  // ---------------------------------------------------------------------
  // The cache.

  /** The property tree as the two list readers see it. */
  datatype Tree = Tree(stringList: string -> seq<string>, intList: string -> seq<int>)

  datatype ListValue = StringList(strings: seq<string>) | IntList(ints: seq<int>)

  /** What the getter's key resolves to in the tree. */
  function Resolve(tree: Tree, scope: Scope, s: ListSetting): ListValue {
    var key := SettingKey(scope, KeyName(s));
    if IsIntList(s) then IntList(tree.intList(key)) else StringList(tree.stringList(key))
  }

  /** A settings object: its scope, the tree it reads and one cache slot per
      getter, filled on first use. */
  datatype Settings = Settings(scope: Scope, tree: Tree, cache: map<ListSetting, ListValue>)

  /** Every filled slot holds what its key resolves to. */
  predicate Coherent(st: Settings) {
    forall s :: s in st.cache ==> st.cache[s] == Resolve(st.tree, st.scope, s)
  }

  function Fresh(scope: Scope, tree: Tree): (st: Settings)
    ensures Coherent(st)
  {
    Settings(scope, tree, map[])
  }

  /** One call of a cached list getter: the value, and the settings with the
      getter's slot filled. */
  function GetList(st: Settings, s: ListSetting): (r: (ListValue, Settings))
    requires DeclaredIn(s, st.scope)
    ensures Coherent(st) ==> r.0 == Resolve(st.tree, st.scope, s) && Coherent(r.1)
    ensures r.1.scope == st.scope && r.1.tree == st.tree
    ensures s in r.1.cache && r.1.cache[s] == r.0
    ensures s in st.cache ==> r == (st.cache[s], st)
    ensures forall t :: t != s ==> (t in r.1.cache <==> t in st.cache)
    ensures forall t :: t != s && t in st.cache ==> r.1.cache[t] == st.cache[t]
  {
    if s in st.cache then (st.cache[s], st)
    else
      var v := Resolve(st.tree, st.scope, s);
      (v, st.(cache := st.cache[s := v]))
  }

  /** A second call returns the same value and changes nothing. */
  lemma GetListIdempotent(st: Settings, s: ListSetting)
    requires DeclaredIn(s, st.scope)
    ensures GetList(GetList(st, s).1, s) == (GetList(st, s).0, GetList(st, s).1)
  {
  }

  /** A series of getter calls, in order, with the values they return. */
  function GetMany(st: Settings, calls: seq<ListSetting>): (r: (seq<ListValue>, Settings))
    requires forall i :: 0 <= i < |calls| ==> DeclaredIn(calls[i], st.scope)
    ensures |r.0| == |calls|
    ensures r.1.scope == st.scope && r.1.tree == st.tree
    decreases |calls|
  {
    if |calls| == 0 then ([], st)
    else
      var first := GetList(st, calls[0]);
      var rest := GetMany(first.1, calls[1..]);
      ([first.0] + rest.0, rest.1)
  }

  /** However the calls interleave, every call on a coherent settings
      object returns what its key resolves to in the tree, and the object
      stays coherent. */
  lemma {:induction false} GetManyResolves(st: Settings, calls: seq<ListSetting>)
    requires forall i :: 0 <= i < |calls| ==> DeclaredIn(calls[i], st.scope)
    requires Coherent(st)
    ensures Coherent(GetMany(st, calls).1)
    ensures forall i :: 0 <= i < |calls| ==> GetMany(st, calls).0[i] == Resolve(st.tree, st.scope, calls[i])
    decreases |calls|
  {
    if |calls| > 0 {
      var first := GetList(st, calls[0]);
      GetManyResolves(first.1, calls[1..]);
      var r := GetMany(st, calls);
      forall i | 1 <= i < |calls|
        ensures r.0[i] == Resolve(st.tree, st.scope, calls[i])
      {
        assert calls[1..][i - 1] == calls[i];
      }
    }
  }

  /** Calls of the same getter return the same value each time. */
  lemma RepeatedCallsAgree(st: Settings, calls: seq<ListSetting>, i: int, j: int)
    requires forall k :: 0 <= k < |calls| ==> DeclaredIn(calls[k], st.scope)
    requires Coherent(st)
    requires 0 <= i < |calls| && 0 <= j < |calls| && calls[i] == calls[j]
    ensures GetMany(st, calls).0[i] == GetMany(st, calls).0[j]
  {
    GetManyResolves(st, calls);
  }

  // ---------------------------------------------------------------------
  // Scalar settings with a declared default.

  datatype TriggerObject = ElectronObject | MuonObject | TauObject | JetObject

  /** The collection-name settings of the global class. */
  datatype Collection =
    | Electrons | Muons | Taus | TauDiscriminatorMetadata | Jets | TaggedJets | JetArea | Met | GenMet
    | PFChargedHadronsPileUp | PFChargedHadronsNoPileUp | PFNeutralHadronsNoPileUp | PFPhotonsNoPileUp
    | BeamSpot | VertexSummary | GenParticles | LumiMetadata | GenLumiMetadata | EventMetadata
    | GenEventMetadata | FilterMetadata | FilterSummary | TaggerMetadata | TriggerObjects

  datatype DefaultSetting =
    | PassRunLow | PassRunHigh | AllowPrescaledTrigger
    | DeltaRTriggerMatching(matched: TriggerObject)
    | CollectionName(collection: Collection)

  datatype Scalar = IntValue(i: int) | BoolValue(b: bool) | RealValue(r: real) | StringValue(s: string)

  /** The collection names exist only in the global class. */
  predicate DefaultDeclaredIn(s: DefaultSetting, scope: Scope) {
    s.CollectionName? ==> scope.Global?
  }

  function TriggerObjectName(o: TriggerObject): string {
    match o
    case ElectronObject => "Electron"
    case MuonObject => "Muon"
    case TauObject => "Tau"
    case JetObject => "Jet"
  }

  function CollectionKeyName(c: Collection): string {
    match c
    case Electrons => "Electrons"
    case Muons => "Muons"
    case Taus => "Taus"
    case TauDiscriminatorMetadata => "TauDiscriminatorMetadata"
    case Jets => "Jets"
    case TaggedJets => "TaggedJets"
    case JetArea => "JetArea"
    case Met => "Met"
    case GenMet => "GenMet"
    case PFChargedHadronsPileUp => "PFChargedHadronsPileUp"
    case PFChargedHadronsNoPileUp => "PFChargedHadronsNoPileUp"
    case PFNeutralHadronsNoPileUp => "PFNeutralHadronsNoPileUp"
    case PFPhotonsNoPileUp => "PFPhotonsNoPileUp"
    case BeamSpot => "BeamSpot"
    case VertexSummary => "VertexSummary"
    case GenParticles => "GenParticles"
    case LumiMetadata => "LumiMetadata"
    case GenLumiMetadata => "GenLumiMetadata"
    case EventMetadata => "EventMetadata"
    case GenEventMetadata => "GenEventMetadata"
    case FilterMetadata => "FilterMetadata"
    case FilterSummary => "FilterSummary"
    case TaggerMetadata => "TaggerMetadata"
    case TriggerObjects => "TriggerObjects"
  }

  /** The key name each setting with a default is declared under. */
  function DefaultKeyName(s: DefaultSetting): string {
    match s
    case PassRunLow => "PassRunLow"
    case PassRunHigh => "PassRunHigh"
    case AllowPrescaledTrigger => "AllowPrescaledTrigger"
    case DeltaRTriggerMatching(o) => "DeltaRTriggerMatching" + TriggerObjectName(o)
    case CollectionName(c) => CollectionKeyName(c)
  }

  /** The setting with a default a key name belongs to, if any. */
  function FromDefaultKeyName(k: string): Option<DefaultSetting> {
    if |k| == 3 then (if k == "Met" then Some(CollectionName(Met)) else None)
    else if |k| == 4 then
      (if k == "Taus" then Some(CollectionName(Taus)) else if k == "Jets" then Some(CollectionName(Jets)) else None)
    else if |k| == 5 then (if k == "Muons" then Some(CollectionName(Muons)) else None)
    else if |k| == 6 then (if k == "GenMet" then Some(CollectionName(GenMet)) else None)
    else if |k| == 7 then (if k == "JetArea" then Some(CollectionName(JetArea)) else None)
    else if |k| == 8 then (if k == "BeamSpot" then Some(CollectionName(BeamSpot)) else None)
    else if |k| == 9 then (if k == "Electrons" then Some(CollectionName(Electrons)) else None)
    else if |k| == 10 then
      (if k == "PassRunLow" then Some(PassRunLow) else if k == "TaggedJets" then Some(CollectionName(TaggedJets)) else None)
    else if |k| == 11 then (if k == "PassRunHigh" then Some(PassRunHigh) else None)
    else if |k| == 12 then
      (if k == "GenParticles" then Some(CollectionName(GenParticles))
       else if k == "LumiMetadata" then Some(CollectionName(LumiMetadata))
       else None)
    else if |k| == 13 then
      (if k == "VertexSummary" then Some(CollectionName(VertexSummary))
       else if k == "EventMetadata" then Some(CollectionName(EventMetadata))
       else if k == "FilterSummary" then Some(CollectionName(FilterSummary))
       else None)
    else if |k| == 14 then
      (if k == "FilterMetadata" then Some(CollectionName(FilterMetadata))
       else if k == "TaggerMetadata" then Some(CollectionName(TaggerMetadata))
       else if k == "TriggerObjects" then Some(CollectionName(TriggerObjects))
       else None)
    else if |k| == 15 then (if k == "GenLumiMetadata" then Some(CollectionName(GenLumiMetadata)) else None)
    else if |k| == 16 then (if k == "GenEventMetadata" then Some(CollectionName(GenEventMetadata)) else None)
    else if |k| == 17 then (if k == "PFPhotonsNoPileUp" then Some(CollectionName(PFPhotonsNoPileUp)) else None)
    else if |k| == 21 then (if k == "AllowPrescaledTrigger" then Some(AllowPrescaledTrigger) else None)
    else if |k| == 22 then (if k == "PFChargedHadronsPileUp" then Some(CollectionName(PFChargedHadronsPileUp)) else None)
    else if |k| == 24 then
      (if k == "DeltaRTriggerMatchingTau" then Some(DeltaRTriggerMatching(TauObject))
       else if k == "DeltaRTriggerMatchingJet" then Some(DeltaRTriggerMatching(JetObject))
       else if k == "TauDiscriminatorMetadata" then Some(CollectionName(TauDiscriminatorMetadata))
       else if k == "PFChargedHadronsNoPileUp" then Some(CollectionName(PFChargedHadronsNoPileUp))
       else if k == "PFNeutralHadronsNoPileUp" then Some(CollectionName(PFNeutralHadronsNoPileUp))
       else None)
    else if |k| == 25 then (if k == "DeltaRTriggerMatchingMuon" then Some(DeltaRTriggerMatching(MuonObject)) else None)
    else if |k| == 29 then (if k == "DeltaRTriggerMatchingElectron" then Some(DeltaRTriggerMatching(ElectronObject)) else None)
    else None
  }

  /** Each default key name leads back to its setting, and none is the key
      name of a list getter. */
  lemma DefaultKeyNameRoundTrip(s: DefaultSetting)
    ensures FromDefaultKeyName(DefaultKeyName(s)) == Some(s)
    ensures FromKeyName(DefaultKeyName(s)).None?
  {
    match s {
      case PassRunLow | PassRunHigh | AllowPrescaledTrigger => TriggerKeysRoundTrip();
      case DeltaRTriggerMatching(o) => MatchingKeyNameRoundTrip(o);
      case CollectionName(c) => CollectionKeyNameRoundTrip(c);
    }
  }

  lemma MatchingKeyNameRoundTrip(o: TriggerObject)
    ensures FromDefaultKeyName(DefaultKeyName(DeltaRTriggerMatching(o))) == Some(DeltaRTriggerMatching(o))
    ensures FromKeyName(DefaultKeyName(DeltaRTriggerMatching(o))).None?
  {
    TriggerKeysRoundTrip();
    match o {
      case ElectronObject => assert DefaultKeyName(DeltaRTriggerMatching(o)) == "DeltaRTriggerMatchingElectron";
      case MuonObject => assert DefaultKeyName(DeltaRTriggerMatching(o)) == "DeltaRTriggerMatchingMuon";
      case TauObject => assert DefaultKeyName(DeltaRTriggerMatching(o)) == "DeltaRTriggerMatchingTau";
      case JetObject => assert DefaultKeyName(DeltaRTriggerMatching(o)) == "DeltaRTriggerMatchingJet";
    }
  }

  lemma CollectionKeyNameRoundTrip(c: Collection)
    ensures FromDefaultKeyName(CollectionKeyName(c)) == Some(CollectionName(c))
    ensures FromKeyName(CollectionKeyName(c)).None?
  {
    match c {
      case Electrons | Muons | Taus | TauDiscriminatorMetadata | Jets | TaggedJets =>
        ObjectCollectionKeysRoundTrip();
      case JetArea | Met | GenMet | PFChargedHadronsPileUp | PFChargedHadronsNoPileUp | PFNeutralHadronsNoPileUp =>
        CandidateCollectionKeysRoundTrip();
      case PFPhotonsNoPileUp | BeamSpot | VertexSummary | GenParticles | LumiMetadata | GenLumiMetadata =>
        LumiCollectionKeysRoundTrip();
      case EventMetadata | GenEventMetadata | FilterMetadata | FilterSummary | TaggerMetadata | TriggerObjects =>
        EventCollectionKeysRoundTrip();
    }
  }

  lemma TriggerKeysRoundTrip()
    ensures FromDefaultKeyName("PassRunLow") == Some(PassRunLow) && FromKeyName("PassRunLow").None?
    ensures FromDefaultKeyName("PassRunHigh") == Some(PassRunHigh) && FromKeyName("PassRunHigh").None?
    ensures FromDefaultKeyName("AllowPrescaledTrigger") == Some(AllowPrescaledTrigger) && FromKeyName("AllowPrescaledTrigger").None?
    ensures FromDefaultKeyName("DeltaRTriggerMatchingElectron") == Some(DeltaRTriggerMatching(ElectronObject)) && FromKeyName("DeltaRTriggerMatchingElectron").None?
    ensures FromDefaultKeyName("DeltaRTriggerMatchingMuon") == Some(DeltaRTriggerMatching(MuonObject)) && FromKeyName("DeltaRTriggerMatchingMuon").None?
    ensures FromDefaultKeyName("DeltaRTriggerMatchingTau") == Some(DeltaRTriggerMatching(TauObject)) && FromKeyName("DeltaRTriggerMatchingTau").None?
    ensures FromDefaultKeyName("DeltaRTriggerMatchingJet") == Some(DeltaRTriggerMatching(JetObject)) && FromKeyName("DeltaRTriggerMatchingJet").None?
  {
  }

  lemma ObjectCollectionKeysRoundTrip()
    ensures FromDefaultKeyName("Electrons") == Some(CollectionName(Electrons)) && FromKeyName("Electrons").None?
    ensures FromDefaultKeyName("Muons") == Some(CollectionName(Muons)) && FromKeyName("Muons").None?
    ensures FromDefaultKeyName("Taus") == Some(CollectionName(Taus)) && FromKeyName("Taus").None?
    ensures FromDefaultKeyName("TauDiscriminatorMetadata") == Some(CollectionName(TauDiscriminatorMetadata)) && FromKeyName("TauDiscriminatorMetadata").None?
    ensures FromDefaultKeyName("Jets") == Some(CollectionName(Jets)) && FromKeyName("Jets").None?
    ensures FromDefaultKeyName("TaggedJets") == Some(CollectionName(TaggedJets)) && FromKeyName("TaggedJets").None?
  {
  }

  lemma CandidateCollectionKeysRoundTrip()
    ensures FromDefaultKeyName("JetArea") == Some(CollectionName(JetArea)) && FromKeyName("JetArea").None?
    ensures FromDefaultKeyName("Met") == Some(CollectionName(Met)) && FromKeyName("Met").None?
    ensures FromDefaultKeyName("GenMet") == Some(CollectionName(GenMet)) && FromKeyName("GenMet").None?
    ensures FromDefaultKeyName("PFChargedHadronsPileUp") == Some(CollectionName(PFChargedHadronsPileUp)) && FromKeyName("PFChargedHadronsPileUp").None?
    ensures FromDefaultKeyName("PFChargedHadronsNoPileUp") == Some(CollectionName(PFChargedHadronsNoPileUp)) && FromKeyName("PFChargedHadronsNoPileUp").None?
    ensures FromDefaultKeyName("PFNeutralHadronsNoPileUp") == Some(CollectionName(PFNeutralHadronsNoPileUp)) && FromKeyName("PFNeutralHadronsNoPileUp").None?
  {
  }

  lemma LumiCollectionKeysRoundTrip()
    ensures FromDefaultKeyName("PFPhotonsNoPileUp") == Some(CollectionName(PFPhotonsNoPileUp)) && FromKeyName("PFPhotonsNoPileUp").None?
    ensures FromDefaultKeyName("BeamSpot") == Some(CollectionName(BeamSpot)) && FromKeyName("BeamSpot").None?
    ensures FromDefaultKeyName("VertexSummary") == Some(CollectionName(VertexSummary)) && FromKeyName("VertexSummary").None?
    ensures FromDefaultKeyName("GenParticles") == Some(CollectionName(GenParticles)) && FromKeyName("GenParticles").None?
    ensures FromDefaultKeyName("LumiMetadata") == Some(CollectionName(LumiMetadata)) && FromKeyName("LumiMetadata").None?
    ensures FromDefaultKeyName("GenLumiMetadata") == Some(CollectionName(GenLumiMetadata)) && FromKeyName("GenLumiMetadata").None?
  {
  }

  lemma EventCollectionKeysRoundTrip()
    ensures FromDefaultKeyName("EventMetadata") == Some(CollectionName(EventMetadata)) && FromKeyName("EventMetadata").None?
    ensures FromDefaultKeyName("GenEventMetadata") == Some(CollectionName(GenEventMetadata)) && FromKeyName("GenEventMetadata").None?
    ensures FromDefaultKeyName("FilterMetadata") == Some(CollectionName(FilterMetadata)) && FromKeyName("FilterMetadata").None?
    ensures FromDefaultKeyName("FilterSummary") == Some(CollectionName(FilterSummary)) && FromKeyName("FilterSummary").None?
    ensures FromDefaultKeyName("TaggerMetadata") == Some(CollectionName(TaggerMetadata)) && FromKeyName("TaggerMetadata").None?
    ensures FromDefaultKeyName("TriggerObjects") == Some(CollectionName(TriggerObjects)) && FromKeyName("TriggerObjects").None?
  {
  }

  /** No default key name holds a dot. */
  lemma DefaultKeyNameDotFree(s: DefaultSetting)
    ensures DotFree(DefaultKeyName(s))
  {
    match s
    case PassRunLow | PassRunHigh | AllowPrescaledTrigger => TriggerKeysDotFree();
    case DeltaRTriggerMatching(o) => TriggerKeysDotFree();
    case CollectionName(c) =>
      match c
      case Electrons | Muons | Taus | TauDiscriminatorMetadata | Jets | TaggedJets =>
        ObjectCollectionKeysDotFree();
      case JetArea | Met | GenMet | PFChargedHadronsPileUp | PFChargedHadronsNoPileUp | PFNeutralHadronsNoPileUp =>
        CandidateCollectionKeysDotFree();
      case PFPhotonsNoPileUp | BeamSpot | VertexSummary | GenParticles | LumiMetadata | GenLumiMetadata =>
        LumiCollectionKeysDotFree();
      case EventMetadata | GenEventMetadata | FilterMetadata | FilterSummary | TaggerMetadata | TriggerObjects =>
        EventCollectionKeysDotFree();
  }

  lemma TriggerKeysDotFree()
    ensures DotFree("PassRunLow")
    ensures DotFree("PassRunHigh")
    ensures DotFree("AllowPrescaledTrigger")
    ensures forall o :: DotFree("DeltaRTriggerMatching" + TriggerObjectName(o))
  {
    forall o ensures DotFree("DeltaRTriggerMatching" + TriggerObjectName(o)) {
      match o
      case ElectronObject => assert "DeltaRTriggerMatching" + TriggerObjectName(o) == "DeltaRTriggerMatchingElectron";
      case MuonObject => assert "DeltaRTriggerMatching" + TriggerObjectName(o) == "DeltaRTriggerMatchingMuon";
      case TauObject => assert "DeltaRTriggerMatching" + TriggerObjectName(o) == "DeltaRTriggerMatchingTau";
      case JetObject => assert "DeltaRTriggerMatching" + TriggerObjectName(o) == "DeltaRTriggerMatchingJet";
    }
  }

  lemma ObjectCollectionKeysDotFree()
    ensures DotFree("Electrons") && DotFree("Muons") && DotFree("Taus")
    ensures DotFree("TauDiscriminatorMetadata") && DotFree("Jets") && DotFree("TaggedJets")
  {
  }

  lemma CandidateCollectionKeysDotFree()
    ensures DotFree("JetArea") && DotFree("Met") && DotFree("GenMet")
    ensures DotFree("PFChargedHadronsPileUp") && DotFree("PFChargedHadronsNoPileUp") && DotFree("PFNeutralHadronsNoPileUp")
  {
  }

  lemma LumiCollectionKeysDotFree()
    ensures DotFree("PFPhotonsNoPileUp") && DotFree("BeamSpot") && DotFree("VertexSummary")
    ensures DotFree("GenParticles") && DotFree("LumiMetadata") && DotFree("GenLumiMetadata")
  {
  }

  lemma EventCollectionKeysDotFree()
    ensures DotFree("EventMetadata") && DotFree("GenEventMetadata") && DotFree("FilterMetadata")
    ensures DotFree("FilterSummary") && DotFree("TaggerMetadata") && DotFree("TriggerObjects")
  {
  }

  /** Keys built from dot-free key names are equal only when the scopes
      and the key names are. */
  lemma ScopedKeysDetermine(scope1: Scope, k1: string, scope2: Scope, k2: string)
    requires DotFree(k1) && DotFree(k2)
    ensures SettingKey(scope1, k1) == SettingKey(scope2, k2) ==> scope1 == scope2 && k1 == k2
  {
    if SettingKey(scope1, k1) == SettingKey(scope2, k2) {
      ScopedKeysDistinct(scope1, k1, scope2, k2);
    }
  }

  /** No two settings with a default, in any scope or pipeline, read the
      same key. */
  lemma DefaultKeysDistinct(scope1: Scope, s1: DefaultSetting, scope2: Scope, s2: DefaultSetting)
    ensures SettingKey(scope1, DefaultKeyName(s1)) == SettingKey(scope2, DefaultKeyName(s2))
        ==> scope1 == scope2 && s1 == s2
  {
    DefaultKeyNameDotFree(s1);
    DefaultKeyNameDotFree(s2);
    ScopedKeysDetermine(scope1, DefaultKeyName(s1), scope2, DefaultKeyName(s2));
    DefaultKeyNameRoundTrip(s1);
    DefaultKeyNameRoundTrip(s2);
  }

  /** No setting with a default reads the key of a list getter. */
  lemma ListAndDefaultKeysDistinct(scope1: Scope, l: ListSetting, scope2: Scope, s: DefaultSetting)
    ensures SettingKey(scope1, KeyName(l)) != SettingKey(scope2, DefaultKeyName(s))
  {
    KeyNameDotFree(l);
    DefaultKeyNameDotFree(s);
    ScopedKeysDetermine(scope1, KeyName(l), scope2, DefaultKeyName(s));
    KeyNameRoundTrip(l);
    DefaultKeyNameRoundTrip(s);
  }

  /** Whether a value has the C++ type the setting is declared with: `int`
      for the run bounds, `bool`, `float` for the matching cones, and
      `std::string` for the collection names. */
  predicate HasDeclaredType(s: DefaultSetting, v: Scalar) {
    match s
    case PassRunLow | PassRunHigh => v.IntValue?
    case AllowPrescaledTrigger => v.BoolValue?
    case DeltaRTriggerMatching(_) => v.RealValue?
    case CollectionName(_) => v.StringValue?
  }

  /** The declared defaults. */
  function Default(s: DefaultSetting, scope: Scope): (r: Scalar)
    requires DefaultDeclaredIn(s, scope)
    ensures HasDeclaredType(s, r)
  {
    match s
    case PassRunLow => if scope.Pipeline? then IntValue(1) else IntValue(0)
    case PassRunHigh => IntValue(0)
    case AllowPrescaledTrigger => BoolValue(true)
    case DeltaRTriggerMatching(_) => RealValue(0.5)
    case CollectionName(_) => StringValue("")
  }

  /** A scalar getter with a default: the tree's entry under the setting's
      own key when there is one of the declared type, the default otherwise.
      An entry of another kind is a failed translation, which falls back to
      the default as `ptree::get(path, default)` does. */
  function GetWithDefault(lookup: string -> Option<Scalar>, scope: Scope, s: DefaultSetting): (r: Scalar)
    requires DefaultDeclaredIn(s, scope)
    ensures HasDeclaredType(s, r)
    ensures var e := lookup(SettingKey(scope, DefaultKeyName(s)));
            e.Some? && HasDeclaredType(s, e.value) ==> r == e.value
    ensures var e := lookup(SettingKey(scope, DefaultKeyName(s)));
            (e.None? || !HasDeclaredType(s, e.value)) ==> r == Default(s, scope)
  {
    match lookup(SettingKey(scope, DefaultKeyName(s)))
    case Some(v) => if HasDeclaredType(s, v) then v else Default(s, scope)
    case None => Default(s, scope)
  }

  /** The lookup of a tree that holds no scalar settings at all. */
  function NoEntries(): string -> Option<Scalar> {
    (k: string) => None
  }

  /** The lookup of a tree with one more entry, `key: v`. */
  function WithEntry(lookup: string -> Option<Scalar>, key: string, v: Scalar): string -> Option<Scalar> {
    (k: string) => if k == key then Some(v) else lookup(k)
  }

  /** An entry of the declared type under a setting's key is what the
      getter returns. */
  lemma EntryIsRead(lookup: string -> Option<Scalar>, scope: Scope, s: DefaultSetting, v: Scalar)
    requires DefaultDeclaredIn(s, scope) && HasDeclaredType(s, v)
    ensures GetWithDefault(WithEntry(lookup, SettingKey(scope, DefaultKeyName(s)), v), scope, s) == v
  {
  }

  /** An entry of another type under a setting's key yields the default,
      whatever else the tree holds. */
  lemma MistypedEntryIsDefault(lookup: string -> Option<Scalar>, scope: Scope, s: DefaultSetting, v: Scalar)
    requires DefaultDeclaredIn(s, scope) && !HasDeclaredType(s, v)
    ensures GetWithDefault(WithEntry(lookup, SettingKey(scope, DefaultKeyName(s)), v), scope, s) == Default(s, scope)
  {
  }

  /** An entry for any other setting with a default, in any scope or
      pipeline, leaves the getter's value alone. */
  lemma OtherEntryIgnored(lookup: string -> Option<Scalar>, scope: Scope, s: DefaultSetting,
                          scope': Scope, t: DefaultSetting, v: Scalar)
    requires DefaultDeclaredIn(s, scope)
    requires scope' != scope || t != s
    ensures GetWithDefault(WithEntry(lookup, SettingKey(scope', DefaultKeyName(t)), v), scope, s)
         == GetWithDefault(lookup, scope, s)
  {
    DefaultKeysDistinct(scope', t, scope, s);
  }

  /** An entry under a list getter's key leaves the getter's value alone. */
  lemma ListEntryIgnored(lookup: string -> Option<Scalar>, scope: Scope, s: DefaultSetting,
                         scope': Scope, l: ListSetting, v: Scalar)
    requires DefaultDeclaredIn(s, scope)
    ensures GetWithDefault(WithEntry(lookup, SettingKey(scope', KeyName(l)), v), scope, s)
         == GetWithDefault(lookup, scope, s)
  {
    ListAndDefaultKeysDistinct(scope', l, scope, s);
  }

  /** In a pipeline, on an empty tree, runs are accepted from 1 and the
      upper run bound is 0. */
  lemma PipelineRunDefaults(pipeline: string)
    ensures GetWithDefault(NoEntries(), Pipeline(pipeline), PassRunLow) == IntValue(1)
    ensures GetWithDefault(NoEntries(), Pipeline(pipeline), PassRunHigh) == IntValue(0)
  {
  }

  /** Globally, on an empty tree, both run bounds are 0. */
  lemma GlobalRunDefaults()
    ensures GetWithDefault(NoEntries(), Global, PassRunLow) == IntValue(0)
    ensures GetWithDefault(NoEntries(), Global, PassRunHigh) == IntValue(0)
  {
  }

  /** In a pipeline, on an empty tree, prescaled triggers are allowed and
      every trigger-matching cone is 0.5. */
  lemma PipelineTriggerDefaults(pipeline: string, matched: TriggerObject)
    ensures GetWithDefault(NoEntries(), Pipeline(pipeline), AllowPrescaledTrigger) == BoolValue(true)
    ensures GetWithDefault(NoEntries(), Pipeline(pipeline), DeltaRTriggerMatching(matched)) == RealValue(0.5)
  {
  }

  /** The same trigger defaults hold globally. */
  lemma GlobalTriggerDefaults(matched: TriggerObject)
    ensures GetWithDefault(NoEntries(), Global, AllowPrescaledTrigger) == BoolValue(true)
    ensures GetWithDefault(NoEntries(), Global, DeltaRTriggerMatching(matched)) == RealValue(0.5)
  {
  }

  /** On an empty tree every global collection name is the empty string. */
  lemma CollectionNameDefaults(collection: Collection)
    ensures GetWithDefault(NoEntries(), Global, CollectionName(collection)) == StringValue("")
  {
  }

  /** The two classes disagree on exactly one default, the first accepted
      run. */
  lemma DefaultsAgreeExceptPassRunLow(s: DefaultSetting, pipeline: string)
    requires !s.CollectionName?
    ensures Default(s, Pipeline(pipeline)) == Default(s, Global) <==> s != PassRunLow
  {
  }
}
