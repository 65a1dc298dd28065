/** The configuration half of `ValidJetsProducerBase`: the three string
    settings mapped to enumerations, the jet-ID tier mapped to the largest
    energy fraction a valid jet may carry, and the per-jet validity test. */
module ValidJetsConfig {
  import opened Wrappers
  import opened KappaTypes
  import opened StringAlgo

  /** `ValidJetsInput`: which jet collection `Produce` reads. */
  datatype ValidJetsInput = Auto | Uncorrected | Corrected

  /** `JetID`: the particle-flow jet identification tier. */
  datatype JetID = NoJetID | Tight | Medium | Loose

  /** `JetIDVersion`: which revision of the identification criteria applies. */
  datatype JetIDVersion = ID2010 | ID2014 | ID73X

  function ToValidJetsInput(s: string): ValidJetsInput {
    if s == "uncorrected" then Uncorrected
    else if s == "corrected" then Corrected
    else Auto
  }

  function ToJetID(s: string): JetID {
    if s == "tight" then Tight
    else if s == "medium" then Medium
    else if s == "loose" then Loose
    else NoJetID
  }

  /** The "73X" comparison can never succeed on a lower-cased string; every
      string other than "2010" and "2014" yields ID73X either way. */
  function ToJetIDVersion(s: string): JetIDVersion {
    if s == "2010" then ID2010
    else if s == "2014" then ID2014
    else if s == "73X" then ID73X
    else ID73X
  }

  /** The lower-case spellings the configuration uses. */
  function InputName(i: ValidJetsInput): string {
    match i
    case Auto => "auto"
    case Uncorrected => "uncorrected"
    case Corrected => "corrected"
  }

  function JetIDName(id: JetID): string {
    match id
    case NoJetID => "none"
    case Tight => "tight"
    case Medium => "medium"
    case Loose => "loose"
  }

  function VersionName(v: JetIDVersion): string {
    match v
    case ID2010 => "2010"
    case ID2014 => "2014"
    case ID73X => "73x"
  }

  /** Every enumeration value is reached from its own spelling. */
  lemma NamesRoundTrip(i: ValidJetsInput, id: JetID, v: JetIDVersion)
    ensures ToValidJetsInput(InputName(i)) == i
    ensures ToJetID(JetIDName(id)) == id
    ensures ToJetIDVersion(VersionName(v)) == v
  {
  }

  /** The mappings are total, with one catch-all each: only the three tier
      names select a jet ID, only "uncorrected" and "corrected" fix the
      input, and only "2010" and "2014" select an older ID version. */
  lemma MappingsCatchAll(s: string)
    ensures ToJetID(s) != NoJetID <==> s == "tight" || s == "medium" || s == "loose"
    ensures ToValidJetsInput(s) != Auto <==> s == "uncorrected" || s == "corrected"
    ensures ToJetIDVersion(s) != ID73X <==> s == "2010" || s == "2014"
    ensures ToJetIDVersion("73x") == ID73X && ToJetIDVersion("73X") == ID73X
  {
  }

  /** The `maxFraction` chain of `Init`. Its last branch, the fatal "not yet
      implemented" report for any other tier, is the `None` here. */
  function MaxFractionChain(id: JetID): Option<real> {
    if id == Tight then Some(0.90)
    else if id == Medium then Some(0.95)
    else if id == Loose then Some(0.99)
    else if id != NoJetID then None
    else Some(1.0)
  }

  /** How strict a tier is: tight is the strictest, no ID the loosest. */
  function Strictness(id: JetID): nat {
    match id
    case Tight => 3
    case Medium => 2
    case Loose => 1
    case NoJetID => 0
  }

  /** The fatal branch is unreachable, and a stricter tier admits a smaller
      largest fraction: 0.90 for tight, 0.95 for medium, 0.99 for loose and
      1.0 without an ID. */
  lemma MaxFractionBySeverity(a: JetID, b: JetID)
    ensures MaxFractionChain(a).Some? && 0.0 < MaxFractionChain(a).value <= 1.0
    ensures Strictness(a) >= Strictness(b) ==> MaxFractionChain(a).value <= MaxFractionChain(b).value
    ensures Strictness(a) > Strictness(b) ==> MaxFractionChain(a).value < MaxFractionChain(b).value
    ensures MaxFractionChain(a).value == 1.0 <==> a == NoJetID
    ensures MaxFractionChain(Tight) == Some(0.90) && MaxFractionChain(Medium) == Some(0.95)
    ensures MaxFractionChain(Loose) == Some(0.99) && MaxFractionChain(NoJetID) == Some(1.0)
  {
  }

  /** The settings `Init` derives, held by the producer. */
  datatype Config = Config(input: ValidJetsInput, jetID: JetID, version: JetIDVersion, maxFraction: real)

  /** `Init`: each string setting is trimmed and lower-cased before mapping. */
  function Init(validJetsInput: string, jetID: string, jetIDVersion: string): (c: Config)
    ensures 0.0 < c.maxFraction <= 1.0
    ensures Some(c.maxFraction) == MaxFractionChain(c.jetID)
  {
    var id := ToJetID(Normalise(jetID));
    MaxFractionBySeverity(id, id);
    Config(ToValidJetsInput(Normalise(validJetsInput)), id, ToJetIDVersion(Normalise(jetIDVersion)),
           MaxFractionChain(id).value)
  }

  /** Blanks around a setting and its letter case do not matter: a setting
      already normalised configures the producer the same way. */
  lemma InitNormalises(validJetsInput: string, jetID: string, jetIDVersion: string)
    ensures Init(validJetsInput, jetID, jetIDVersion)
         == Init(Normalise(validJetsInput), Normalise(jetID), Normalise(jetIDVersion))
  {
    NormaliseIdempotent(validJetsInput);
    NormaliseIdempotent(jetID);
    NormaliseIdempotent(jetIDVersion);
  }

  /** Configuring by the canonical names gives back the named values. */
  lemma InitOfNames(i: ValidJetsInput, id: JetID, v: JetIDVersion)
    ensures Init(InputName(i), JetIDName(id), VersionName(v)).input == i
    ensures Init(InputName(i), JetIDName(id), VersionName(v)).jetID == id
    ensures Init(InputName(i), JetIDName(id), VersionName(v)).version == v
    ensures Init(InputName(i), JetIDName(id), VersionName(v)).maxFraction == MaxFractionChain(id).value
  {
    InputNameIsNormal(i);
    JetIDNameIsNormal(id);
    VersionNameIsNormal(v);
  }

  lemma InputNameIsNormal(i: ValidJetsInput)
    ensures Normalise(InputName(i)) == InputName(i)
  {
    match i
    case Auto => NormalOfName("auto");
    case Uncorrected => NormalOfName("uncorrected");
    case Corrected => NormalOfName("corrected");
  }

  lemma JetIDNameIsNormal(id: JetID)
    ensures Normalise(JetIDName(id)) == JetIDName(id)
  {
    match id
    case NoJetID => NormalOfName("none");
    case Tight => NormalOfName("tight");
    case Medium => NormalOfName("medium");
    case Loose => NormalOfName("loose");
  }

  lemma VersionNameIsNormal(v: JetIDVersion)
    ensures Normalise(VersionName(v)) == VersionName(v)
  {
    match v
    case ID2010 => NormalOfName("2010");
    case ID2014 => NormalOfName("2014");
    case ID73X => NormalOfName("73x");
  }

  lemma NormalOfName(s: string)
    requires forall k :: 0 <= k < |s| ==> 'a' <= s[k] <= 'z' || '0' <= s[k] <= '9'
    ensures Normalise(s) == s
  {
    NormaliseOfNormal(s);
  }

  // ---------------------------------------------------------------------
  // The per-jet test.

  /** The fraction and multiplicity requirements valid at all |eta|, with the
      version-specific extras. */
  predicate PassesJetID(jet: Jet, maxFraction: real, version: JetIDVersion) {
    && jet.neutralHadronFraction < maxFraction
    && jet.photonFraction + jet.hfEMFraction < maxFraction
    && jet.nConstituents > 1
    && (version == ID2010 || version == ID2014 ==> jet.neutralHadronFraction + jet.hfHadronFraction < maxFraction)
    && (version == ID2014 ==> jet.muonFraction < 0.8)
  }

  /** The extra requirements inside the tracker acceptance, |eta| <= 2.4. */
  predicate PassesTracker(jet: Jet) {
    Abs(jet.p4.eta) <= 2.4 ==>
      jet.chargedHadronFraction > 0.0 && jet.nCharged > 0 && jet.electronFraction < 0.99
  }

  /** Lepton cleaning: no valid lepton within the Delta-R cut. */
  predicate IsolatedFromLeptons(jet: Jet, leptons: seq<Lepton>, deltaR: (P4, P4) -> real, deltaRCut: real) {
    forall i :: 0 <= i < |leptons| ==> deltaR(jet.p4, leptons[i].p4) > deltaRCut
  }

  /** A looser tier never rejects a jet a stricter tier accepts. */
  lemma PassesJetIDMonotone(jet: Jet, f1: real, f2: real, version: JetIDVersion)
    requires f1 <= f2 && PassesJetID(jet, f1, version)
    ensures PassesJetID(jet, f2, version)
  {
  }

  lemma StricterTierAcceptsFewer(jet: Jet, a: JetID, b: JetID, version: JetIDVersion)
    requires Strictness(a) >= Strictness(b)
    requires MaxFractionChain(a).Some? && PassesJetID(jet, MaxFractionChain(a).value, version)
    ensures MaxFractionChain(b).Some? && PassesJetID(jet, MaxFractionChain(b).value, version)
  {
    MaxFractionBySeverity(a, b);
    MaxFractionBySeverity(b, b);
    PassesJetIDMonotone(jet, MaxFractionChain(a).value, MaxFractionChain(b).value, version);
  }

  /** The newer criteria only add requirements: a jet that passes the 2014
      criteria passes the 2010 ones, and one that passes 2010 passes 73X. */
  lemma VersionsNest(jet: Jet, maxFraction: real)
    ensures PassesJetID(jet, maxFraction, ID2014) ==> PassesJetID(jet, maxFraction, ID2010)
    ensures PassesJetID(jet, maxFraction, ID2010) ==> PassesJetID(jet, maxFraction, ID73X)
  {
  }
}
