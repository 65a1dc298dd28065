/** The event half of `ValidJetsProducerBase`: `Produce` picks the input
    jets, judges each one in turn and appends it to the valid or the invalid
    list of the product; the quantities registered in `Init` read the valid
    list back.

    Delta-R, the kinematic cuts of `ValidPhysicsObjectTools` and the
    overridable `AdditionalCriteria` are not part of this model and enter as
    `Hooks`. The two hooks receive the product as it stands when the jet is
    judged, i.e. with the jets before it already placed. */
module ValidJetsProducer {
  import opened Wrappers
  import opened KappaTypes
  import opened ValidJetsConfig

  datatype Hooks = Hooks(
    deltaR: (P4, P4) -> real,
    passKinematicCuts: (Jet, Event, Product) -> bool,
    additionalCriteria: (Jet, Event, Product) -> bool)

  /** The base class's `AdditionalCriteria`, which accepts every jet. */
  function AcceptAll(): (Jet, Event, Product) -> bool {
    (jet: Jet, event: Event, product: Product) => true
  }

  // ---------------------------------------------------------------------
  // Input selection.

  /** The corrected jets are read in "corrected" mode, and in "auto" mode
      when there are any. */
  predicate UsesCorrected(input: ValidJetsInput, correctedJets: seq<Jet>) {
    (input == Auto && |correctedJets| > 0) || input == Corrected
  }

  /** The list of jet pointers `Produce` fills from its source. */
  method CopyJets(source: seq<Jet>) returns (jets: seq<Jet>)
    ensures jets == source
  {
    jets := [];
    for jetIndex := 0 to |source|
      invariant jets == source[..jetIndex]
    {
      jets := jets + [source[jetIndex]];
    }
    assert source[..|source|] == source;
  }

  function InputJets(config: Config, event: Event, product: Product): seq<Jet>
    requires event.basicJets.Some?
  {
    if UsesCorrected(config.input, product.correctedJets) then product.correctedJets else event.basicJets.value
  }

  /** Which jets `Produce` judges: the corrected jets in "corrected" mode,
      whatever the event's basic jets are; the basic jets in "uncorrected"
      mode, whatever the corrected jets are; and in "auto" mode the corrected
      jets unless there are none. */
  lemma InputJetsSource(config: Config, event: Event, event': Event, product: Product, product': Product)
    requires event.basicJets.Some? && event'.basicJets.Some?
    ensures config.input == Corrected ==>
              InputJets(config, event, product) == product.correctedJets
              && InputJets(config, event', product) == InputJets(config, event, product)
    ensures config.input == Uncorrected ==>
              InputJets(config, event, product) == event.basicJets.value
              && InputJets(config, event, product') == InputJets(config, event, product)
    ensures config.input == Auto ==>
              InputJets(config, event, product)
              == if |product.correctedJets| > 0 then product.correctedJets else event.basicJets.value
  {
  }

  // ---------------------------------------------------------------------
  // Judging one jet.

  predicate IsValidJet(config: Config, jet: Jet, event: Event, product: Product, hooks: Hooks, deltaRCut: real) {
    && PassesJetID(jet, config.maxFraction, config.version)
    && PassesTracker(jet)
    && IsolatedFromLeptons(jet, product.validLeptons, hooks.deltaR, deltaRCut)
    && hooks.passKinematicCuts(jet, event, product)
    && hooks.additionalCriteria(jet, event, product)
  }

  /** The verdict on a jet, and whether the short-circuit evaluation reached
      the kinematic cuts and the additional criteria at all. */
  datatype Verdict = Verdict(valid: bool, askedKinematic: bool, askedAdditional: bool)

  /** The body of the jet loop, with its `&&` chain and its lepton loop that
      stops at the first lepton too close to the jet. */
  method EvaluateJet(config: Config, jet: Jet, event: Event, product: Product, hooks: Hooks, deltaRCut: real)
    returns (v: Verdict)
    ensures v.valid == IsValidJet(config, jet, event, product, hooks, deltaRCut)
    ensures v.askedKinematic <==>
              PassesJetID(jet, config.maxFraction, config.version) && PassesTracker(jet)
              && IsolatedFromLeptons(jet, product.validLeptons, hooks.deltaR, deltaRCut)
    ensures v.askedAdditional <==> v.askedKinematic && hooks.passKinematicCuts(jet, event, product)
  {
    var maxFraction := config.maxFraction;
    var validJet := true;
    validJet := validJet
                && jet.neutralHadronFraction < maxFraction
                && jet.photonFraction + jet.hfEMFraction < maxFraction
                && jet.nConstituents > 1;
    if config.version == ID2010 || config.version == ID2014 {
      validJet := validJet && jet.neutralHadronFraction + jet.hfHadronFraction < maxFraction;
    }
    if config.version == ID2014 {
      validJet := validJet && jet.muonFraction < 0.8;
    }
    if Abs(jet.p4.eta) <= 2.4 {
      validJet := validJet && jet.chargedHadronFraction > 0.0 && jet.nCharged > 0 && jet.electronFraction < 0.99;
    }
    ghost var identified := validJet;
    assert identified <==> PassesJetID(jet, maxFraction, config.version) && PassesTracker(jet);
    var leptons := product.validLeptons;
    var k := 0;
    while validJet && k < |leptons|
      invariant 0 <= k <= |leptons|
      invariant validJet <==> identified && forall i :: 0 <= i < k ==> hooks.deltaR(jet.p4, leptons[i].p4) > deltaRCut
      decreases |leptons| - k
    {
      validJet := validJet && hooks.deltaR(jet.p4, leptons[k].p4) > deltaRCut;
      k := k + 1;
    }
    var askedKinematic := validJet;
    validJet := validJet && hooks.passKinematicCuts(jet, event, product);
    var askedAdditional := validJet;
    validJet := validJet && hooks.additionalCriteria(jet, event, product);
    return Verdict(validJet, askedKinematic, askedAdditional);
  }

  // ---------------------------------------------------------------------
  // The partition.

  /** Appending one judged jet to the list its verdict names. */
  function Place(product: Product, jet: Jet, valid: bool): Product {
    if valid then product.(validJets := product.validJets + [jet])
    else product.(invalidJets := product.invalidJets + [jet])
  }

  /** The jet loop of `Produce`, front to back. */
  function Classify(config: Config, jets: seq<Jet>, event: Event, product: Product, hooks: Hooks, deltaRCut: real): Product
    decreases |jets|
  {
    if |jets| == 0 then product
    else
      var valid := IsValidJet(config, jets[0], event, product, hooks, deltaRCut);
      Classify(config, jets[1..], event, Place(product, jets[0], valid), hooks, deltaRCut)
  }

  /** The verdict each jet receives, in the state the loop has reached when
      it comes to that jet. */
  function Decisions(config: Config, jets: seq<Jet>, event: Event, product: Product, hooks: Hooks, deltaRCut: real)
    : (d: seq<bool>)
    ensures |d| == |jets|
    decreases |jets|
  {
    if |jets| == 0 then []
    else
      var valid := IsValidJet(config, jets[0], event, product, hooks, deltaRCut);
      [valid] + Decisions(config, jets[1..], event, Place(product, jets[0], valid), hooks, deltaRCut)
  }

  /** The jets whose verdict is `b`, in their original order. */
  function Select(jets: seq<Jet>, d: seq<bool>, b: bool): seq<Jet>
    requires |d| == |jets|
    decreases |jets|
  {
    if |jets| == 0 then []
    else (if d[0] == b then [jets[0]] else []) + Select(jets[1..], d[1..], b)
  }

  /** Every jet goes to exactly one of the two lists: the two selections
      together hold each input jet once. */
  lemma {:induction false} SelectPartition(jets: seq<Jet>, d: seq<bool>)
    requires |d| == |jets|
    ensures |Select(jets, d, true)| + |Select(jets, d, false)| == |jets|
    ensures multiset(Select(jets, d, true)) + multiset(Select(jets, d, false)) == multiset(jets)
    decreases |jets|
  {
    if |jets| > 0 {
      SelectPartition(jets[1..], d[1..]);
      assert jets == [jets[0]] + jets[1..];
    }
  }

  /** `Produce` keeps everything already in the product, including the
      entries already in both lists, and appends the valid jets to one list
      and the invalid jets to the other, each in input order. */
  lemma {:induction false} ClassifyShape(config: Config, jets: seq<Jet>, event: Event, product: Product, hooks: Hooks,
                                         deltaRCut: real)
    ensures var d := Decisions(config, jets, event, product, hooks, deltaRCut);
            Classify(config, jets, event, product, hooks, deltaRCut)
            == product.(validJets := product.validJets + Select(jets, d, true),
                        invalidJets := product.invalidJets + Select(jets, d, false))
    decreases |jets|
  {
    if |jets| > 0 {
      var valid := IsValidJet(config, jets[0], event, product, hooks, deltaRCut);
      var next := Place(product, jets[0], valid);
      ClassifyShape(config, jets[1..], event, next, hooks, deltaRCut);
      var d := Decisions(config, jets, event, product, hooks, deltaRCut);
      assert d[1..] == Decisions(config, jets[1..], event, next, hooks, deltaRCut);
      assert product.validJets + Select(jets, d, true)
          == next.validJets + Select(jets[1..], d[1..], true);
      assert product.invalidJets + Select(jets, d, false)
          == next.invalidJets + Select(jets[1..], d[1..], false);
    }
  }

  lemma {:induction false} ClassifyAppend(config: Config, a: seq<Jet>, b: seq<Jet>, event: Event, product: Product,
                                          hooks: Hooks, deltaRCut: real)
    ensures Classify(config, a + b, event, product, hooks, deltaRCut)
         == Classify(config, b, event, Classify(config, a, event, product, hooks, deltaRCut), hooks, deltaRCut)
    decreases |a|
  {
    if |a| > 0 {
      var valid := IsValidJet(config, a[0], event, product, hooks, deltaRCut);
      assert (a + b)[1..] == a[1..] + b;
      ClassifyAppend(config, a[1..], b, event, Place(product, a[0], valid), hooks, deltaRCut);
    } else {
      assert a + b == b;
    }
  }

  lemma ClassifySnoc(config: Config, jets: seq<Jet>, event: Event, product: Product, hooks: Hooks, deltaRCut: real, k: int)
    requires 0 <= k < |jets|
    ensures var before := Classify(config, jets[..k], event, product, hooks, deltaRCut);
            Classify(config, jets[..k + 1], event, product, hooks, deltaRCut)
            == Place(before, jets[k], IsValidJet(config, jets[k], event, before, hooks, deltaRCut))
  {
    assert jets[..k + 1] == jets[..k] + [jets[k]];
    ClassifyAppend(config, jets[..k], [jets[k]], event, product, hooks, deltaRCut);
    var before := Classify(config, jets[..k], event, product, hooks, deltaRCut);
    assert [jets[k]][1..] == [];
  }

  /** The verdict recorded for jet k is the test applied to jet k in the
      state after the first k jets were placed. */
  lemma {:induction false} DecisionAt(config: Config, jets: seq<Jet>, event: Event, product: Product, hooks: Hooks,
                                      deltaRCut: real, k: int)
    requires 0 <= k < |jets|
    ensures Decisions(config, jets, event, product, hooks, deltaRCut)[k]
         == IsValidJet(config, jets[k], event, Classify(config, jets[..k], event, product, hooks, deltaRCut), hooks, deltaRCut)
    decreases k
  {
    if k > 0 {
      var valid := IsValidJet(config, jets[0], event, product, hooks, deltaRCut);
      var next := Place(product, jets[0], valid);
      DecisionAt(config, jets[1..], event, next, hooks, deltaRCut, k - 1);
      assert jets[1..][..k - 1] == jets[..k][1..];
      assert jets[1..][k - 1] == jets[k];
    }
  }

  // ---------------------------------------------------------------------
  // Hooks that do not look at the jet lists.

  /** The kinematic cuts and additional criteria do not depend on what is
      already in the valid and invalid jet lists. */
  ghost predicate IgnoresJetLists(hooks: Hooks) {
    forall jet: Jet, event: Event, product: Product, valid: seq<Jet>, invalid: seq<Jet> ::
      && hooks.passKinematicCuts(jet, event, product.(validJets := valid, invalidJets := invalid))
         == hooks.passKinematicCuts(jet, event, product)
      && hooks.additionalCriteria(jet, event, product.(validJets := valid, invalidJets := invalid))
         == hooks.additionalCriteria(jet, event, product)
  }

  lemma PlaceKeepsVerdicts(config: Config, jet: Jet, event: Event, product: Product, placed: Jet, valid: bool,
                           hooks: Hooks, deltaRCut: real)
    requires IgnoresJetLists(hooks)
    ensures IsValidJet(config, jet, event, Place(product, placed, valid), hooks, deltaRCut)
         == IsValidJet(config, jet, event, product, hooks, deltaRCut)
  {
    var p := Place(product, placed, valid);
    assert p == product.(validJets := p.validJets, invalidJets := p.invalidJets);
  }

  /** With such hooks the verdicts do not depend on the order of the jets:
      each jet is judged as if it were the only one. */
  lemma {:induction false} DecisionsIndependent(config: Config, jets: seq<Jet>, event: Event, product: Product,
                                                hooks: Hooks, deltaRCut: real)
    requires IgnoresJetLists(hooks)
    ensures forall k :: 0 <= k < |jets| ==>
              Decisions(config, jets, event, product, hooks, deltaRCut)[k]
              == IsValidJet(config, jets[k], event, product, hooks, deltaRCut)
    decreases |jets|
  {
    if |jets| > 0 {
      var valid := IsValidJet(config, jets[0], event, product, hooks, deltaRCut);
      var next := Place(product, jets[0], valid);
      DecisionsIndependent(config, jets[1..], event, next, hooks, deltaRCut);
      forall k | 1 <= k < |jets|
        ensures Decisions(config, jets, event, product, hooks, deltaRCut)[k]
             == IsValidJet(config, jets[k], event, product, hooks, deltaRCut)
      {
        assert jets[1..][k - 1] == jets[k];
        PlaceKeepsVerdicts(config, jets[k], event, product, jets[0], valid, hooks, deltaRCut);
      }
    }
  }

  lemma AcceptAllIgnoresJetLists(deltaR: (P4, P4) -> real)
    ensures IgnoresJetLists(Hooks(deltaR, AcceptAll(), AcceptAll()))
  {
  }

  // ---------------------------------------------------------------------
  // Produce.

  /** `Produce` stops on the assertion that the event's basic jet collection
      exists, whichever collection it then reads. */
  datatype ProduceError = MissingBasicJets

  method Produce(config: Config, event: Event, product: Product, hooks: Hooks, deltaRCut: real)
    returns (r: Result<Product, ProduceError>)
    ensures r.Failure? <==> event.basicJets.None?
    ensures r.Success? ==>
              r.value == Classify(config, InputJets(config, event, product), event, product, hooks, deltaRCut)
    ensures r.Success? ==>
              |r.value.validJets| + |r.value.invalidJets|
              == |product.validJets| + |product.invalidJets| + |InputJets(config, event, product)|
  {
    if event.basicJets.None? {
      return Failure(MissingBasicJets);
    }
    var jets;
    if UsesCorrected(config.input, product.correctedJets) {
      jets := CopyJets(product.correctedJets);
    } else {
      jets := CopyJets(event.basicJets.value);
    }
    var p := product;
    for k := 0 to |jets|
      invariant p == Classify(config, jets[..k], event, product, hooks, deltaRCut)
    {
      var verdict := EvaluateJet(config, jets[k], event, p, hooks, deltaRCut);
      ClassifySnoc(config, jets, event, product, hooks, deltaRCut, k);
      p := Place(p, jets[k], verdict.valid);
    }
    assert jets[..|jets|] == jets;
    ClassifyShape(config, jets, event, product, hooks, deltaRCut);
    SelectPartition(jets, Decisions(config, jets, event, product, hooks, deltaRCut));
    return Success(p);
  }

  // ---------------------------------------------------------------------
  // Quantities registered in Init.

  datatype Coordinate = PtOf | EtaOf | PhiOf

  function Coord(p4: P4, c: Coordinate): real {
    match c
    case PtOf => p4.pt
    case EtaOf => p4.eta
    case PhiOf => p4.phi
  }

  /** "nJets". */
  function NJets(product: Product): nat {
    |product.validJets|
  }

  /** "leadingJetPt", "leadingJetEta", "leadingJetPhi". */
  function LeadingJet(product: Product, c: Coordinate, undefinedDouble: real): real {
    if |product.validJets| >= 1 then Coord(product.validJets[0].p4, c) else undefinedDouble
  }

  /** "trailingJetPt", "trailingJetEta", "trailingJetPhi". */
  function TrailingJet(product: Product, c: Coordinate, undefinedDouble: real): real {
    if |product.validJets| >= 2 then Coord(product.validJets[1].p4, c) else undefinedDouble
  }

  /** On a product with no valid jets yet, after the jet loop: nJets counts
      the accepted jets, the leading jet is the first accepted input jet and
      the trailing jet the second, and each is `UndefinedDouble` when there
      are too few accepted jets. */
  lemma DerivedQuantitiesAfterProduce(config: Config, jets: seq<Jet>, event: Event, product: Product, hooks: Hooks,
                                      deltaRCut: real, c: Coordinate, undefinedDouble: real)
    requires product.validJets == []
    ensures var after := Classify(config, jets, event, product, hooks, deltaRCut);
            var accepted := Select(jets, Decisions(config, jets, event, product, hooks, deltaRCut), true);
            && NJets(after) == |accepted|
            && LeadingJet(after, c, undefinedDouble) == (if |accepted| >= 1 then Coord(accepted[0].p4, c) else undefinedDouble)
            && TrailingJet(after, c, undefinedDouble) == (if |accepted| >= 2 then Coord(accepted[1].p4, c) else undefinedDouble)
  {
    ClassifyShape(config, jets, event, product, hooks, deltaRCut);
    var accepted := Select(jets, Decisions(config, jets, event, product, hooks, deltaRCut), true);
    assert [] + accepted == accepted;
  }
}
