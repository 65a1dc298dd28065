/** The parts of the event record and the per-event product that the cut
    filters and the valid-jet producer read or write. Doubles and floats are
    modelled as `real`; pointers into the event are modelled as the values
    they point to. */
module KappaTypes {
  import opened Wrappers

  /** The four-momentum accessors the core calls: `Pt()`, `Eta()`, `Phi()`. */
  datatype P4 = P4(pt: real, eta: real, phi: real)

  /** `std::abs` on a coordinate. */
  function Abs(x: real): (r: real)
    ensures r >= 0.0 && (r == x || r == -x)
  {
    if x < 0.0 then -x else x
  }

  /** A reconstructed lepton; only its four-momentum is read here. */
  datatype Lepton = Lepton(p4: P4)

  /** A particle-flow jet with the energy fractions and multiplicities the
      jet identification reads. */
  datatype Jet = Jet(
    p4: P4,
    neutralHadronFraction: real,
    chargedHadronFraction: real,
    photonFraction: real,
    electronFraction: real,
    muonFraction: real,
    hfHadronFraction: real,
    hfEMFraction: real,
    nConstituents: int,
    nCharged: int)

  /** The raw event: the basic jet collection is a pointer that may be unset. */
  datatype Event = Event(basicJets: Option<seq<Jet>>)

  /** The per-event product fields used by the modelled stages. */
  datatype Product = Product(
    validElectrons: seq<Lepton>,
    validMuons: seq<Lepton>,
    validTaus: seq<Lepton>,
    validLeptons: seq<Lepton>,
    correctedJets: seq<Jet>,
    validJets: seq<Jet>,
    invalidJets: seq<Jet>,
    selectedHltName: string)

  /** The product member a filter is bound to (`&KappaProduct::m_validElectrons`, …). */
  datatype ObjectCollection = ValidElectrons | ValidMuons | ValidTaus | ValidJets

  /** The four-momenta of a sequence of objects, in order. */
  function FourMomenta<T>(xs: seq<T>, p4: T -> P4): (r: seq<P4>)
    ensures |r| == |xs| && forall i :: 0 <= i < |xs| ==> r[i] == p4(xs[i])
  {
    seq(|xs|, i requires 0 <= i < |xs| => p4(xs[i]))
  }

  /** `product.*m_validLeptonsMember`, seen through the objects' four-momenta. */
  function Momenta(product: Product, c: ObjectCollection): seq<P4> {
    match c
    case ValidElectrons => FourMomenta(product.validElectrons, (l: Lepton) => l.p4)
    case ValidMuons => FourMomenta(product.validMuons, (l: Lepton) => l.p4)
    case ValidTaus => FourMomenta(product.validTaus, (l: Lepton) => l.p4)
    case ValidJets => FourMomenta(product.validJets, (j: Jet) => j.p4)
  }
}
