/** The (extractor, range) pairs a cut filter stores in `m_cuts`, and how a
    filter built from them judges a product.

    The range class and the evaluation loop of the filter base class are not
    part of this model: a range is judged by a caller-supplied `inRange`, and
    a product passes when every stored pair's extracted value is in range.
    The regular-expression engine (case-insensitive, POSIX-extended) is also
    external and enters as `Regex`. */
module CutRanges {
  import opened Wrappers
  import opened KappaTypes

  /** 2^971, the spacing of `double` values between 2^1023 and 2^1024. */
  const TopUlp: real := 19958403095347198116563727130368385660674512604354575415025472424372118918689640657849579654926357010893424468441924952439724379883935936607391717982848314203200056729510856765175377214443629871826533567445439239933308104551208703888888552684480441575071209068757560416423584952303440099278848.0

  /** `std::numeric_limits<double>::max()`, exactly: (2^53 - 1) * 2^971. */
  const DblMax: real := 9007199254740991.0 * TopUlp

  /** The literal `0.99` as a `double`: 4458563631096791 / 2^52. */
  const Double099: real := 4458563631096791.0 / 4503599627370496.0

  /** What a Pt extractor yields for an object that is not there: the
      `double` product `0.99 * DBL_MAX`, which is 8917127262193581 * 2^971. */
  const PtSentinel: real := 8917127262193581.0 * TopUlp

  /** The sentinel is the `double` nearest the exact product of the two
      `double` operands: a value of the top binade within half a spacing of
      that product. */
  lemma PtSentinelIsRoundedProduct()
    ensures 4503599627370496.0 * TopUlp <= PtSentinel < 9007199254740992.0 * TopUlp
    ensures -TopUlp / 2.0 < PtSentinel - Double099 * DblMax < TopUlp / 2.0
    ensures -1.0 / 18014398509481984.0 <= Double099 - 0.99 <= 1.0 / 18014398509481984.0
    ensures 0.0 < PtSentinel < DblMax
  {
  }

  /** What an |eta| extractor yields for an object that is not there. */
  const AbsEtaSentinel: real := -1.0

  /** `CutRange::LowerThresholdCut(t)` and `CutRange::UpperThresholdCut(t)`. */
  datatype CutRange = LowerThresholdCut(threshold: real) | UpperThresholdCut(threshold: real)

  /** The quantity an extractor lambda reads off the selected object. */
  datatype Quantity = Pt | AbsEta

  /** One extractor lambda: the object index it captured (as `size_t`) and,
      for a trigger-pattern selector, the pattern that must match the
      product's selected trigger name. */
  datatype Extractor = Extractor(quantity: Quantity, index: nat, pattern: Option<string>)

  datatype Cut = Cut(extractor: Extractor, range: CutRange)

  /** `boost::regex` construction (which throws on a malformed pattern) and
      `boost::regex_search(text, pattern)`. */
  datatype Regex = Regex(compiles: string -> bool, search: (string, string) -> bool)

  function Sentinel(q: Quantity): real {
    match q
    case Pt => PtSentinel
    case AbsEta => AbsEtaSentinel
  }

  function Measure(q: Quantity, p4: P4): real {
    match q
    case Pt => p4.pt
    case AbsEta => Abs(p4.eta)
  }

  /** The guard of the extractor's conditional expression. */
  predicate Present(e: Extractor, objects: seq<P4>, selectedHltName: string, regex: Regex) {
    |objects| > e.index && (e.pattern.None? || regex.search(selectedHltName, e.pattern.value))
  }

  /** Running one extractor lambda on the bound product collection. */
  function Extract(e: Extractor, objects: seq<P4>, selectedHltName: string, regex: Regex): real {
    if Present(e, objects, selectedHltName, regex) then Measure(e.quantity, objects[e.index])
    else Sentinel(e.quantity)
  }

  /** The filter built from `cuts`, bound to one product collection, accepts
      the product when every cut's extracted value lies in its range. */
  predicate Passes(cuts: seq<Cut>, collection: ObjectCollection, product: Product, regex: Regex,
                   inRange: (CutRange, real) -> bool)
  {
    var objects := Momenta(product, collection);
    forall i :: 0 <= i < |cuts| ==>
      inRange(cuts[i].range, Extract(cuts[i].extractor, objects, product.selectedHltName, regex))
  }

  /** A cut filter's state: the product member it is bound to
      (`m_validLeptonsMember`) and its stored pairs (`m_cuts`). */
  datatype CutFilter = CutFilter(collection: ObjectCollection, cuts: seq<Cut>)

  predicate FilterPasses(f: CutFilter, product: Product, regex: Regex, inRange: (CutRange, real) -> bool) {
    Passes(f.cuts, f.collection, product, regex, inRange)
  }

  /** An assumed strict reading of `CutRange::IsInRange`: a lower threshold
      admits values strictly above it, an upper threshold values strictly
      below it. */
  predicate StrictInRange(range: CutRange, value: real) {
    match range
    case LowerThresholdCut(t) => value > t
    case UpperThresholdCut(t) => value < t
  }

  /** Appending cuts can only make the filter stricter: the extended list
      accepts exactly the products both parts accept. */
  lemma PassesAppend(a: seq<Cut>, b: seq<Cut>, collection: ObjectCollection, product: Product,
                     regex: Regex, inRange: (CutRange, real) -> bool)
    ensures Passes(a + b, collection, product, regex, inRange)
        <==> Passes(a, collection, product, regex, inRange) && Passes(b, collection, product, regex, inRange)
  {
    var ab := a + b;
    if Passes(a, collection, product, regex, inRange) && Passes(b, collection, product, regex, inRange) {
      forall i | 0 <= i < |ab|
        ensures inRange(ab[i].range, Extract(ab[i].extractor, Momenta(product, collection), product.selectedHltName, regex))
      {
        if i >= |a| {
          assert ab[i] == b[i - |a|];
        }
      }
    }
    if Passes(ab, collection, product, regex, inRange) {
      forall i | 0 <= i < |a|
        ensures inRange(a[i].range, Extract(a[i].extractor, Momenta(product, collection), product.selectedHltName, regex))
      {
        assert ab[i] == a[i];
      }
      forall i | 0 <= i < |b|
        ensures inRange(b[i].range, Extract(b[i].extractor, Momenta(product, collection), product.selectedHltName, regex))
      {
        assert ab[|a| + i] == b[i];
      }
    }
  }
}
