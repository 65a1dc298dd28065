/** `LeptonUpperAbsEtaCutsFilter`: the cut compiler instantiated with |eta|
    extractors, the `-1.0` sentinel and upper-threshold ranges. The
    electron, muon, tau and jet filters differ only in the product member
    they are bound to. */
module UpperAbsEtaCutsFilter {
  import opened Wrappers
  import opened KappaTypes
  import opened LexicalCast
  import opened CutRanges
  import opened ThresholdCuts
  import opened CutLayout

  /** `Initialise(leptonUpperAbsEtaCutsVector)` on a filter, given the
      selector map that `ParseVectorToMap` built. */
  method Initialise(f: CutFilter, m: map<string, seq<string>>, stod: string -> Option<real>, regex: Regex)
    returns (r: Result<CutFilter, InitError>)
    ensures r.Success? <==> Accepted(m, stod, regex)
    ensures r.Success? <==> InitialiseOffence(m, stod, regex).None?
    ensures (exists selector, v :: selector in m && v in m[selector] && stod(v).None?) ==> r.Failure?
    ensures r.Success? ==> r.value.collection == f.collection && AllThresholdsParse(m, stod)
                           && r.value.cuts == f.cuts + Compiled(UpperAbsEta, m, stod)
    ensures r.Success? ==> |r.value.cuts| >= |f.cuts| && r.value.cuts[..|f.cuts|] == f.cuts
    ensures r.Success? ==> forall j :: |f.cuts| <= j < |r.value.cuts| ==>
              r.value.cuts[j].range.UpperThresholdCut? && r.value.cuts[j].extractor.quantity == AbsEta
    ensures r.Failure? ==> Some(r.error) == InitialiseOffence(m, stod, regex)
    ensures r.Failure? && r.error.InvalidThreshold? ==>
              r.error.selector in m && r.error.value in m[r.error.selector] && stod(r.error.value).None?
    ensures r.Failure? && r.error.InvalidPattern? ==>
              r.error.pattern in m && ParseInt(r.error.pattern).None? && !regex.compiles(r.error.pattern)
  {
    var cuts := ThresholdCuts.Initialise(f.cuts, UpperAbsEta, m, stod, regex);
    if cuts.Failure? {
      return Failure(cuts.error);
    }
    AppendedCutsAreUpperAbsEta(f.cuts, m, stod, cuts.value);
    return Success(CutFilter(f.collection, cuts.value));
  }

  /** Every cut appended after the existing ones is a UpperThresholdCut on AbsEta. */
  lemma AppendedCutsAreUpperAbsEta(existing: seq<Cut>, m: map<string, seq<string>>, stod: string -> Option<real>, cuts: seq<Cut>)
    requires AllThresholdsParse(m, stod) && cuts == existing + Compiled(UpperAbsEta, m, stod)
    ensures forall j :: |existing| <= j < |cuts| ==>
              cuts[j].range.UpperThresholdCut? && cuts[j].extractor.quantity == AbsEta
  {
    var compiled := Compiled(UpperAbsEta, m, stod);
    forall j | |existing| <= j < |cuts|
      ensures cuts[j].range.UpperThresholdCut? && cuts[j].extractor.quantity == AbsEta
    {
      assert cuts[j] == compiled[j - |existing|];
      CompiledCutOrigin(UpperAbsEta, m, stod, cuts[j]);
    }
  }

  /** The index extractor yields |eta| of the object at its index when the
      collection is long enough, -1 otherwise. */
  lemma IndexExtractor(i: int, t: real, objects: seq<P4>, selectedHltName: string, regex: Regex)
    requires 0 <= i <= IntMax
    ensures Extract(IndexCut(UpperAbsEta, i, t).extractor, objects, selectedHltName, regex)
         == if i < |objects| then Abs(objects[i].eta) else -1.0
  {
  }

  /** The pattern extractor yields |eta| only when the object exists and the
      selected trigger name matches the pattern. */
  lemma PatternExtractor(pattern: string, i: int, t: real, objects: seq<P4>, selectedHltName: string, regex: Regex)
    requires 0 <= i <= 20
    ensures Extract(PatternCut(UpperAbsEta, pattern, i, t).extractor, objects, selectedHltName, regex)
         == if i < |objects| && regex.search(selectedHltName, pattern) then Abs(objects[i].eta) else -1.0
  {
  }

  /** The extracted value is non-negative exactly when the object is there
      (and, for a pattern cut, the pattern matched). */
  lemma NonNegativeIffPresent(e: Extractor, objects: seq<P4>, selectedHltName: string, regex: Regex)
    requires e.quantity == AbsEta
    ensures Extract(e, objects, selectedHltName, regex) >= 0.0 <==> Present(e, objects, selectedHltName, regex)
  {
  }

  /** Under the strict reading of the ranges, a missing object passes an
      upper-threshold cut exactly when the threshold is above -1, while a
      present object fails every threshold at or below 0: for thresholds in
      (-1, 0] only missing objects pass. */
  lemma MissingObjectPasses(c: Cut, objects: seq<P4>, selectedHltName: string, regex: Regex)
    requires c.extractor.quantity == AbsEta && c.range.UpperThresholdCut?
    ensures !Present(c.extractor, objects, selectedHltName, regex) ==>
              (StrictInRange(c.range, Extract(c.extractor, objects, selectedHltName, regex)) <==> c.range.threshold > -1.0)
    ensures Present(c.extractor, objects, selectedHltName, regex) && c.range.threshold <= 0.0 ==>
              !StrictInRange(c.range, Extract(c.extractor, objects, selectedHltName, regex))
  {
  }
}
