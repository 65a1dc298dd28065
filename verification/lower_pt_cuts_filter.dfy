/** `LeptonLowerPtCutsFilter`: the cut compiler instantiated with Pt
    extractors, the `0.99 * DBL_MAX` sentinel and lower-threshold ranges.
    The electron, muon, tau and jet filters differ only in the product
    member they are bound to. */
module LowerPtCutsFilter {
  import opened Wrappers
  import opened KappaTypes
  import opened LexicalCast
  import opened OrderedKeys
  import opened CutRanges
  import opened ThresholdCuts
  import opened CutLayout
  import opened SeqConcat

  /** `Initialise(leptonLowerPtCutsVector)` on a filter, given the selector
      map that `ParseVectorToMap` built. */
  method Initialise(f: CutFilter, m: map<string, seq<string>>, stod: string -> Option<real>, regex: Regex)
    returns (r: Result<CutFilter, InitError>)
    ensures r.Success? <==> Accepted(m, stod, regex)
    ensures r.Success? <==> InitialiseOffence(m, stod, regex).None?
    ensures (exists selector, v :: selector in m && v in m[selector] && stod(v).None?) ==> r.Failure?
    ensures r.Success? ==> r.value.collection == f.collection && AllThresholdsParse(m, stod)
                           && r.value.cuts == f.cuts + Compiled(LowerPt, m, stod)
    ensures r.Success? ==> forall j :: |f.cuts| <= j < |r.value.cuts| ==>
              r.value.cuts[j].range.LowerThresholdCut? && r.value.cuts[j].extractor.quantity == Pt
    ensures r.Failure? ==> Some(r.error) == InitialiseOffence(m, stod, regex)
    ensures r.Failure? && r.error.InvalidThreshold? ==>
              r.error.selector in m && r.error.value in m[r.error.selector] && stod(r.error.value).None?
    ensures r.Failure? && r.error.InvalidPattern? ==>
              r.error.pattern in m && ParseInt(r.error.pattern).None? && !regex.compiles(r.error.pattern)
  {
    var cuts := ThresholdCuts.Initialise(f.cuts, LowerPt, m, stod, regex);
    if cuts.Failure? {
      return Failure(cuts.error);
    }
    AppendedCutsAreLowerPt(f.cuts, m, stod, cuts.value);
    return Success(CutFilter(f.collection, cuts.value));
  }

  /** Every cut appended after the existing ones is a LowerThresholdCut on Pt. */
  lemma AppendedCutsAreLowerPt(existing: seq<Cut>, m: map<string, seq<string>>, stod: string -> Option<real>, cuts: seq<Cut>)
    requires AllThresholdsParse(m, stod) && cuts == existing + Compiled(LowerPt, m, stod)
    ensures forall j :: |existing| <= j < |cuts| ==>
              cuts[j].range.LowerThresholdCut? && cuts[j].extractor.quantity == Pt
  {
    var compiled := Compiled(LowerPt, m, stod);
    forall j | |existing| <= j < |cuts|
      ensures cuts[j].range.LowerThresholdCut? && cuts[j].extractor.quantity == Pt
    {
      assert cuts[j] == compiled[j - |existing|];
      CompiledCutOrigin(LowerPt, m, stod, cuts[j]);
    }
  }

  /** The index extractor yields the Pt of the object at its index when the
      collection is long enough, the sentinel otherwise. */
  lemma IndexExtractor(i: int, t: real, objects: seq<P4>, selectedHltName: string, regex: Regex)
    requires 0 <= i <= IntMax
    ensures Extract(IndexCut(LowerPt, i, t).extractor, objects, selectedHltName, regex)
         == if i < |objects| then objects[i].pt else PtSentinel
  {
  }

  /** The pattern extractor yields the Pt only when the object exists and
      the selected trigger name matches the pattern. */
  lemma PatternExtractor(pattern: string, i: int, t: real, objects: seq<P4>, selectedHltName: string, regex: Regex)
    requires 0 <= i <= 20
    ensures Extract(PatternCut(LowerPt, pattern, i, t).extractor, objects, selectedHltName, regex)
         == if i < |objects| && regex.search(selectedHltName, pattern) then objects[i].pt else PtSentinel
  {
  }

  /** Under the strict reading of the ranges, a missing object passes a
      lower-threshold cut exactly when the threshold lies below the sentinel:
      the sentinel makes missing objects pass, not fail. */
  lemma MissingObjectPasses(c: Cut, objects: seq<P4>, selectedHltName: string, regex: Regex)
    requires c.extractor.quantity == Pt && c.range.LowerThresholdCut?
    requires !Present(c.extractor, objects, selectedHltName, regex)
    ensures StrictInRange(c.range, Extract(c.extractor, objects, selectedHltName, regex))
        <==> c.range.threshold < PtSentinel
  {
  }

  /** The map of the two cut strings "0:10.0" and "1:5.0". */
  function ExampleMap(): map<string, seq<string>> {
    map["0" := ["10.0"], "1" := ["5.0"]]
  }

  lemma ExampleKeys()
    ensures SortedKeys(ExampleMap().Keys) == ["0", "1"]
  {
    assert LexLess("0", "1");
    assert ExampleMap().Keys == {"0", "1"};
    StrictlyIncreasingUnique(SortedKeys(ExampleMap().Keys), ["0", "1"]);
  }

  lemma SingleIndexSelector(selector: string, n: int, value: string, t: real, stod: string -> Option<real>)
    requires selector != "default" && ParseInt(selector) == Some(n) && stod(value) == Some(t)
    ensures ThresholdsParse([value], stod)
    ensures SelectorCuts(LowerPt, selector, [value], stod) == [IndexCut(LowerPt, n, t)]
  {
    IndexSelectorLayout(LowerPt, selector, [value], stod);
  }

  lemma ExampleSelectorsAreIndices()
    ensures ParseInt("0") == Some(0) && ParseInt("1") == Some(1)
  {
    assert DigitsValue("0") == 0 by {
      assert "0"[..0] == "";
    }
    assert DigitsValue("1") == 1 by {
      assert "1"[..0] == "";
    }
  }

  lemma ExampleBlocks(stod: string -> Option<real>)
    requires stod("10.0") == Some(10.0) && stod("5.0") == Some(5.0)
    ensures KeysParse(ExampleMap(), ["0", "1"], stod)
    ensures SelectorBlocks(LowerPt, ExampleMap(), ["0", "1"], stod)
         == [[IndexCut(LowerPt, 0, 10.0)], [IndexCut(LowerPt, 1, 5.0)]]
  {
    var m := ExampleMap();
    ExampleSelectorsAreIndices();
    SingleIndexSelector("0", 0, "10.0", 10.0, stod);
    SingleIndexSelector("1", 1, "5.0", 5.0, stod);
    assert m["0"] == ["10.0"] && m["1"] == ["5.0"];
    var blocks := SelectorBlocks(LowerPt, m, ["0", "1"], stod);
    assert blocks[0] == SelectorCuts(LowerPt, "0", ["10.0"], stod);
    assert blocks[1] == SelectorCuts(LowerPt, "1", ["5.0"], stod);
  }

  /** Selectors "0" and "1" each give one index cut, in key order. */
  lemma ExampleCompiled(stod: string -> Option<real>)
    requires stod("10.0") == Some(10.0) && stod("5.0") == Some(5.0)
    ensures AllThresholdsParse(ExampleMap(), stod)
    ensures Compiled(LowerPt, ExampleMap(), stod) == [IndexCut(LowerPt, 0, 10.0), IndexCut(LowerPt, 1, 5.0)]
  {
    ExampleKeys();
    ExampleBlocks(stod);
    var blocks := SelectorBlocks(LowerPt, ExampleMap(), ["0", "1"], stod);
    assert blocks[1..][1..] == [];
    assert Concat(blocks[1..]) == [IndexCut(LowerPt, 1, 5.0)] + Concat(blocks[1..][1..]);
    assert Concat(blocks) == [IndexCut(LowerPt, 0, 10.0)] + Concat(blocks[1..]);
  }

  /** Against electrons of Pt 12 and 3, the first cut passes and the second
      does not, so the product is rejected. */
  lemma OrderingExample(stod: string -> Option<real>, regex: Regex, product: Product)
    requires stod("10.0") == Some(10.0) && stod("5.0") == Some(5.0)
    requires |product.validElectrons| == 2
    requires product.validElectrons[0].p4.pt == 12.0 && product.validElectrons[1].p4.pt == 3.0
    ensures AllThresholdsParse(ExampleMap(), stod)
    ensures Passes([IndexCut(LowerPt, 0, 10.0)], ValidElectrons, product, regex, StrictInRange)
    ensures !Passes(Compiled(LowerPt, ExampleMap(), stod), ValidElectrons, product, regex, StrictInRange)
  {
    ExampleCompiled(stod);
    PairVerdicts(regex, product);
  }

  lemma PairVerdicts(regex: Regex, product: Product)
    requires |product.validElectrons| == 2
    requires product.validElectrons[0].p4.pt == 12.0 && product.validElectrons[1].p4.pt == 3.0
    ensures Passes([IndexCut(LowerPt, 0, 10.0)], ValidElectrons, product, regex, StrictInRange)
    ensures !Passes([IndexCut(LowerPt, 0, 10.0), IndexCut(LowerPt, 1, 5.0)], ValidElectrons, product, regex,
                    StrictInRange)
  {
    ElectronExtracts(regex, product);
    var second := IndexCut(LowerPt, 1, 5.0);
    assert !StrictInRange(second.range, 3.0);
    assert [IndexCut(LowerPt, 0, 10.0), second][1] == second;
  }

  lemma ElectronExtracts(regex: Regex, product: Product)
    requires |product.validElectrons| == 2
    requires product.validElectrons[0].p4.pt == 12.0 && product.validElectrons[1].p4.pt == 3.0
    ensures Extract(IndexCut(LowerPt, 0, 10.0).extractor, Momenta(product, ValidElectrons), product.selectedHltName, regex)
         == 12.0
    ensures Extract(IndexCut(LowerPt, 1, 5.0).extractor, Momenta(product, ValidElectrons), product.selectedHltName, regex)
         == 3.0
  {
    IndexExtractor(0, 10.0, Momenta(product, ValidElectrons), product.selectedHltName, regex);
    IndexExtractor(1, 5.0, Momenta(product, ValidElectrons), product.selectedHltName, regex);
  }
}
