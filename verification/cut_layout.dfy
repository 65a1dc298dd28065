/** Where each cut lands in the list the compiler builds: how many cuts a
    selector contributes, which index, pattern and threshold each one
    carries, and in what order the selectors' cut lists follow each other. */
module CutLayout {
  import opened Wrappers
  import opened KappaTypes
  import opened LexicalCast
  import opened OrderedKeys
  import opened SeqConcat
  import opened CutRanges
  import opened ThresholdCuts

  /** Within one threshold value the index cuts come first, indices in the
      order listed, then 21 cuts per pattern, indices 0..20 ascending. */
  lemma ValueCutsLayout(kind: CutKind, d: Selection, t: real)
    ensures |ValueCuts(kind, d, t)| == |d.indices| + 21 * |d.hltNames|
    ensures forall k :: 0 <= k < |d.indices| ==> ValueCuts(kind, d, t)[k] == IndexCut(kind, d.indices[k], t)
    ensures forall k :: |d.indices| <= k < |ValueCuts(kind, d, t)| ==>
              (k - |d.indices|) / 21 < |d.hltNames|
              && ValueCuts(kind, d, t)[k] == PatternCut(kind, d.hltNames[(k - |d.indices|) / 21], (k - |d.indices|) % 21, t)
  {
    var blocks := PatternBlocks(kind, d.hltNames, t);
    ConcatUniform(blocks, 21);
    var r := ValueCuts(kind, d, t);
    forall k | |d.indices| <= k < |r|
      ensures (k - |d.indices|) / 21 < |d.hltNames|
      ensures r[k] == PatternCut(kind, d.hltNames[(k - |d.indices|) / 21], (k - |d.indices|) % 21, t)
    {
      var p := k - |d.indices|;
      assert r[k] == Concat(blocks)[p];
      assert p / 21 < |blocks| && Concat(blocks)[p] == blocks[p / 21][p % 21];
    }
  }

  /** The cut count for one threshold value is the selector's width. */
  lemma ValueCutsWidth(kind: CutKind, selector: string, t: real)
    ensures |ValueCuts(kind, Dispatch(selector), t)| == SelectorWidth(selector)
  {
    ValueCutsLayout(kind, Dispatch(selector), t);
  }

  lemma SelectorCutsLength(kind: CutKind, selector: string, values: seq<string>, stod: string -> Option<real>)
    requires ThresholdsParse(values, stod)
    ensures |SelectorCuts(kind, selector, values, stod)| == |values| * SelectorWidth(selector)
  {
    var blocks := ValueBlocks(kind, selector, values, stod);
    forall q | 0 <= q < |blocks| ensures |blocks[q]| == SelectorWidth(selector) {
      ValueCutsWidth(kind, selector, stod(values[q]).value);
    }
    ConcatUniformLength(blocks, SelectorWidth(selector));
  }

  /** One selector with k threshold values contributes 21k cuts when it is
      "default" or a pattern and k cuts when it is an integer; cut j belongs
      to threshold value j / width, and is cut j % width of that value. */
  lemma SelectorCutsLayout(kind: CutKind, selector: string, values: seq<string>, stod: string -> Option<real>)
    requires ThresholdsParse(values, stod)
    ensures selector == "default" ==> |SelectorCuts(kind, selector, values, stod)| == 21 * |values|
    ensures selector != "default" && ParseInt(selector).Some? ==> |SelectorCuts(kind, selector, values, stod)| == |values|
    ensures ParseInt(selector).None? ==> |SelectorCuts(kind, selector, values, stod)| == 21 * |values|
    ensures forall j :: 0 <= j < |SelectorCuts(kind, selector, values, stod)| ==>
              j / SelectorWidth(selector) < |values|
              && SelectorCuts(kind, selector, values, stod)[j]
                 == ValueCuts(kind, Dispatch(selector), stod(values[j / SelectorWidth(selector)]).value)[j % SelectorWidth(selector)]
  {
    var w := SelectorWidth(selector);
    var blocks := ValueBlocks(kind, selector, values, stod);
    forall q | 0 <= q < |blocks| ensures |blocks[q]| == w {
      ValueCutsWidth(kind, selector, stod(values[q]).value);
    }
    ConcatUniform(blocks, w);
  }

  /** A "default" selector: cut j tests index j % 21 against threshold
      value j / 21. */
  lemma DefaultSelectorLayout(kind: CutKind, values: seq<string>, stod: string -> Option<real>)
    requires ThresholdsParse(values, stod)
    ensures |SelectorCuts(kind, "default", values, stod)| == 21 * |values|
    ensures forall j :: 0 <= j < |SelectorCuts(kind, "default", values, stod)| ==>
              j / 21 < |values|
              && SelectorCuts(kind, "default", values, stod)[j] == IndexCut(kind, j % 21, stod(values[j / 21]).value)
  {
    SelectorCutsLayout(kind, "default", values, stod);
    forall j | 0 <= j < |SelectorCuts(kind, "default", values, stod)|
      ensures SelectorCuts(kind, "default", values, stod)[j] == IndexCut(kind, j % 21, stod(values[j / 21]).value)
    {
      ValueCutsLayout(kind, Dispatch("default"), stod(values[j / 21]).value);
    }
  }

  /** An integer selector n: cut j tests index n against threshold value j. */
  lemma IndexSelectorLayout(kind: CutKind, selector: string, values: seq<string>, stod: string -> Option<real>)
    requires ThresholdsParse(values, stod)
    requires selector != "default" && ParseInt(selector).Some?
    ensures |SelectorCuts(kind, selector, values, stod)| == |values|
    ensures forall j :: 0 <= j < |values| ==>
              SelectorCuts(kind, selector, values, stod)[j] == IndexCut(kind, ParseInt(selector).value, stod(values[j]).value)
  {
    SelectorCutsLayout(kind, selector, values, stod);
    forall j | 0 <= j < |values|
      ensures SelectorCuts(kind, selector, values, stod)[j] == IndexCut(kind, ParseInt(selector).value, stod(values[j]).value)
    {
      ValueCutsLayout(kind, Dispatch(selector), stod(values[j]).value);
    }
  }

  /** A pattern selector: cut j tests index j % 21, guarded by the pattern,
      against threshold value j / 21. */
  lemma PatternSelectorLayout(kind: CutKind, selector: string, values: seq<string>, stod: string -> Option<real>)
    requires ThresholdsParse(values, stod)
    requires selector != "default" && ParseInt(selector).None?
    ensures |SelectorCuts(kind, selector, values, stod)| == 21 * |values|
    ensures forall j :: 0 <= j < |SelectorCuts(kind, selector, values, stod)| ==>
              j / 21 < |values|
              && SelectorCuts(kind, selector, values, stod)[j] == PatternCut(kind, selector, j % 21, stod(values[j / 21]).value)
  {
    SelectorCutsLayout(kind, selector, values, stod);
    forall j | 0 <= j < |SelectorCuts(kind, selector, values, stod)|
      ensures SelectorCuts(kind, selector, values, stod)[j] == PatternCut(kind, selector, j % 21, stod(values[j / 21]).value)
    {
      ValueCutsLayout(kind, Dispatch(selector), stod(values[j / 21]).value);
    }
  }

  /** Spelling an in-range integer out as a selector addresses that index. */
  lemma IndexSelectorRoundTrip(n: int)
    requires IntMin <= n <= IntMax
    ensures Dispatch(IntToString(n)) == Selection([n], [])
  {
    ParseIntOfIntToString(n);
  }

  /** The largest size a `std::vector` can reach (`PTRDIFF_MAX`). */
  const MaxVectorSize: int := 0x7FFF_FFFF_FFFF_FFFF

  /** A negative integer selector is stored as a wrapped-around `size_t`
      beyond any vector's size: every one of its cuts always sees the
      sentinel. */
  lemma NegativeSelectorSeesSentinel(kind: CutKind, selector: string, values: seq<string>, stod: string -> Option<real>,
                                     objects: seq<P4>, selectedHltName: string, regex: Regex)
    requires ThresholdsParse(values, stod)
    requires selector != "default" && ParseInt(selector).Some? && ParseInt(selector).value < 0
    requires |objects| <= MaxVectorSize
    ensures forall c :: c in SelectorCuts(kind, selector, values, stod) ==>
              !Present(c.extractor, objects, selectedHltName, regex)
              && Extract(c.extractor, objects, selectedHltName, regex) == Sentinel(KindQuantity(kind))
  {
    IndexSelectorLayout(kind, selector, values, stod);
    var cuts := SelectorCuts(kind, selector, values, stod);
    forall c | c in cuts
      ensures !Present(c.extractor, objects, selectedHltName, regex)
    {
      var j :| 0 <= j < |cuts| && cuts[j] == c;
      assert c == IndexCut(kind, ParseInt(selector).value, stod(values[j]).value);
    }
  }

  // ---------------------------------------------------------------------
  // Order between selectors.

  /** The entries of `m` whose selectors sort below `selector`. */
  function MapBelow(m: map<string, seq<string>>, selector: string): (r: map<string, seq<string>>)
    ensures r.Keys == Below(m.Keys, selector)
    ensures forall k :: k in r ==> k in m && r[k] == m[k]
  {
    map k | k in Below(m.Keys, selector) :: m[k]
  }

  /** The entries of `m` whose selectors sort above `selector`. */
  function MapAbove(m: map<string, seq<string>>, selector: string): (r: map<string, seq<string>>)
    ensures r.Keys == Above(m.Keys, selector)
    ensures forall k :: k in r ==> k in m && r[k] == m[k]
  {
    map k | k in Above(m.Keys, selector) :: m[k]
  }

  lemma SelectorBlocksAppend(kind: CutKind, m: map<string, seq<string>>, a: seq<string>, b: seq<string>,
                             stod: string -> Option<real>)
    requires KeysParse(m, a, stod) && KeysParse(m, b, stod)
    ensures KeysParse(m, a + b, stod)
    ensures SelectorBlocks(kind, m, a + b, stod) == SelectorBlocks(kind, m, a, stod) + SelectorBlocks(kind, m, b, stod)
  {
    assert forall i :: 0 <= i < |a + b| ==> (a + b)[i] == if i < |a| then a[i] else b[i - |a|];
  }

  /** The blocks depend only on the entries of the keys they visit. */
  lemma SelectorBlocksAgree(kind: CutKind, m: map<string, seq<string>>, m': map<string, seq<string>>,
                            keys: seq<string>, stod: string -> Option<real>)
    requires KeysParse(m, keys, stod)
    requires forall i :: 0 <= i < |keys| ==> keys[i] in m' && m'[keys[i]] == m[keys[i]]
    ensures KeysParse(m', keys, stod)
    ensures SelectorBlocks(kind, m', keys, stod) == SelectorBlocks(kind, m, keys, stod)
  {
  }

  lemma KeysParseOfSorted(m: map<string, seq<string>>, stod: string -> Option<real>)
    requires AllThresholdsParse(m, stod)
    ensures KeysParse(m, SortedKeys(m.Keys), stod)
  {
    var keys := SortedKeys(m.Keys);
    forall i | 0 <= i < |keys| ensures keys[i] in m {
      assert keys[i] in keys;
    }
  }

  lemma SelectorBlocksAround(kind: CutKind, m: map<string, seq<string>>, lo: seq<string>, selector: string,
                             hi: seq<string>, stod: string -> Option<real>)
    requires KeysParse(m, lo, stod) && KeysParse(m, hi, stod)
    requires selector in m && ThresholdsParse(m[selector], stod)
    ensures KeysParse(m, lo + [selector] + hi, stod)
    ensures Concat(SelectorBlocks(kind, m, lo + [selector] + hi, stod))
         == Concat(SelectorBlocks(kind, m, lo, stod)) + SelectorCuts(kind, selector, m[selector], stod)
            + Concat(SelectorBlocks(kind, m, hi, stod))
  {
    assert KeysParse(m, [selector], stod);
    SelectorBlocksAppend(kind, m, lo, [selector], stod);
    SelectorBlocksAppend(kind, m, lo + [selector], hi, stod);
    var blo, bmid, bhi := SelectorBlocks(kind, m, lo, stod), SelectorBlocks(kind, m, [selector], stod), SelectorBlocks(kind, m, hi, stod);
    ConcatAppend(blo, bmid);
    ConcatAppend(blo + bmid, bhi);
    assert Concat(bmid) == SelectorCuts(kind, selector, m[selector], stod) + Concat(bmid[1..]);
  }

  /** A sub-map compiles to the blocks its sorted keys select from the
      whole map. */
  lemma CompiledOfPart(kind: CutKind, m: map<string, seq<string>>, part: map<string, seq<string>>,
                       stod: string -> Option<real>)
    requires AllThresholdsParse(m, stod)
    requires forall k :: k in part ==> k in m && part[k] == m[k]
    ensures AllThresholdsParse(part, stod)
    ensures KeysParse(m, SortedKeys(part.Keys), stod)
    ensures Compiled(kind, part, stod) == Concat(SelectorBlocks(kind, m, SortedKeys(part.Keys), stod))
  {
    var keys := SortedKeys(part.Keys);
    KeysParseOfSorted(part, stod);
    SelectorBlocksAgree(kind, part, m, keys, stod);
  }

  /** Selectors' cut lists follow the map's key order: the cuts of every
      selector that sorts below `selector` come first, then the cuts of
      `selector`, then those of every selector that sorts above it. */
  lemma CompiledOrder(kind: CutKind, m: map<string, seq<string>>, stod: string -> Option<real>, selector: string)
    requires AllThresholdsParse(m, stod) && selector in m
    ensures AllThresholdsParse(MapBelow(m, selector), stod) && AllThresholdsParse(MapAbove(m, selector), stod)
    ensures Compiled(kind, m, stod)
         == Compiled(kind, MapBelow(m, selector), stod)
            + SelectorCuts(kind, selector, m[selector], stod)
            + Compiled(kind, MapAbove(m, selector), stod)
  {
    var lo, hi := MapBelow(m, selector), MapAbove(m, selector);
    var klo, khi := SortedKeys(lo.Keys), SortedKeys(hi.Keys);
    SortedKeysSplit(m.Keys, selector);
    CompiledOfPart(kind, m, lo, stod);
    CompiledOfPart(kind, m, hi, stod);
    SelectorBlocksAround(kind, m, klo, selector, khi, stod);
  }

  // ---------------------------------------------------------------------
  // Counting and provenance over the whole map.

  /** The number of cuts the selectors `keys` contribute. */
  function CutCount(m: map<string, seq<string>>, keys: seq<string>): nat
    requires forall i :: 0 <= i < |keys| ==> keys[i] in m
  {
    if |keys| == 0 then 0 else |m[keys[0]]| * SelectorWidth(keys[0]) + CutCount(m, keys[1..])
  }

  lemma {:induction false} SelectorBlocksLength(kind: CutKind, m: map<string, seq<string>>, keys: seq<string>,
                                                stod: string -> Option<real>)
    requires KeysParse(m, keys, stod)
    ensures |Concat(SelectorBlocks(kind, m, keys, stod))| == CutCount(m, keys)
    decreases |keys|
  {
    if |keys| > 0 {
      var blocks := SelectorBlocks(kind, m, keys, stod);
      assert KeysParse(m, keys[1..], stod) by {
        assert forall i :: 0 <= i < |keys[1..]| ==> keys[1..][i] == keys[i + 1];
      }
      assert blocks[1..] == SelectorBlocks(kind, m, keys[1..], stod);
      SelectorBlocksLength(kind, m, keys[1..], stod);
      SelectorCutsLength(kind, keys[0], m[keys[0]], stod);
    }
  }

  /** `Initialise` appends exactly as many cuts as the selectors' widths
      times their numbers of threshold values add up to. */
  lemma CompiledLength(kind: CutKind, m: map<string, seq<string>>, stod: string -> Option<real>)
    requires AllThresholdsParse(m, stod)
    ensures KeysParse(m, SortedKeys(m.Keys), stod)
    ensures |Compiled(kind, m, stod)| == CutCount(m, SortedKeys(m.Keys))
  {
    KeysParseOfSorted(m, stod);
    SelectorBlocksLength(kind, m, SortedKeys(m.Keys), stod);
  }

  /** A cut for one threshold value carries that threshold and the kind's
      quantity and range. */
  lemma ValueCutOrigin(kind: CutKind, d: Selection, t: real, c: Cut)
    requires c in ValueCuts(kind, d, t)
    ensures c.range == KindRange(kind, t) && c.extractor.quantity == KindQuantity(kind)
    ensures c.extractor.pattern.None? ==> exists k :: 0 <= k < |d.indices| && c.extractor.index == ToSizeT(d.indices[k])
    ensures c.extractor.pattern.Some? ==> c.extractor.pattern.value in d.hltNames && c.extractor.index <= 20
  {
    ValueCutsLayout(kind, d, t);
    var r := ValueCuts(kind, d, t);
    var k :| 0 <= k < |r| && r[k] == c;
    if k < |d.indices| {
      assert c == IndexCut(kind, d.indices[k], t);
    } else {
      assert (k - |d.indices|) / 21 < |d.hltNames|;
    }
  }

  lemma SelectorCutOrigin(kind: CutKind, selector: string, values: seq<string>, stod: string -> Option<real>, c: Cut)
    requires ThresholdsParse(values, stod)
    requires c in SelectorCuts(kind, selector, values, stod)
    ensures exists v :: v in values && stod(v) == Some(c.range.threshold)
    ensures c.range == KindRange(kind, c.range.threshold) && c.extractor.quantity == KindQuantity(kind)
    ensures c.extractor.pattern.Some? ==> c.extractor.pattern.value == selector
  {
    var blocks := ValueBlocks(kind, selector, values, stod);
    ConcatMembership(blocks, c);
    var j :| 0 <= j < |blocks| && c in blocks[j];
    ValueCutOrigin(kind, Dispatch(selector), stod(values[j]).value, c);
    assert values[j] in values;
  }

  /** Every cut `Initialise` appends is a cut of the filter's own kind whose
      threshold is the parsed value of one of the strings listed under its
      own selector; a pattern-guarded cut's pattern is that selector. */
  lemma CompiledCutOrigin(kind: CutKind, m: map<string, seq<string>>, stod: string -> Option<real>, c: Cut)
    requires AllThresholdsParse(m, stod)
    requires c in Compiled(kind, m, stod)
    ensures c.range == KindRange(kind, c.range.threshold) && c.extractor.quantity == KindQuantity(kind)
    ensures exists selector, v :: selector in m && v in m[selector] && stod(v) == Some(c.range.threshold)
                                  && (c.extractor.pattern.Some? ==> c.extractor.pattern.value == selector)
  {
    var keys := SortedKeys(m.Keys);
    KeysParseOfSorted(m, stod);
    var blocks := SelectorBlocks(kind, m, keys, stod);
    ConcatMembership(blocks, c);
    var i :| 0 <= i < |blocks| && c in blocks[i];
    SelectorCutOrigin(kind, keys[i], m[keys[i]], stod, c);
    var v :| v in m[keys[i]] && stod(v) == Some(c.range.threshold);
    assert keys[i] in m;
  }
}
