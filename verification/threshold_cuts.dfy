/** The declarative cut compiler shared by the lower-Pt and upper-|eta|
    object filters: from the selector -> threshold-strings map it builds the
    ordered list of (extractor, range) pairs.

    A selector is the literal "default" (object indices 0..20), a string
    that `lexical_cast<int>` accepts (that one index), or anything else (a
    trigger pattern, tried with each of the indices 0..20). For every
    threshold string of a selector, in listed order, the compiler parses the
    threshold with `std::stod`, appends one cut per index, then builds the
    pattern's regex and appends one cut per default index. The map is a
    `std::map`, so selectors are visited in ascending key order.

    `std::stod` is external: `stod` yields the parsed value or `None` where
    the library throws. */
module ThresholdCuts {
  import opened Wrappers
  import opened LexicalCast
  import opened OrderedKeys
  import opened SeqConcat
  import opened CutRanges

  /** Which of the two filter templates is compiling. */
  datatype CutKind = LowerPt | UpperAbsEta

  function KindQuantity(kind: CutKind): Quantity {
    match kind
    case LowerPt => Pt
    case UpperAbsEta => AbsEta
  }

  function KindRange(kind: CutKind, threshold: real): (r: CutRange)
    ensures r.threshold == threshold
  {
    match kind
    case LowerPt => LowerThresholdCut(threshold)
    case UpperAbsEta => UpperThresholdCut(threshold)
  }

  const SizeTModulus: int := 0x1_0000_0000_0000_0000

  /** `size_t tmpIndex(*index)`: an `int` converted to a 64-bit `size_t`,
      which wraps negative values around. */
  function ToSizeT(i: int): (r: nat)
    ensures r < SizeTModulus
    ensures 0 <= i < SizeTModulus ==> r == i
    ensures -SizeTModulus <= i < 0 ==> r == i + SizeTModulus
  {
    i % SizeTModulus
  }

  /** The indices a "default" selector and a pattern selector range over. */
  function DefaultIndices(): (r: seq<int>)
    ensures |r| == 21 && forall i :: 0 <= i < 21 ==> r[i] == i
  {
    [0, 1, 2, 3, 4, 5, 6, 7, 8, 9, 10, 11, 12, 13, 14, 15, 16, 17, 18, 19, 20]
  }

  /** The `indices` and `hltNames` vectors filled for one selector. */
  datatype Selection = Selection(indices: seq<int>, hltNames: seq<string>)

  /** The three-way selector dispatch. */
  function Dispatch(selector: string): (d: Selection)
    ensures selector == "default" ==> d.indices == DefaultIndices() && d.hltNames == []
    ensures selector != "default" && ParseInt(selector).Some? ==>
              d.indices == [ParseInt(selector).value] && d.hltNames == []
    ensures selector != "default" && ParseInt(selector).None? ==>
              d.indices == [] && d.hltNames == [selector]
  {
    if selector == "default" then Selection(DefaultIndices(), [])
    else match ParseInt(selector)
      case Some(i) => Selection([i], [])
      case None => Selection([], [selector])
  }

  /** How many cuts one threshold value of a selector produces. */
  function SelectorWidth(selector: string): nat {
    if selector == "default" || ParseInt(selector).None? then 21 else 1
  }

  function IndexCut(kind: CutKind, index: int, threshold: real): Cut {
    Cut(Extractor(KindQuantity(kind), ToSizeT(index), None), KindRange(kind, threshold))
  }

  function PatternCut(kind: CutKind, pattern: string, index: int, threshold: real): Cut {
    Cut(Extractor(KindQuantity(kind), ToSizeT(index), Some(pattern)), KindRange(kind, threshold))
  }

  /** The cuts of the index loop for one threshold. */
  function IndexCuts(kind: CutKind, indices: seq<int>, threshold: real): (r: seq<Cut>)
    ensures |r| == |indices|
  {
    seq(|indices|, k requires 0 <= k < |indices| => IndexCut(kind, indices[k], threshold))
  }

  /** The cuts the default-index loop appends for one pattern and threshold. */
  function PatternBlock(kind: CutKind, pattern: string, threshold: real): (r: seq<Cut>)
    ensures |r| == 21
  {
    seq(21, k requires 0 <= k < 21 => PatternCut(kind, pattern, DefaultIndices()[k], threshold))
  }

  function PatternBlocks(kind: CutKind, names: seq<string>, threshold: real): seq<seq<Cut>> {
    seq(|names|, h requires 0 <= h < |names| => PatternBlock(kind, names[h], threshold))
  }

  /** The cuts of the pattern loop for one threshold. */
  function PatternCuts(kind: CutKind, names: seq<string>, threshold: real): seq<Cut> {
    Concat(PatternBlocks(kind, names, threshold))
  }

  /** Everything appended for one threshold value: index cuts, then pattern cuts. */
  function ValueCuts(kind: CutKind, d: Selection, threshold: real): seq<Cut> {
    IndexCuts(kind, d.indices, threshold) + PatternCuts(kind, d.hltNames, threshold)
  }

  predicate ThresholdsParse(values: seq<string>, stod: string -> Option<real>) {
    forall j :: 0 <= j < |values| ==> stod(values[j]).Some?
  }

  function ValueBlocks(kind: CutKind, selector: string, values: seq<string>, stod: string -> Option<real>): seq<seq<Cut>>
    requires ThresholdsParse(values, stod)
  {
    seq(|values|, j requires 0 <= j < |values| => ValueCuts(kind, Dispatch(selector), stod(values[j]).value))
  }

  /** Everything appended for one selector, value by value in listed order. */
  function SelectorCuts(kind: CutKind, selector: string, values: seq<string>, stod: string -> Option<real>): seq<Cut>
    requires ThresholdsParse(values, stod)
  {
    Concat(ValueBlocks(kind, selector, values, stod))
  }

  predicate PatternsCompile(d: Selection, regex: Regex) {
    forall h :: 0 <= h < |d.hltNames| ==> regex.compiles(d.hltNames[h])
  }

  /** A selector's entry compiles when every threshold parses and, if any
      threshold is listed, its pattern (if it is one) is a valid regex. */
  predicate SelectorAccepted(selector: string, values: seq<string>, stod: string -> Option<real>, regex: Regex) {
    && ThresholdsParse(values, stod)
    && (|values| > 0 ==> PatternsCompile(Dispatch(selector), regex))
  }

  predicate Accepted(m: map<string, seq<string>>, stod: string -> Option<real>, regex: Regex) {
    forall selector :: selector in m ==> SelectorAccepted(selector, m[selector], stod, regex)
  }

  predicate AllThresholdsParse(m: map<string, seq<string>>, stod: string -> Option<real>) {
    forall selector :: selector in m ==> ThresholdsParse(m[selector], stod)
  }

  predicate KeysParse(m: map<string, seq<string>>, keys: seq<string>, stod: string -> Option<real>) {
    forall i :: 0 <= i < |keys| ==> keys[i] in m && ThresholdsParse(m[keys[i]], stod)
  }

  function SelectorBlocks(kind: CutKind, m: map<string, seq<string>>, keys: seq<string>, stod: string -> Option<real>): seq<seq<Cut>>
    requires KeysParse(m, keys, stod)
  {
    seq(|keys|, i requires 0 <= i < |keys| => SelectorCuts(kind, keys[i], m[keys[i]], stod))
  }

  /** The cuts a successful `Initialise` appends: the selectors' cuts in
      ascending key order. */
  function Compiled(kind: CutKind, m: map<string, seq<string>>, stod: string -> Option<real>): seq<Cut>
    requires AllThresholdsParse(m, stod)
  {
    Concat(SelectorBlocks(kind, m, SortedKeys(m.Keys), stod))
  }

  /** Why `Initialise` aborts: `std::stod` threw on a threshold string, or
      `boost::regex` threw on a pattern selector. */
  datatype InitError = InvalidThreshold(selector: string, value: string) | InvalidPattern(pattern: string)

  /** What one threshold string of a selector throws, if anything:
      `std::stod` runs first, then the selector's regex is built. */
  function ValueOffence(selector: string, v: string, stod: string -> Option<real>, regex: Regex): Option<InitError> {
    if stod(v).None? then Some(InvalidThreshold(selector, v))
    else if !PatternsCompile(Dispatch(selector), regex) then Some(InvalidPattern(selector))
    else None
  }

  /** What a selector's entry throws: the complaint of its first offending
      threshold, since the inner loop stops there. */
  function ThresholdOffence(selector: string, values: seq<string>, stod: string -> Option<real>, regex: Regex): Option<InitError>
    decreases |values|
  {
    if |values| == 0 then None
    else if ValueOffence(selector, values[0], stod, regex).Some? then ValueOffence(selector, values[0], stod, regex)
    else ThresholdOffence(selector, values[1..], stod, regex)
  }

  /** When every threshold before position j is harmless and the one at j
      offends, its complaint is the selector's. */
  lemma {:induction false} ThresholdOffenceAt(selector: string, values: seq<string>, stod: string -> Option<real>, regex: Regex, j: int)
    requires 0 <= j < |values| && ValueOffence(selector, values[j], stod, regex).Some?
    requires forall i :: 0 <= i < j ==> ValueOffence(selector, values[i], stod, regex).None?
    ensures ThresholdOffence(selector, values, stod, regex) == ValueOffence(selector, values[j], stod, regex)
    decreases j
  {
    if j > 0 {
      assert ValueOffence(selector, values[0], stod, regex).None?;
      assert forall i :: 0 <= i < j - 1 ==> values[1..][i] == values[i + 1];
      ThresholdOffenceAt(selector, values[1..], stod, regex, j - 1);
    }
  }

  lemma {:induction false} ThresholdOffenceNone(selector: string, values: seq<string>, stod: string -> Option<real>, regex: Regex)
    ensures ThresholdOffence(selector, values, stod, regex).None?
        <==> forall i :: 0 <= i < |values| ==> ValueOffence(selector, values[i], stod, regex).None?
    decreases |values|
  {
    if |values| > 0 {
      ThresholdOffenceNone(selector, values[1..], stod, regex);
      assert forall i :: 0 <= i < |values| - 1 ==> values[1..][i] == values[i + 1];
    }
  }

  function SelectorOffence(m: map<string, seq<string>>, selector: string, stod: string -> Option<real>, regex: Regex): Option<InitError> {
    if selector in m then ThresholdOffence(selector, m[selector], stod, regex) else None
  }

  /** What the loop over `keys` throws: the complaint of the first
      offending selector, since the outer loop stops there too. */
  function KeysOffence(m: map<string, seq<string>>, keys: seq<string>, stod: string -> Option<real>, regex: Regex): Option<InitError>
    decreases |keys|
  {
    if |keys| == 0 then None
    else if SelectorOffence(m, keys[0], stod, regex).Some? then SelectorOffence(m, keys[0], stod, regex)
    else KeysOffence(m, keys[1..], stod, regex)
  }

  lemma {:induction false} KeysOffenceAt(m: map<string, seq<string>>, keys: seq<string>, stod: string -> Option<real>, regex: Regex, j: int)
    requires 0 <= j < |keys| && SelectorOffence(m, keys[j], stod, regex).Some?
    requires forall i :: 0 <= i < j ==> SelectorOffence(m, keys[i], stod, regex).None?
    ensures KeysOffence(m, keys, stod, regex) == SelectorOffence(m, keys[j], stod, regex)
    decreases j
  {
    if j > 0 {
      assert SelectorOffence(m, keys[0], stod, regex).None?;
      assert forall i :: 0 <= i < j - 1 ==> keys[1..][i] == keys[i + 1];
      KeysOffenceAt(m, keys[1..], stod, regex, j - 1);
    }
  }

  lemma {:induction false} KeysOffenceNone(m: map<string, seq<string>>, keys: seq<string>, stod: string -> Option<real>, regex: Regex)
    ensures KeysOffence(m, keys, stod, regex).None?
        <==> forall i :: 0 <= i < |keys| ==> SelectorOffence(m, keys[i], stod, regex).None?
    decreases |keys|
  {
    if |keys| > 0 {
      KeysOffenceNone(m, keys[1..], stod, regex);
      assert forall i :: 0 <= i < |keys| - 1 ==> keys[1..][i] == keys[i + 1];
    }
  }

  /** What `Initialise` throws: the first offence in map order. */
  function InitialiseOffence(m: map<string, seq<string>>, stod: string -> Option<real>, regex: Regex): Option<InitError> {
    KeysOffence(m, SortedKeys(m.Keys), stod, regex)
  }

  /** A selector's entry is accepted exactly when none of its thresholds
      offends. */
  lemma SelectorAcceptedIffHarmless(selector: string, values: seq<string>, stod: string -> Option<real>, regex: Regex)
    ensures SelectorAccepted(selector, values, stod, regex)
        <==> ThresholdOffence(selector, values, stod, regex).None?
  {
    ThresholdOffenceNone(selector, values, stod, regex);
    if |values| > 0 {
      assert ThresholdOffence(selector, values, stod, regex).None? ==> PatternsCompile(Dispatch(selector), regex) by {
        assert ValueOffence(selector, values[0], stod, regex).None? ==> PatternsCompile(Dispatch(selector), regex);
      }
    }
  }

  // ---------------------------------------------------------------------
  // The compiler as the C++ `Initialise` runs it: nested loops appending to m_cuts.

  method AppendIndexCuts(cuts: seq<Cut>, kind: CutKind, indices: seq<int>, threshold: real) returns (r: seq<Cut>)
    ensures r == cuts + IndexCuts(kind, indices, threshold)
  {
    r := cuts;
    for k := 0 to |indices|
      invariant |r| == |cuts| + k && r[..|cuts|] == cuts
      invariant forall k' :: 0 <= k' < k ==> r[|cuts| + k'] == IndexCut(kind, indices[k'], threshold)
    {
      r := r + [IndexCut(kind, indices[k], threshold)];
    }
    assert r == cuts + IndexCuts(kind, indices, threshold);
  }

  method AppendPatternBlock(cuts: seq<Cut>, kind: CutKind, pattern: string, threshold: real) returns (r: seq<Cut>)
    ensures r == cuts + PatternBlock(kind, pattern, threshold)
  {
    var defaultIndices := DefaultIndices();
    r := cuts;
    for k := 0 to |defaultIndices|
      invariant |r| == |cuts| + k && r[..|cuts|] == cuts
      invariant forall k' :: 0 <= k' < k ==> r[|cuts| + k'] == PatternCut(kind, pattern, defaultIndices[k'], threshold)
    {
      r := r + [PatternCut(kind, pattern, defaultIndices[k], threshold)];
    }
    assert r == cuts + PatternBlock(kind, pattern, threshold);
  }

  lemma PatternCutsSnoc(kind: CutKind, names: seq<string>, threshold: real, h: int)
    requires 0 <= h < |names|
    ensures PatternCuts(kind, names[..h + 1], threshold)
         == PatternCuts(kind, names[..h], threshold) + PatternBlock(kind, names[h], threshold)
  {
    assert PatternBlocks(kind, names[..h + 1], threshold)
        == PatternBlocks(kind, names[..h], threshold) + [PatternBlock(kind, names[h], threshold)];
    ConcatSnoc(PatternBlocks(kind, names[..h], threshold), PatternBlock(kind, names[h], threshold));
  }

  lemma SelectorCutsSnoc(kind: CutKind, selector: string, values: seq<string>, stod: string -> Option<real>, j: int)
    requires 0 <= j < |values| && ThresholdsParse(values[..j + 1], stod)
    ensures ThresholdsParse(values[..j], stod) && stod(values[j]).Some?
    ensures SelectorCuts(kind, selector, values[..j + 1], stod)
         == SelectorCuts(kind, selector, values[..j], stod) + ValueCuts(kind, Dispatch(selector), stod(values[j]).value)
  {
    assert values[..j + 1][j] == values[j];
    assert forall j' :: 0 <= j' < j ==> values[..j][j'] == values[..j + 1][j'];
    var b := ValueCuts(kind, Dispatch(selector), stod(values[j]).value);
    assert ValueBlocks(kind, selector, values[..j + 1], stod) == ValueBlocks(kind, selector, values[..j], stod) + [b];
    ConcatSnoc(ValueBlocks(kind, selector, values[..j], stod), b);
  }

  lemma SelectorBlocksSnoc(kind: CutKind, m: map<string, seq<string>>, keys: seq<string>, stod: string -> Option<real>, i: int)
    requires 0 <= i < |keys| && KeysParse(m, keys[..i + 1], stod)
    ensures KeysParse(m, keys[..i], stod) && keys[i] in m && ThresholdsParse(m[keys[i]], stod)
    ensures Concat(SelectorBlocks(kind, m, keys[..i + 1], stod))
         == Concat(SelectorBlocks(kind, m, keys[..i], stod)) + SelectorCuts(kind, keys[i], m[keys[i]], stod)
  {
    assert keys[..i + 1][i] == keys[i];
    assert forall i' :: 0 <= i' < i ==> keys[..i][i'] == keys[..i + 1][i'];
    var b := SelectorCuts(kind, keys[i], m[keys[i]], stod);
    assert SelectorBlocks(kind, m, keys[..i + 1], stod) == SelectorBlocks(kind, m, keys[..i], stod) + [b];
    ConcatSnoc(SelectorBlocks(kind, m, keys[..i], stod), b);
  }

  /** The cuts for one threshold value: the index loop, then the pattern loop
      (which builds each pattern's regex first). */
  method AppendValueCuts(cuts: seq<Cut>, kind: CutKind, d: Selection, threshold: real, regex: Regex)
    returns (r: Result<seq<Cut>, InitError>)
    ensures r.Success? <==> PatternsCompile(d, regex)
    ensures r.Success? ==> r.value == cuts + ValueCuts(kind, d, threshold)
    ensures r.Failure? ==> r.error.InvalidPattern? && r.error.pattern in d.hltNames && !regex.compiles(r.error.pattern)
  {
    var acc := AppendIndexCuts(cuts, kind, d.indices, threshold);
    ghost var base := acc;
    for h := 0 to |d.hltNames|
      invariant forall h' :: 0 <= h' < h ==> regex.compiles(d.hltNames[h'])
      invariant acc == base + PatternCuts(kind, d.hltNames[..h], threshold)
    {
      var name := d.hltNames[h];
      if !regex.compiles(name) {
        return Failure(InvalidPattern(name));
      }
      PatternCutsSnoc(kind, d.hltNames, threshold, h);
      acc := AppendPatternBlock(acc, kind, name, threshold);
    }
    assert d.hltNames[..|d.hltNames|] == d.hltNames;
    return Success(acc);
  }

  /** One selector's entry: every threshold in listed order. */
  method AppendSelectorCuts(cuts: seq<Cut>, kind: CutKind, selector: string, values: seq<string>,
                            stod: string -> Option<real>, regex: Regex)
    returns (r: Result<seq<Cut>, InitError>)
    ensures r.Success? <==> SelectorAccepted(selector, values, stod, regex)
    ensures r.Success? ==> r.value == cuts + SelectorCuts(kind, selector, values, stod)
    ensures r.Failure? ==> Some(r.error) == ThresholdOffence(selector, values, stod, regex)
    ensures r.Failure? && r.error.InvalidThreshold? ==>
              r.error.selector == selector && r.error.value in values && stod(r.error.value).None?
    ensures r.Failure? && r.error.InvalidPattern? ==>
              r.error.pattern in Dispatch(selector).hltNames && !regex.compiles(r.error.pattern)
  {
    var acc := cuts;
    for j := 0 to |values|
      invariant ThresholdsParse(values[..j], stod)
      invariant j > 0 ==> PatternsCompile(Dispatch(selector), regex)
      invariant forall j' :: 0 <= j' < j ==> ValueOffence(selector, values[j'], stod, regex).None?
      invariant acc == cuts + SelectorCuts(kind, selector, values[..j], stod)
    {
      var next := AppendThresholdCuts(cuts, acc, kind, selector, values, j, stod, regex);
      if next.Failure? {
        assert !SelectorAccepted(selector, values, stod, regex);
        ThresholdOffenceAt(selector, values, stod, regex, j);
        return next;
      }
      acc := next.value;
    }
    assert values[..|values|] == values;
    return Success(acc);
  }

  /** The turn of that loop for the threshold at position j. */
  method AppendThresholdCuts(cuts: seq<Cut>, acc: seq<Cut>, kind: CutKind, selector: string, values: seq<string>,
                             j: int, stod: string -> Option<real>, regex: Regex)
    returns (r: Result<seq<Cut>, InitError>)
    requires 0 <= j < |values| && ThresholdsParse(values[..j], stod)
    requires acc == cuts + SelectorCuts(kind, selector, values[..j], stod)
    ensures r.Success? <==> stod(values[j]).Some? && PatternsCompile(Dispatch(selector), regex)
    ensures r.Success? ==> ThresholdsParse(values[..j + 1], stod)
                           && r.value == cuts + SelectorCuts(kind, selector, values[..j + 1], stod)
    ensures r.Failure? ==> Some(r.error) == ValueOffence(selector, values[j], stod, regex)
    ensures r.Failure? && r.error.InvalidThreshold? ==>
              r.error.selector == selector && r.error.value == values[j] && stod(r.error.value).None?
    ensures r.Failure? && r.error.InvalidPattern? ==>
              r.error.pattern in Dispatch(selector).hltNames && !regex.compiles(r.error.pattern)
  {
    var threshold := stod(values[j]);
    if threshold.None? {
      return Failure(InvalidThreshold(selector, values[j]));
    }
    r := AppendParsedThreshold(cuts, acc, kind, selector, values, j, threshold.value, stod, regex);
  }

  /** The rest of that turn once `std::stod` has returned. */
  method AppendParsedThreshold(cuts: seq<Cut>, acc: seq<Cut>, kind: CutKind, selector: string, values: seq<string>,
                               j: int, threshold: real, stod: string -> Option<real>, regex: Regex)
    returns (r: Result<seq<Cut>, InitError>)
    requires 0 <= j < |values| && ThresholdsParse(values[..j], stod) && stod(values[j]) == Some(threshold)
    requires acc == cuts + SelectorCuts(kind, selector, values[..j], stod)
    ensures r.Success? <==> PatternsCompile(Dispatch(selector), regex)
    ensures r.Success? ==> ThresholdsParse(values[..j + 1], stod)
                           && r.value == cuts + SelectorCuts(kind, selector, values[..j + 1], stod)
    ensures r.Failure? ==> r.error == InvalidPattern(selector) && !regex.compiles(selector)
    ensures r.Failure? ==> selector in Dispatch(selector).hltNames
  {
    ThresholdsParseSnoc(values, stod, j);
    SelectorCutsSnoc(kind, selector, values, stod, j);
    r := AppendValueCuts(acc, kind, Dispatch(selector), threshold, regex);
    if r.Failure? {
      PatternOfDispatch(selector, r.error.pattern);
    }
  }

  lemma ThresholdsParseSnoc(values: seq<string>, stod: string -> Option<real>, j: int)
    requires 0 <= j < |values| && ThresholdsParse(values[..j], stod) && stod(values[j]).Some?
    ensures ThresholdsParse(values[..j + 1], stod)
  {
    assert forall j' :: 0 <= j' < j ==> values[..j + 1][j'] == values[..j][j'];
  }

  /** Only a selector that is not an integer (nor "default") contributes a pattern. */
  lemma PatternOfDispatch(selector: string, pattern: string)
    requires pattern in Dispatch(selector).hltNames
    ensures pattern == selector && ParseInt(selector).None? && selector != "default"
  {
  }

  /** One turn of the loop over the map's entries. */
  lemma SelectorsStep(existing: seq<Cut>, acc: seq<Cut>, next: seq<Cut>, kind: CutKind, m: map<string, seq<string>>,
                      keys: seq<string>, stod: string -> Option<real>, regex: Regex, i: int)
    requires 0 <= i < |keys| && keys[i] in m
    requires KeysParse(m, keys[..i], stod) && acc == existing + Concat(SelectorBlocks(kind, m, keys[..i], stod))
    requires SelectorAccepted(keys[i], m[keys[i]], stod, regex)
    requires next == acc + SelectorCuts(kind, keys[i], m[keys[i]], stod)
    ensures KeysParse(m, keys[..i + 1], stod)
    ensures next == existing + Concat(SelectorBlocks(kind, m, keys[..i + 1], stod))
  {
    KeysParseSnoc(m, keys, stod, i);
    SelectorBlocksSnoc(kind, m, keys, stod, i);
  }

  lemma KeysParseSnoc(m: map<string, seq<string>>, keys: seq<string>, stod: string -> Option<real>, i: int)
    requires 0 <= i < |keys| && keys[i] in m
    requires KeysParse(m, keys[..i], stod) && ThresholdsParse(m[keys[i]], stod)
    ensures KeysParse(m, keys[..i + 1], stod)
  {
    assert forall i' :: 0 <= i' < i ==> keys[..i + 1][i'] == keys[..i][i'];
  }

  /** Every selector of `keys` is an entry of `m` that compiles; stated
      from the last key backwards, the way the loop below extends it. */
  predicate KeysAccepted(m: map<string, seq<string>>, keys: seq<string>, stod: string -> Option<real>, regex: Regex)
    decreases |keys|
  {
    |keys| == 0
    || (&& KeysAccepted(m, keys[..|keys| - 1], stod, regex)
        && keys[|keys| - 1] in m
        && SelectorAccepted(keys[|keys| - 1], m[keys[|keys| - 1]], stod, regex))
  }

  lemma {:induction false} KeysAcceptedAll(m: map<string, seq<string>>, keys: seq<string>,
                                           stod: string -> Option<real>, regex: Regex)
    ensures KeysAccepted(m, keys, stod, regex)
        <==> forall i :: 0 <= i < |keys| ==> keys[i] in m && SelectorAccepted(keys[i], m[keys[i]], stod, regex)
    decreases |keys|
  {
    if |keys| > 0 {
      var init := keys[..|keys| - 1];
      KeysAcceptedAll(m, init, stod, regex);
      assert forall i :: 0 <= i < |init| ==> init[i] == keys[i];
    }
  }

  /** The loop over the map's entries, visiting `keys` in the given order. */
  method AppendSelectors(existing: seq<Cut>, kind: CutKind, m: map<string, seq<string>>, keys: seq<string>,
                         stod: string -> Option<real>, regex: Regex)
    returns (r: Result<seq<Cut>, InitError>)
    requires forall i :: 0 <= i < |keys| ==> keys[i] in m
    ensures r.Success? <==> KeysAccepted(m, keys, stod, regex)
    ensures r.Success? ==> KeysParse(m, keys, stod) && r.value == existing + Concat(SelectorBlocks(kind, m, keys, stod))
    ensures r.Success? <==> KeysOffence(m, keys, stod, regex).None?
    ensures r.Failure? ==> Some(r.error) == KeysOffence(m, keys, stod, regex)
    ensures r.Failure? && r.error.InvalidThreshold? ==>
              r.error.selector in m && r.error.value in m[r.error.selector] && stod(r.error.value).None?
    ensures r.Failure? && r.error.InvalidPattern? ==>
              r.error.pattern in m && ParseInt(r.error.pattern).None? && !regex.compiles(r.error.pattern)
  {
    var acc := existing;
    for i := 0 to |keys|
      invariant KeysAccepted(m, keys[..i], stod, regex)
      invariant KeysParse(m, keys[..i], stod)
      invariant forall i' :: 0 <= i' < i ==> SelectorOffence(m, keys[i'], stod, regex).None?
      invariant acc == existing + Concat(SelectorBlocks(kind, m, keys[..i], stod))
    {
      var next := AppendSelectorEntry(existing, acc, kind, m, keys, i, stod, regex);
      if next.Failure? {
        return next;
      }
      acc := next.value;
    }
    assert keys[..|keys|] == keys;
    KeysOffenceNone(m, keys, stod, regex);
    return Success(acc);
  }

  /** The turn of that loop for the selector at position i. */
  method AppendSelectorEntry(existing: seq<Cut>, acc: seq<Cut>, kind: CutKind, m: map<string, seq<string>>,
                             keys: seq<string>, i: int, stod: string -> Option<real>, regex: Regex)
    returns (r: Result<seq<Cut>, InitError>)
    requires 0 <= i < |keys| && forall i' :: 0 <= i' < |keys| ==> keys[i'] in m
    requires KeysAccepted(m, keys[..i], stod, regex) && KeysParse(m, keys[..i], stod)
    requires forall i' :: 0 <= i' < i ==> SelectorOffence(m, keys[i'], stod, regex).None?
    requires acc == existing + Concat(SelectorBlocks(kind, m, keys[..i], stod))
    ensures r.Success? ==> KeysAccepted(m, keys[..i + 1], stod, regex) && KeysParse(m, keys[..i + 1], stod)
    ensures r.Success? ==> forall i' :: 0 <= i' < i + 1 ==> SelectorOffence(m, keys[i'], stod, regex).None?
    ensures r.Success? ==> r.value == existing + Concat(SelectorBlocks(kind, m, keys[..i + 1], stod))
    ensures r.Failure? ==> !KeysAccepted(m, keys, stod, regex)
    ensures r.Failure? ==> Some(r.error) == KeysOffence(m, keys, stod, regex)
    ensures r.Failure? && r.error.InvalidThreshold? ==>
              r.error.selector in m && r.error.value in m[r.error.selector] && stod(r.error.value).None?
    ensures r.Failure? && r.error.InvalidPattern? ==>
              r.error.pattern in m && ParseInt(r.error.pattern).None? && !regex.compiles(r.error.pattern)
  {
    var selector := keys[i];
    r := AppendSelectorCuts(acc, kind, selector, m[selector], stod, regex);
    SelectorAcceptedIffHarmless(selector, m[selector], stod, regex);
    if r.Failure? {
      if r.error.InvalidPattern? {
        PatternOfDispatch(selector, r.error.pattern);
      }
      KeysAcceptedAll(m, keys, stod, regex);
      KeysOffenceAt(m, keys, stod, regex, i);
      return;
    }
    assert keys[..i + 1][..i] == keys[..i];
    SelectorsStep(existing, acc, r.value, kind, m, keys, stod, regex, i);
  }

  lemma AcceptedBySortedKeys(m: map<string, seq<string>>, stod: string -> Option<real>, regex: Regex)
    ensures var keys := SortedKeys(m.Keys);
            (forall i :: 0 <= i < |keys| ==> keys[i] in m)
            && (Accepted(m, stod, regex) <==> forall i :: 0 <= i < |keys| ==> SelectorAccepted(keys[i], m[keys[i]], stod, regex))
            && (KeysParse(m, keys, stod) ==> AllThresholdsParse(m, stod))
  {
    var keys := SortedKeys(m.Keys);
    assert forall i :: 0 <= i < |keys| ==> keys[i] in m by {
      forall i | 0 <= i < |keys| ensures keys[i] in m {
        assert keys[i] in keys;
      }
    }
    forall selector | selector in m
      ensures exists i :: 0 <= i < |keys| && keys[i] == selector
    {
      assert selector in keys;
    }
  }

  /** `Initialise`: the cut lists of all selectors, in `std::map` order,
      appended to the cuts already stored; aborts on the first threshold
      `std::stod` rejects or pattern `boost::regex` rejects. */
  method Initialise(existing: seq<Cut>, kind: CutKind, m: map<string, seq<string>>,
                    stod: string -> Option<real>, regex: Regex)
    returns (r: Result<seq<Cut>, InitError>)
    ensures r.Success? <==> Accepted(m, stod, regex)
    ensures r.Success? ==> AllThresholdsParse(m, stod) && r.value == existing + Compiled(kind, m, stod)
    ensures r.Success? ==> |r.value| >= |existing| && r.value[..|existing|] == existing
    ensures r.Success? <==> InitialiseOffence(m, stod, regex).None?
    ensures r.Failure? ==> Some(r.error) == InitialiseOffence(m, stod, regex)
    ensures r.Failure? && r.error.InvalidThreshold? ==>
              r.error.selector in m && r.error.value in m[r.error.selector] && stod(r.error.value).None?
    ensures r.Failure? && r.error.InvalidPattern? ==>
              r.error.pattern in m && ParseInt(r.error.pattern).None? && !regex.compiles(r.error.pattern)
  {
    var keys := SortedKeys(m.Keys);
    AcceptedBySortedKeys(m, stod, regex);
    KeysAcceptedAll(m, keys, stod, regex);
    r := AppendSelectors(existing, kind, m, keys, stod, regex);
    if r.Success? {
      assert r.value[..|existing|] == existing;
    }
  }
}
