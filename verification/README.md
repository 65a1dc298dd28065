# KappaAnalysis core: object cut filters, the valid-jets producer and the settings getters

This project is a Dafny model of three parts of Artus/KappaAnalysis, the CMS analysis framework. The model is functional: immutable datatypes and pure functions over sequences, with a few methods for the loops the C++ runs.

**The lower-Pt and upper-|eta| object filters.** `LeptonLowerPtCutsFilter::Initialise` and `LeptonUpperAbsEtaCutsFilter::Initialise` read a map from selector strings to threshold strings. They append one (extractor, range) pair per cut to the filter's `m_cuts`.
- A selector is one of three things:
  - `"default"`, which stands for object indices 0..20;
  - a string that `boost::lexical_cast<int>` accepts, which stands for that one index;
  - anything else, a trigger pattern tried with each of the indices 0..20.
- For every threshold of a selector, in listed order, the filter:
  - parses the threshold with `std::stod`;
  - appends the index cuts;
  - builds a `boost::regex` for the pattern, if there is one, and appends its 21 guarded cuts.
- Selectors are visited in `std::map` order, which is ascending `std::string` order.
- An extractor yields the object's Pt (or |eta|) when the object exists and the pattern, if any, matches the selected trigger name. Otherwise it yields a sentinel: the `double` product `0.99 * DBL_MAX` for Pt and `-1.0` for |eta|.
- The model covers:
  - the selector dispatch, with `lexical_cast<int>` written out exactly: an optional sign, at least one digit, and a value that fits 32 bits;
  - the `size_t` conversion of the index;
  - the map order, as a sorted key sequence;
  - the exact cut layout;
  - both error paths (a threshold that `std::stod` rejects, a pattern that `boost::regex` rejects), and which offender is reported: the first in map order and threshold order;
  - where each cut comes from;
  - how cuts behave on missing objects.

**`ValidJetsProducerBase`.**
- `Init` trims and lower-cases three settings and maps them to `ValidJetsInput`, `JetID` and `JetIDVersion`. The tier sets `maxFraction`: 0.90 for tight, 0.95 for medium, 0.99 for loose, 1.0 with no ID.
- `Produce` asserts that the event's basic jet collection exists. It then picks the corrected or the uncorrected jets and judges each jet in order:
  - the jet ID fractions and multiplicities, with extra requirements that depend on the version;
  - the tracker requirements for |eta| <= 2.4;
  - Delta-R cleaning against the valid leptons, stopping at the first lepton that is too close;
  - the kinematic cuts;
  - `AdditionalCriteria`.
- Each jet is appended to `m_validJets` or `m_invalidJets`. The quantities registered in `Init` (`nJets`, `leadingJet*`, `trailingJet*`) read the valid list back.

**`KappaPipelineSettings` / `KappaGlobalSettings`.**
- Each cached list getter resolves `"Pipelines." + name + "." + Key` in a pipeline, or the bare key globally. It memoises the value in a cache slot of its own.
- The scalar settings with a declared default read the entry under their own key name and fall back to that default when the tree has none, or has one of another type.
- The model proves:
  - no two getters, list or scalar, in any scope or pipeline, read the same key, so an entry for one setting never changes another's value;
  - the cache always agrees with the read-only tree, so repeated calls agree;
  - the declared defaults.

Foreign code enters as function parameters:
- `std::stod`;
- regex construction and search;
- ROOT's Delta-R;
- `PassKinematicCuts` and `AdditionalCriteria`;
- the property-tree readers;
- `DefaultValues::UndefinedDouble`.

`CutRange::IsInRange` is not part of this model, so range evaluation takes the range test as a parameter. `StrictInRange` is an assumed strict reading of `CutRange::IsInRange`: value > t for a lower cut, value < t for an upper cut.

Three consequences of the code as written:
- **Missing objects pass.** A sentinel does not keep a missing object from passing a cut. Under the strict reading:
  - a missing object passes every lower-Pt cut whose threshold is below the `double` value of `0.99 * DBL_MAX`;
  - it passes every upper-|eta| cut whose threshold is above -1.

  See `LowerPtCutsFilter.MissingObjectPasses` and `UpperAbsEtaCutsFilter.MissingObjectPasses`.
- **Negative selectors.** `lexical_cast<int>` accepts `"-1"`, so a negative integer is an index selector. The index is then converted to `size_t`, and the cut always sees the sentinel (`CutLayout.NegativeSelectorSeesSentinel`).
- **The "73X" comparison** in `ToJetIDVersion` runs on a lower-cased string, so it never matches. This does not change the result: every string other than "2010" and "2014" yields `ID73X` either way.

## Model

| member | source | states |
|---|---|---|
| LexicalCast.ParseInt | KappaAnalysis/interface/Filters/ObjectsLowerPtCutFilters.h:45-50 | the cast succeeds exactly on an optionally signed, non-empty digit string whose value fits a 32-bit int, and then yields a value in that range |
| LexicalCast.ParseIntOfIntToString | KappaAnalysis/interface/Filters/ObjectsLowerPtCutFilters.h:46 | every 32-bit int, written in decimal, is read back as itself |
| LexicalCast.DispatchExamples | KappaAnalysis/interface/Filters/ObjectsLowerPtCutFilters.h:40-50 | "default", a pattern, the empty string, a bare sign and a blank-prefixed number are not integers; "3" and "-1" are |
| LexicalCast.OverflowIsNotAnIndex | KappaAnalysis/interface/Filters/ObjectsLowerPtCutFilters.h:46 | 2147483648 does not fit an int, so the cast fails and the selector becomes a pattern |
| OrderedKeys.SortedKeys | KappaAnalysis/interface/Filters/ObjectsLowerPtCutFilters.h:35-36 | the map's keys in iteration order: every key exactly once, strictly ascending |
| OrderedKeys.StrictlyIncreasingUnique | KappaAnalysis/interface/Filters/ObjectsLowerPtCutFilters.h:35-36 | the iteration order is determined by the key set alone |
| OrderedKeys.SortedKeysSplit | KappaAnalysis/interface/Filters/ObjectsLowerPtCutFilters.h:35-36 | the iteration visits the keys below a key, then that key, then the keys above it |
| OrderedKeys.LexLessTotal | KappaAnalysis/interface/Filters/ObjectsLowerPtCutFilters.h:35-36 | string comparison orders any two distinct keys one way or the other |
| StringAlgo.ToLower | KappaAnalysis/interface/Producers/ValidJetsProducer.h:102-104 | lower-casing keeps the length and maps each character through the C-locale `tolower` |
| StringAlgo.TrimIsBlankStrippedSlice | KappaAnalysis/interface/Producers/ValidJetsProducer.h:102-104 | trimming returns a contiguous slice of the input with only whitespace removed before and after it |
| StringAlgo.Normalise | KappaAnalysis/interface/Producers/ValidJetsProducer.h:102-104 | trim-then-lower-case leaves no upper-case letter and no blank at either end |
| StringAlgo.NormaliseIdempotent | KappaAnalysis/interface/Producers/ValidJetsProducer.h:102-104 | normalising twice is the same as normalising once |
| KappaTypes.Abs | KappaAnalysis/interface/Filters/ObjectsUpperAbsEtaCutFilters.h:64 | `std::abs` is non-negative and equals the value or its negation |
| CutRanges.PassesAppend | KappaAnalysis/interface/Filters/ObjectsLowerPtCutFilters.h:61-68 | a filter whose cut list has more cuts appended accepts exactly the products that both parts accept |
| CutRanges.PtSentinelIsRoundedProduct | KappaAnalysis/interface/Filters/ObjectsLowerPtCutFilters.h:63-65 | the Pt sentinel is the `double` result of `0.99 * DBL_MAX`: a top-binade double within half a spacing of the exact product of the `double` 0.99 and `DBL_MAX` |
| ThresholdCuts.KindRange | KappaAnalysis/interface/Filters/ObjectsLowerPtCutFilters.h:67 | each cut's range carries the parsed threshold |
| ThresholdCuts.ToSizeT | KappaAnalysis/interface/Filters/ObjectsLowerPtCutFilters.h:60 | converting an int to size_t keeps non-negative values and wraps negative ones by 2^64 |
| ThresholdCuts.DefaultIndices | KappaAnalysis/interface/Filters/ObjectsLowerPtCutFilters.h:34 | the default index list is 0..20 in order |
| ThresholdCuts.Dispatch | KappaAnalysis/interface/Filters/ObjectsLowerPtCutFilters.h:38-51 | "default" selects the default indices, an int literal its one index, and anything else becomes the one pattern |
| ThresholdCuts.PatternOfDispatch | KappaAnalysis/interface/Filters/ObjectsLowerPtCutFilters.h:44-50 | only a selector that is neither "default" nor an integer contributes a pattern, and the pattern is the selector itself |
| ThresholdCuts.ThresholdOffenceAt | KappaAnalysis/interface/Filters/ObjectsLowerPtCutFilters.h:53-88 | when every threshold of a selector before a position is harmless and the one there throws, its complaint is the selector's, the one the inner loop aborts with |
| ThresholdCuts.ThresholdOffenceNone | KappaAnalysis/interface/Filters/ObjectsLowerPtCutFilters.h:53-88 | a selector raises no complaint exactly when none of its thresholds throws |
| ThresholdCuts.KeysOffenceAt | KappaAnalysis/interface/Filters/ObjectsLowerPtCutFilters.h:36-88 | when every selector before a position in the visiting order is harmless and the one there throws, its complaint is the one the outer loop aborts with |
| ThresholdCuts.KeysOffenceNone | KappaAnalysis/interface/Filters/ObjectsLowerPtCutFilters.h:36-88 | the loop over selectors raises no complaint exactly when no visited selector does |
| ThresholdCuts.SelectorAcceptedIffHarmless | KappaAnalysis/interface/Filters/ObjectsLowerPtCutFilters.h:53-88 | a selector's entry is accepted exactly when none of its thresholds throws in `std::stod` or in building the regex |
| ThresholdCuts.AppendParsedThreshold | KappaAnalysis/interface/Filters/ObjectsLowerPtCutFilters.h:58-87 | after `std::stod` returns, the turn succeeds exactly when the pattern compiles, and otherwise fails on the selector as pattern |
| ThresholdCuts.AppendIndexCuts | KappaAnalysis/interface/Filters/ObjectsLowerPtCutFilters.h:58-69 | the index loop appends one index cut per index, in order, after the cuts already stored |
| ThresholdCuts.AppendPatternBlock | KappaAnalysis/interface/Filters/ObjectsLowerPtCutFilters.h:75-86 | the inner pattern loop appends 21 cuts guarded by the pattern, one per index 0..20 |
| ThresholdCuts.AppendValueCuts | KappaAnalysis/interface/Filters/ObjectsLowerPtCutFilters.h:58-87 | one threshold's cuts are appended exactly when every pattern compiles; otherwise the failure names a pattern that does not compile |
| ThresholdCuts.AppendThresholdCuts | KappaAnalysis/interface/Filters/ObjectsLowerPtCutFilters.h:55-87 | a threshold succeeds exactly when `stod` parses it and the selector's pattern compiles, extends the selector's cut list by that threshold's cuts, and otherwise raises that threshold's offence |
| ThresholdCuts.AppendSelectorCuts | KappaAnalysis/interface/Filters/ObjectsLowerPtCutFilters.h:53-88 | a selector's entry succeeds exactly when all its thresholds parse and, when it has any, its pattern compiles; the failure is the offence of its first offending threshold |
| ThresholdCuts.KeysAcceptedAll | KappaAnalysis/interface/Filters/ObjectsLowerPtCutFilters.h:35-37 | the loop's accumulated acceptance over the visited selectors is the same as acceptance of each visited selector |
| ThresholdCuts.AppendSelectors | KappaAnalysis/interface/Filters/ObjectsLowerPtCutFilters.h:35-89 | visiting selectors in a given order succeeds exactly when every visited selector is accepted, then appends their blocks in that order, and otherwise fails with the first selector's first offence |
| ThresholdCuts.AppendSelectorEntry | KappaAnalysis/interface/Filters/ObjectsLowerPtCutFilters.h:36-88 | one selector's turn extends the accepted prefix and its cut blocks, or fails with the first offence of the whole key sequence |
| ThresholdCuts.AcceptedBySortedKeys | KappaAnalysis/interface/Filters/ObjectsLowerPtCutFilters.h:35-36 | the map is accepted exactly when every selector in iteration order is accepted |
| ThresholdCuts.Initialise | KappaAnalysis/interface/Filters/ObjectsLowerPtCutFilters.h:31-90 | initialisation succeeds exactly when every selector is accepted and then appends all selectors' cuts in map order after the existing cuts; a failure is the first offence in map order and threshold order |
| CutLayout.ValueCutsLayout | KappaAnalysis/interface/Filters/ObjectsLowerPtCutFilters.h:58-87 | one threshold yields its index cuts first, then 21 cuts per pattern, cut k after the index cuts testing index (k - i) mod 21 of pattern (k - i) div 21 |
| CutLayout.ValueCutsWidth | KappaAnalysis/interface/Filters/ObjectsLowerPtCutFilters.h:38-87 | one threshold yields 21 cuts for "default" and for a pattern, and 1 for an integer |
| CutLayout.SelectorCutsLength | KappaAnalysis/interface/Filters/ObjectsLowerPtCutFilters.h:53-88 | a selector yields its width times its number of thresholds |
| CutLayout.SelectorCutsLayout | KappaAnalysis/interface/Filters/ObjectsLowerPtCutFilters.h:53-88 | cut j of a selector belongs to threshold j div width and is cut j mod width of that threshold |
| CutLayout.DefaultSelectorLayout | KappaAnalysis/interface/Filters/ObjectsLowerPtCutFilters.h:40-69 | "default" with k thresholds yields 21k cuts, cut j testing index j mod 21 against threshold j div 21 |
| CutLayout.IndexSelectorLayout | KappaAnalysis/interface/Filters/ObjectsLowerPtCutFilters.h:44-69 | an integer selector n yields one cut per threshold, each testing index n |
| CutLayout.PatternSelectorLayout | KappaAnalysis/interface/Filters/ObjectsLowerPtCutFilters.h:48-87 | a pattern selector yields 21 cuts per threshold, cut j testing index j mod 21 under the pattern |
| CutLayout.IndexSelectorRoundTrip | KappaAnalysis/interface/Filters/ObjectsLowerPtCutFilters.h:44-47 | an int spelled in decimal selects exactly that index and no pattern |
| CutLayout.NegativeSelectorSeesSentinel | KappaAnalysis/interface/Filters/ObjectsLowerPtCutFilters.h:60-65 | a negative integer selector wraps past every possible vector size, so each of its cuts always extracts the sentinel |
| CutLayout.CompiledOrder | KappaAnalysis/interface/Filters/ObjectsLowerPtCutFilters.h:35-36 | in the compiled list, the cuts of the selectors below a selector come first, then its own cuts, then those of the selectors above it |
| CutLayout.SelectorBlocksLength | KappaAnalysis/interface/Filters/ObjectsLowerPtCutFilters.h:35-88 | the blocks of a key sequence hold as many cuts as the keys' widths times their threshold counts |
| CutLayout.CompiledLength | KappaAnalysis/interface/Filters/ObjectsLowerPtCutFilters.h:35-88 | the compiled list is as long as the sum, over selectors, of width times threshold count |
| CutLayout.ValueCutOrigin | KappaAnalysis/interface/Filters/ObjectsLowerPtCutFilters.h:58-87 | every cut of one threshold has the kind's range and quantity, that threshold, an index below 21 or listed, and a pattern only from the selection |
| CutLayout.SelectorCutOrigin | KappaAnalysis/interface/Filters/ObjectsLowerPtCutFilters.h:53-88 | every cut of a selector carries one of its parsed thresholds and, if guarded, the selector as pattern |
| CutLayout.CompiledCutOrigin | KappaAnalysis/interface/Filters/ObjectsLowerPtCutFilters.h:35-89 | every compiled cut comes from some selector of the map and one of that selector's thresholds |
| LowerPtCutsFilter.Initialise | KappaAnalysis/interface/Filters/ObjectsLowerPtCutFilters.h:31-90 | the lower-Pt filter accepts its configuration exactly when every selector compiles, keeps its bound collection, and appends only lower-threshold Pt cuts, in map order; any unparsable threshold makes it fail, and the failure is the first offence |
| LowerPtCutsFilter.AppendedCutsAreLowerPt | KappaAnalysis/interface/Filters/ObjectsLowerPtCutFilters.h:58-87 | every cut the lower-Pt filter appends is a lower-threshold cut on Pt |
| LowerPtCutsFilter.IndexExtractor | KappaAnalysis/interface/Filters/ObjectsLowerPtCutFilters.h:62-66 | an index extractor yields the Pt of the object at that index, or `0.99 * DBL_MAX` when the collection is too short |
| LowerPtCutsFilter.PatternExtractor | KappaAnalysis/interface/Filters/ObjectsLowerPtCutFilters.h:79-83 | a pattern extractor yields the Pt only when the object exists and the selected trigger name matches |
| LowerPtCutsFilter.MissingObjectPasses | KappaAnalysis/interface/Filters/ObjectsLowerPtCutFilters.h:63-67 | under the strict range reading, a missing object passes a lower cut exactly when the threshold is below the sentinel |
| LowerPtCutsFilter.ExampleKeys | KappaAnalysis/interface/Filters/ObjectsLowerPtCutFilters.h:35-36 | the selectors "0" and "1" are visited in that order |
| LowerPtCutsFilter.SingleIndexSelector | KappaAnalysis/interface/Filters/ObjectsLowerPtCutFilters.h:44-69 | an integer selector with one threshold yields the single index cut |
| LowerPtCutsFilter.ExampleSelectorsAreIndices | KappaAnalysis/interface/Filters/ObjectsLowerPtCutFilters.h:46 | "0" and "1" are read as the indices 0 and 1 |
| LowerPtCutsFilter.ExampleBlocks | KappaAnalysis/interface/Filters/ObjectsLowerPtCutFilters.h:35-69 | the cut strings "0:10.0" and "1:5.0" give one block of one index cut each |
| LowerPtCutsFilter.ExampleCompiled | KappaAnalysis/interface/Filters/ObjectsLowerPtCutFilters.h:31-90 | those cut strings compile to the index cuts (0, 10.0) and (1, 5.0), in that order |
| LowerPtCutsFilter.ElectronExtracts | KappaAnalysis/interface/Filters/ObjectsLowerPtCutFilters.h:62-66 | for electrons of Pt 12 and 3, the two index extractors yield 12 and 3 |
| LowerPtCutsFilter.PairVerdicts | KappaAnalysis/interface/Filters/ObjectsLowerPtCutFilters.h:61-67 | those electrons pass the first cut but not both |
| LowerPtCutsFilter.OrderingExample | KappaAnalysis/interface/Filters/ObjectsLowerPtCutFilters.h:61-67 | the filter compiled from those strings rejects electrons of Pt 12 and 3 |
| UpperAbsEtaCutsFilter.Initialise | KappaAnalysis/interface/Filters/ObjectsUpperAbsEtaCutFilters.h:31-90 | the upper-abs-eta filter accepts its configuration exactly when every selector compiles, keeps its existing cuts as a prefix, and appends only upper-threshold abs-eta cuts; the failure is the first offence |
| UpperAbsEtaCutsFilter.AppendedCutsAreUpperAbsEta | KappaAnalysis/interface/Filters/ObjectsUpperAbsEtaCutFilters.h:58-87 | every cut the upper-|eta| filter appends is an upper-threshold cut on abs(eta) |
| UpperAbsEtaCutsFilter.IndexExtractor | KappaAnalysis/interface/Filters/ObjectsUpperAbsEtaCutFilters.h:62-66 | an index extractor yields the object's abs(eta), or -1 when the collection is too short |
| UpperAbsEtaCutsFilter.PatternExtractor | KappaAnalysis/interface/Filters/ObjectsUpperAbsEtaCutFilters.h:79-83 | a pattern extractor yields abs(eta) only when the object exists and the trigger name matches |
| UpperAbsEtaCutsFilter.NonNegativeIffPresent | KappaAnalysis/interface/Filters/ObjectsUpperAbsEtaCutFilters.h:63-65 | the extracted value is non-negative exactly when the object is there |
| UpperAbsEtaCutsFilter.MissingObjectPasses | KappaAnalysis/interface/Filters/ObjectsUpperAbsEtaCutFilters.h:63-67 | under the strict range reading, a missing object passes exactly when the threshold is above -1, and a present object fails any threshold at or below 0 |
| ValidJetsConfig.NamesRoundTrip | KappaAnalysis/interface/Producers/ValidJetsProducer.h:48-84 | each input mode, tier and version is reached from its own lower-case name |
| ValidJetsConfig.MappingsCatchAll | KappaAnalysis/interface/Producers/ValidJetsProducer.h:48-84 | only "uncorrected"/"corrected" fix the input, only the three tier names select an ID, and only "2010"/"2014" select an older version; everything else falls to the last case |
| ValidJetsConfig.MaxFractionBySeverity | KappaAnalysis/interface/Producers/ValidJetsProducer.h:109-117 | the fatal branch is never reached; the largest fraction is 0.90 for tight, 0.95 for medium, 0.99 for loose and 1.0 without an ID, so a stricter tier has a smaller one and only no ID reaches 1.0 |
| ValidJetsConfig.Init | KappaAnalysis/interface/Producers/ValidJetsProducer.h:102-117 | the configured largest fraction is the one of the configured tier, and lies in (0, 1] |
| ValidJetsConfig.InitNormalises | KappaAnalysis/interface/Producers/ValidJetsProducer.h:102-104 | blanks around the settings and letter case do not change the configuration |
| ValidJetsConfig.InitOfNames | KappaAnalysis/interface/Producers/ValidJetsProducer.h:102-117 | configuring by the canonical names yields exactly the named values and the named tier's largest fraction |
| ValidJetsConfig.PassesJetIDMonotone | KappaAnalysis/interface/Producers/ValidJetsProducer.h:187-194 | raising the largest fraction never rejects a jet that passed |
| ValidJetsConfig.StricterTierAcceptsFewer | KappaAnalysis/interface/Producers/ValidJetsProducer.h:109-115 | a jet that passes a stricter tier passes every looser one |
| ValidJetsConfig.VersionsNest | KappaAnalysis/interface/Producers/ValidJetsProducer.h:191-194 | the 2014 requirements imply the 2010 ones, which imply the 73X ones |
| ValidJetsProducer.InputJetsSource | KappaAnalysis/interface/Producers/ValidJetsProducer.h:158-177 | "corrected" judges the corrected jets whatever the basic jets are, "uncorrected" the basic jets whatever the corrected jets are, and "auto" the corrected jets unless there are none |
| ValidJetsProducer.CopyJets | KappaAnalysis/interface/Producers/ValidJetsProducer.h:160-177 | the jet pointer list holds the source jets in their order |
| ValidJetsProducer.EvaluateJet | KappaAnalysis/interface/Producers/ValidJetsProducer.h:182-215 | the short-circuit chain with its early-exit lepton loop decides validity as jet ID, tracker, isolation, kinematics and additional criteria; kinematics are consulted exactly when the earlier checks passed, additional criteria exactly when kinematics passed too |
| ValidJetsProducer.SelectPartition | KappaAnalysis/interface/Producers/ValidJetsProducer.h:217-220 | the valid and the invalid selections together hold every input jet exactly once |
| ValidJetsProducer.ClassifyShape | KappaAnalysis/interface/Producers/ValidJetsProducer.h:180-221 | the jet loop leaves every other product field alone and appends the accepted jets to the valid list and the rejected ones to the invalid list, each in input order |
| ValidJetsProducer.ClassifyAppend | KappaAnalysis/interface/Producers/ValidJetsProducer.h:180-221 | running the loop over two runs of jets is running it over the first, then the second from where the first left off |
| ValidJetsProducer.DecisionAt | KappaAnalysis/interface/Producers/ValidJetsProducer.h:180-221 | the verdict on jet k is the test in the product state after jets 0..k-1 were placed |
| ValidJetsProducer.PlaceKeepsVerdicts | KappaAnalysis/interface/Producers/ValidJetsProducer.h:217-220 | placing a jet does not change any later verdict when the hooks ignore the jet lists |
| ValidJetsProducer.DecisionsIndependent | KappaAnalysis/interface/Producers/ValidJetsProducer.h:212-215 | with hooks that ignore the jet lists, each jet is judged as if it were alone |
| ValidJetsProducer.AcceptAllIgnoresJetLists | KappaAnalysis/interface/Producers/ValidJetsProducer.h:227-231 | the default `AdditionalCriteria` accepts every jet and so ignores the jet lists |
| ValidJetsProducer.Produce | KappaAnalysis/interface/Producers/ValidJetsProducer.h:151-222 | Produce fails exactly when the basic jet collection is absent, even when it would read the corrected jets; otherwise it is the jet loop over the chosen input, and the two lists grow by the number of input jets |
| ValidJetsProducer.DerivedQuantitiesAfterProduce | KappaAnalysis/interface/Producers/ValidJetsProducer.h:120-148 | after Produce from an empty valid list: nJets counts the accepted jets, the leading jet is the first accepted and the trailing the second, each UndefinedDouble when too few were accepted |
| KappaSettings.KeyNameRoundTrip | KappaAnalysis/interface/KappaPipelineSettings.h:28-149 | each getter's key name leads back to that getter, so no two getters share a key name |
| KappaSettings.KeyNameDotFree | KappaAnalysis/interface/KappaPipelineSettings.h:28-149 | no key name contains a dot |
| KappaSettings.AfterLastDotOfJoin | KappaAnalysis/interface/KappaPipelineSettings.h:31 | the part after the last dot of "prefix.key" is the dot-free key |
| KappaSettings.SplitAtLastDot | KappaAnalysis/interface/KappaPipelineSettings.h:31 | two keys joined to their prefixes by a dot are equal only when both prefixes and both keys are |
| KappaSettings.PipelineKeyIsNotGlobal | KappaAnalysis/interface/KappaPipelineSettings.h:240-244 | a pipeline key is never a bare global key |
| KappaSettings.PipelineKeysInjective | KappaAnalysis/interface/KappaPipelineSettings.h:28-32 | a pipeline key determines the pipeline name and the key name |
| KappaSettings.KeyNameInjective | KappaAnalysis/interface/KappaPipelineSettings.h:28-149 | two getters with the same key name are the same getter |
| KappaSettings.ScopedKeysDistinct | KappaAnalysis/interface/KappaPipelineSettings.h:25-368 | keys built from dot-free key names determine the scope, the pipeline and the key name |
| KappaSettings.KeysDistinct | KappaAnalysis/interface/KappaPipelineSettings.h:25-368 | no two list getters of the two classes, in any pipeline, resolve the same property-tree key |
| KappaSettings.GetList | KappaAnalysis/interface/KappaPipelineSettings.h:28-32 | a cached getter on a coherent cache returns the tree's value for its key, fills only its own slot, returns a filled slot unchanged, and keeps the cache coherent |
| KappaSettings.GetListIdempotent | KappaAnalysis/interface/KappaPipelineSettings.h:28-32 | a second call returns the same value and changes nothing |
| KappaSettings.GetManyResolves | KappaAnalysis/interface/KappaPipelineSettings.h:42-46 | every call in any series of calls returns what its key resolves to in the tree |
| KappaSettings.RepeatedCallsAgree | KappaAnalysis/interface/KappaPipelineSettings.h:42-46 | two calls of the same getter in a series return the same value |
| KappaSettings.DefaultKeyNameRoundTrip | KappaAnalysis/interface/KappaPipelineSettings.h:39-289 | each setting with a default is recovered from its key name, and no such name is a list getter's key name |
| KappaSettings.MatchingKeyNameRoundTrip | KappaAnalysis/interface/KappaPipelineSettings.h:80-83 | each "DeltaRTriggerMatching" key name leads back to its trigger object |
| KappaSettings.CollectionKeyNameRoundTrip | KappaAnalysis/interface/KappaPipelineSettings.h:179-238 | each collection-name key leads back to its collection |
| KappaSettings.DefaultKeyNameDotFree | KappaAnalysis/interface/KappaPipelineSettings.h:39-289 | no key name of a setting with a default contains a dot |
| KappaSettings.ScopedKeysDetermine | KappaAnalysis/interface/KappaPipelineSettings.h:25-368 | equal keys built from dot-free names have the same scope, pipeline and name |
| KappaSettings.DefaultKeysDistinct | KappaAnalysis/interface/KappaPipelineSettings.h:39-289 | no two settings with a default, in any scope or pipeline, read the same key |
| KappaSettings.ListAndDefaultKeysDistinct | KappaAnalysis/interface/KappaPipelineSettings.h:25-368 | no setting with a default reads the key of a list getter |
| KappaSettings.Default | KappaAnalysis/interface/KappaPipelineSettings.h:39-83 | each declared default has the C++ type its setting is declared with |
| KappaSettings.GetWithDefault | KappaAnalysis/interface/KappaPipelineSettings.h:39-40 | a setting with a default always yields a value of its declared type: the tree's entry under its own key name in its scope when that entry has the type, and its default when the entry is missing or of another type |
| KappaSettings.EntryIsRead | KappaAnalysis/interface/KappaPipelineSettings.h:39 | an entry of the declared type under a setting's key is what its getter returns |
| KappaSettings.MistypedEntryIsDefault | KappaAnalysis/interface/KappaPipelineSettings.h:39 | an entry of another type under a setting's key makes its getter return the default, whatever else the tree holds |
| KappaSettings.OtherEntryIgnored | KappaAnalysis/interface/KappaPipelineSettings.h:39-289 | an entry for any other setting with a default, in any scope or pipeline, leaves a getter's value unchanged |
| KappaSettings.ListEntryIgnored | KappaAnalysis/interface/KappaPipelineSettings.h:25-368 | an entry under a list getter's key leaves every scalar getter's value unchanged |
| KappaSettings.PipelineRunDefaults | KappaAnalysis/interface/KappaPipelineSettings.h:39-40 | in a pipeline, on an empty tree, PassRunLow is 1 and PassRunHigh is 0 |
| KappaSettings.GlobalRunDefaults | KappaAnalysis/interface/KappaPipelineSettings.h:245-246 | globally, on an empty tree, PassRunLow and PassRunHigh are both 0 |
| KappaSettings.PipelineTriggerDefaults | KappaAnalysis/interface/KappaPipelineSettings.h:78-83 | in a pipeline, on an empty tree, AllowPrescaledTrigger is true and every DeltaRTriggerMatching setting is 0.5 |
| KappaSettings.GlobalTriggerDefaults | KappaAnalysis/interface/KappaPipelineSettings.h:284-289 | globally, on an empty tree, AllowPrescaledTrigger is true and every DeltaRTriggerMatching setting is 0.5 |
| KappaSettings.CollectionNameDefaults | KappaAnalysis/interface/KappaPipelineSettings.h:179-238 | on an empty tree every global collection-name setting is the empty string |
| KappaSettings.DefaultsAgreeExceptPassRunLow | KappaAnalysis/interface/KappaPipelineSettings.h:39-46 | the two classes share every declared default except PassRunLow |

## Left out

- `Utility::ParseVectorToMap` is not part of this model. `Initialise` starts from the map it builds.
- `CutRangeFilterBase` and `CutRange::IsInRange` are not part of this model, and neither is the filter's evaluation loop. Range evaluation takes the range test as a parameter, and `StrictInRange` is an assumed strict reading of it.
- `std::stod`, regex construction, regex search and their icase/extended flags are parameters. The model does not interpret regular expressions.
- An initialisation that throws in `std::stod` or `boost::regex` leaves the cuts appended so far in `m_cuts`. The model returns a `Failure` value instead, without those partial cuts.
- The `LOG(WARNING)` on a "default" selector and on the medium tier are not modelled. The `LOG(FATAL)` for an unknown tier is the `None` of `MaxFractionChain`, which `MaxFractionBySeverity` shows is never reached.
- Floating point is not modelled. Fractions, thresholds and Delta-R are exact reals. The Pt sentinel is the one exception: it is the `double` value of `0.99 * DBL_MAX` (`CutRanges.PtSentinelIsRoundedProduct`). The `float` constants (`maxFraction`, `0.8f`, `2.4f`, `0.99f`, the 0.5 trigger cones) are their decimal values, not their nearest `float`.
- ValidJetsProducer.Produce: treats the `assert` on the basic jet collection as always enabled, so a missing collection is a `Failure` even in "corrected" mode. A build with `NDEBUG` drops the assert, and a "corrected" run then never reads the basic jets.
- ROOT's Delta-R, `ValidPhysicsObjectTools::PassKinematicCuts` and `AdditionalCriteria` are function parameters. They receive the product as it stands when the jet is judged. The model treats them as pure, although the C++ passes `AdditionalCriteria` a mutable product.
- `JetLeptonLowerDeltaRCut` and `DefaultValues::UndefinedDouble` are parameters.
- The `LambdaNtupleConsumer` registry is not modelled; only the values its lambdas return are. `nJets20` and `nJets30` are left out because `KappaProduct::GetNJetsAbovePtThreshold` is not part of this model.
- `boost::algorithm::to_lower_copy` and `trim_copy` follow the classic "C" locale, over single characters.
- `PropertyTreeSupport::GetAsStringList` and `GetAsIntList` are lookup functions in `Tree`. Their behaviour on a missing or malformed key is not modelled.
- `VarCache` and `RETURN_CACHED` are the cache map of `Settings`.
- Pointers into the event (the `TLepton*`, `KLepton*` and `TValidJet*` vectors of the product, and the `TJet*` vector `Produce` fills) are the values they point to. The core never writes through them, so aliasing is not modelled.
- KappaSettings.GetWithDefault: assumes that `IMPL_SETTING_DEFAULT` reads the key `"Pipelines." + name + "." + Key` in a pipeline and the bare key globally, as the list getters do, because the macro body is not part of this model. It also assumes that the macro reads with `ptree::get(path, default)`, so an entry that does not translate to the declared type yields the default. Entries are typed `Scalar` values, and an entry of another kind stands for a failed translation. Conversions that succeed between kinds, such as an integer entry read by a `float` getter, are not modelled. The scalar getters are not cached in the model.
- The scalar settings without a default (`IMPL_SETTING`), and the fatal error on their absence, are not modelled.
- The concrete electron, muon, tau and jet subclasses differ only in the product member they bind. They are represented by `ObjectCollection`; their `Init` methods and filter ids are not part of this model.
- The ValidJetsProducer subclasses for tagged jets are not part of this model.
