# pdac-report-viewer, modelled in Dafny

The viewer loads a CSV export of structured radiology reports on pancreatic
ductal adenocarcinoma. Each row describes one case. The app works in two steps:

- **Normaliser** (`src/App.js`): keeps the rows that have more than one column
  and a truthy `model`. A fixed list of columns holds single-quoted pseudo-JSON;
  it is decoded with `safeJSONParse`. Each candidate object is merged with
  `strictClean` into a fixed case template (`ensureDataStructure`). Every
  record then has the same keys at every depth.
- **Classification engine** (`src/PancreasCancerReport.js`):
  - maps status codes to labels (`statusMapping`, `getStatusDisplay`);
  - gathers seven vascular and three distant-spread status slots, and drops
    the falsy ones (`filter(Boolean)`);
  - classifies each axis with a precedence rule, combines the two readings
    into an overall resectability verdict, and lists the causes behind that
    verdict;
  - a navigator steps cyclically through the cases with Previous and Next.

Modules, one per file:

- `JsValues` (`js_values.dfy`): JavaScript values, truthiness,
  `typeof === 'object'`, property access and optional chaining, `||` and
  `String(v)`.
- `SafeJson` (`safe_json.dfy`): the quote rewrite and `safeJSONParse`.
- `Normalizer` (`normalizer.dfy`):
  - `strictClean`, both as a function and as the loop the source runs;
  - the case template;
  - `ensureDataStructure`.
- `Ingest` (`ingest.dfy`): the `processCSVData` filter and map.
- `Report` (`report.dfy`): the label table, the classifiers, the lattice and
  the causes. `getResectabilityCauses` is both a method that pushes onto a
  local list and the function that specifies it.
- `Pipeline` (`pipeline.dfy`): normalisation never changes a verdict.
- `ReportNavigator` (`navigator.dfy`): the navigator as a class with a
  mutable `currentIndex`.

`JSON.parse` is the parameter `parse: string -> Option<Value>`. It gives `None`
where the real call throws. JavaScript's decimal rendering of a number is the
parameter `numText`.

The decoder's stated intent is that `{'status': 'A1', 'ref': "it's narrow"}`
decodes with the apostrophe intact. The model follows the code, which does
otherwise: every `'` becomes `"` and the
second `replace` can never change anything. JSON.parse therefore receives
`"it"s narrow"` and fails, so the result is `null`. The lemmas
`ApostropheInDoubleQuotedValueBecomesQuote` and
`ApostropheSplitsDoubleQuotedValue` state this.

There is also a caveat in the classifier. The spread reading becomes
"Unresectable" when any of the three spread slots holds any of `LN2`, `H2` or
`P2`. The causes test each slot only for its own code. A cross-family value,
such as `"LN2"` in the hematogenous slot, gives "Unresectable" with an empty
cause list (`Report.CrossFamilyCodeGivesNoCause`,
`Report.UnresectableWithoutCauses`). When every slot holds codes of its own
family, a verdict has causes exactly when it is not "Resectable"
(`Report.CausesExplainVerdict`).

## Model

| member | source | states |
|---|---|---|
| SafeJson.SingleToDoubleAt | src/App.js:12 | the first `replace` keeps the length and turns exactly the `'` characters into `"` |
| SafeJson.DoubleToSingle | src/App.js:12 | the callback's `p1.replace(/"/g, "'")` keeps the length and turns exactly the `"` characters into `'` |
| SafeJson.NonQuoteRun | src/App.js:12 | the greedy `[^"]*` match is the longest prefix free of `"`; it stops at a `"` or at the end |
| SafeJson.KeyPassIsIdentity | src/App.js:12 | the second `replace` (left-to-right scan for `"…":`) returns its input unchanged, for every string |
| SafeJson.KeyPassFixesRewrite | src/App.js:12 | the second `replace` changes nothing in the first one's output |
| SafeJson.RewriteIsQuoteSwap | src/App.js:12 | the text handed to JSON.parse has the cell's length; every `'` became `"`, every other character is in place, and no `'` is left |
| SafeJson.SafeJsonParse | src/App.js:9-18 | a falsy cell gives `null` with no parse; a non-string cell gives `null`, because `replace` throws inside the `try`; a parse failure gives `null`; otherwise the result is the parser's value on the quote-swapped text |
| SafeJson.ApostropheInDoubleQuotedValueBecomesQuote | src/App.js:12-13 | `{'ref': "it's"}` reaches JSON.parse as `{"ref": "it"s"}` |
| SafeJson.ApostropheSplitsDoubleQuotedValue | src/App.js:12 | a `'` inside any double-quoted value becomes a `"` that closes the value early; the text around it is only quote-swapped |
| SafeJson.SingleToDoubleAppend | src/App.js:12 | the quote substitution distributes over concatenation |
| Normalizer.StrictCleanLoop | src/App.js:20-32 | the `for…in` loop that fills `result` key by key, recursing at object defaults, computes the specification `StrictClean` |
| Normalizer.NonObjectGivesTemplate | src/App.js:21 | data that is not object-shaped (`undefined`, `null`, a string, a number, a boolean) gives the template itself |
| Normalizer.TemplateHasShape | src/App.js:20-32 | a template has its own key shape at every depth |
| Normalizer.CleanHasShape | src/App.js:23-31 | whatever the data, the result is an object with exactly the template's keys at every depth where the template holds an object; keys only in the data are dropped |
| Normalizer.ScalarKey | src/App.js:28 | at a scalar template key of object data, the result is the data's value whenever it is not `undefined` (even `null`, `''` or an object), and the template default otherwise |
| Normalizer.ObjectKey | src/App.js:25-26 | at an object template key, the result is the data's sub-value cleaned against the sub-template |
| Normalizer.CleanTemplateIsTemplate | src/App.js:20-32 | cleaning a template against itself gives the template back |
| Normalizer.CleanIsIdempotent | src/App.js:20-32 | `strictClean(strictClean(d, T), T) == strictClean(d, T)` |
| Normalizer.CaseTemplateIsTemplate | src/App.js:35-61 | the case template is a template: objects of scalars and nested templates, no arrays |
| Normalizer.TextKeyDefault | src/App.js:35-61 | each of the nine text keys is in the case template with default `''` |
| Normalizer.FindingKeyDefault | src/App.js:35-61 | each of the seven coded-finding keys has the default `{status: '', ref: ''}` |
| Normalizer.GroupDefaults | src/App.js:38-46 | `artery` holds the three artery findings and `vein` the two vein findings |
| Normalizer.RecordHasCaseShape | src/App.js:34-64 | every normalised record has exactly the case template's keys at every depth; in particular `branches_and_other` never survives |
| Normalizer.EnsureDataStructureIsIdempotent | src/App.js:34-64 | normalising a normalised record changes nothing |
| Ingest.KeptRowsAppend | src/App.js:80-81 | the row filter works row by row: filtering a concatenation concatenates the filtered parts |
| Ingest.KeptRowsCount | src/App.js:81 | the filter keeps exactly the rows with more than one column and a truthy `model`; its length is the count of such rows |
| Ingest.RecordsAppend | src/App.js:82-105 | the map over kept rows distributes over concatenation |
| Ingest.RecordsAt | src/App.js:82-105 | the map yields one record per kept row, and record `i` is built from kept row `i` |
| Ingest.ProcessAppend | src/App.js:79-107 | processing a concatenation of row lists concatenates their outputs, in order |
| Ingest.ProcessOne | src/App.js:81-105 | a single row yields its record when it passes the filter, and nothing otherwise |
| Ingest.ProcessSelectsKeptRows | src/App.js:80-105 | the output length is the number of rows that pass the filter; every passing row's record is in the output; every output record comes from a passing row |
| Ingest.ProcessedRecordsAreShaped | src/App.js:81-104 | every output record has the case template's shape and a truthy `model` |
| Ingest.RecordOfKeptRow | src/App.js:81-104 | the record of a kept row has the case shape and a truthy `model` |
| Ingest.TextFieldOfRecord | src/App.js:84-102 | a text column of the record holds `row[k] \|\| ''`; for `model` of a kept row, that is the row's own value |
| Ingest.SizeFieldOfRecord | src/App.js:94 | `tumor_size` is `String(row.tumor_size)` when that cell is truthy, and `''` otherwise |
| Ingest.ObjectFieldOfRecord | src/App.js:85-98 | a pseudo-JSON column is decoded by `safeJSONParse` and then cleaned against its own sub-template, independently of the other columns |
| Report.StatusMappingIsComplete | src/PancreasCancerReport.js:4-30 | the label table knows exactly the 25 listed codes |
| Report.StatusLabelsNonEmpty | src/PancreasCancerReport.js:4-30 | every label in the table is non-empty, so the first `\|\|` never falls through for a known code |
| Report.GetStatusDisplay | src/PancreasCancerReport.js:75-77 | a known code shows its label; any other truthy value shows itself; an empty or absent code shows `'N/A'` |
| Report.Any | src/PancreasCancerReport.js:33-34 | `statuses.some(pred)` holds exactly when some entry passes `pred` |
| Report.GetResectabilityStatus | src/PancreasCancerReport.js:32-36 | "Locally Advanced" exactly when some code is A2, V2 or I2; "Borderline" exactly when none is but some code is A1, V1 or I1; "Resectable" exactly when neither occurs, including for the empty list |
| Report.GetMetastasisStatus | src/PancreasCancerReport.js:38-42 | "Unresectable" exactly when some code is LN2, H2 or P2; "Indeterminate" exactly when none is but some code is LN1, H1 or P1; "Resectable" exactly when neither occurs |
| Report.ClassifiersMonotone | src/PancreasCancerReport.js:32-42 | a list whose codes all occur in another list is never more severe, on either axis |
| Report.ClassifiersSeeOnlyTheSetOfCodes | src/PancreasCancerReport.js:32-42 | order and duplicates are irrelevant: lists with the same codes classify alike |
| Report.AppendNeverLowers | src/PancreasCancerReport.js:32-42 | appending a code never lowers either severity |
| Report.OverallMonotone | src/PancreasCancerReport.js:44-50 | a more severe vascular or spread reading never gives a less severe overall verdict |
| Report.OverallLattice | src/PancreasCancerReport.js:44-50 | "Unresectable" exactly when vascular is "Locally Advanced" or spread is "Unresectable"; "Potentially Borderline" or "Potentially Resectable" exactly when spread is "Indeterminate" and vascular is "Borderline" or "Resectable"; otherwise the vascular value verbatim |
| Report.FilterTruthy | src/PancreasCancerReport.js:79-87 | `filter(Boolean)` keeps exactly the truthy entries |
| Report.AnyIgnoresFalsy | src/PancreasCancerReport.js:79-94 | dropping falsy entries leaves `some` unchanged for any test that only truthy values pass |
| Report.FilteringIsInvisible | src/PancreasCancerReport.js:79-94 | the filter in front of the classifiers changes neither reading: empty or absent statuses never matter |
| Report.GetResectabilityCauses | src/PancreasCancerReport.js:99-117 | the `push`-based method returns exactly the specified cause list |
| Report.GuardedKeepsOrder | src/PancreasCancerReport.js:99-117 | a list of guarded pushes yields an ordered subsequence of the names; a name occurs exactly when an entry carrying it passes its test |
| Report.UnresectableCauses | src/PancreasCancerReport.js:100-106 | for "Unresectable", the causes are an ordered subsequence of [Vascular, Distant LN, Hematogenous, Peritoneal]; each is present exactly when its own test holds; the list is empty exactly when all four tests fail |
| Report.PotentialCauses | src/PancreasCancerReport.js:109-114 | for either "Potentially …" verdict, the causes are an ordered subsequence of the three "Indeterminate …" entries; each is present exactly when its slot holds its own code |
| Report.FixedCauses | src/PancreasCancerReport.js:107-116 | "Borderline" always gives `["Vascular Involvement"]`; "Resectable" gives `[]` |
| Report.ClassifyReadsRawSlots | src/PancreasCancerReport.js:79-97 | the shown readings are the classifiers applied to the raw slots, and each lies in its own three-value range; the verdict lies in its five-value range |
| Report.UnresectableWithoutCauses | src/PancreasCancerReport.js:90-106 | a case is "Unresectable" with no cause exactly when no vessel is locally advanced, some spread slot holds a positive code, and no slot holds its own |
| Report.CrossFamilyCodeGivesNoCause | src/PancreasCancerReport.js:90-106 | a record whose hematogenous slot holds `"LN2"` is "Unresectable" with an empty cause list |
| Report.CausesExplainVerdict | src/PancreasCancerReport.js:97-117 | when each spread slot holds only codes of its own family, the causes are empty exactly when the verdict is "Resectable" |
| Report.LabelsAgreeWithClassifiers | src/PancreasCancerReport.js:4-42 | locally advanced codes are labelled "Locally Advanced", borderline codes "Borderline", positive spread codes "Positive" and indeterminate ones "Indeterminate" |
| Report.ClassifierExamples | src/PancreasCancerReport.js:32-42 | `[A0, V1]` is "Borderline", `[A2, V1]` is "Locally Advanced", `[LN1, H2]` is "Unresectable", `[LN1]` is "Indeterminate", and `[]` is "Resectable" on both axes |
| Report.CausesCompletenessExample | src/PancreasCancerReport.js:100-106 | a locally advanced case with LN2, H0 and P2 lists Vascular, Distant LN and Peritoneal, in that order |
| Report.LocallyAdvancedVesselIsUnresectable | src/PancreasCancerReport.js:79-106 | any locally advanced vessel makes the case "Unresectable", with "Vascular Involvement" first among the causes |
| Report.NoSpreadCodeIsResectable | src/PancreasCancerReport.js:90-95 | with no positive or indeterminate code in a spread slot, the spread reading is "Resectable" |
| Report.OnlyVascularCause | src/PancreasCancerReport.js:100-106 | a locally advanced case with no spread slot holding its own positive code lists only "Vascular Involvement" |
| Report.LocallyAdvancedCaseExample | src/PancreasCancerReport.js:79-117 | celiac axis A2 with LN0, H0, P0 shows "Locally Advanced", spread "Resectable", "Unresectable", and causes `["Vascular Involvement"]`, whatever the other vessels hold |
| Pipeline.ObjectSlotCommutes | src/App.js:25-26 | reading an object key of a cleaned value is cleaning the data's value at that key (optional chaining agrees with `strictClean`) |
| Pipeline.ScalarSlotAgrees | src/App.js:28 | at a key with default `''`, the cleaned value and the raw value are equal or both falsy |
| Pipeline.FilterAgrees | src/PancreasCancerReport.js:79-94 | slot lists that agree position by position, up to falsy values, filter to the same list |
| Pipeline.VascularSlotsAgree | src/PancreasCancerReport.js:79-87 | the seven vascular slots of a normalised record agree with the candidate's raw ones |
| Pipeline.MetastasisSlotsAgree | src/PancreasCancerReport.js:90-94 | the three spread slots of a normalised record agree with the raw ones |
| Pipeline.CausesAgree | src/PancreasCancerReport.js:99-117 | the causes depend only on the three spread slots, up to falsy values |
| Pipeline.AgreeingSlotsGiveSameVerdict | src/PancreasCancerReport.js:79-117 | records whose slots agree get the same readings, verdict and causes |
| Pipeline.NormalisationKeepsVerdict | src/PancreasCancerReport.js:79-117 | the verdict of the record `ensureDataStructure` produces is the verdict of the raw candidate object |
| ReportNavigator.JsRem | src/PancreasCancerReport.js:218 | JavaScript's `%` takes the sign of the left operand: it lies in `[0, n)` for a non-negative one and in `(-n, 0]` for a negative one |
| ReportNavigator.JsRemAgainstModulus | src/PancreasCancerReport.js:222 | on a non-negative operand JavaScript's `%` is the modulus; `-1 % n` would be `-1`, which is why Previous adds the length first |
| ReportNavigator.StepsStayInRange | src/PancreasCancerReport.js:217-223 | from any non-negative index, Next and Previous land in `[0, n)` and move by one, cyclically |
| ReportNavigator.StepsAreInverse | src/PancreasCancerReport.js:217-223 | from a valid index, Previous undoes Next and Next undoes Previous |
| ReportNavigator.NextTimesIsShift | src/PancreasCancerReport.js:217-219 | `k` presses of Next advance the index by `k` modulo `n`, so `n` presses return to the start |
| ReportNavigator.Navigator.constructor | src/PancreasCancerReport.js:214-215 | a navigator starts at index 0 on the records it is given |
| ReportNavigator.Navigator.HandleNext | src/PancreasCancerReport.js:217-219 | the index becomes `(i + 1) mod n`, inside `[0, n)`; the records are unchanged |
| ReportNavigator.Navigator.HandlePrevious | src/PancreasCancerReport.js:221-223 | the index becomes `(i - 1) mod n`, inside `[0, n)`; the records are unchanged |
| ReportNavigator.Navigator.SetData | src/PancreasCancerReport.js:214-215 | a new upload replaces the records and keeps the index state |
| ReportNavigator.NormalisedCasesAreShown | src/PancreasCancerReport.js:226 | with normalised records, the current case is shown exactly when the index is in range |

## Left out

- CSV decoding by `Papa.parse` and the file input (`handleFileUpload`, src/App.js:66-77): third-party library and browser I/O. A row is the dictionary the decoder yields.
- The internals of JSON.parse (src/App.js:13): a foreign call, modelled as the parameter `parse`. So the model does not prove that `"it"s narrow"` fails to parse; it proves that this is the text parsed.
- JavaScript's `String()` for numbers (src/App.js:94): passed in as `numText`. NaN and the infinities are not modelled; numbers are finite reals.
- The order of keys in JavaScript objects: the model's objects are unordered maps. Nothing in the core depends on key order.
- Inherited properties: `statusMapping[c]` for a name such as `constructor` finds a prototype member in JavaScript. The model's table holds only the 25 own keys. `Normalizer.StrictClean` assumes plain data without prototype keys, and `for…in` is taken to visit only the template's own keys.
- Report.GetStatusDisplay: looks up string codes only. JavaScript converts any other key to a string first. That changes nothing for numbers, booleans, `null` and objects, whose strings are not table keys. It does change the result for an array such as `['A1']`, which JavaScript would find under `"A1"`; the model shows the array itself.
- Arrays as data in `strictClean`: an array is object-shaped, but its indices never match template keys. The model reads every template key of an array as `undefined`, which is what the template's non-numeric keys give.
- JSX rendering, `StatusLabel` and `SafeStatusLabel`, the colour buckets, the per-field "show ref" conditions and the card components (src/PancreasCancerReport.js:52-70, 119-211, 228-255): presentation only.
- The "Case i of n" header and the disabled state of the buttons when `jsonData.length <= 1` (src/PancreasCancerReport.js:231, 239-252): presentation. The navigator class allows the steps on any non-empty list, and on a one-element list they keep the index at 0.
- React `useState`, `useCallback` and `setJsonData`: the navigator's state is a plain field. The App component's state is the output of `Ingest.ProcessCsvData`.
- `console.log` and `console.error` (src/App.js:15, src/PancreasCancerReport.js:73-74): diagnostics with no effect on results.
- src/electron.js, webpack.renderer.config.js and version-retrieval-script.js: window lifecycle, build configuration and tooling.
- ReportNavigator.Navigator.HandleNext: requires a non-empty list. The navigator is mounted only while `jsonData.length > 0` (src/App.js:124-128); on an empty list JavaScript would produce `NaN`.
- ReportNavigator.Navigator.HandlePrevious: requires a non-empty list, for the same reason.
