# QC evaluation engine of the mobile X-ray QC application

This project models in Dafny the QC evaluation engine of a small web
application. A technician uses the application to record quality-control
measurements of a mobile X-ray machine, judges them against tolerance
limits, and later browses, searches and exports the stored sessions. Three
test protocols are evaluated:

- **kV accuracy:** three kV readings. Their mean is compared with the
  nominal kV, both as a percentage and in kV.
- **Output repeatability:** three readings. Their coefficient of
  variation is compared with a limit.
- **Output linearity:** (mAs, dose) points fitted by a line through the
  origin. Its R² is compared with a limit.

The engine exists twice in the source, and the two copies are modelled
separately:

- the general utility `project/src/utils/calculations.ts` (module `Calculations`);
- the calculators and result gates embedded in the data-entry page
  `project/src/pages/NewSession.tsx` (module `NewSession`). These produce
  the results that are actually saved.

The module `Comparison` proves where the two copies agree and where they
differ:

- population SD against sample SD;
- R² = 0 against R² = 1 on a flat dose series;
- the kV verdict at a zero or negative nominal.

Two pieces of sequential logic from the UI pages are also modelled:

- the search filter and paging of `History.tsx` (module `History`, with a
  class `HistoryPage` for the page state);
- the session selection and export loop of `ExportPDF.tsx` (module
  `ExportPdf`, with a class `ExportPage`).

Shared records are in `Records` (from `project/src/db/database.ts`). Shared
arithmetic is in `QcMath`: sums, the least-squares facts and the
square-root contract. `Common` holds an `Option` type and
sequence predicates.

Modelling choices:

- **Numbers** are exact `real`s.
- **Math.sqrt** is a parameter `sqrt` that every SD function receives.
  `IsSqrt(sqrt)` requires it to return the exact non-negative square root
  of every non-negative argument.
- **A parsed text field** (`parseFloat`) is an `Option<real>`, where `None`
  stands for NaN.
- **The JavaScript `Set`** of selected ids (ExportPDF.tsx) iterates in
  insertion order, and the export visits the ids in that order. It is
  therefore a sequence without duplicates: `add` appends and `delete`
  removes in place.
- **Terminology:**
  - the "normal equation" of a line through the origin is
    slope · Σ mas² = Σ mas·dose (`QcMath.SolvesNormalEquation`);
  - the "explained fraction" form of R² is R² ≤ 1 together with
    R² · ssTotal = ssTotal − ssResidual (`QcMath.IsExplainedFraction`).

Two edge cases of the code, as the model states them:

- The kV and repeatability gates drop only NaN (`isNaN`,
  NewSession.tsx:62 and 69). An infinite reading would be kept, but reals
  have no infinity, so the model drops exactly the unparsed fields.
- At a zero or negative nominal kV the verdict follows the IEEE result of
  the code:
  - at nominal 0, `dev / 0` is +∞ or NaN. Neither is ≤ a finite limit, so
    the verdict fails (`NewSession.CheckKvPass`);
  - at a negative nominal, the percentage is ≤ 0, so any non-negative
    percentage limit accepts it.

## Model

| member | source | states |
|---|---|---|
| Records.DefaultSettings | project/src/db/database.ts:66-73 | the default limits are 10 % and 5 kV for kV accuracy, 0.05 for the CV and 0.98 for R² |
| Records.AllPassed | project/src/pages/ExportPDF.tsx:85 | the overall verdict holds exactly when the kV, repeatability and linearity verdicts all hold; it fails exactly when one of them fails |
| QcMath.OriginSlope | project/src/utils/calculations.ts:43 | Σ mas·dose / Σ mas² solves the normal equation slope · Σ mas² = Σ mas·dose |
| QcMath.ExplainedFraction | project/src/utils/calculations.ts:52 | for ssTotal > 0 and ssResidual ≥ 0, 1 − ssResidual/ssTotal is at most 1 and times ssTotal gives ssTotal − ssResidual |
| QcMath.MeanDose | project/src/utils/calculations.ts:45 | the mean dose times the number of points is Σ dose |
| QcMath.SumMasSqPositive | project/src/pages/NewSession.tsx:30-31 | points that all have mas > 0 have Σ mas² > 0, so the slope division is defined |
| QcMath.SumMasSqZero | project/src/utils/calculations.ts:41-43 | Σ mas² = 0 exactly when every mas is 0: the only series on which the utility's slope is 0/0 |
| QcMath.ResidualExpansion | project/src/utils/calculations.ts:47-50 | the residual sum Σ (dose − b·mas)² equals Σ dose² − 2b Σ mas·dose + b² Σ mas², for every b |
| QcMath.OriginFitMinimisesResidual | project/src/utils/calculations.ts:43-50 | a slope solving the normal equation has a residual no larger than that of any other line through the origin |
| QcMath.ProportionalSums | project/src/utils/calculations.ts:39-50 | when every dose is k·mas, Σ mas·dose = k Σ mas² and the residual at slope k is 0 |
| QcMath.FlatDoseSums | project/src/utils/calculations.ts:39-46 | when every dose is c, Σ dose = n·c and the total sum of squares about c is 0 |
| Calculations.CalculateMean | project/src/utils/calculations.ts:1-4 | the mean of no values is 0; otherwise mean · n = Σ values |
| Calculations.MeanWithinBounds | project/src/utils/calculations.ts:1-4 | the mean of values that all lie in [lo, hi] lies in [lo, hi] |
| Calculations.CalculateSD | project/src/utils/calculations.ts:6-11 | the SD of no values is 0; otherwise it is ≥ 0 and SD² · n = Σ (x − mean)² (the population variance) |
| Calculations.ZeroSDIffConstant | project/src/utils/calculations.ts:6-11 | for a non-empty series, the SD is 0 if and only if every value equals the mean it is taken about |
| Calculations.ConstantReadings | project/src/utils/calculations.ts:1-11 | identical readings c have mean c and SD 0 |
| Calculations.CalculateCV | project/src/utils/calculations.ts:13-16 | the CV is 0 when the mean is 0; otherwise cv · mean = sd |
| Calculations.CvWithinLimit | project/src/utils/calculations.ts:13-16 | for a positive mean, cv ≤ limit exactly when sd ≤ limit · mean |
| Calculations.CalculateKvDeviation | project/src/utils/calculations.ts:18-21 | the deviation is 0 at nominal 0; otherwise dev · nominal = (mean − nominal) · 100; and for nominal > 0 it is positive or negative exactly when mean is above or below the nominal |
| Calculations.KvPercentWithinLimit | project/src/utils/calculations.ts:29 | for nominal ≠ 0, the percentage deviation is within the limit exactly when \|mean − nominal\| · 100 ≤ limit · \|nominal\| |
| Calculations.CheckKvPassed | project/src/utils/calculations.ts:23-32 | for nominal ≠ 0, passes if and only if the relative check and the absolute check both hold; at nominal 0, passes if and only if the percentage limit is ≥ 0 and \|mean\| ≤ the absolute limit |
| Calculations.KvVerdictMonotone | project/src/utils/calculations.ts:23-32 | raising either limit never turns a pass into a fail |
| Calculations.CalculateLinearRegression | project/src/utils/calculations.ts:34-55 | fewer than 2 points gives (0, 0); otherwise the slope solves the normal equation; R² is 0 when ssTotal = 0 and otherwise is the explained fraction 1 − ssResidual/ssTotal, at most 1 |
| Calculations.RegressionIsLeastSquares | project/src/utils/calculations.ts:43-50 | the fitted slope has the least residual sum of squares of all lines through the origin |
| Calculations.ProportionalRegression | project/src/utils/calculations.ts:39-52 | for doses exactly k·mas with Σ mas² ≠ 0, the slope is k, the residual is 0, and R² is 1 unless ssTotal is 0 |
| NewSession.CalcMean | project/src/pages/NewSession.tsx:10 | the mean of no values is 0; otherwise mean · n = Σ values |
| NewSession.CalcSD | project/src/pages/NewSession.tsx:11-15 | fewer than 2 values give 0; otherwise SD ≥ 0 and SD² · (n − 1) = Σ (x − m)² (the sample variance) |
| NewSession.SampleSDZeroIffConstant | project/src/pages/NewSession.tsx:11-15 | for two or more values, the sample SD is 0 if and only if every value equals m |
| NewSession.CalcCV | project/src/pages/NewSession.tsx:16 | the CV is 0 when the mean is 0; otherwise cv · m = sd |
| NewSession.CalcKvDev | project/src/pages/NewSession.tsx:17 | the deviation is 0 at nominal 0; otherwise dev · nom = (m − nom) · 100 |
| NewSession.CheckKvPass | project/src/pages/NewSession.tsx:18-22 | at nom > 0, passes iff \|m − nom\| · 100 ≤ pctLim · nom and \|m − nom\| ≤ absLim; at nom < 0 the percentage test becomes pctLim · nom ≤ \|m − nom\| · 100; at nom = 0 it never passes (the IEEE quotient is +∞ or NaN) |
| NewSession.PercentAgainstLimit | project/src/pages/NewSession.tsx:20-21 | (dev / nom) · 100 ≤ pctLim is dev · 100 ≤ pctLim · nom for nom > 0 and the reversed comparison for nom < 0 |
| NewSession.KvPassMonotone | project/src/pages/NewSession.tsx:18-22 | raising either limit never turns a pass into a fail |
| NewSession.KeepPositiveMas | project/src/pages/NewSession.tsx:24 | the kept points are an order-preserving subsequence of the input; all have mas > 0; and every input point with mas > 0 is kept |
| NewSession.KeepPositiveMasAppend | project/src/pages/NewSession.tsx:24 | filtering a concatenation gives the concatenation of the filtered parts; with the one-point cases of `KeepPositiveMas`'s contract this fixes the result, order and repeated points included |
| NewSession.KeepPositiveMasOfPositive | project/src/pages/NewSession.tsx:24 | points that all have mas > 0 are kept unchanged |
| NewSession.KeepPositiveMasIdempotent | project/src/pages/NewSession.tsx:24 | filtering twice gives the same result as filtering once |
| NewSession.CalcLinReg | project/src/pages/NewSession.tsx:23-36 | over the kept points: fewer than 2 give (0, 0); otherwise Σ mas² > 0, the slope solves the normal equation, R² is 1 when ssTot = 0 and otherwise the explained fraction, at most 1 |
| NewSession.ParseReadings | project/src/pages/NewSession.tsx:62 | at most as many readings as fields; all fields are kept exactly when all parse, and then in field order; a value is kept if and only if it was parsed from some field |
| NewSession.ParseReadingsAppend | project/src/pages/NewSession.tsx:62 | filtering a concatenation of fields gives the concatenation of the separately filtered parts, so the kept readings keep the fields' order and multiplicity |
| NewSession.FinitePoints | project/src/pages/NewSession.tsx:76-78 | every row whose mas and dose both parse is kept; every kept point comes from such a row |
| NewSession.FinitePointsAppend | project/src/pages/NewSession.tsx:76-78 | mapping and filtering a concatenation of rows gives the concatenation of the separately processed parts |
| NewSession.ParsePoints | project/src/pages/NewSession.tsx:76-78 | the kept points are a subsequence of the parsed rows; each comes from a row with finite mas and dose and mas > 0; and every such row is kept |
| NewSession.ParsePointsAppend | project/src/pages/NewSession.tsx:76-78 | the linearity gate of a concatenation of rows is the concatenation of the gates of the parts |
| NewSession.ParsePointsOfRow | project/src/pages/NewSession.tsx:76-78 | a single row gives exactly its point when mas and dose both parse and mas > 0, and nothing otherwise; together with the append lemma this fixes the gate on every row list |
| NewSession.IdenticalRowsAreKeptTwice | project/src/pages/NewSession.tsx:76-83 | two identical valid rows both reach the result's `data`, so duplicates are kept, not merged |
| NewSession.ParsedPointsRefilter | project/src/pages/NewSession.tsx:24-80 | the filter inside calcLinReg leaves linRes's points unchanged |
| NewSession.Limits | project/src/pages/NewSession.tsx:65-81 | the settings record when it is loaded; the default limits otherwise |
| NewSession.KvRes | project/src/pages/NewSession.tsx:61-67 | a result exists exactly when 3 readings parse; it holds those readings, their mean, sample SD, CV and deviation, and the checkKvPass verdict under the loaded or default limits |
| NewSession.KvResNeedsAllThree | project/src/pages/NewSession.tsx:62-63 | with the page's three fields, a kV result exists if and only if all three parse |
| NewSession.KvResDefaults | project/src/pages/NewSession.tsx:65 | before settings load and at a positive nominal, the kV test passes iff the mean is within 10 % and within 5 kV of the nominal |
| NewSession.KvResZeroNominalFails | project/src/pages/NewSession.tsx:18-22 | a nominal kV of 0 (what an emptied field becomes) always fails |
| NewSession.RepRes | project/src/pages/NewSession.tsx:68-74 | a result exists exactly when 3 readings parse; it holds their mean, sample SD and CV, and passes iff cv ≤ the loaded or default limit |
| NewSession.RepResIgnoresNominal | project/src/pages/NewSession.tsx:68-74 | two nominal mAs values give results that differ only in the nominal mAs |
| NewSession.RepVerdictWithoutDivision | project/src/pages/NewSession.tsx:72 | for a positive mean, the verdict is sd ≤ limit · mean; the default limit is 0.05 |
| NewSession.LinRes | project/src/pages/NewSession.tsx:75-83 | a result exists exactly when at least 2 points survive the filter; it holds those points and calcLinReg's slope and R², and passes iff R² ≥ the loaded or default limit |
| NewSession.LinResFitsKeptPoints | project/src/pages/NewSession.tsx:75-83 | the saved slope solves the normal equation of exactly the saved points, whose Σ mas² is positive |
| NewSession.SessionToSave | project/src/pages/NewSession.tsx:85-92 | a record exists exactly when all three results exist; it carries the machine fields, the three results and the time, and no id |
| NewSession.SavedVerdict | project/src/pages/NewSession.tsx:86-92 | a saved session's overall verdict is the kV verdict and cv ≤ limit and R² ≥ limit |
| NewSession.NewSessionForm.constructor | project/src/pages/NewSession.tsx:43-56 | the form starts with empty machine fields and today's date, nominal 80 kV and 2 mAs, three empty readings each, and mAs rows 1–4 without doses |
| NewSession.NewSessionForm.SettingsLoaded | project/src/pages/NewSession.tsx:58 | the loaded settings replace the defaults |
| NewSession.NewSessionForm.SetKvReading | project/src/pages/NewSession.tsx:126 | only the edited kV field changes |
| NewSession.NewSessionForm.SetRepReading | project/src/pages/NewSession.tsx:164 | only the edited repeatability field changes |
| NewSession.NewSessionForm.HandleSave | project/src/pages/NewSession.tsx:85-94 | saves if and only if all three results exist; the store then gains exactly that record at its end, and otherwise is unchanged |
| History.LowerChar | project/src/pages/History.tsx:35 | upper-case ASCII letters become lower case; every other character is unchanged |
| History.ToLower | project/src/pages/History.tsx:35-40 | the result has the same length and lowers each character |
| History.Matches | project/src/pages/History.tsx:37-41 | a session matches exactly when the term occurs in the lower-cased hospital, model or technician name, or in the date as stored |
| History.Includes | project/src/pages/History.tsx:38-41 | true exactly when the term occurs at some position of the text |
| History.FilterMatching | project/src/pages/History.tsx:36-42 | the kept sessions are an order-preserving subsequence; all match; and every matching session is kept |
| History.StartIndex | project/src/pages/History.tsx:55 | page p starts at a multiple of the page size, the (p − 1)-th one, and pages from 1 on start at index 0 or later |
| History.FilterMatchingAppend | project/src/pages/History.tsx:36-42 | filtering a concatenation gives the concatenation of the filtered parts; with the one-session cases of `FilterMatching`'s contract this fixes the result, order and repeats included |
| History.FilterByTerm | project/src/pages/History.tsx:29-45 | an empty term keeps the list unchanged; the result is always an order-preserving subsequence; for a non-empty term a session is kept iff the lower-cased term occurs in its lower-cased hospital, model or technician name, or in its raw date |
| History.SearchIgnoresTermCase | project/src/pages/History.tsx:35 | two non-empty terms that agree after lower-casing select the same list |
| History.TotalPages | project/src/pages/History.tsx:54 | the page count is ⌈n / 10⌉: the fewest pages of ten that hold n sessions; it is 0 exactly when there are none |
| History.DisplayedSessions | project/src/pages/History.tsx:55-56 | the page shows min(10, max(0, n − start)) sessions, and row k is filtered session start + k |
| History.PageOfSession | project/src/pages/History.tsx:54-56 | session i appears on page ⌊i/10⌋ + 1, at row i mod 10, and that page is within 1..totalPages |
| History.PagesInRangeAreFilled | project/src/pages/History.tsx:54-56 | every page from 1 to totalPages shows at least one session; every page before the last shows ten |
| History.PreviousPage | project/src/pages/History.tsx:140 | max(1, p − 1) |
| History.NextPage | project/src/pages/History.tsx:150 | min(totalPages, p + 1) |
| History.NavigationStaysInRange | project/src/pages/History.tsx:140-150 | from a page within 1..totalPages, both buttons lead to a page within 1..totalPages |
| History.PageAfterFilter | project/src/pages/History.tsx:29-45 | as written: a non-empty term resets the page to 1, and an empty term keeps it |
| History.StalePageAfterDelete | project/src/pages/History.tsx:29-56 | as written: with 21 sessions on page 3, deleting one keeps page 3 of 2, which shows no session |
| History.PageAfterFilterClamped | project/src/pages/History.tsx:29-45 | corrected: the page always lies within 1..max(1, totalPages); it is 1 after a non-empty term and unchanged when it was already in range |
| History.ClampedPageShowsSessions | project/src/pages/History.tsx:54-56 | with the corrected page, a non-empty list always shows at least one session |
| History.HistoryPage.constructor | project/src/pages/History.tsx:10-13 | the page starts with no sessions, an empty term and page 1 |
| History.HistoryPage.Displayed | project/src/pages/History.tsx:56 | the current page shows at most ten sessions |
| History.HistoryPage.FilterSessions | project/src/pages/History.tsx:29-45 | the filtered list becomes the term's filter of the sessions; the page becomes 1 after a non-empty term and is kept otherwise |
| History.HistoryPage.FilterSessionsClamped | project/src/pages/History.tsx:29-45 | corrected filterSessions: same list, and the page ends within the existing pages |
| History.HistoryPage.SessionsLoaded | project/src/pages/History.tsx:20-27 | loading sessions replaces them and re-runs the filter with the current term |
| History.HistoryPage.SearchTermChanged | project/src/pages/History.tsx:20-22 | a new term re-runs the filter over the same sessions |
| History.HistoryPage.Previous | project/src/pages/History.tsx:140 | the page becomes max(1, p − 1) and stays in range if it was |
| History.HistoryPage.Next | project/src/pages/History.tsx:150 | the page becomes min(totalPages, p + 1) and stays in range if it was |
| ExportPdf.Without | project/src/pages/ExportPDF.tsx:25 | delete keeps exactly the other ids, in their order, still without duplicates |
| ExportPdf.WithoutAbsent | project/src/pages/ExportPDF.tsx:25 | deleting an id that is not there changes nothing |
| ExportPdf.WithoutAppended | project/src/pages/ExportPDF.tsx:22-30 | deleting the id just added gives back the set before the add |
| ExportPdf.Toggled | project/src/pages/ExportPDF.tsx:22-30 | the toggled id is in the result exactly when it was not selected; no other id changes membership; no duplicates appear; an absent id is appended; a present id is removed, keeping the order of the others and shortening the selection |
| ExportPdf.ToggleTwice | project/src/pages/ExportPDF.tsx:22-30 | toggling twice gives back the same set of ids, and exactly the same selection when the id was absent |
| ExportPdf.ToggleTwiceMovesToEnd | project/src/pages/ExportPDF.tsx:22-30 | toggling a selected id off and on moves it to the end of the Set's iteration order |
| ExportPdf.DedupFrom | project/src/pages/ExportPDF.tsx:153 | no duplicates, exactly the values given, and the already collected ones kept first |
| ExportPdf.Dedup | project/src/pages/ExportPDF.tsx:153 | `new Set(array)` has no duplicates and exactly the array's values |
| ExportPdf.DedupFromDistinct | project/src/pages/ExportPDF.tsx:153 | distinct values keep their order |
| ExportPdf.SessionIds | project/src/pages/ExportPDF.tsx:153 | one id per stored session, in list order |
| ExportPdf.Find | project/src/pages/ExportPDF.tsx:51 | none exactly when no session has the id; otherwise the first session with that id |
| ExportPdf.FoundSessions | project/src/pages/ExportPDF.tsx:50-52 | at most one session per selected id |
| ExportPdf.FoundSessionsAreSelected | project/src/pages/ExportPDF.tsx:50-52 | every exported session is stored and has one of the selected ids |
| ExportPdf.FoundSessionsAll | project/src/pages/ExportPDF.tsx:50-52 | when every selected id has a session, one session is exported per id |
| ExportPdf.ExportOpsLayout | project/src/pages/ExportPDF.tsx:48-79 | the document holds one report per found session, in order, and found − 1 added pages (0 when none is found) |
| ExportPdf.ExportedDocument | project/src/pages/ExportPDF.tsx:48-81 | an export that goes ahead places the found reports, adds found − 1 pages, and ends with the save |
| ExportPdf.ExportOps | project/src/pages/ExportPDF.tsx:50-57 | no found session gives no operation; n found sessions give 2n − 1 operations, starting with the first report and ending with the last |
| ExportPdf.ExportPage.constructor | project/src/pages/ExportPDF.tsx:10-20 | starts with the stored sessions and nothing selected |
| ExportPdf.ExportPage.ToggleSession | project/src/pages/ExportPDF.tsx:22-30 | the selection becomes the toggled set, still without duplicates |
| ExportPdf.ExportPage.SelectAll | project/src/pages/ExportPDF.tsx:153 | the selection is exactly the ids of all stored sessions, each once |
| ExportPdf.ExportPage.DeselectAll | project/src/pages/ExportPDF.tsx:158 | the selection is empty |
| ExportPdf.ExportPage.HandleExportSelected | project/src/pages/ExportPDF.tsx:32-82 | the outcome of the handler as written: the empty-selection alert first, then the thrown TypeError when jsPDF is missing, then the library alert when html2canvas is missing, otherwise the rendered reports and the save |
| ExportPdf.ExportPage.RenderSelected | project/src/pages/ExportPDF.tsx:46-81 | the loop adds a page before each found report after the first, places the reports in Set order, skips ids without a session, and ends with the save |
| ExportPdf.ExportPage.HandleExportSelectedGuarded | project/src/pages/ExportPDF.tsx:32-44 | the corrected handler: the outcome of `ExportOutcomeGuarded`, which never throws |
| ExportPdf.ExportOutcomeAsWritten | project/src/pages/ExportPDF.tsx:32-44 | the empty-selection alert exactly on an empty selection; the TypeError exactly when the selection is non-empty and jsPDF is missing; the library alert exactly when only html2canvas is missing; an export exactly when both are loaded, with the rendered operations |
| ExportPdf.ExportOutcomeGuarded | project/src/pages/ExportPDF.tsx:38-44 | no TypeError; the library alert exactly when the selection is non-empty and either library is missing; otherwise as written |
| ExportPdf.MissingJsPdfSkipsAlert | project/src/pages/ExportPDF.tsx:39-42 | a selected id with html2canvas loaded and jsPDF missing gives the TypeError, not the library alert |
| ExportPdf.GuardedAgreesUnlessThrown | project/src/pages/ExportPDF.tsx:38-44 | the corrected handler agrees with the code wherever the code does not throw, and shows the library alert where it throws |
| Comparison.SharedStatisticsAgree | project/src/pages/NewSession.tsx:10-17 | the mean, CV and kV deviation of the two copies are equal on all inputs |
| Comparison.SampleSDAtLeastPopulationSD | project/src/pages/NewSession.tsx:11-15 | for n ≥ 2, s² · (n − 1) = p² · n between the page's SD and the utility's SD, and the page's SD is never the smaller |
| Comparison.FlatSeriesRSquared | project/src/pages/NewSession.tsx:34 | on a flat dose series with positive mas, the utility gives R² = 0 and the page gives R² = 1 |
| Comparison.FlatDoseMean | project/src/pages/NewSession.tsx:28-32 | a flat dose series c has mean dose c and total sum of squares 0 |
| Comparison.FitsAgreeOnPositiveMas | project/src/pages/NewSession.tsx:23-36 | on points with positive mas and a non-zero ssTotal, the two regressions are equal |
| Comparison.KvVerdictsAgree | project/src/pages/NewSession.tsx:18-22 | for a positive nominal kV, the two verdicts are equal |
| Comparison.KvVerdictsAtZeroNominal | project/src/pages/NewSession.tsx:18-22 | at nominal 0 the page always fails, while the utility passes whenever \|mean\| is within the absolute limit |
| Comparison.NegativeNominalSkipsPercentCheck | project/src/pages/NewSession.tsx:20-21 | at a negative nominal and a non-negative percentage limit, only the absolute limit decides the page's verdict |

## Left out

- IEEE floating point is not modelled: rounding, NaN, ±Infinity, `toFixed` display formatting and the 1e-9 tolerances. Arithmetic is exact. `parseFloat` becomes `Option<real>`, so the Infinity that `kvRes` keeps (NewSession.tsx:62) and the linearity path drops (NewSession.tsx:78) cannot arise.
- Math.sqrt is an exact-root parameter, not a computed square root on doubles.
- History.LowerChar: lowers only the ASCII letters A–Z; JavaScript's full Unicode case mapping is not modelled.
- History.ToLower: built on `History.LowerChar`, so it has the same ASCII-only limit.
- Calculations.CalculateLinearRegression: requires Σ mas² ≠ 0 when there are two or more points. With every mas 0 the source computes 0/0 = NaN for the slope and R², which reals cannot represent. `QcMath.SumMasSqZero` characterises that excluded input.
- NewSession.NewSessionForm.HandleSave: the store is a sequence field. The id Dexie assigns, the `await`, the "Please complete all tests" alert and the navigation to the report page are left out. The saved record's id is absent.
- NewSession.NewSessionForm: the wizard step (`currentStep`), the machine-information and nominal/linearity edits and the "Add Row" button are plain state setters. Only the two reading setters are modelled.
- The unused `sumX` of calcLinReg (NewSession.tsx:27) is left out; it affects no result.
- The Dexie storage (`project/src/db/database.ts`) is not part of this model: `getSettings`, `updateSettings`, `add`, `delete`, `clear` and `orderBy('createdAt').reverse()`. Sessions and settings arrive as parameters. The hospital logo of the settings record is omitted.
- History.tsx handleDelete (47-52): the `confirm` dialog and the store deletion are I/O. Its effect on the page, a reload followed by filterSessions, is what `History.StalePageAfterDelete` and `History.HistoryPage.SessionsLoaded` model.
- History.HistoryPage.SessionsLoaded and History.HistoryPage.SearchTermChanged: these use filterSessions as written, so they do not keep the page in range. `History.HistoryPage.FilterSessionsClamped` is the corrected alternative.
- History.HistoryPage.Next: requires more than one page, because the button is rendered only then (History.tsx:137).
- React effects, state scheduling and asynchrony are not modelled. Each effect is modelled as running to completion right after the change that triggers it.
- The PDF libraries are recorded only as operations on the document: html2canvas, the jsPDF page size and image scaling, the temporary DOM element and `generateReportHTML` templating. The same holds for the print export and the canvas slicing loop of Report.tsx. Settings.tsx, App.tsx and the Card and Input components are not part of this model.

## Findings

| source | as written | input that shows it | evidently intended | confidence | as-written member | corrected member |
|---|---|---|---|---|---|---|
| project/src/pages/History.tsx:29-45 | with an empty search term, filterSessions keeps the current page even when the reloaded list has fewer pages | 21 sessions, page 3 shown, delete one: the list reloads with 20 sessions (2 pages) while the page stays 3. The slice is empty, so "No sessions found" is shown, and the Previous/Next controls, which sit in the other branch (History.tsx:80-157), disappear | the page stays within 1..totalPages, so a non-empty list always shows sessions | not executed; medium | History.StalePageAfterDelete | History.PageAfterFilterClamped |
| project/src/pages/ExportPDF.tsx:38-44 | `(window as any).jspdf.jsPDF` is read before the library check, so when the jsPDF script has not loaded the handler throws a TypeError and the "libraries not loaded" alert never appears; only a missing html2canvas reaches it | one selected session, html2canvas loaded, jsPDF script blocked: `window.jspdf` is undefined and reading `.jsPDF` throws | either missing library shows the alert and the handler returns | not executed; high | ExportPdf.MissingJsPdfSkipsAlert | ExportPdf.ExportOutcomeGuarded |
