# AwesomeApp utilities, modelled in Dafny

This project models the logic core of the AwesomeApp lead-management app
(React Native, TypeScript). That core is three utility modules and the
records they share:

- **OCR field structuring** (`src/utils/ocr.ts`):
  - `parseOCRText` scans recognised text line by line. It fills the name,
    ID number and date-of-birth slots, and the first offer for each slot wins.
  - `formatDate` rewrites `D{1,2}[/-]D{1,2}[/-]D{2,4}` as `MM/DD/YYYY`.
  - `calculateConfidence` averages each field's block confidences, with 50
    as the neutral score.
  - `validateOCRData` and `isValidDate` check the extracted fields. The date
    check is a round trip through JavaScript's `Date`.
  - `mockOCRExtraction` composes all of the above, with a fallback for when
    recognition fails.
- **Lead selection** (`src/utils/location.ts`):
  - `findNearestLead` is an argmin scan.
  - `calculateBestMatch` sorts leads by a combined score.
  - The confidence colour and label are three-band classifiers.
- **Keyword query routing** (`src/utils/mockData.ts`): `mockAIQuery` answers
  a query over the ten leads of `MOCK_LEADS`.

## Modules

- `Types`: the `Lead` and `OCRResult` records and the shapes derived from them.
- `Text`: the JavaScript string built-ins the code uses. These are `trim`,
  `split`, `includes`, ASCII `toLowerCase`, `parseInt` and `padStart(2, '0')`.
- `Patterns`: the regular expressions of `ocr.ts`, as leftmost-match functions
  that follow the regex engine's greedy choices.
- `Calendar`: the `new Date(y, m, d)` field normalisation and its round trip.
- `Sorting`: a filter, a stable descending sort, and an in-place insertion sort.
  The insertion sort is proved to compute that sort.
- `Ocr`, `OcrParse`, `OcrDates`, `Location`, `MockData`: the three source modules.

## How the source is modelled

- The imperative code stays imperative.
  - `parseOCRText`, `calculateConfidence` and `findNearestLead` are methods
    with loops.
  - `calculateBestMatch` fills an array and sorts it in place.
  - `validateOCRData` builds its error map by conditional updates.
  - The loop methods and the in-place sort are proved equal to specification
    functions, and the properties are proved about those functions.
    `validateOCRData` has no loop: its contract states its three checks directly.
- These quirks of the code are modelled as written:
  - The ID test `/[A-Z0-9-]{5,}/i` is case-insensitive and takes the first
    run, so a line `ID Number: AB12345` yields the ID number `Number`
    (`OcrParse.IdLabelTakesFirstWord`, `OcrParse.LabelledCardExample`).
  - The capitalised-name test is not anchored at the end of the line.
  - `|| 0.85` also replaces a reported confidence of 0.
  - A bare hyphenated date such as `05-20-1990` also passes the standalone-ID
    test.
  - `formatDate` of an already formatted date with both fields above 12
    swaps them back.
- Recognition (ML Kit) is an input: recognised text and blocks, or a failure.
  The distance function (`calculateDistance`) is a parameter.

## Model

| member | source | states |
|---|---|---|
| Ocr.MockOCRExtraction | src/utils/ocr.ts:7-44 | a failed recognition yields empty fields and zero confidences; a successful one yields the parsed fields, each absent one as `''`, and the block confidences |
| Ocr.FailedExtractionInvalid | src/utils/ocr.ts:33-42 | the fallback result fails all three validation checks |
| Ocr.ExtractedFieldsShape | src/utils/ocr.ts:20-23 | on success the ID number is too short for validation exactly when the parser found none, the name is empty exactly when the parser found none, and the date of birth is empty or in the layout MM/DD/ and a 3- or 4-digit year |
| Ocr.BlockConfidence | src/utils/ocr.ts:65 | a block's confidence is the first recognised language's confidence, or 0.85 when that is missing or 0; it is never 0 |
| Ocr.CalculateConfidence | src/utils/ocr.ts:49-99 | the loop's three running sums and counts give exactly the per-field rounded mean, or 50 for a field no block counts towards |
| Ocr.NoCountedBlock | src/utils/ocr.ts:94-98 | a field's count is 0 exactly when no block counts towards it, and then its score is 50 |
| Ocr.UncountedFieldScores50 | src/utils/ocr.ts:94-98 | a field no block counts towards scores exactly 50 |
| Ocr.TotalBetween | src/utils/ocr.ts:63-92 | when each counted contribution lies in [lo, hi], the running total lies between lo and hi times the count |
| Ocr.ScoreBetween | src/utils/ocr.ts:94-98 | when every counted contribution lies in [lo, hi], a counted field's score lies between round(lo) and round(hi) |
| Ocr.ScoreOfBoundedTotal | src/utils/ocr.ts:95-97 | the rounded mean of values in [lo, hi] lies between round(lo) and round(hi) |
| Ocr.RoundMonotonic | src/utils/ocr.ts:95-97 | `Math.round` never reverses order |
| Ocr.ScoresArePercentages | src/utils/ocr.ts:63-98 | when every block reports a fraction in [0, 1], every field scores from 0 to 100 |
| Ocr.UnreportedConfidenceScores85 | src/utils/ocr.ts:65 | when no block reports a confidence, every counted field scores exactly 85 |
| Ocr.ValidateOCRData | src/utils/ocr.ts:214-230 | three independent checks: a name error iff the name is shorter than 2, an ID error iff the ID is shorter than 5, and a date error iff `isValidDate` fails, each with the source's message; no errors iff all three pass |
| Ocr.OnlyImpossibleDateReported | src/utils/ocr.ts:214-230 | for `{"Al", "A1234", "02/30/2000"}` only the date of birth check fails |
| OcrParse.ParseOCRText | src/utils/ocr.ts:104-179 | the line loop returns exactly the first offer each slot receives from the trimmed, non-blank lines |
| OcrParse.ExtractName | src/utils/ocr.ts:118-136 | the name step fills an empty slot with the line's offer, leaves a filled slot alone, and stores only non-empty values |
| OcrParse.ExtractIdNumber | src/utils/ocr.ts:139-154 | the ID step fills an empty slot with the line's offer and leaves a filled slot alone |
| OcrParse.ExtractDateOfBirth | src/utils/ocr.ts:157-175 | the date step fills an empty slot with the line's offer and leaves a filled slot alone |
| OcrParse.TrimNonBlank | src/utils/ocr.ts:106-109 | every kept line is non-empty and trimmed, and no more lines are kept than pieces |
| OcrParse.TrimNonBlankAppend | src/utils/ocr.ts:106-109 | trimming and dropping blanks works piece by piece, so line order is kept |
| OcrParse.TrimNonBlankMembers | src/utils/ocr.ts:106-109 | a line is kept iff it is non-empty and some piece trims to it |
| OcrParse.Lines | src/utils/ocr.ts:106-109 | every scanned line is non-empty and trimmed |
| OcrParse.FirstSome | src/utils/ocr.ts:112-176 | a slot stays absent iff no line offers a value; otherwise it holds the first offer |
| OcrParse.FirstSomeStep | src/utils/ocr.ts:112-176 | one more line changes a slot only when the slot is still absent |
| OcrParse.FirstSomeKeeps | src/utils/ocr.ts:112-176 | once filled, a slot is never reassigned by later lines |
| OcrParse.NameAtNotEmpty | src/utils/ocr.ts:119-135 | every name a line offers is non-empty |
| OcrParse.IdAtNotEmpty | src/utils/ocr.ts:140-153 | every ID number a line offers has at least 5 characters |
| OcrParse.DobAtFormatted | src/utils/ocr.ts:158-173 | every date of birth a line offers is in the layout `formatDate` produces: MM/DD/ and a 3- or 4-digit year |
| OcrParse.ParsedSlotsAreFirstOffers | src/utils/ocr.ts:104-179 | each slot of the result is absent iff no line offers one, and otherwise is the offer of the first line that has one |
| OcrParse.NameSlotIsFirstOffer | src/utils/ocr.ts:118-136 | the name slot is the first line's name offer, or absent iff there is none |
| OcrParse.IdSlotIsFirstOffer | src/utils/ocr.ts:139-154 | the ID slot is the first line's ID offer, or absent iff there is none |
| OcrParse.DobSlotIsFirstOffer | src/utils/ocr.ts:157-175 | the date slot is the first line's date offer, or absent iff there is none |
| OcrParse.ParsedFieldsWellFormed | src/utils/ocr.ts:104-179 | a parsed name is non-empty, a parsed ID has at least 5 characters, and a parsed date of birth is in the layout MM/DD/ and a 3- or 4-digit year |
| OcrParse.IdLabelTakesFirstWord | src/utils/ocr.ts:140-143 | on a line starting `ID Number:` the ID number is `Number`, whatever follows |
| OcrParse.FirstIdRun | src/utils/ocr.ts:141 | the case-insensitive ID run of `ID Number:…` is `Number` |
| OcrParse.HyphenatedDateIsAlsoAnId | src/utils/ocr.ts:150-173 | the lone line `05-20-1990` is offered both as an ID number and as a date of birth |
| OcrParse.FirstOffer | src/utils/ocr.ts:118 | a slot takes the first present offer |
| OcrParse.OfferOfThree | src/utils/ocr.ts:112-176 | over three lines, a slot takes line i's offer when no earlier line offered one |
| OcrParse.CandidatesAt | src/utils/ocr.ts:112-176 | the scan sees each line's name, ID and date offers |
| OcrParse.CardFromOffers | src/utils/ocr.ts:112-176 | three lines offering a name first, an ID second and a date third fill the three slots with them |
| OcrParse.LabelledName | src/utils/ocr.ts:119-123 | a line mentioning `name` whose capture is already trimmed offers that capture |
| OcrParse.LabelledDob | src/utils/ocr.ts:158-161 | a line mentioning `birth` offers its first date, formatted |
| OcrParse.CapitalisedLineOffersItself | src/utils/ocr.ts:128-134 | a line without `name` that starts with two capitalised words and is 6 to 49 long is offered whole as the name |
| OcrParse.LabelledCardExample | src/utils/ocr.ts:104-179 | the lines `Name: John Smith`, `ID Number: AB12345`, `Date of Birth: 05/20/1990` parse to the name `John Smith`, the ID number `Number` and the date `05/20/1990` |
| OcrParse.NameLineExample | src/utils/ocr.ts:119-123 | `Name: John Smith` offers the name `John Smith` |
| OcrParse.JohnSmithLine | src/utils/ocr.ts:121-123 | `Name: John Smith` mentions `name` and captures the trimmed rest after `Name: ` |
| OcrParse.NameLineOffersNoId | src/utils/ocr.ts:140-153 | `Name: John Smith` offers no ID number |
| OcrParse.NameLineOffersNoDate | src/utils/ocr.ts:158-173 | `Name: John Smith` offers no date of birth |
| OcrParse.IdLineOffersNoDate | src/utils/ocr.ts:158-173 | `ID Number: AB12345` offers no date of birth |
| OcrParse.DobLineExample | src/utils/ocr.ts:158-161 | `Date of Birth: 05/20/1990` offers the date `05/20/1990` |
| OcrParse.DateInLine | src/utils/ocr.ts:159 | the first date of `Date of Birth: 05/20/1990` is `05/20/1990` |
| OcrParse.FormattedKept | src/utils/ocr.ts:184-209 | `formatDate` keeps `05/20/1990` |
| OcrParse.BareNameExample | src/utils/ocr.ts:128-134 | the line `Jane Doe` is offered as the name `Jane Doe` |
| OcrParse.JaneDoePair | src/utils/ocr.ts:129 | `Jane Doe` passes the capitalised-name test |
| OcrParse.UnanchoredNameExample | src/utils/ocr.ts:128-134 | the line `John Smith 123` is offered whole as the name, since the test has no `$` |
| OcrParse.UnanchoredPair | src/utils/ocr.ts:129 | `John Smith 123` passes the capitalised-name test |
| Patterns.RunStart | src/utils/ocr.ts:141-145 | the leftmost position where a run of at least `min` class characters starts, with no earlier one; absent iff none exists |
| Patterns.RunMatch | src/utils/ocr.ts:141-147 | absent iff no run of at least `min` class characters exists; otherwise the whole run (it cannot be extended) starting at the leftmost position where such a run starts |
| Patterns.RunAt | src/utils/ocr.ts:141 | the run from the leftmost start is all class characters, at least `min` long, cannot be extended, and no earlier position starts one |
| Patterns.DateMatchAt | src/utils/ocr.ts:159 | a date match at a position is date-shaped text, and the longest one starting there: no longer text from that position is date-shaped |
| Patterns.DateMatchFromRuns | src/utils/ocr.ts:159 | the greedy digit runs `\d{1,2}`, `\d{1,2}`, `\d{2,4}` give date-shaped text that no longer text from the same start extends |
| Patterns.DateShapeWithin | src/utils/ocr.ts:159 | any date-shaped text at a position lies within the greedy runs: its separators are where the digit runs end |
| Patterns.NoDigitNoMatch | src/utils/ocr.ts:159 | the date pattern does not match at a non-digit |
| Patterns.DateMatchAtComplete | src/utils/ocr.ts:159 | wherever date-shaped text starts, the date pattern matches |
| Patterns.DateStart | src/utils/ocr.ts:159-170 | the leftmost position where the date pattern matches, with none before it; absent iff none exists |
| Patterns.DateSearch | src/utils/ocr.ts:159-170 | absent iff the line holds no date-shaped text; otherwise date-shaped text at the leftmost position where any starts, and the longest from there |
| Patterns.DateStartAt | src/utils/ocr.ts:159 | when the pattern matches at n and no digit lies between the search start and n, the search finds n |
| Patterns.DateSearchToEnd | src/utils/ocr.ts:159 | a line whose digit-free prefix is followed by date-shaped text to its end matches exactly that text |
| Patterns.NoSeparatorNoDate | src/utils/ocr.ts:159 | a line without `/` or `-` holds no date |
| Patterns.DateShapeSplit | src/utils/ocr.ts:186-188 | date-shaped text splits at its separators into its three digit groups |
| Patterns.CaptureAfterLabel | src/utils/ocr.ts:121 | absent iff no non-terminator follows within the `[:\s]+` run; otherwise the text from the last such start j in that run up to the first line terminator, `line[j..Span(line, j, IsDotChar)]` |
| Patterns.CaptureRest | src/utils/ocr.ts:121 | on one line, the capture after the label's separators is the whole rest of the line |
| Patterns.NameCaptureFrom | src/utils/ocr.ts:121 | absent iff no `name` label from p on is followed by a capture; otherwise the capture after the first such label |
| Patterns.NameCaptureAtStart | src/utils/ocr.ts:121 | a line starting with a matching `name` label captures what follows that label |
| Patterns.CapitalisedPairAt | src/utils/ocr.ts:129 | a capital, lower-case letters, one space, a capital and a lower-case letter pass `/^[A-Z][a-z]+\s+[A-Z][a-z]+/` |
| Patterns.NameCaptureNotBlank | src/utils/ocr.ts:121-123 | on a trimmed line the captured name still has content after `trim()` |
| OcrDates.FormatDateShape | src/utils/ocr.ts:184-206 | `formatDate` of date-shaped text formats its three digit groups |
| OcrDates.FormatPartsShape | src/utils/ocr.ts:188-205 | the output is MM/DD/YYYY (or MM/DD/YYY); month and day are swapped iff the first group exceeds 12; the year is the expanded year |
| OcrDates.YearGroup | src/utils/ocr.ts:191-194 | a two-digit year becomes `19YY` above 50 and `20YY` otherwise; a three- or four-digit year is kept |
| OcrDates.TwoDigitYearWindow | src/utils/ocr.ts:191-194 | a two-digit year always lands in 1951..2050 |
| OcrDates.FormatDateKeepsOtherText | src/utils/ocr.ts:186-208 | text that does not split into three pieces is returned unchanged |
| OcrDates.FormatDateFixesFormatted | src/utils/ocr.ts:186-208 | a formatted date whose month is at most 12 is a fixed point |
| OcrDates.FormatDateSwapsFormatted | src/utils/ocr.ts:199-201 | a formatted date whose month field exceeds 12 has month and day swapped |
| OcrDates.FormatDateOfFormattedIff | src/utils/ocr.ts:186-208 | on a formatted date, `formatDate` is the identity iff the month is at most 12 or the two fields are equal |
| OcrDates.FormatDateIdempotentIff | src/utils/ocr.ts:184-209 | formatting twice equals formatting once iff the first result's month is at most 12 or its month and day fields are equal |
| OcrDates.FormatDateSwapsDayFirst | src/utils/ocr.ts:199-201 | a two-digit first group above 12 trades places with the second group |
| OcrDates.FormatPartsSwapped | src/utils/ocr.ts:199-201 | two-digit groups with a first group above 12 and a three- or four-digit year come out as `second/first/year` |
| OcrDates.FormatPartsInOrder | src/utils/ocr.ts:191-204 | single-digit groups with a first group of at most 12 are padded in order, and the two-digit year is expanded around 50 |
| OcrDates.FormatDateDayFirstExample | src/utils/ocr.ts:199-201 | `13/05/1990` becomes `05/13/1990` |
| OcrDates.FormatDateShortExample | src/utils/ocr.ts:191-204 | `5-3-90` becomes `05/03/1990` |
| OcrDates.FormatDateCenturyExample | src/utils/ocr.ts:191-204 | `5-3-05` becomes `05/03/2005` |
| OcrDates.FormatPartsLongYear | src/utils/ocr.ts:191-204 | single-digit groups with a first group of at most 12 are padded in order, and a year not of two digits is kept as written |
| OcrDates.FormatDateThreeDigitYearExample | src/utils/ocr.ts:184-209 | `1/2/345` becomes `01/02/345`, a formatted date 9 characters long |
| OcrDates.PadTwoValue | src/utils/ocr.ts:201-204 | padding a one- or two-digit group to two digits keeps its value |
| OcrDates.DateLayoutSplit | src/utils/ocr.ts:239 | an MM/DD/YYYY string splits at `/` into its three fields |
| OcrDates.IsValidDateIff | src/utils/ocr.ts:235-247 | `isValidDate` holds iff the text has the 2/2/4-digit layout, the month is 1..12, the year is at least 100, and the day is 1..days of that month with Gregorian leap years |
| OcrDates.ModernDateValidIff | src/utils/ocr.ts:235-247 | for years from 100 on, a formatted date is valid iff its month and day are in range |
| OcrDates.FormattedDateValidIff | src/utils/ocr.ts:235-247 | `formatDate` output with an expanded two-digit year is valid iff its month and day are in range |
| OcrDates.NoThirtiethOfFebruary | src/utils/ocr.ts:240-246 | `02/30/2000` is rejected |
| OcrDates.LeapDayOf2000 | src/utils/ocr.ts:240-246 | `02/29/2000` is accepted |
| OcrDates.NoLeapDayIn1900 | src/utils/ocr.ts:240-246 | `02/29/1900` is rejected |
| OcrDates.NoYearBelow100 | src/utils/ocr.ts:240-246 | `01/01/0099` is rejected, because `Date` maps years 0..99 to 1900..1999 |
| Calendar.CarryDay | src/utils/ocr.ts:240 | `Date`'s day overflow and underflow always end on a real calendar date |
| Calendar.DateOf | src/utils/ocr.ts:240 | `new Date(year, month - 1, day)` always reads back as a real calendar date |
| Calendar.RoundTripsIff | src/utils/ocr.ts:240-246 | the year, month and day read back unchanged iff the year is at least 100, the month is 1..12 and the day is within the month |
| Location.NearestIndex | src/utils/location.ts:48-68 | the scan's pick has the minimum distance, and every earlier lead is strictly farther |
| Location.FindNearestLead | src/utils/location.ts:41-71 | the loop with strict `<` returns exactly the first closest lead, with its distance set |
| Location.NearestIsFirstClosest | src/utils/location.ts:41-71 | null iff the list is empty; otherwise the result is some lead with only `distance` set to the minimum, and every earlier lead is strictly farther |
| Location.DistanceScore | src/utils/location.ts:93 | the distance score is never negative |
| Location.DistanceScoreBands | src/utils/location.ts:93 | for distances from 0 to 50 the score is 100 − 2·distance; from 50 on it is 0; it always lies in 0..100 |
| Location.DistanceScoreAntitone | src/utils/location.ts:93 | a closer lead never gets a lower distance score |
| Location.ScoreAll | src/utils/location.ts:83-99 | every lead is scored, in list order |
| Location.CalculateBestMatch | src/utils/location.ts:76-106 | the array sorted in place yields exactly the first element of the stable descending sort by combined score |
| Location.BestMatchIsFirstMaximum | src/utils/location.ts:76-106 | null iff the list is empty; otherwise a lead of maximum combined score, with every earlier lead strictly lower |
| Location.BestMatchKeepsLead | src/utils/location.ts:83-98 | the scored record is the lead with its distance and `(matchScore + distanceScore) / 2` added, and nothing else changed |
| Location.GetConfidenceColor | src/utils/location.ts:121-125 | `#10B981` iff score ≥ 90, `#F59E0B` iff 70 ≤ score < 90, `#EF4444` iff score < 70 |
| Location.GetConfidenceLabel | src/utils/location.ts:130-134 | `High` iff score ≥ 90, `Medium` iff 70 ≤ score < 90, `Low` iff score < 70 |
| Location.BandOf | src/utils/location.ts:121-134 | the three bands partition the scores at 70 and 90 |
| Location.ColorAndLabelShareBands | src/utils/location.ts:121-134 | two scores get the same colour iff they get the same label iff they fall in the same band |
| Location.BandMonotonic | src/utils/location.ts:121-134 | a higher score never gets a lower band |
| Sorting.SortInPlace | src/utils/location.ts:101-103 | the in-place insertion sort leaves the array equal to the stable descending sort of its old contents |
| Sorting.InsertNext | src/utils/location.ts:101-103 | one step turns the first i+1 cells into the stable insertion of cell i into the sorted prefix, and leaves later cells unchanged |
| Sorting.SortDescendingSorted | src/utils/mockData.ts:164-168 | the sort permutes its input into non-increasing key order |
| Sorting.SortedHeadIsFirstMax | src/utils/location.ts:101-105 | the head of the sorted list is the first element with the largest key |
| Sorting.TopPrefix | src/utils/mockData.ts:183-185 | the first n sorted elements are drawn from the input, in non-increasing order, and none has a key below an element left out |
| Sorting.FilterMembers | src/utils/mockData.ts:164-176 | an element is kept by the filter iff it is in the list and passes the predicate |
| Sorting.FilterSubMultiset | src/utils/mockData.ts:164-176 | the filter keeps no element more often than the list holds it |
| Sorting.FilterMultiplicity | src/utils/mockData.ts:164-176 | the filter keeps every occurrence of a passing element and none of a failing one |
| Sorting.MatchingIndices | src/utils/mockData.ts:170-176 | the positions of the passing elements, strictly increasing, each passing, and every passing position among them |
| Sorting.FilterKeepsOrder | src/utils/mockData.ts:170-176 | the filter's k-th element is the list's element at the k-th passing position |
| MockData.NearRouteIff | src/utils/mockData.ts:156-162 | the near branch is taken iff the lower-cased query contains `near` |
| MockData.NearOutranksShow | src/utils/mockData.ts:159-180 | "show me nearby leads" contains `show` but takes the near branch |
| MockData.NearQueryFirstFive | src/utils/mockData.ts:159-162 | a query containing `near` answers exactly the first five leads in list order |
| MockData.MockNearQuery | src/utils/mockData.ts:159-162 | over `MOCK_LEADS` a `near` query answers leads 1 to 5 |
| MockData.HighScoreQuery | src/utils/mockData.ts:164-168 | the high-score branch answers exactly the leads scoring above 80, each as often as in the list, in non-increasing score order |
| MockData.SanFranciscoQuery | src/utils/mockData.ts:170-176 | the San Francisco branch answers exactly the leads whose lower-cased location contains `san francisco` or `sf`, each exactly as often as in the list, in list order |
| MockData.ShowAllQuery | src/utils/mockData.ts:178-180 | the `all`/`show` branch answers the list unchanged |
| MockData.TopFiveQuery | src/utils/mockData.ts:183-185 | the default branch answers min(5, n) leads from the list, in non-increasing score order, none scoring below a lead left out |
| MockData.HighestFive | src/utils/mockData.ts:183-185 | sorting a copy and taking five gives min(5, n) leads of the list, descending, and none is outscored by a lead left out |
| MockData.Take | src/utils/mockData.ts:161 | `slice(0, n)` is the first n elements, or the whole list when it is shorter |
| MockData.AnswersComeFromList | src/utils/mockData.ts:152-186 | every answer is drawn from the list: no lead is made up or altered, and none appears more often than in the list |
| MockData.MockAnswersComeFromDataset | src/utils/mockData.ts:152-186 | every answer over `MOCK_LEADS` consists of its leads |
| Text.Trim | src/utils/ocr.ts:108 | `trim()` is trimmed; it is empty iff the text is all whitespace; it drops only leading and trailing whitespace |
| Text.TrimTrimmed | src/utils/ocr.ts:123 | `trim()` leaves trimmed text as it is |
| Text.NotIncludesChar | src/utils/ocr.ts:119 | text lacking some character of a word does not include the word |
| Text.Split | src/utils/ocr.ts:107 | `split` yields at least one piece, and no piece contains a separator |
| Text.SplitNewlinesJoin | src/utils/ocr.ts:107 | joining the pieces of `split('\n')` with `'\n'` gives back the text |
| Text.ParseInt | src/utils/ocr.ts:192-197 | `parseInt` of a non-empty digit string is its decimal value |
| Text.PadTwo | src/utils/ocr.ts:201-204 | `padStart(2, '0')` ends with the text and is preceded only by zeros, up to length 2 |

## Left out

- Text recognition (`TextRecognition.recognize`) is a foreign ML Kit call. It
  is an input of `Ocr.MockOCRExtraction`: recognised text with blocks, or a
  failure. `console.error` in the failure path is not modelled.
- Confidences and distances are real numbers, not IEEE doubles. NaN,
  infinities and rounding error are not modelled. `Math.round` is
  `floor(x + 0.5)`.
- `calculateDistance`, `toRad` (Haversine trigonometry) and
  `formatDistance` (`toFixed`) are floating-point formatting. The distance
  function is a parameter of the lead-selection members. Nothing is assumed
  about it, not even that it is non-negative.
- `generateMockNotification` depends on `Math.random` and is not modelled.
- The one-second `setTimeout` delay of `mockAIQuery` is asynchronous I/O. The
  answer is modelled as a function of the query.
- MockData.Answer takes the lead list as a parameter. The application always
  passes `MOCK_LEADS`, which is a value here. "The default branch never
  reorders `MOCK_LEADS`" therefore holds by construction: there is no
  aliasing to model.
- The concrete answers of the high-score and San Francisco branches over
  `MOCK_LEADS` are not computed. Their lemmas state the answers for every
  lead list.
- `toLowerCase` lowers ASCII letters only. Non-ASCII case mapping and
  characters outside the Basic Multilingual Plane are not modelled. One
  `char` is one UTF-16 code unit.
- Sorting.SortInPlace models `Array.prototype.sort` with a consistent
  comparator as a stable insertion sort. The comparator's `|| 0` is the
  identity on the real-valued combined scores, which are never NaN here.
- Calendar.DateOf models `new Date(y, m, d)` on whole fields in proleptic
  Gregorian time. Time zones and daylight saving time are not modelled.
- `matchScore` and confidence percentages are integers. The dataset and the
  rounding only ever produce whole values.
- Exceptions from malformed blocks (a block without `text`) are not
  modelled. Every block has text.
- The loop body of `parseOCRText` is split into one method per slot
  (`OcrParse.ExtractName`, `OcrParse.ExtractIdNumber` and
  `OcrParse.ExtractDateOfBirth`). They run in the source's order, on the same
  `result` record.
- React screens, hooks, navigation, constants, `errorHandling.ts` and
  storage are not part of this model.
