/**
 * The rest of src/utils/ocr.ts: `calculateConfidence`, which turns the text
 * recogniser's blocks into three per-field percentages, `validateOCRData`,
 * and `mockOCRExtraction`, which puts the parser and the scorer together.
 * The recogniser itself (`TextRecognition.recognize`) is not modelled: its
 * outcome is a parameter, `Recognition`.
 */
module Ocr {
  import opened Types
  import opened Text
  import opened Patterns
  import opened OcrDates
  import opened OcrParse

  // ---------------------------------------------------------------------
  // Recogniser output

  datatype RecognizedLanguage = RecognizedLanguage(confidence: Option<real>)

  /** A block of recognised text with the languages the recogniser reports for it. */
  datatype Block = Block(text: string, recognizedLanguages: Option<seq<RecognizedLanguage>>)

  /** What `TextRecognition.recognize` delivers, or that it threw. */
  datatype Recognition = Recognized(text: string, blocks: seq<Block>) | RecognitionFailed

  /** The confidence used when a block reports none, or reports 0. */
  const DefaultBlockConfidence: real := 0.85

  /** The first reported language confidence, when there is one. */
  function ReportedConfidence(block: Block): Option<real> {
    match block.recognizedLanguages
    case None => None
    case Some(languages) => if languages == [] then None else languages[0].confidence
  }

  /**
   * `block.recognizedLanguages?.[0]?.confidence || 0.85`: the reported
   * confidence, except that a missing one and a reported 0 both become 0.85.
   */
  function BlockConfidence(block: Block): (c: real)
    ensures c != 0.0
    ensures ReportedConfidence(block).Some? && ReportedConfidence(block).value != 0.0
            ==> c == ReportedConfidence(block).value
    ensures ReportedConfidence(block) == None || ReportedConfidence(block) == Some(0.0)
            ==> c == DefaultBlockConfidence
  {
    match ReportedConfidence(block)
    case None => DefaultBlockConfidence
    case Some(c) => if c == 0.0 then DefaultBlockConfidence else c
  }

  /** Every confidence the recogniser reports for the block is a fraction from 0 to 1. */
  predicate ReportsFractions(block: Block) {
    block.recognizedLanguages.Some? ==>
      forall k | 0 <= k < |block.recognizedLanguages.value| ::
        var c := block.recognizedLanguages.value[k].confidence;
        c.Some? ==> 0.0 <= c.value <= 1.0
  }

  // ---------------------------------------------------------------------
  // calculateConfidence (src/utils/ocr.ts:49-99)

  /** A block that counts towards the name confidence (src/utils/ocr.ts:68). */
  predicate CountsForName(block: Block) {
    Includes(LowerAscii(block.text), "name") || IsWordsOnly(block.text)
  }

  /** A block that counts towards the ID number confidence (src/utils/ocr.ts:74-78). */
  predicate CountsForIdNumber(block: Block) {
    var text := LowerAscii(block.text);
    Includes(text, "id") || Includes(text, "number") || IsIdLike(block.text)
  }

  /** A block that counts towards the date of birth confidence (src/utils/ocr.ts:84-88). */
  predicate CountsForDateOfBirth(block: Block) {
    var text := LowerAscii(block.text);
    Includes(text, "birth") || Includes(text, "dob") || DateSearch(block.text).Some?
  }

  /** Which blocks count towards `field`. */
  function CountsFor(field: Field): Block -> bool {
    match field
    case Name => CountsForName
    case IdNumber => CountsForIdNumber
    case DateOfBirth => CountsForDateOfBirth
  }

  /** What one block adds to a running total: its confidence as a percentage, if it counts. */
  function Contribution(counts: Block -> bool, block: Block): real {
    if counts(block) then BlockConfidence(block) * 100.0 else 0.0
  }

  /** The running total over `blocks` of the blocks that count. */
  function Total(blocks: seq<Block>, counts: Block -> bool): real {
    if blocks == [] then 0.0
    else Total(blocks[..|blocks| - 1], counts) + Contribution(counts, blocks[|blocks| - 1])
  }

  /** How many of `blocks` count. */
  function Count(blocks: seq<Block>, counts: Block -> bool): nat {
    if blocks == [] then 0
    else Count(blocks[..|blocks| - 1], counts) + (if counts(blocks[|blocks| - 1]) then 1 else 0)
  }

  /** `Math.round`: the nearest integer, halves rounded up. */
  function Round(x: real): int {
    (x + 0.5).Floor
  }

  /** A field's score: the rounded mean of its contributions, or 50 when no block counted. */
  function Score(total: real, count: nat): int {
    if count > 0 then Round(total / count as real) else 50
  }

  function FieldScore(blocks: seq<Block>, field: Field): int {
    Score(Total(blocks, CountsFor(field)), Count(blocks, CountsFor(field)))
  }

  /** What `calculateConfidence` returns. */
  function ConfidenceOf(blocks: seq<Block>): Confidence {
    Confidence(FieldScore(blocks, Name), FieldScore(blocks, IdNumber), FieldScore(blocks, DateOfBirth))
  }

  /** `calculateConfidence`: one pass over the blocks with a total and a count per field. */
  method CalculateConfidence(blocks: seq<Block>) returns (scores: Confidence)
    ensures scores == ConfidenceOf(blocks)
  {
    var nameConfidence, idConfidence, dobConfidence := 0.0, 0.0, 0.0;
    var nameCount, idCount, dobCount := 0, 0, 0;
    for i := 0 to |blocks|
      invariant nameConfidence == Total(blocks[..i], CountsForName)
      invariant nameCount == Count(blocks[..i], CountsForName)
      invariant idConfidence == Total(blocks[..i], CountsForIdNumber)
      invariant idCount == Count(blocks[..i], CountsForIdNumber)
      invariant dobConfidence == Total(blocks[..i], CountsForDateOfBirth)
      invariant dobCount == Count(blocks[..i], CountsForDateOfBirth)
    {
      var block := blocks[i];
      var blockConfidence := BlockConfidence(block);

      if CountsForName(block) {
        nameConfidence := nameConfidence + blockConfidence * 100.0;
        nameCount := nameCount + 1;
      }

      if CountsForIdNumber(block) {
        idConfidence := idConfidence + blockConfidence * 100.0;
        idCount := idCount + 1;
      }

      if CountsForDateOfBirth(block) {
        dobConfidence := dobConfidence + blockConfidence * 100.0;
        dobCount := dobCount + 1;
      }

      TallyStep(blocks, i, CountsForName);
      TallyStep(blocks, i, CountsForIdNumber);
      TallyStep(blocks, i, CountsForDateOfBirth);
    }
    assert blocks[..|blocks|] == blocks;
    scores := Confidence(
      if nameCount > 0 then Round(nameConfidence / nameCount as real) else 50,
      if idCount > 0 then Round(idConfidence / idCount as real) else 50,
      if dobCount > 0 then Round(dobConfidence / dobCount as real) else 50);
  }

  /** The running total and count after one more block. */
  lemma TallyStep(blocks: seq<Block>, i: nat, counts: Block -> bool)
    requires i < |blocks|
    ensures Total(blocks[..i + 1], counts) == Total(blocks[..i], counts) + Contribution(counts, blocks[i])
    ensures Count(blocks[..i + 1], counts) == Count(blocks[..i], counts) + (if counts(blocks[i]) then 1 else 0)
  {
    assert blocks[..i + 1][..i] == blocks[..i];
  }

  /** A field no block counts towards scores exactly 50, its neutral default. */
  lemma {:induction false} NoCountedBlock(blocks: seq<Block>, counts: Block -> bool)
    ensures Count(blocks, counts) == 0 <==> forall k | 0 <= k < |blocks| :: !counts(blocks[k])
    ensures Count(blocks, counts) == 0 ==> Score(Total(blocks, counts), Count(blocks, counts)) == 50
  {
    if blocks != [] {
      var init := blocks[..|blocks| - 1];
      NoCountedBlock(init, counts);
      assert forall k | 0 <= k < |init| :: init[k] == blocks[k];
    }
  }

  /** Rounding never reverses order. */
  lemma RoundMonotonic(x: real, y: real)
    requires x <= y
    ensures Round(x) <= Round(y)
  {
  }

  /** Each counted block adding between `lo` and `hi` keeps the total between `lo` and `hi` per block. */
  lemma {:induction false} TotalBetween(blocks: seq<Block>, counts: Block -> bool, lo: real, hi: real)
    requires forall k | 0 <= k < |blocks| && counts(blocks[k]) ::
      lo <= BlockConfidence(blocks[k]) * 100.0 <= hi
    ensures lo * (Count(blocks, counts) as real) <= Total(blocks, counts) <= hi * (Count(blocks, counts) as real)
  {
    if blocks != [] {
      var init, last := blocks[..|blocks| - 1], blocks[|blocks| - 1];
      assert forall k | 0 <= k < |init| :: init[k] == blocks[k];
      TotalBetween(init, counts, lo, hi);
      var n := Count(init, counts) as real;
      var m := Count(blocks, counts) as real;
      StepBetween(Total(init, counts), n, Contribution(counts, last), counts(last), lo, hi, Total(blocks, counts), m);
    }
  }

  lemma StepBetween(t: real, n: real, c: real, counted: bool, lo: real, hi: real, total: real, m: real)
    requires lo * n <= t <= hi * n
    requires counted ==> lo <= c <= hi
    requires !counted ==> c == 0.0
    requires total == t + c && m == if counted then n + 1.0 else n
    ensures lo * m <= total <= hi * m
  {
    if counted {
      assert lo * (n + 1.0) == lo * n + lo;
      assert hi * (n + 1.0) == hi * n + hi;
    }
  }

  /** A mean of values between `lo` and `hi` lies between them. */
  lemma MeanBetween(total: real, n: real, lo: real, hi: real)
    requires n > 0.0 && lo * n <= total <= hi * n
    ensures lo <= total / n <= hi
  {
    assert (total / n) * n == total;
  }

  /**
   * A score lies between the rounded smallest and largest percentage any
   * counted block contributes: it is a rounded mean.
   */
  lemma ScoreBetween(blocks: seq<Block>, counts: Block -> bool, lo: real, hi: real)
    requires Count(blocks, counts) > 0
    requires forall k | 0 <= k < |blocks| && counts(blocks[k]) ::
      lo <= BlockConfidence(blocks[k]) * 100.0 <= hi
    ensures Round(lo) <= Score(Total(blocks, counts), Count(blocks, counts)) <= Round(hi)
  {
    TotalBetween(blocks, counts, lo, hi);
    ScoreOfBoundedTotal(Total(blocks, counts), Count(blocks, counts), lo, hi);
  }

  /** The rounded mean of `count` values between `lo` and `hi` lies between their roundings. */
  lemma ScoreOfBoundedTotal(total: real, count: nat, lo: real, hi: real)
    requires count > 0 && lo * (count as real) <= total <= hi * (count as real)
    ensures Round(lo) <= Score(total, count) <= Round(hi)
  {
    var mean := total / count as real;
    MeanBetween(total, count as real, lo, hi);
    RoundMonotonic(lo, mean);
    RoundMonotonic(mean, hi);
  }

  /**
   * When the recogniser reports fractions, every score is a percentage from
   * 0 to 100.
   */
  lemma ScoresArePercentages(blocks: seq<Block>, field: Field)
    requires forall k | 0 <= k < |blocks| :: ReportsFractions(blocks[k])
    ensures 0 <= FieldScore(blocks, field) <= 100
  {
    var counts := CountsFor(field);
    if Count(blocks, counts) > 0 {
      forall k | 0 <= k < |blocks| && counts(blocks[k])
        ensures 0.0 <= BlockConfidence(blocks[k]) * 100.0 <= 100.0
      {
        var b := blocks[k];
        if ReportedConfidence(b).Some? {
          assert b.recognizedLanguages.value[0].confidence == ReportedConfidence(b);
        }
      }
      ScoreBetween(blocks, counts, 0.0, 100.0);
      assert Round(0.0) == 0 && Round(100.0) == 100;
    }
  }

  /**
   * Blocks that report no confidence at all count as 0.85 each, so every
   * field some block counts towards scores 85.
   */
  lemma UnreportedConfidenceScores85(blocks: seq<Block>, field: Field)
    requires forall k | 0 <= k < |blocks| :: ReportedConfidence(blocks[k]).None?
    requires Count(blocks, CountsFor(field)) > 0
    ensures FieldScore(blocks, field) == 85
  {
    ScoreBetween(blocks, CountsFor(field), 85.0, 85.0);
    assert Round(85.0) == 85;
  }

  /** A field no block counts towards scores 50. */
  lemma UncountedFieldScores50(blocks: seq<Block>, field: Field)
    requires forall k | 0 <= k < |blocks| :: !CountsFor(field)(blocks[k])
    ensures FieldScore(blocks, field) == 50
  {
    NoCountedBlock(blocks, CountsFor(field));
  }

  // ---------------------------------------------------------------------
  // validateOCRData (src/utils/ocr.ts:214-230)

  const NameError := "Name is required and must be at least 2 characters"
  const IdNumberError := "ID Number is required and must be at least 5 characters"
  const DateOfBirthError := "Valid date of birth is required (MM/DD/YYYY)"

  /**
   * `validateOCRData`: an error per field that is too short or, for the
   * date of birth, not a valid MM/DD/YYYY date; no entry for a good field.
   */
  method ValidateOCRData(data: OCRResult) returns (errors: map<Field, string>)
    ensures Name in errors <==> |data.name| < 2
    ensures IdNumber in errors <==> |data.idNumber| < 5
    ensures DateOfBirth in errors <==> !IsValidDate(data.dateOfBirth)
    ensures Name in errors ==> errors[Name] == NameError
    ensures IdNumber in errors ==> errors[IdNumber] == IdNumberError
    ensures DateOfBirth in errors ==> errors[DateOfBirth] == DateOfBirthError
    ensures errors == map[] <==> |data.name| >= 2 && |data.idNumber| >= 5 && IsValidDate(data.dateOfBirth)
  {
    errors := map[];

    if data.name == [] || |data.name| < 2 {
      errors := errors[Name := NameError];
    }

    if data.idNumber == [] || |data.idNumber| < 5 {
      errors := errors[IdNumber := IdNumberError];
    }

    if data.dateOfBirth == [] || !IsValidDate(data.dateOfBirth) {
      errors := errors[DateOfBirth := DateOfBirthError];
    }

    if errors == map[] {
      assert Name !in errors && IdNumber !in errors && DateOfBirth !in errors;
    }
  }

  /**
   * `{"Al", "A1234", "02/30/2000"}`: the name and the ID number are long
   * enough, so only the impossible date of birth is reported.
   */
  lemma OnlyImpossibleDateReported(data: OCRResult)
    requires data.name == "Al" && data.idNumber == "A1234" && data.dateOfBirth == "02/30/2000"
    ensures |data.name| >= 2 && |data.idNumber| >= 5 && !IsValidDate(data.dateOfBirth)
  {
    NoThirtiethOfFebruary(data.dateOfBirth);
  }

  // ---------------------------------------------------------------------
  // mockOCRExtraction (src/utils/ocr.ts:7-44)

  /** The result when recognition throws: empty fields, zero confidence. */
  const FailedExtraction := OCRResult("", "", "", Confidence(0, 0, 0))

  /** What a successful recognition of `text` in `blocks` extracts. */
  function ExtractionOf(text: string, blocks: seq<Block>): OCRResult {
    var parsed := ParseSpec(text);
    OCRResult(OrEmpty(parsed.name), OrEmpty(parsed.idNumber), OrEmpty(parsed.dateOfBirth), ConfidenceOf(blocks))
  }

  /**
   * `mockOCRExtraction`: parse the recognised text, score the blocks, and
   * fill any field the parser left absent with the empty string.
   */
  method MockOCRExtraction(recognition: Recognition) returns (result: OCRResult)
    ensures recognition.RecognitionFailed? ==> result == FailedExtraction
    ensures recognition.Recognized? ==> result == ExtractionOf(recognition.text, recognition.blocks)
  {
    match recognition
    case RecognitionFailed =>
      result := FailedExtraction;
    case Recognized(text, blocks) =>
      var extractedData := ParseOCRText(text);
      var confidenceScores := CalculateConfidence(blocks);
      result := OCRResult(
        OrEmpty(extractedData.name),
        OrEmpty(extractedData.idNumber),
        OrEmpty(extractedData.dateOfBirth),
        Confidence(confidenceScores.name, confidenceScores.idNumber, confidenceScores.dateOfBirth));
  }

  /** The fallback result fails validation on all three fields. */
  lemma FailedExtractionInvalid()
    ensures |FailedExtraction.name| < 2 && |FailedExtraction.idNumber| < 5
    ensures !IsValidDate(FailedExtraction.dateOfBirth)
  {
  }

  /**
   * On an extraction, the ID number error is raised exactly when the parser
   * found no ID number, and the date of birth is empty or in the layout
   * `formatDate` writes.
   */
  lemma ExtractedFieldsShape(text: string, blocks: seq<Block>)
    ensures var r, parsed := ExtractionOf(text, blocks), ParseSpec(text);
      (|r.idNumber| < 5 <==> parsed.idNumber.None?)
      && (r.name == [] <==> parsed.name.None?)
      && (r.dateOfBirth == [] || IsFormattedDate(r.dateOfBirth))
  {
    ParsedFieldsWellFormed(text);
  }
}
