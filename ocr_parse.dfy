/**
 * `parseOCRText` (src/utils/ocr.ts:104-179): the recognised text is cut into
 * trimmed, non-blank lines, and one pass over the lines fills three slots,
 * name, ID number and date of birth.  Each slot is filled at most once, by
 * the first line that offers a value for it.
 *
 * The specification is per line: `NameAt`, `IdAt` and `DobAt` say what line
 * `i` offers for each slot, and `FirstSome` picks the first offer.  The
 * method `ParseOCRText` is the loop itself, proved equal to that.
 */
module OcrParse {
  import opened Types
  import opened Text
  import opened Patterns
  import opened OcrDates

  // ---------------------------------------------------------------------
  // Lines

  /** `pieces.map(line => line.trim()).filter(Boolean)`. */
  function TrimNonBlank(pieces: seq<string>): (lines: seq<string>)
    ensures |lines| <= |pieces|
    ensures forall i | 0 <= i < |lines| :: lines[i] != [] && IsTrimmed(lines[i])
  {
    if pieces == [] then [] else Kept(pieces[0]) + TrimNonBlank(pieces[1..])
  }

  /** What `trim` then `filter(Boolean)` keep of one piece. */
  function Kept(piece: string): (kept: seq<string>)
    ensures |kept| <= 1
    ensures forall i | 0 <= i < |kept| :: kept[i] != [] && IsTrimmed(kept[i])
  {
    var t := Trim(piece);
    if t == [] then [] else [t]
  }

  /** Trimming and dropping blanks works piece by piece, so the order of lines is kept. */
  lemma {:induction false} TrimNonBlankAppend(a: seq<string>, b: seq<string>)
    ensures TrimNonBlank(a + b) == TrimNonBlank(a) + TrimNonBlank(b)
  {
    if a == [] {
      assert a + b == b;
    } else {
      assert (a + b)[1..] == a[1..] + b;
      TrimNonBlankAppend(a[1..], b);
      calc {
        TrimNonBlank(a + b);
        Kept(a[0]) + TrimNonBlank(a[1..] + b);
        Kept(a[0]) + (TrimNonBlank(a[1..]) + TrimNonBlank(b));
        (Kept(a[0]) + TrimNonBlank(a[1..])) + TrimNonBlank(b);
      }
    }
  }

  /** A line is kept exactly when some piece trims to it and it is not blank. */
  lemma {:induction false} TrimNonBlankMembers(pieces: seq<string>, t: string)
    ensures t in TrimNonBlank(pieces) <==> t != [] && exists j | 0 <= j < |pieces| :: Trim(pieces[j]) == t
  {
    if pieces != [] {
      var rest := pieces[1..];
      TrimNonBlankMembers(rest, t);
      assert t in TrimNonBlank(pieces) <==> t in Kept(pieces[0]) || t in TrimNonBlank(rest);
      if exists j | 0 <= j < |pieces| :: Trim(pieces[j]) == t {
        var j :| 0 <= j < |pieces| && Trim(pieces[j]) == t;
        if j > 0 {
          assert Trim(rest[j - 1]) == t;
        }
      }
      if exists j | 0 <= j < |rest| :: Trim(rest[j]) == t {
        var j :| 0 <= j < |rest| && Trim(rest[j]) == t;
        assert Trim(pieces[j + 1]) == t;
      }
    }
  }

  /** The lines `parseOCRText` scans: split at `'\n'`, trimmed, blank lines dropped. */
  function Lines(rawText: string): (lines: seq<string>)
    ensures forall i | 0 <= i < |lines| :: lines[i] != [] && IsTrimmed(lines[i])
  {
    TrimNonBlank(Split(rawText, IsNewline))
  }

  /** Lines as `Lines` delivers them: each non-empty with no space at either end. */
  predicate AreLines(lines: seq<string>) {
    forall i | 0 <= i < |lines| :: lines[i] != [] && IsTrimmed(lines[i])
  }

  // ---------------------------------------------------------------------
  // What one line offers each slot

  /** `lines[i + 1]`, which is `undefined` past the last line. */
  function NextLine(lines: seq<string>, i: nat): Option<string> {
    if i + 1 < |lines| then Some(lines[i + 1]) else None
  }

  /**
   * The name line `i` offers (src/utils/ocr.ts:118-136).  A line mentioning
   * "name" offers what follows the label, or else the whole next line; it
   * never falls through to the capitalised-words test.  Any other line of
   * 6 to 49 characters starting with two capitalised words offers itself.
   */
  function NameAt(lines: seq<string>, i: nat): Option<string>
    requires i < |lines|
  {
    var line := lines[i];
    var next := NextLine(lines, i);
    if Includes(LowerAscii(line), "name") then
      match NameCapture(line)
      case Some(c) => Some(Trim(c))
      case None => if Truthy(next) then next else None
    else if IsCapitalisedPair(line) && 5 < |line| < 50 then Some(line)
    else None
  }

  /**
   * The ID number line `i` offers (src/utils/ocr.ts:139-154).  A line
   * mentioning "id" or "number" offers its first run of five or more
   * letters, digits or hyphens in either case, or else the next line's first
   * such run in upper case only.  Any other line offers itself when it is
   * 6 to 15 upper-case letters, digits or hyphens.
   */
  function IdAt(lines: seq<string>, i: nat): Option<string>
    requires i < |lines|
  {
    var line := lines[i];
    var next := NextLine(lines, i);
    var lower := LowerAscii(line);
    if Includes(lower, "id") || Includes(lower, "number") then
      match IdRunIgnoreCase(line)
      case Some(m) => Some(m)
      case None => if Truthy(next) then IdRun(next.value) else None
    else if IsStandaloneId(line) then Some(line)
    else None
  }

  /** `formatDate` of the first date-shaped text of `s`. */
  function FormattedDateIn(s: string): Option<string> {
    match DateSearch(s)
    case Some(m) => Some(FormatDate(m))
    case None => None
  }

  /**
   * The date of birth line `i` offers (src/utils/ocr.ts:157-175).  A line
   * mentioning "birth" or "dob" offers its first date, or else the next
   * line's first date; any other line offers its own first date.
   */
  function DobAt(lines: seq<string>, i: nat): Option<string>
    requires i < |lines|
  {
    var line := lines[i];
    var next := NextLine(lines, i);
    var lower := LowerAscii(line);
    if Includes(lower, "birth") || Includes(lower, "dob") then
      if DateSearch(line).Some? then FormattedDateIn(line)
      else if Truthy(next) then FormattedDateIn(next.value)
      else None
    else FormattedDateIn(line)
  }

  function NameCandidates(lines: seq<string>): seq<Option<string>> {
    seq(|lines|, i requires 0 <= i < |lines| => NameAt(lines, i))
  }

  function IdCandidates(lines: seq<string>): seq<Option<string>> {
    seq(|lines|, i requires 0 <= i < |lines| => IdAt(lines, i))
  }

  function DobCandidates(lines: seq<string>): seq<Option<string>> {
    seq(|lines|, i requires 0 <= i < |lines| => DobAt(lines, i))
  }

  // ---------------------------------------------------------------------
  // First offer wins

  /**
   * The first present candidate: what a slot holds after a pass that fills
   * it only while it is still empty.
   */
  function FirstSome(cs: seq<Option<string>>): (r: Option<string>)
    ensures r.None? <==> forall i | 0 <= i < |cs| :: cs[i].None?
    ensures r.Some? ==> exists i | 0 <= i < |cs| :: cs[i] == r && forall j | 0 <= j < i :: cs[j].None?
  {
    if cs == [] then None
    else
      var init := cs[..|cs| - 1];
      var earlier := FirstSome(init);
      assert forall i | 0 <= i < |init| :: init[i] == cs[i];
      if earlier.Some? then earlier else cs[|cs| - 1]
  }

  /** One more candidate changes the pick only when there was none. */
  lemma FirstSomeStep(cs: seq<Option<string>>, k: nat)
    requires k < |cs|
    ensures FirstSome(cs[..k + 1]) == if FirstSome(cs[..k]).Some? then FirstSome(cs[..k]) else cs[k]
  {
    assert cs[..k + 1][..k] == cs[..k];
  }

  /** Once a slot is filled, later candidates never change it. */
  lemma {:induction false} FirstSomeKeeps(cs: seq<Option<string>>, k: nat)
    requires k <= |cs| && FirstSome(cs[..k]).Some?
    ensures FirstSome(cs) == FirstSome(cs[..k])
    decreases |cs| - k
  {
    if k < |cs| {
      FirstSomeStep(cs, k);
      FirstSomeKeeps(cs, k + 1);
    } else {
      assert cs[..k] == cs;
    }
  }

  /** The slots after scanning the first `k` lines. */
  function ScanState(lines: seq<string>, k: nat): PartialResult
    requires k <= |lines|
  {
    PartialResult(
      FirstSome(NameCandidates(lines)[..k]),
      FirstSome(IdCandidates(lines)[..k]),
      FirstSome(DobCandidates(lines)[..k]))
  }

  /** What `parseOCRText` returns for `rawText`. */
  function ParseSpec(rawText: string): PartialResult {
    var lines := Lines(rawText);
    ScanState(lines, |lines|)
  }

  // ---------------------------------------------------------------------
  // Every offer is a non-empty string

  lemma NameAtNotEmpty(lines: seq<string>, i: nat)
    requires AreLines(lines) && i < |lines|
    ensures NameAt(lines, i).Some? ==> NameAt(lines, i).value != []
  {
    var line := lines[i];
    if Includes(LowerAscii(line), "name") && NameCapture(line).Some? {
      NameCaptureNotBlank(line);
    }
  }

  lemma IdAtNotEmpty(lines: seq<string>, i: nat)
    requires i < |lines|
    ensures IdAt(lines, i).Some? ==> |IdAt(lines, i).value| >= 5
  {
  }

  /** A date of birth offer is always a formatted date, never empty. */
  lemma DobAtFormatted(lines: seq<string>, i: nat)
    requires i < |lines|
    ensures DobAt(lines, i).Some? ==> IsFormattedDate(DobAt(lines, i).value)
  {
    var line := lines[i];
    var next := NextLine(lines, i);
    var lower := LowerAscii(line);
    var s := if (Includes(lower, "birth") || Includes(lower, "dob")) && DateSearch(line).None? && Truthy(next)
             then next.value else line;
    if DateSearch(s).Some? {
      FormatDateIdempotentIff(DateSearch(s).value);
    }
  }

  /** Slot values as the loop keeps them: each present value is non-empty. */
  predicate FilledSlotsNonEmpty(r: PartialResult) {
    (r.name.Some? ==> r.name.value != [])
    && (r.idNumber.Some? ==> r.idNumber.value != [])
    && (r.dateOfBirth.Some? ==> r.dateOfBirth.value != [])
  }

  // ---------------------------------------------------------------------
  // What the result holds

  /**
   * Each slot of the result is the offer of the first line that makes one,
   * and is absent exactly when no line offers anything for it.
   */
  lemma ParsedSlotsAreFirstOffers(rawText: string)
    ensures var lines, r := Lines(rawText), ParseSpec(rawText);
      (r.name.None? <==> forall i | 0 <= i < |lines| :: NameAt(lines, i).None?)
      && (r.idNumber.None? <==> forall i | 0 <= i < |lines| :: IdAt(lines, i).None?)
      && (r.dateOfBirth.None? <==> forall i | 0 <= i < |lines| :: DobAt(lines, i).None?)
      && (r.name.Some? ==> exists i | 0 <= i < |lines| ::
            NameAt(lines, i) == r.name && forall j | 0 <= j < i :: NameAt(lines, j).None?)
      && (r.idNumber.Some? ==> exists i | 0 <= i < |lines| ::
            IdAt(lines, i) == r.idNumber && forall j | 0 <= j < i :: IdAt(lines, j).None?)
      && (r.dateOfBirth.Some? ==> exists i | 0 <= i < |lines| ::
            DobAt(lines, i) == r.dateOfBirth && forall j | 0 <= j < i :: DobAt(lines, j).None?)
  {
    var lines := Lines(rawText);
    var ns, ids, ds := NameCandidates(lines), IdCandidates(lines), DobCandidates(lines);
    assert ns[..|lines|] == ns && ids[..|lines|] == ids && ds[..|lines|] == ds;
    NameSlotIsFirstOffer(lines);
    IdSlotIsFirstOffer(lines);
    DobSlotIsFirstOffer(lines);
  }

  lemma NameSlotIsFirstOffer(lines: seq<string>)
    ensures var r := FirstSome(NameCandidates(lines));
      (r.None? <==> forall i | 0 <= i < |lines| :: NameAt(lines, i).None?)
      && (r.Some? ==> exists i | 0 <= i < |lines| ::
            NameAt(lines, i) == r && forall j | 0 <= j < i :: NameAt(lines, j).None?)
  {
    var cs := NameCandidates(lines);
    assert forall i | 0 <= i < |lines| :: cs[i] == NameAt(lines, i);
  }

  lemma IdSlotIsFirstOffer(lines: seq<string>)
    ensures var r := FirstSome(IdCandidates(lines));
      (r.None? <==> forall i | 0 <= i < |lines| :: IdAt(lines, i).None?)
      && (r.Some? ==> exists i | 0 <= i < |lines| ::
            IdAt(lines, i) == r && forall j | 0 <= j < i :: IdAt(lines, j).None?)
  {
    var cs := IdCandidates(lines);
    assert forall i | 0 <= i < |lines| :: cs[i] == IdAt(lines, i);
  }

  lemma DobSlotIsFirstOffer(lines: seq<string>)
    ensures var r := FirstSome(DobCandidates(lines));
      (r.None? <==> forall i | 0 <= i < |lines| :: DobAt(lines, i).None?)
      && (r.Some? ==> exists i | 0 <= i < |lines| ::
            DobAt(lines, i) == r && forall j | 0 <= j < i :: DobAt(lines, j).None?)
  {
    var cs := DobCandidates(lines);
    assert forall i | 0 <= i < |lines| :: cs[i] == DobAt(lines, i);
  }

  /**
   * Whatever the result holds is well formed: a non-empty name, an ID
   * number of at least five characters, and a date of birth in the
   * `MM/DD/` layout `formatDate` writes.
   */
  lemma ParsedFieldsWellFormed(rawText: string)
    ensures var r := ParseSpec(rawText);
      (r.name.Some? ==> r.name.value != [])
      && (r.idNumber.Some? ==> |r.idNumber.value| >= 5)
      && (r.dateOfBirth.Some? ==> IsFormattedDate(r.dateOfBirth.value))
  {
    var lines, r := Lines(rawText), ParseSpec(rawText);
    ParsedSlotsAreFirstOffers(rawText);
    if r.name.Some? {
      var i :| 0 <= i < |lines| && NameAt(lines, i) == r.name;
      NameAtNotEmpty(lines, i);
    }
    if r.idNumber.Some? {
      var i :| 0 <= i < |lines| && IdAt(lines, i) == r.idNumber;
      IdAtNotEmpty(lines, i);
    }
    if r.dateOfBirth.Some? {
      var i :| 0 <= i < |lines| && DobAt(lines, i) == r.dateOfBirth;
      DobAtFormatted(lines, i);
    }
  }

  /**
   * A labelled ID line takes the first run of five or more word characters
   * after the label: on any line starting `ID Number:`, such as
   * `ID Number: AB12345`, that run is the word `Number`, whatever follows.
   */
  lemma IdLabelTakesFirstWord(lines: seq<string>, i: nat)
    requires i < |lines| && |lines[i]| >= 10 && lines[i][..10] == "ID Number:"
    ensures IdAt(lines, i) == Some("Number")
  {
    var line := lines[i];
    var lower := LowerAscii(line);
    assert line[0] == line[..10][0] == 'I' && line[1] == line[..10][1] == 'D';
    assert lower[..2] == "id";
    assert IncludesAt(lower, "id", 0);
    assert line[2] == line[..10][2] && line[9] == line[..10][9];
    assert line[3..9] == line[..10][3..9];
    FirstIdRun(line);
  }

  lemma FirstIdRun(line: string)
    requires |line| >= 10 && line[0] == 'I' && line[1] == 'D' && line[2] == ' '
    requires line[3..9] == "Number" && line[9] == ':'
    ensures IdRunIgnoreCase(line) == Some("Number")
  {
    var p := IsIdCharIgnoreCase;
    assert forall k | 3 <= k < 9 :: line[k] == line[3..9][k - 3];
    SpanExact(line, 0, 2, p);
    SpanExact(line, 1, 1, p);
    SpanExact(line, 2, 0, p);
    SpanExact(line, 3, 6, p);
    assert RunStart(line, p, 5, 3) == Some(3);
    assert RunStart(line, p, 5, 2) == Some(3);
    assert RunStart(line, p, 5, 1) == Some(3);
  }

  /**
   * A line holding only a hyphenated date, with no label, is offered both
   * as an ID number (it is 6 to 15 digits and hyphens) and as a date.
   */
  lemma HyphenatedDateIsAlsoAnId(lines: seq<string>)
    requires lines == ["05-20-1990"]
    ensures IdAt(lines, 0) == Some("05-20-1990")
    ensures DobAt(lines, 0).Some?
  {
    var line := lines[0];
    var lower := LowerAscii(line);
    assert lower == line;
    NotIncludesChar(lower, "id", 0);
    NotIncludesChar(lower, "number", 0);
    NotIncludesChar(lower, "birth", 0);
    NotIncludesChar(lower, "dob", 0);
    assert DateShapeAt(line, 2, 2);
    assert line[0..10] == line;
  }

  // ---------------------------------------------------------------------
  // Worked examples
  //
  // Each example line is passed in as `lines[i]` equal to a literal rather
  // than written inline: with the literal in place of `lines`, the verifier
  // evaluates the whole parser on it character by character.  Facts about
  // one literal line are proved in small lemmas of their own for the same
  // reason.

  /** The first present candidate is the pick. */
  lemma FirstOffer(cs: seq<Option<string>>, i: nat)
    requires i < |cs| && cs[i].Some?
    requires forall j | 0 <= j < i :: cs[j].None?
    ensures FirstSome(cs) == cs[i]
  {
  }

  /** Over three lines, a slot holds line `i`'s offer when the lines before it offered nothing. */
  lemma OfferOfThree(cs: seq<Option<string>>, i: nat, x: string)
    requires |cs| == 3 && i < 3 && cs[i] == Some(x)
    requires i >= 1 ==> cs[0] == None
    requires i == 2 ==> cs[1] == None
    ensures FirstSome(cs[..3]) == Some(x)
  {
    assert cs[..3] == cs;
    FirstOffer(cs, i);
  }

  /** Line `k`'s offers as the scan sees them. */
  lemma CandidatesAt(lines: seq<string>, k: nat)
    requires k < |lines|
    ensures NameCandidates(lines)[k] == NameAt(lines, k)
    ensures IdCandidates(lines)[k] == IdAt(lines, k)
    ensures DobCandidates(lines)[k] == DobAt(lines, k)
  {
  }

  /** Three lines with a name first, an ID number second and a date third fill the slots in that order. */
  lemma CardFromOffers(lines: seq<string>, name: string, id: string, dob: string)
    requires |lines| == 3
    requires NameAt(lines, 0) == Some(name)
    requires IdAt(lines, 0) == None && IdAt(lines, 1) == Some(id)
    requires DobAt(lines, 0) == None && DobAt(lines, 1) == None && DobAt(lines, 2) == Some(dob)
    ensures ScanState(lines, 3) == PartialResult(Some(name), Some(id), Some(dob))
  {
    CandidatesAt(lines, 0);
    CandidatesAt(lines, 1);
    CandidatesAt(lines, 2);
    OfferOfThree(NameCandidates(lines), 0, name);
    OfferOfThree(IdCandidates(lines), 1, id);
    OfferOfThree(DobCandidates(lines), 2, dob);
  }

  /** A labelled line whose capture is already trimmed offers that capture as the name. */
  lemma LabelledName(lines: seq<string>, i: nat, c: string)
    requires i < |lines| && Includes(LowerAscii(lines[i]), "name")
    requires NameCapture(lines[i]) == Some(c) && IsTrimmed(c)
    ensures NameAt(lines, i) == Some(c)
  {
    TrimTrimmed(c);
  }

  /** A line mentioning "birth" that holds a date offers that date, formatted. */
  lemma LabelledDob(lines: seq<string>, i: nat, d: string)
    requires i < |lines| && Includes(LowerAscii(lines[i]), "birth")
    requires DateSearch(lines[i]) == Some(d)
    ensures DobAt(lines, i) == Some(FormatDate(d))
  {
  }

  /** A line without "name" that starts with two capitalised words and is 6 to 49 long offers itself. */
  lemma CapitalisedLineOffersItself(lines: seq<string>, i: nat)
    requires i < |lines| && !Includes(LowerAscii(lines[i]), "name")
    requires IsCapitalisedPair(lines[i]) && 5 < |lines[i]| < 50
    ensures NameAt(lines, i) == Some(lines[i])
  {
  }

  /**
   * The labelled card: the name after its label, the word `Number` as the
   * ID number, and the date of birth as written.
   */
  lemma LabelledCardExample(lines: seq<string>)
    requires lines == ["Name: John Smith", "ID Number: AB12345", "Date of Birth: 05/20/1990"]
    ensures ScanState(lines, |lines|) == PartialResult(Some("John Smith"), Some("Number"), Some("05/20/1990"))
  {
    NameLineExample(lines, 0);
    NameLineOffersNoId(lines, 0);
    NameLineOffersNoDate(lines, 0);
    IdLabelTakesFirstWord(lines, 1);
    IdLineOffersNoDate(lines, 1);
    DobLineExample(lines, 2);
    CardFromOffers(lines, "John Smith", "Number", "05/20/1990");
  }

  /** `Name: John Smith` offers the name `John Smith`. */
  lemma NameLineExample(lines: seq<string>, i: nat)
    requires i < |lines| && lines[i] == "Name: John Smith"
    ensures NameAt(lines, i) == Some("John Smith")
  {
    JohnSmithLine(lines[i]);
    LabelledName(lines, i, lines[i][6..]);
    JohnSmithRest(lines[i]);
  }

  /** `Name: John Smith` mentions "name", and its capture is the trimmed text after `Name: `. */
  lemma JohnSmithLine(line: string)
    requires line == "Name: John Smith"
    ensures Includes(LowerAscii(line), "name") && NameCapture(line) == Some(line[6..])
    ensures IsTrimmed(line[6..])
  {
    JohnSmithLabel(line);
    JohnSmithSeparators(line);
    NoTerminators(line);
    CaptureRest(line, 4, 6);
    NameCaptureAtStart(line, line[6..]);
  }

  /** `Name: John Smith` starts with the label. */
  lemma JohnSmithLabel(line: string)
    requires line == "Name: John Smith"
    ensures Includes(LowerAscii(line), "name") && LowerAscii(line[0..4]) == "name"
  {
    assert IncludesAt(LowerAscii(line), "name", 0);
  }

  /** `[:\s]+` after the label of `Name: John Smith` takes `: `. */
  lemma JohnSmithSeparators(line: string)
    requires line == "Name: John Smith"
    ensures Span(line, 4, IsColonOrSpace) == 6
  {
    SpanExact(line, 4, 2, IsColonOrSpace);
  }

  /** `Name: John Smith` is one line: `.` matches each of its characters. */
  lemma NoTerminators(line: string)
    requires line == "Name: John Smith"
    ensures '\n' !in line && '\r' !in line && '\U{2028}' !in line && '\U{2029}' !in line
  {
  }

  /** What follows `Name: ` is `John Smith`. */
  lemma JohnSmithRest(line: string)
    requires line == "Name: John Smith"
    ensures line[6..] == "John Smith"
  {
  }

  /** The name line offers no ID number. */
  lemma NameLineOffersNoId(lines: seq<string>, i: nat)
    requires i < |lines| && lines[i] == "Name: John Smith"
    ensures IdAt(lines, i) == None
  {
    var line := lines[i];
    NotIncludesChar(LowerAscii(line), "id", 1);
    NotIncludesChar(LowerAscii(line), "number", 3);
    assert !IsIdChar(line[4]);
  }

  /** The name line offers no date of birth. */
  lemma NameLineOffersNoDate(lines: seq<string>, i: nat)
    requires i < |lines| && lines[i] == "Name: John Smith"
    ensures DobAt(lines, i) == None
  {
    var line := lines[i];
    NotIncludesChar(LowerAscii(line), "birth", 0);
    NotIncludesChar(LowerAscii(line), "dob", 0);
    NoSeparatorNoDate(line);
  }

  /** The ID line offers no date of birth. */
  lemma IdLineOffersNoDate(lines: seq<string>, i: nat)
    requires i < |lines| && lines[i] == "ID Number: AB12345"
    ensures DobAt(lines, i) == None
  {
    var line := lines[i];
    NotIncludesChar(LowerAscii(line), "birth", 3);
    NotIncludesChar(LowerAscii(line), "dob", 1);
    NoSeparatorNoDate(line);
  }

  /** `Date of Birth: 05/20/1990` offers the date `05/20/1990`. */
  lemma DobLineExample(lines: seq<string>, i: nat)
    requires i < |lines| && lines[i] == "Date of Birth: 05/20/1990"
    ensures DobAt(lines, i) == Some("05/20/1990")
  {
    var line := lines[i];
    BirthLabel(line);
    DateInLine(line);
    FormattedKept();
    LabelledDob(lines, i, "05/20/1990");
  }

  /** `Date of Birth: 05/20/1990` mentions "birth". */
  lemma BirthLabel(line: string)
    requires line == "Date of Birth: 05/20/1990"
    ensures Includes(LowerAscii(line), "birth")
  {
    var lower := LowerAscii(line);
    assert lower[8..13] == [lower[8], lower[9], lower[10], lower[11], lower[12]];
    assert IncludesAt(lower, "birth", 8);
  }

  /** The first date of `Date of Birth: 05/20/1990` is `05/20/1990`. */
  lemma DateInLine(line: string)
    requires line == "Date of Birth: 05/20/1990"
    ensures DateSearch(line) == Some("05/20/1990")
  {
    DobLineDate(line);
    DobLineLabelDigitFree(line);
    DateSearchToEnd(line, 15);
  }

  /** `Date of Birth: 05/20/1990` ends in date-shaped text from position 15. */
  lemma DobLineDate(line: string)
    requires line == "Date of Birth: 05/20/1990"
    ensures line[15..] == "05/20/1990" && IsDateShape(line[15..])
  {
    var d := line[15..];
    assert d == "05/20/1990";
    assert DateShapeAt(d, 2, 2);
  }

  /** No date can start in the label `Date of Birth: `: it has no digit. */
  lemma DobLineLabelDigitFree(line: string)
    requires line == "Date of Birth: 05/20/1990"
    ensures forall k | 0 <= k < 15 :: !IsDigit(line[k])
  {
  }

  /** `05/20/1990` is already formatted, and `formatDate` keeps it. */
  lemma FormattedKept()
    ensures FormatDate("05/20/1990") == "05/20/1990"
  {
    var d := "05/20/1990";
    assert IsFormattedDate(d) && MonthField(d) <= 12 by {
      assert d[..2] == "05";
      DigitsValueTwo(d[..2]);
    }
    FormatDateFixesFormatted(d);
  }

  /** `Jane Doe` alone on a line is taken as a name. */
  lemma BareNameExample(lines: seq<string>, i: nat)
    requires i < |lines| && lines[i] == "Jane Doe"
    ensures NameAt(lines, i) == Some("Jane Doe")
  {
    JaneDoeLine(lines[i]);
    CapitalisedLineOffersItself(lines, i);
  }

  /** `Jane Doe` does not mention "name" and starts with two capitalised words. */
  lemma JaneDoeLine(line: string)
    requires line == "Jane Doe"
    ensures !Includes(LowerAscii(line), "name") && IsCapitalisedPair(line)
  {
    NotIncludesChar(LowerAscii(line), "name", 2);
    JaneDoePair();
  }

  /** `Jane Doe` passes `/^[A-Z][a-z]+\s+[A-Z][a-z]+/`. */
  lemma JaneDoePair()
    ensures IsCapitalisedPair("Jane Doe")
  {
    CapitalisedPairAt("Jane Doe", 4);
  }

  /** `John Smith 123` alone on a line is taken whole as a name. */
  lemma UnanchoredNameExample(lines: seq<string>, i: nat)
    requires i < |lines| && lines[i] == "John Smith 123"
    ensures NameAt(lines, i) == Some("John Smith 123")
  {
    UnanchoredNameLine(lines[i]);
    CapitalisedLineOffersItself(lines, i);
  }

  /** `John Smith 123` does not mention "name" and starts with two capitalised words. */
  lemma UnanchoredNameLine(line: string)
    requires line == "John Smith 123"
    ensures !Includes(LowerAscii(line), "name") && IsCapitalisedPair(line)
  {
    NotIncludesChar(LowerAscii(line), "name", 3);
    UnanchoredPair();
  }

  /** `/^[A-Z][a-z]+\s+[A-Z][a-z]+/` has no `$`: `John Smith 123` passes it. */
  lemma UnanchoredPair()
    ensures IsCapitalisedPair("John Smith 123")
  {
    CapitalisedPairAt("John Smith 123", 4);
  }

  // ---------------------------------------------------------------------
  // The loop

  /**
   * `parseOCRText`.  The loop tests a slot by truthiness (`!result.name`),
   * which on these slots means "still absent": every value it stores is
   * non-empty.
   */
  method ParseOCRText(rawText: string) returns (result: PartialResult)
    ensures result == ParseSpec(rawText)
  {
    result := PartialResult(None, None, None);
    var lines := Lines(rawText);
    for i := 0 to |lines|
      invariant result == ScanState(lines, i)
      invariant FilledSlotsNonEmpty(result)
    {
      result := ExtractName(lines, i, result);
      result := ExtractIdNumber(lines, i, result);
      result := ExtractDateOfBirth(lines, i, result);
      FirstSomeStep(NameCandidates(lines), i);
      FirstSomeStep(IdCandidates(lines), i);
      FirstSomeStep(DobCandidates(lines), i);
    }
    assert NameCandidates(lines)[..|lines|] == NameCandidates(lines);
    assert IdCandidates(lines)[..|lines|] == IdCandidates(lines);
    assert DobCandidates(lines)[..|lines|] == DobCandidates(lines);
  }

  /** The name step of the loop body (src/utils/ocr.ts:118-136). */
  method ExtractName(lines: seq<string>, i: nat, result: PartialResult) returns (updated: PartialResult)
    requires AreLines(lines) && i < |lines| && FilledSlotsNonEmpty(result)
    ensures updated == result.(name := if result.name.Some? then result.name else NameAt(lines, i))
    ensures FilledSlotsNonEmpty(updated)
  {
    updated := result;
    var line := lines[i];
    var nextLine := NextLine(lines, i);
    if !Truthy(result.name) {
      if Includes(LowerAscii(line), "name") {
        var nameMatch := NameCapture(line);
        if nameMatch.Some? {
          updated := result.(name := Some(Trim(nameMatch.value)));
        } else if Truthy(nextLine) {
          updated := result.(name := nextLine);
        }
      } else if IsCapitalisedPair(line) && |line| > 5 && |line| < 50 {
        updated := result.(name := Some(line));
      }
    }
    NameAtNotEmpty(lines, i);
  }

  /** The ID number step of the loop body (src/utils/ocr.ts:139-154). */
  method ExtractIdNumber(lines: seq<string>, i: nat, result: PartialResult) returns (updated: PartialResult)
    requires i < |lines| && FilledSlotsNonEmpty(result)
    ensures updated == result.(idNumber := if result.idNumber.Some? then result.idNumber else IdAt(lines, i))
    ensures FilledSlotsNonEmpty(updated)
  {
    updated := result;
    var line := lines[i];
    var lowerLine := LowerAscii(line);
    var nextLine := NextLine(lines, i);
    if !Truthy(result.idNumber) {
      if Includes(lowerLine, "id") || Includes(lowerLine, "number") {
        var idMatch := IdRunIgnoreCase(line);
        if idMatch.Some? {
          updated := result.(idNumber := idMatch);
        } else if Truthy(nextLine) {
          var nextIdMatch := IdRun(nextLine.value);
          if nextIdMatch.Some? {
            updated := result.(idNumber := nextIdMatch);
          }
        }
      } else if IsStandaloneId(line) {
        updated := result.(idNumber := Some(line));
      }
    }
    IdAtNotEmpty(lines, i);
  }

  /** The date of birth step of the loop body (src/utils/ocr.ts:157-175). */
  method ExtractDateOfBirth(lines: seq<string>, i: nat, result: PartialResult) returns (updated: PartialResult)
    requires i < |lines| && FilledSlotsNonEmpty(result)
    ensures updated == result.(dateOfBirth := if result.dateOfBirth.Some? then result.dateOfBirth else DobAt(lines, i))
    ensures FilledSlotsNonEmpty(updated)
  {
    updated := result;
    var line := lines[i];
    var lowerLine := LowerAscii(line);
    var nextLine := NextLine(lines, i);
    if !Truthy(result.dateOfBirth) {
      if Includes(lowerLine, "birth") || Includes(lowerLine, "dob") {
        var dateMatch := DateSearch(line);
        if dateMatch.Some? {
          updated := result.(dateOfBirth := Some(FormatDate(dateMatch.value)));
        } else if Truthy(nextLine) {
          var nextDateMatch := DateSearch(nextLine.value);
          if nextDateMatch.Some? {
            updated := result.(dateOfBirth := Some(FormatDate(nextDateMatch.value)));
          }
        }
      } else {
        var dateMatch := DateSearch(line);
        if dateMatch.Some? && !Truthy(result.dateOfBirth) {
          updated := result.(dateOfBirth := Some(FormatDate(dateMatch.value)));
        }
      }
    }
    DobAtFormatted(lines, i);
  }
}
