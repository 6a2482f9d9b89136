/**
 * The records of src/types/index.ts that the core reads and produces.
 * Numbers that the application only ever fills with whole values (match
 * scores, confidence percentages) are `int`; coordinates and distances are
 * `real`.  An optional property (`phone?: string`) is an `Option`.
 */
module Types {

  datatype Option<+T> = None | Some(value: T)

  /** `x || ''` on an optional string: the value when present, else the empty string. */
  function OrEmpty(o: Option<string>): string {
    match o
    case None => []
    case Some(v) => v
  }

  datatype Coordinates = Coordinates(latitude: real, longitude: real)

  datatype LeadStatus = Active | Declined | Accepted

  /** A lead (src/types/index.ts:1-14). */
  datatype Lead = Lead(
    id: string,
    name: string,
    location: string,
    matchScore: int,
    coordinates: Coordinates,
    phone: Option<string>,
    email: Option<string>,
    description: Option<string>,
    status: Option<LeadStatus>,
    distance: Option<real>)

  /** The three fields the OCR pipeline extracts; also the keys of a validation error map. */
  datatype Field = Name | IdNumber | DateOfBirth

  /** Per-field confidence, each a whole percentage. */
  datatype Confidence = Confidence(name: int, idNumber: int, dateOfBirth: int)

  /** The structured result of an OCR extraction (src/types/index.ts:16-26). */
  datatype OCRResult = OCRResult(
    name: string,
    idNumber: string,
    dateOfBirth: string,
    confidence: Confidence)

  /** `Partial<OCRResult>` as `parseOCRText` builds it: each text field may be absent. */
  datatype PartialResult = PartialResult(
    name: Option<string>,
    idNumber: Option<string>,
    dateOfBirth: Option<string>)

  /** JavaScript truthiness of an optional string: present and non-empty. */
  predicate Truthy(o: Option<string>) {
    o.Some? && o.value != []
  }
}
