/**
 * References between records, in the shapes the server sends them, and the
 * normalisations the screens apply: a reference is a raw id, an embedded
 * record carrying `_id`, or null; a semester is a number, a numeric
 * string, an extended-JSON wrapper `{ $numberInt: "3" }`, or absent.
 */
module Refs {
  import opened Text
  import opened Numbers

  /** What `String(o)` gives for any plain object. */
  const ObjectText: string := "[object Object]"

  /** A reference field: a raw id string, an embedded record with its `_id`, or null. */
  datatype Ref = Raw(id: string) | Embedded(oid: string) | NullRef

  /** `String(r)`. */
  function RefText(r: Ref): string {
    match r
    case Raw(s) => s
    case Embedded(_) => ObjectText
    case NullRef => "null"
  }

  /**
   * `String(r?._id || r)`, and equally `r?._id ? String(r._id) : String(r)`:
   * the embedded `_id` when there is a non-empty one, the value itself otherwise.
   */
  function RefId(r: Ref): (t: string)
    ensures r.Raw? ==> t == r.id
    ensures r.Embedded? && r.oid != "" ==> t == r.oid
    ensures r.NullRef? ==> t == "null"
  {
    match r
    case Embedded(i) => if i != "" then i else ObjectText
    case _ => RefText(r)
  }

  /**
   * The normalisation of a branch's regulation and a subject's branch:
   * `r && typeof r === "object" ? r._id || r : r || null`
   * (equally `r?._id || r || null`).
   */
  function Normalize(r: Ref): (n: Ref)
    ensures r != Raw("") ==> RefText(n) == RefId(r)
    ensures r == Raw("") ==> n == NullRef
    ensures n.Embedded? ==> n == r
  {
    match r
    case Embedded(i) => if i != "" then Raw(i) else r
    case Raw(s) => if s != "" then r else NullRef
    case NullRef => NullRef
  }

  /** The normalisation of a note's references: as `Normalize`, but a falsy raw value is kept as it is. */
  function NormalizeNoteRef(r: Ref): (n: Ref)
    ensures RefText(n) == RefId(r)
    ensures !r.Embedded? ==> n == r
  {
    match r
    case Embedded(i) => if i != "" then Raw(i) else r
    case _ => r
  }

  /** `r?._id === sel`: only an embedded record can match; a raw id never does. */
  predicate EmbeddedIdIs(r: Ref, sel: string) {
    r.Embedded? && r.oid == sel
  }

  /** Normalising twice is normalising once. */
  lemma NormalizeIdempotent(r: Ref)
    ensures Normalize(Normalize(r)) == Normalize(r)
    ensures NormalizeNoteRef(NormalizeNoteRef(r)) == NormalizeNoteRef(r)
  {
  }

  /**
   * A semester field as the server may send it. `SemMissing` is an absent
   * field (undefined); a stored null is not told apart from it.
   */
  datatype Semester = SemNumber(n: int) | SemText(s: string) | SemWrapped(numberInt: string) | SemMissing

  /** The administrator screen's reading: `Number(s?.$numberInt || s || 0)`. */
  function MetaSemester(s: Semester): Num {
    match s
    case SemNumber(n) => Int(n)
    case SemText(t) => if t == "" then Int(0) else ParseNumber(t)
    case SemWrapped(w) => if w != "" then ParseNumber(w) else NaN
    case SemMissing => Int(0)
  }

  /** The notes screen's reading: `Number(s?.$numberInt ?? s ?? 0)`. */
  function NotesSemester(s: Semester): Num {
    match s
    case SemNumber(n) => Int(n)
    case SemText(t) => ParseNumber(t)
    case SemWrapped(w) => ParseNumber(w)
    case SemMissing => Int(0)
  }

  /** `Number(x)` applied to the field itself (a note's semester, a regulation's count): a wrapper object is NaN. */
  function DirectNumber(s: Semester): Num {
    match s
    case SemNumber(n) => Int(n)
    case SemText(t) => ParseNumber(t)
    case SemWrapped(_) => NaN
    case SemMissing => NaN
  }

  /** `String(s.semester)` and `s.semester.toString()`. */
  function SemesterText(s: Semester): string {
    match s
    case SemNumber(n) => IntToString(n)
    case SemText(t) => t
    case SemWrapped(_) => ObjectText
    case SemMissing => "undefined"
  }

  /**
   * The two readings agree on every input but an empty wrapper: there `||`
   * falls back to the wrapper object (NaN) where `??` keeps the empty string (0).
   */
  lemma SemesterReadingsAgree(s: Semester)
    ensures s != SemWrapped("") ==> MetaSemester(s) == NotesSemester(s)
    ensures MetaSemester(SemWrapped("")) == NaN && NotesSemester(SemWrapped("")) == Int(0)
  {
  }

  /** A wrapped semester `{ $numberInt: String(k) }` reads as k on both screens. */
  lemma WrappedSemesterReadsValue(k: int)
    ensures MetaSemester(SemWrapped(IntToString(k))) == Int(k)
    ensures NotesSemester(SemWrapped(IntToString(k))) == Int(k)
  {
    ParseIntToString(k);
  }

  /** The text of a numeric semester parses back to the number, so string and numeric comparison agree. */
  lemma SemesterTextParses(k: int)
    ensures ParseNumber(SemesterText(SemNumber(k))) == NotesSemester(SemNumber(k))
  {
    ParseIntToString(k);
  }
}
