/**
 * MongoDB document identifiers. A document's `_id` is either an ObjectId or a
 * plain string; `new mongoose.Types.ObjectId(s)` accepts exactly the strings of
 * 24 hexadecimal digits and yields the identifier whose lower-case rendering
 * `toHexString()` returns.
 */
module ObjectIds {
  import opened Wrappers

  predicate IsHexDigit(ch: char)
  {
    '0' <= ch <= '9' || 'a' <= ch <= 'f' || 'A' <= ch <= 'F'
  }

  predicate IsLowerHex(s: string)
  {
    forall i :: 0 <= i < |s| ==> ('0' <= s[i] <= '9' || 'a' <= s[i] <= 'f')
  }

  /** The strings the ObjectId constructor accepts without throwing. */
  predicate IsObjectIdString(s: string)
  {
    |s| == 24 && forall i :: 0 <= i < |s| ==> IsHexDigit(s[i])
  }

  type HexId = s: string | |s| == 24 && IsLowerHex(s)
    witness "000000000000000000000000"

  /** An ObjectId, held as its 24-digit lower-case hexadecimal rendering. */
  datatype ObjectId = ObjectId(hex: HexId)

  function ToLowerHex(ch: char): char
  {
    if 'A' <= ch <= 'F' then (ch as int - 'A' as int + 'a' as int) as char else ch
  }

  /** `new mongoose.Types.ObjectId(s)`: `None` where the constructor throws. */
  function Cast(s: string): (r: Option<ObjectId>)
    ensures r.Some? <==> IsObjectIdString(s)
    ensures r.Some? ==> forall i :: 0 <= i < 24 ==> r.value.hex[i] == ToLowerHex(s[i])
  {
    if IsObjectIdString(s) then
      var lower := seq(24, i requires 0 <= i < 24 => ToLowerHex(s[i]));
      Some(ObjectId(lower))
    else None
  }

  /** Casting the rendering of an ObjectId gives back that ObjectId. */
  lemma CastHex(o: ObjectId)
    ensures Cast(o.hex) == Some(o)
  {
    assert Cast(o.hex).value.hex == o.hex;
  }

  /** Casting is idempotent: recasting the rendering of a cast changes nothing. */
  lemma CastIdempotent(s: string)
    requires Cast(s).Some?
    ensures Cast(Cast(s).value.hex) == Cast(s)
  {
    CastHex(Cast(s).value);
  }

  /** A document `_id`: an ObjectId, or a raw string for documents written outside the schema path. */
  datatype DocId = Oid(oid: ObjectId) | Str(raw: string)

  /** The `_id` as JSON renders it (jwt payloads, response bodies). */
  function IdText(id: DocId): string
  {
    match id
    case Oid(o) => o.hex
    case Str(s) => s
  }

  /**
   * The keys a caller-supplied identifier is tried under, in order: the cast
   * ObjectId when the string is castable, then the raw string.
   */
  function Candidates(raw: string): (r: seq<DocId>)
    ensures 1 <= |r| <= 2 && r[|r| - 1] == Str(raw)
    ensures |r| == 2 <==> IsObjectIdString(raw)
    ensures |r| == 2 ==> r[0] == Oid(Cast(raw).value)
  {
    match Cast(raw)
    case Some(o) => [Oid(o), Str(raw)]
    case None => [Str(raw)]
  }

  /** Resolving the rendering of an ObjectId tries that very ObjectId first. */
  lemma CandidatesOfHex(o: ObjectId)
    ensures Candidates(o.hex) == [Oid(o), Str(o.hex)]
  {
    CastHex(o);
  }
}
