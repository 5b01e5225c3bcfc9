/**
 * UUIDs in their canonical 36-character text form.  Generation (`uuid.New`)
 * and parsing (`uuid.Parse`) belong to github.com/google/uuid and are
 * parameters of the operations that use them.
 */
module Uuids {

  /** The text of `uuid.Nil`. */
  const NilText := "00000000-0000-0000-0000-000000000000"

  /** `id == uuid.Nil`, the `IsEmpty` test of the services' id types. */
  predicate IsNil(id: string)
  {
    id == NilText
  }

  /** What `uuid.New` produces: a canonical text whose version digit is 4. */
  predicate IsVersion4(id: string)
  {
    |id| == 36 && id[8] == '-' && id[13] == '-' && id[18] == '-' && id[23] == '-' && id[14] == '4'
  }

  /** A freshly generated id is never the nil id, so a new record is never "empty". */
  lemma GeneratedNeverNil(id: string)
    ensures IsVersion4(id) ==> !IsNil(id)
    ensures IsNil(NilText) && !IsVersion4(NilText)
  {
    assert NilText[14] == '0';
  }
}
