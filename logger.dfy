/**
 * `maskSensitiveData` (src/backend/logger.js), which every logging helper
 * applies to the data it is given before it is written out.
 */
module Logger {
  import opened Js

  /** The fields whose truthy values are hidden, in the order they are visited. */
  const SensitiveFields: seq<string> := ["password", "token", "apiKey", "secret", "credit_card"]

  const Mask := "********"

  /** The copy `maskSensitiveData` returns for an object with these own fields. */
  function MaskedFields(fields: map<string, Value>): map<string, Value> {
    map k | k in fields :: if k in SensitiveFields && Truthy(fields[k]) then Str(Mask) else fields[k]
  }

  /**
   * What `maskSensitiveData(data)` returns. A value whose `typeof` is not
   * 'object' comes back as it is; `null`, whose `typeof` is 'object', is spread
   * into an empty object.
   */
  function Masked(data: Value): Value {
    match data
    case Obj(fields) => Obj(MaskedFields(fields))
    case Null => Obj(map[])
    case _ => data
  }

  /**
   * The loop of `maskSensitiveData`: a shallow copy of the object, then each
   * sensitive field that is truthy in the copy is overwritten with the mask.
   */
  method MaskSensitiveData(data: Value) returns (r: Value)
    ensures r == Masked(data)
  {
    if !data.Obj? && !data.Null? {
      return data;
    }
    var original := if data.Obj? then data.fields else map[];
    var masked := original;
    for i := 0 to |SensitiveFields|
      invariant masked.Keys == original.Keys
      invariant forall k :: k in masked ==>
        masked[k] == if k in SensitiveFields[..i] && Truthy(original[k]) then Str(Mask) else original[k]
    {
      var field := SensitiveFields[i];
      if Truthy(Get(masked, field)) {
        masked := masked[field := Str(Mask)];
      }
    }
    assert SensitiveFields[..|SensitiveFields|] == SensitiveFields;
    return Obj(masked);
  }

  /**
   * Masking keeps the keys of an object, replaces each truthy sensitive field
   * by the mask, and leaves every other field as it was.
   */
  lemma MaskedChangesOnlySensitiveFields(fields: map<string, Value>)
    ensures Masked(Obj(fields)).Obj?
    ensures Masked(Obj(fields)).fields.Keys == fields.Keys
    ensures forall k :: k in fields && k in SensitiveFields && Truthy(fields[k]) ==>
      Masked(Obj(fields)).fields[k] == Str(Mask)
    ensures forall k :: k in fields && (k !in SensitiveFields || !Truthy(fields[k])) ==>
      Masked(Obj(fields)).fields[k] == fields[k]
  {
  }

  /** A value that is neither an object nor `null` is returned unchanged. */
  lemma MaskedLeavesNonObjects(data: Value)
    requires !data.Obj? && !data.Null?
    ensures Masked(data) == data
  {
  }

  /** Masking is idempotent: the mask is truthy, so masking again writes the same mask. */
  lemma MaskedIdempotent(data: Value)
    ensures Masked(Masked(data)) == Masked(data)
  {
  }
}
