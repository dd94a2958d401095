/**
 * The small before-normalization rules of the `templating` and `validation`
 * sections: a scalar given where a list is expected becomes a one-element
 * list, and an element given in XML attribute form (`<engine id="twig"/>`)
 * is replaced by the attribute's value.
 */
module ElementRules {
  import opened PhpValues

  /** The attribute each prototyped element may be wrapped in. */
  const VALUE_FIELD := "value"
  const ID_FIELD := "id"
  const NAMESPACE_FIELD := "namespace"

  /**
   * `ifTrue(!is_array($v))->then(array($v))`: a non-array becomes the list
   * holding it at index 0; an array passes through.
   */
  function WrapNonArray(v: Value): (r: Value)
    ensures r.Arr?
    ensures v.Arr? ==> r == v
    ensures !v.Arr? ==> KeySet(r.entries) == {IntKey(0)} && Find(r.entries, IntKey(0)) == Some(v)
    ensures Valid(v) ==> Valid(r)
  {
    if v.Arr? then v
    else
      FindEntry([(IntKey(0), v)], 0);
      Arr([(IntKey(0), v)])
  }

  /** Wrapping twice is wrapping once. */
  lemma WrapIdempotent(v: Value)
    ensures WrapNonArray(WrapNonArray(v)) == WrapNonArray(v)
  {
  }

  /**
   * `ifTrue(is_array($v) && isset($v[field]))->then($v[field])`: an array
   * whose field is set to a non-null value is replaced by that value;
   * anything else passes through.
   */
  function Unwrap(v: Value, field: string): (r: Value)
    ensures v.Arr? && IsSetAt(v.entries, StrKey(field)) ==> Find(v.entries, StrKey(field)) == Some(r) && r != Null
    ensures !(v.Arr? && IsSetAt(v.entries, StrKey(field))) ==> r == v
    ensures Valid(v) ==> Valid(r)
  {
    if v.Arr? && IsSetAt(v.entries, StrKey(field)) then
      var r := Find(v.entries, StrKey(field)).value;
      assert r in ValueSet(v.entries) by {
        var i :| 0 <= i < |v.entries| && v.entries[i] == (StrKey(field), r);
        EntryIn(v.entries, i);
      }
      ValueIn(v.entries, r);
      r
    else v
  }

  /** `<engine id="twig"/>` and the plain `twig` both name the engine `twig`. */
  lemma EngineForms(name: string)
    ensures Unwrap(Arr([(StrKey(ID_FIELD), Str(name))]), ID_FIELD) == Str(name)
    ensures Unwrap(Str(name), ID_FIELD) == Str(name)
  {
    FindEntry([(StrKey(ID_FIELD), Str(name))], 0);
  }

  /** An attribute explicitly set to null does not count as set, so nothing is unwrapped. */
  lemma NullFieldNotUnwrapped(field: string)
    ensures Unwrap(Arr([(StrKey(field), Null)]), field) == Arr([(StrKey(field), Null)])
  {
    FindEntry([(StrKey(field), Null)], 0);
  }
}
