/**
 * The before-normalization rule of the `validation` section. In XML the
 * annotation namespace is written as a child of `validation`; when both
 * `annotations` and `namespace` are non-empty, the namespace is moved under
 * `annotations`, replacing what `annotations` held.
 */
module ValidationNamespace {
  import opened PhpValues

  const ANNOTATIONS := StrKey("annotations")
  const NAMESPACE := StrKey("namespace")

  /** The rule's guard: an array whose `annotations` and `namespace` are both non-empty. */
  predicate Applies(v: Value): (b: bool)
    ensures b ==> v.Arr? && IsSetAt(v.entries, ANNOTATIONS) && IsSetAt(v.entries, NAMESPACE)
  {
    v.Arr? && !EmptyAt(v.entries, ANNOTATIONS) && !EmptyAt(v.entries, NAMESPACE)
  }

  /**
   * The closure as written: assign `annotations` the one-entry array holding
   * the namespace, then unset `namespace`. When the guard fails the value is
   * returned as it came.
   */
  method MoveNamespace(v: Value) returns (r: Value)
    requires Valid(v)
    ensures Valid(r)
    ensures !Applies(v) ==> r == v
    ensures Applies(v) ==> (
      && r.Arr?
      && Find(r.entries, ANNOTATIONS) == Some(Arr([(NAMESPACE, Find(v.entries, NAMESPACE).value)]))
      && Find(r.entries, NAMESPACE) == None
      && KeySet(r.entries) == KeySet(v.entries) - {NAMESPACE}
      && forall k :: k != ANNOTATIONS && k != NAMESPACE ==> Find(r.entries, k) == Find(v.entries, k))
    ensures Applies(v) ==>
      r.entries == Remove(Put(v.entries, ANNOTATIONS, Arr([(NAMESPACE, Find(v.entries, NAMESPACE).value)])), NAMESPACE)
    ensures !Applies(r)
  {
    if !Applies(v) {
      return v;
    }
    var entries := v.entries;
    var namespace := Find(entries, NAMESPACE).value;
    ValueIn(entries, namespace) by {
      var i :| 0 <= i < |entries| && entries[i] == (NAMESPACE, namespace);
      EntryIn(entries, i);
    }
    var moved := Arr([(NAMESPACE, namespace)]);
    entries := Put(entries, ANNOTATIONS, moved);
    entries := Remove(entries, NAMESPACE);
    r := Arr(entries);
    forall j | 0 <= j < |entries| ensures Valid(entries[j].1) {
      EntryIn(entries, j);
      var w := entries[j].1;
      if w != moved {
        ValueIn(v.entries, w);
      }
    }
  }

  /**
   * The XML form, `annotations="true"` beside a non-empty namespace, meets the
   * guard; an `annotations` given as null does not.
   */
  lemma XmlFormApplies(ns: string)
    requires ns != "" && ns != "0"
    ensures Applies(Arr([(ANNOTATIONS, Bool(true)), (NAMESPACE, Str(ns))]))
    ensures !Applies(Arr([(ANNOTATIONS, Null), (NAMESPACE, Str(ns))]))
  {
    var e := [(ANNOTATIONS, Bool(true)), (NAMESPACE, Str(ns))];
    FindEntry(e, 0);
    FindEntry(e, 1);
    var e' := [(ANNOTATIONS, Null), (NAMESPACE, Str(ns))];
    FindEntry(e', 0);
  }
}
