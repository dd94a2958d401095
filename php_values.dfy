/**
 * PHP values as the configuration closures of the framework bundle see them:
 * null, booleans, integers, strings and ordered arrays. An array is the
 * sequence of its (key, value) entries in insertion order, which is the order
 * `foreach` visits them in.
 */
module PhpValues {

  datatype Option<+T> = None | Some(value: T)

  /** An array key: PHP keys are integers or strings. */
  datatype Key = IntKey(n: int) | StrKey(s: string)

  datatype Value =
    | Null
    | Bool(b: bool)
    | Int(i: int)
    | Str(s: string)
    | Arr(entries: seq<(Key, Value)>)

  type Entries = seq<(Key, Value)>

  /** No key occurs twice among the entries: the first key does not recur, and so on. */
  predicate UniqueKeys(e: Entries) {
    e == [] || (e[0].0 !in KeySet(e[1..]) && UniqueKeys(e[1..]))
  }

  /** Every array in v, v itself included, has unique keys, as every PHP array does. */
  predicate Valid(v: Value) {
    v.Arr? ==> UniqueKeys(v.entries) && forall i :: 0 <= i < |v.entries| ==> Valid(v.entries[i].1)
  }

  /** The keys of the entries. */
  function KeySet(e: Entries): (keys: set<Key>) {
    if e == [] then {} else {e[0].0} + KeySet(e[1..])
  }

  /** The values stored in the entries. */
  function ValueSet(e: Entries): (values: set<Value>) {
    if e == [] then {} else {e[0].1} + ValueSet(e[1..])
  }

  /** An entry's key is among the keys, and its value among the values. */
  lemma {:induction false} EntryIn(e: Entries, i: nat)
    requires i < |e|
    ensures e[i].0 in KeySet(e) && e[i].1 in ValueSet(e)
  {
    if i > 0 {
      EntryIn(e[1..], i - 1);
    }
  }

  /** Every key among the keys belongs to some entry. */
  lemma {:induction false} KeyIn(e: Entries, k: Key)
    requires k in KeySet(e)
    ensures exists i :: 0 <= i < |e| && e[i].0 == k
  {
    if e[0].0 != k {
      KeyIn(e[1..], k);
      var i :| 0 <= i < |e[1..]| && e[1..][i].0 == k;
      assert e[i + 1].0 == k;
    }
  }

  /** Every value among the values belongs to some entry. */
  lemma {:induction false} ValueIn(e: Entries, v: Value)
    requires v in ValueSet(e)
    ensures exists i :: 0 <= i < |e| && e[i].1 == v
  {
    if e[0].1 != v {
      ValueIn(e[1..], v);
      var i :| 0 <= i < |e[1..]| && e[1..][i].1 == v;
      assert e[i + 1].1 == v;
    }
  }

  /** The position of the first entry whose key is k. */
  function IndexOf(e: Entries, k: Key): (r: Option<nat>)
    ensures r.None? <==> k !in KeySet(e)
    ensures r.Some? ==> r.value < |e| && e[r.value].0 == k
    ensures r.Some? ==> forall j :: 0 <= j < r.value ==> e[j].0 != k
  {
    if e == [] then None
    else if e[0].0 == k then Some(0)
    else
      match IndexOf(e[1..], k)
      case None => None
      case Some(i) => Some(i + 1)
  }

  /** With unique keys, an entry's key leads back to that entry. */
  lemma {:induction false} IndexOfUnique(e: Entries, i: nat)
    requires UniqueKeys(e) && i < |e|
    ensures IndexOf(e, e[i].0) == Some(i)
  {
    if i > 0 {
      EntryIn(e[1..], i - 1);
      IndexOfUnique(e[1..], i - 1);
    }
  }

  /** `$a[$k]` for a key that is present, `None` for one that is not. */
  function Find(e: Entries, k: Key): (r: Option<Value>)
    ensures r.None? <==> k !in KeySet(e)
    ensures r.Some? ==> exists i :: 0 <= i < |e| && e[i] == (k, r.value)
  {
    match IndexOf(e, k)
    case None => None
    case Some(i) => Some(e[i].1)
  }

  lemma FindEntry(e: Entries, i: nat)
    requires UniqueKeys(e) && i < |e|
    ensures Find(e, e[i].0) == Some(e[i].1)
  {
    IndexOfUnique(e, i);
  }

  /** How the key set and the value set of an array split at its first entry. */
  lemma Cons(x: (Key, Value), rest: Entries)
    ensures KeySet([x] + rest) == {x.0} + KeySet(rest)
    ensures ValueSet([x] + rest) == {x.1} + ValueSet(rest)
  {
    assert ([x] + rest)[1..] == rest;
  }

  lemma FindCons(x: (Key, Value), rest: Entries, k: Key)
    ensures Find([x] + rest, k) == if x.0 == k then Some(x.1) else Find(rest, k)
  {
    assert ([x] + rest)[1..] == rest;
  }

  lemma FindsCons(x: (Key, Value), rest: Entries)
    ensures forall k :: Find([x] + rest, k) == if x.0 == k then Some(x.1) else Find(rest, k)
  {
    forall k ensures Find([x] + rest, k) == if x.0 == k then Some(x.1) else Find(rest, k) {
      FindCons(x, rest, k);
    }
  }

  /**
   * `$a[$k] = $v`: k now holds v and no other key changes; a key already
   * present keeps its position, a new key is appended (see PutInPlace and PutAppends).
   */
  function Put(e: Entries, k: Key, v: Value): (r: Entries)
    ensures Find(r, k) == Some(v)
    ensures forall k' :: k' != k ==> Find(r, k') == Find(e, k')
    ensures KeySet(r) == KeySet(e) + {k}
    ensures ValueSet(r) <= ValueSet(e) + {v}
    ensures UniqueKeys(e) ==> UniqueKeys(r)
  {
    if e == [] then
      FindCons((k, v), [], k);
      Cons((k, v), []);
      [(k, v)]
    else
      assert e == [e[0]] + e[1..];
      FindsCons(e[0], e[1..]);
      Cons(e[0], e[1..]);
      if e[0].0 == k then
        FindsCons((k, v), e[1..]);
        Cons((k, v), e[1..]);
        [(k, v)] + e[1..]
      else
        var rest := Put(e[1..], k, v);
        FindsCons(e[0], rest);
        Cons(e[0], rest);
        [e[0]] + rest
  }

  /** Replacing entry j of the tail is replacing entry j + 1 of the whole. */
  lemma ReplaceInTail(x: (Key, Value), tail: Entries, j: nat, y: (Key, Value))
    requires j < |tail|
    ensures [x] + (tail[..j] + [y] + tail[j + 1..]) == ([x] + tail)[..j + 1] + [y] + ([x] + tail)[j + 2..]
  {
    assert ([x] + tail)[..j + 1] == [x] + tail[..j];
    assert ([x] + tail)[j + 2..] == tail[j + 1..];
  }

  /** Put overwrites a present key in place: the entry at the key's position changes and nothing else. */
  lemma {:induction false} PutInPlace(e: Entries, k: Key, v: Value)
    requires k in KeySet(e)
    ensures var j := IndexOf(e, k).value; Put(e, k, v) == e[..j] + [(k, v)] + e[j + 1..]
  {
    Cons(e[0], e[1..]);
    if e[0].0 == k {
      assert e[..0] == [];
    } else {
      PutInPlace(e[1..], k, v);
      var j := IndexOf(e[1..], k).value;
      ReplaceInTail(e[0], e[1..], j, (k, v));
      assert [e[0]] + e[1..] == e;
    }
  }

  /** Put appends a new key at the end. */
  lemma {:induction false} PutAppends(e: Entries, k: Key, v: Value)
    requires k !in KeySet(e)
    ensures Put(e, k, v) == e + [(k, v)]
  {
    if e != [] {
      Cons(e[0], e[1..]);
      assert e == [e[0]] + e[1..];
      PutAppends(e[1..], k, v);
    }
  }

  /** `unset($a[$k])`: the entry for k, if any, disappears; the others keep their order (see RemoveInPlace). */
  function Remove(e: Entries, k: Key): (r: Entries)
    requires UniqueKeys(e)
    ensures Find(r, k) == None
    ensures forall k' :: k' != k ==> Find(r, k') == Find(e, k')
    ensures KeySet(r) == KeySet(e) - {k}
    ensures ValueSet(r) <= ValueSet(e)
    ensures k !in KeySet(e) ==> r == e
    ensures UniqueKeys(r)
  {
    if e == [] then []
    else
      assert e == [e[0]] + e[1..];
      FindsCons(e[0], e[1..]);
      Cons(e[0], e[1..]);
      if e[0].0 == k then
        e[1..]
      else
        var rest := Remove(e[1..], k);
        FindsCons(e[0], rest);
        Cons(e[0], rest);
        assert ([e[0]] + rest)[1..] == rest;
        [e[0]] + rest
  }

  /** Dropping entry j of the tail is dropping entry j + 1 of the whole. */
  lemma DropInTail(x: (Key, Value), tail: Entries, j: nat)
    requires j < |tail|
    ensures [x] + (tail[..j] + tail[j + 1..]) == ([x] + tail)[..j + 1] + ([x] + tail)[j + 2..]
  {
    assert ([x] + tail)[..j + 1] == [x] + tail[..j];
    assert ([x] + tail)[j + 2..] == tail[j + 1..];
  }

  /** Remove takes out the entry at the key's position and leaves the others in their order. */
  lemma {:induction false} RemoveInPlace(e: Entries, k: Key)
    requires UniqueKeys(e) && k in KeySet(e)
    ensures var j := IndexOf(e, k).value; Remove(e, k) == e[..j] + e[j + 1..]
  {
    Cons(e[0], e[1..]);
    if e[0].0 == k {
      assert e[..0] == [];
    } else {
      var tail := e[1..];
      assert UniqueKeys(tail) && k in KeySet(tail);
      RemoveInPlace(tail, k);
      var j := IndexOf(tail, k).value;
      assert IndexOf(e, k).value == j + 1;
      assert Remove(e, k) == [e[0]] + Remove(tail, k);
      DropInTail(e[0], tail, j);
      assert [e[0]] + tail == e;
    }
  }

  /** PHP's `empty()`: null, false, 0, "", "0" and the empty array are empty. */
  predicate Empty(v: Value): (b: bool)
    ensures b <==> v in {Null, Bool(false), Int(0), Str(""), Str("0"), Arr([])}
  {
    match v
    case Null => true
    case Bool(b) => !b
    case Int(i) => i == 0
    case Str(s) => s == "" || s == "0"
    case Arr(e) => e == []
  }

  /** `empty($a[$k])`: also true of a missing key; what is not empty is set. */
  predicate EmptyAt(e: Entries, k: Key): (b: bool)
    ensures b <==> k !in KeySet(e) || Empty(Find(e, k).value)
    ensures !b ==> IsSetAt(e, k)
  {
    match Find(e, k)
    case None => true
    case Some(x) => Empty(x)
  }

  /** `isset($a[$k])`: the key is present and its value is not null. */
  predicate IsSetAt(e: Entries, k: Key): (b: bool)
    ensures b <==> k in KeySet(e) && Find(e, k) != Some(Null)
  {
    Find(e, k).Some? && Find(e, k).value != Null
  }
}
