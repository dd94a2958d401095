/**
 * The before-normalization rule of the `session` section. Dots cannot appear
 * in node names, so the PdoSessionStorage options may be written with a
 * `pdo.` prefix (`pdo.db_table`); when the raw value is an array, one pass
 * over its original keys renames every such key to the key without the
 * prefix, overwriting whatever that key held.
 */
module SessionPrefix {
  import opened PhpValues

  const PREFIX := "pdo."

  /** `0 === strncmp('pdo.', $key, 4)`; an integer key never matches. */
  predicate HasPrefix(k: Key) {
    k.StrKey? && |k.s| >= |PREFIX| && k.s[..|PREFIX|] == PREFIX
  }

  /** `substr($key, 4)`: the key without its prefix. */
  function Unprefixed(k: Key): (r: Key)
    requires HasPrefix(k)
  {
    StrKey(k.s[|PREFIX|..])
  }

  /** The key that the loop renames to the string key s. */
  function Prefixed(s: string): (k: Key) {
    StrKey(PREFIX + s)
  }

  /** Prefixing and stripping are inverse to each other. */
  lemma PrefixRoundTrip(s: string)
    ensures HasPrefix(Prefixed(s)) && Unprefixed(Prefixed(s)) == StrKey(s)
  {
    assert (PREFIX + s)[..|PREFIX|] == PREFIX;
    assert (PREFIX + s)[|PREFIX|..] == s;
  }

  lemma UnprefixRoundTrip(k: Key)
    requires HasPrefix(k)
    ensures Prefixed(Unprefixed(k).s) == k
  {
    assert PREFIX + k.s[|PREFIX|..] == k.s[..|PREFIX|] + k.s[|PREFIX|..] == k.s;
  }

  /** The keys `strncmp` matches are exactly the prefixed string keys. */
  lemma PrefixCharacterized(k: Key)
    ensures HasPrefix(k) <==> exists s :: Prefixed(s) == k
  {
    if HasPrefix(k) {
      UnprefixRoundTrip(k);
    }
    if exists s :: Prefixed(s) == k {
      var s :| Prefixed(s) == k;
      PrefixRoundTrip(s);
    }
  }

  /** Where the original key that renames to k stands, if there is one. */
  function RenamedFrom(orig: Entries, k: Key): (r: Option<nat>)
    ensures r.Some? ==> k.StrKey? && r.value < |orig| && orig[r.value].0 == Prefixed(k.s)
  {
    if k.StrKey? then IndexOf(orig, Prefixed(k.s)) else None
  }

  /** Where k stands among the original keys, when the loop unsets it. */
  function UnsetAt(orig: Entries, k: Key): (r: Option<nat>)
    ensures r.Some? ==> HasPrefix(k) && r.value < |orig| && orig[r.value].0 == k
  {
    if HasPrefix(k) then IndexOf(orig, k) else None
  }

  /**
   * What `$v[k]` holds once the loop has visited the first n original
   * entries: k was last written by the renaming of `pdo.k`, or last unset
   * because k itself carries the prefix, or is untouched and keeps its
   * original value. This definition does not follow the loop: it looks only
   * at the two positions in the original array that can affect k.
   */
  function LookupAfter(orig: Entries, n: nat, k: Key): (r: Option<Value>)
    requires n <= |orig|
    ensures n == 0 ==> r == Find(orig, k)
    ensures r.Some? ==> exists i :: 0 <= i < |orig| && orig[i].1 == r.value
  {
    var from := RenamedFrom(orig, k);
    var gone := UnsetAt(orig, k);
    var renamed := from.Some? && from.value < n;
    var unset := gone.Some? && gone.value < n;
    if renamed && (!unset || gone.value < from.value) then Some(orig[from.value].1)
    else if unset then None
    else Find(orig, k)
  }

  /** The array `cur` holds, key by key, what LookupAfter(orig, n, _) predicts. */
  ghost predicate Agrees(cur: Entries, orig: Entries, n: nat)
    requires n <= |orig|
  {
    forall k :: Find(cur, k) == LookupAfter(orig, n, k)
  }

  /** After visiting `pdo.K` at position n, the key `pdo.K` itself is gone. */
  lemma RenameStepOld(orig: Entries, n: nat)
    requires UniqueKeys(orig) && n < |orig| && HasPrefix(orig[n].0)
    ensures LookupAfter(orig, n + 1, orig[n].0) == None
  {
    var key := orig[n].0;
    var from := RenamedFrom(orig, key);
    IndexOfUnique(orig, n);
    assert UnsetAt(orig, key) == Some(n);
    if from.Some? {
      assert |orig[from.value].0.s| == |PREFIX| + |key.s|;
    }
  }

  /** After visiting `pdo.K` at position n, the key K holds the entry's value. */
  lemma RenameStepNew(orig: Entries, n: nat)
    requires UniqueKeys(orig) && n < |orig| && HasPrefix(orig[n].0)
    ensures LookupAfter(orig, n + 1, Unprefixed(orig[n].0)) == Some(orig[n].1)
  {
    var key := orig[n].0;
    var k := Unprefixed(key);
    assert RenamedFrom(orig, k) == Some(n) by {
      UnprefixRoundTrip(key);
      IndexOfUnique(orig, n);
    }
    var gone := UnsetAt(orig, k);
    if gone.Some? {
      // k is shorter than key, so the loop unsets it at some other position
      assert orig[gone.value].0 == k;
      assert |k.s| < |key.s|;
      assert gone.value != n;
    }
  }

  /** Visiting `pdo.K` at position n leaves every key but `pdo.K` and K as it was. */
  lemma RenameStepOther(orig: Entries, n: nat, k: Key)
    requires UniqueKeys(orig) && n < |orig| && HasPrefix(orig[n].0)
    requires k != orig[n].0 && k != Unprefixed(orig[n].0)
    ensures LookupAfter(orig, n + 1, k) == LookupAfter(orig, n, k)
  {
    if RenamedFrom(orig, k) == Some(n) {
      PrefixRoundTrip(k.s);
    }
  }

  /** Visiting an entry whose key carries the prefix: set the stripped key, unset the old one. */
  lemma RenameStep(orig: Entries, n: nat, before: Entries)
    requires UniqueKeys(orig) && UniqueKeys(before) && n < |orig| && HasPrefix(orig[n].0)
    requires Agrees(before, orig, n)
    ensures Agrees(Remove(Put(before, Unprefixed(orig[n].0), orig[n].1), orig[n].0), orig, n + 1)
  {
    var after := Remove(Put(before, Unprefixed(orig[n].0), orig[n].1), orig[n].0);
    RenameStepOld(orig, n);
    RenameStepNew(orig, n);
    forall k | k != orig[n].0 && k != Unprefixed(orig[n].0)
      ensures Find(after, k) == LookupAfter(orig, n + 1, k)
    {
      RenameStepOther(orig, n, k);
    }
  }

  /** Visiting an entry whose key lacks the prefix changes nothing. */
  lemma SkipStep(orig: Entries, n: nat, cur: Entries)
    requires n < |orig| && !HasPrefix(orig[n].0)
    requires Agrees(cur, orig, n)
    ensures Agrees(cur, orig, n + 1)
  {
    forall k ensures Find(cur, k) == LookupAfter(orig, n + 1, k) {
      var from := RenamedFrom(orig, k);
      if from == Some(n) {
        PrefixRoundTrip(k.s);
      }
    }
  }

  /** Before the loop, the array agrees with itself. */
  lemma StartAgrees(orig: Entries)
    ensures Agrees(orig, orig, 0)
  {
  }

  /**
   * The closure as written: when the value is an array, one `foreach` over
   * its original entries; each key that starts with `pdo.` is written again
   * without the prefix (overwriting that key's value, or appending it) and
   * then unset. Keys the loop creates are not visited again, and the value
   * written is the one the key had before the loop.
   */
  method StripPdoPrefix(v: Value) returns (r: Value)
    requires Valid(v)
    ensures Valid(r)
    ensures !v.Arr? ==> r == v
    ensures v.Arr? ==> r.Arr? && forall k :: Find(r.entries, k) == LookupAfter(v.entries, |v.entries|, k)
    ensures v.Arr? ==> forall k :: k in KeySet(r.entries) ==>
      k in KeySet(v.entries) || exists j :: 0 <= j < |v.entries| && HasPrefix(v.entries[j].0) && k == Unprefixed(v.entries[j].0)
    ensures v.Arr? && (forall j :: 0 <= j < |v.entries| ==> !HasPrefix(v.entries[j].0)) ==> r == v
  {
    if !v.Arr? {
      return v;
    }
    var orig := v.entries;
    var entries := orig;
    var i := 0;
    StartAgrees(orig);
    while i < |orig|
      invariant 0 <= i <= |orig|
      invariant UniqueKeys(entries)
      invariant Agrees(entries, orig, i)
      invariant ValueSet(entries) <= ValueSet(orig)
      invariant forall k :: k in KeySet(entries) ==>
        k in KeySet(orig) || exists j :: 0 <= j < i && HasPrefix(orig[j].0) && k == Unprefixed(orig[j].0)
      invariant (forall j :: 0 <= j < i ==> !HasPrefix(orig[j].0)) ==> entries == orig
    {
      var (key, value) := orig[i];
      EntryIn(orig, i);
      if HasPrefix(key) {
        RenameStep(orig, i, entries);
        entries := Put(entries, Unprefixed(key), value);
        entries := Remove(entries, key);
      } else {
        SkipStep(orig, i, entries);
      }
      i := i + 1;
    }
    r := Arr(entries);
    forall j | 0 <= j < |entries| ensures Valid(entries[j].1) {
      EntryIn(entries, j);
      var w := entries[j].1;
      assert w in ValueSet(orig);
      ValueIn(orig, w);
    }
  }

  // What the rule promises about its result, stated on LookupAfter(orig, |orig|, _),
  // which StripPdoPrefix's result matches key by key.

  /**
   * `pdo.K` hands its value to K, whatever K held before, unless K carries
   * the prefix itself and is visited later (and so renamed in turn).
   */
  lemma RenamedKeyHoldsValue(orig: Entries, i: nat)
    requires UniqueKeys(orig) && i < |orig| && HasPrefix(orig[i].0)
    requires forall j :: i < j < |orig| && HasPrefix(orig[j].0) ==> orig[j].0 != Unprefixed(orig[i].0)
    ensures LookupAfter(orig, |orig|, Unprefixed(orig[i].0)) == Some(orig[i].1)
  {
    var target := Unprefixed(orig[i].0);
    IndexOfUnique(orig, i);
    UnprefixRoundTrip(orig[i].0);
    assert RenamedFrom(orig, target) == Some(i);
    var gone := UnsetAt(orig, target);
    if gone.Some? {
      var g := gone.value;
      assert g != i by {
        assert |orig[g].0.s| < |orig[i].0.s|;
      }
      assert g < i by {
        assert HasPrefix(orig[g].0) && orig[g].0 == target;
      }
    }
  }

  /** `pdo.K` is gone from the result unless a later key `pdo.pdo.K` recreates it. */
  lemma PrefixedKeyRemoved(orig: Entries, i: nat)
    requires UniqueKeys(orig) && i < |orig| && HasPrefix(orig[i].0)
    requires forall j :: i < j < |orig| ==> orig[j].0 != Prefixed(orig[i].0.s)
    ensures LookupAfter(orig, |orig|, orig[i].0) == None
  {
    var key := orig[i].0;
    var from := RenamedFrom(orig, key);
    IndexOfUnique(orig, i);
    assert UnsetAt(orig, key) == Some(i);
    if from.Some? {
      assert from.value != i by {
        assert |orig[from.value].0.s| == |PREFIX| + |key.s|;
      }
    }
  }

  /** A later `pdo.pdo.K` recreates `pdo.K`, with its own original value. */
  lemma PrefixedKeyRecreated(orig: Entries, i: nat, j: nat)
    requires UniqueKeys(orig) && i < j < |orig| && HasPrefix(orig[i].0)
    requires orig[j].0 == Prefixed(orig[i].0.s)
    ensures LookupAfter(orig, |orig|, orig[i].0) == Some(orig[j].1)
  {
    IndexOfUnique(orig, i);
    IndexOfUnique(orig, j);
  }

  /** A key without the prefix that no `pdo.` key renames to keeps its original value. */
  lemma PlainKeyKept(orig: Entries, k: Key)
    requires !HasPrefix(k)
    requires k.StrKey? ==> Prefixed(k.s) !in KeySet(orig)
    ensures LookupAfter(orig, |orig|, k) == Find(orig, k)
  {
  }

  /** With no `pdo.` key at all, every key keeps its original value. */
  lemma NoPrefixedKeys(orig: Entries, k: Key)
    requires forall j :: 0 <= j < |orig| ==> !HasPrefix(orig[j].0)
    ensures LookupAfter(orig, |orig|, k) == Find(orig, k)
  {
    var from := RenamedFrom(orig, k);
    if from.Some? {
      PrefixRoundTrip(k.s);
    }
  }

  /**
   * One pass removes one prefix: `pdo.pdo.x` becomes `pdo.x`, which the loop
   * does not visit again, so `x` does not appear.
   */
  lemma DoublePrefixStrippedOnce(w: Value)
    ensures LookupAfter([(StrKey("pdo.pdo.x"), w)], 1, StrKey("pdo.x")) == Some(w)
    ensures LookupAfter([(StrKey("pdo.pdo.x"), w)], 1, StrKey("x")) == None
    ensures LookupAfter([(StrKey("pdo.pdo.x"), w)], 1, StrKey("pdo.pdo.x")) == None
  {
    var orig := [(StrKey("pdo.pdo.x"), w)];
    PrefixRoundTrip("pdo.x");
    assert Prefixed("pdo.x") == StrKey("pdo.pdo.x");
    IndexOfUnique(orig, 0);
    assert Prefixed("x") != StrKey("pdo.pdo.x");
    assert Prefixed("pdo.pdo.x") != StrKey("pdo.pdo.x");
  }

  /**
   * The loop reads each original value, and the order of the keys decides
   * which write survives: `{pdo.pdo.x: a, pdo.x: b}` ends as `{x: b}`, while
   * `{pdo.x: b, pdo.pdo.x: a}` ends with `x` holding b and `pdo.x` holding a.
   */
  lemma OrderDecidesOverwrites(a: Value, b: Value)
    ensures LookupAfter([(StrKey("pdo.pdo.x"), a), (StrKey("pdo.x"), b)], 2, StrKey("x")) == Some(b)
    ensures LookupAfter([(StrKey("pdo.pdo.x"), a), (StrKey("pdo.x"), b)], 2, StrKey("pdo.x")) == None
    ensures LookupAfter([(StrKey("pdo.x"), b), (StrKey("pdo.pdo.x"), a)], 2, StrKey("x")) == Some(b)
    ensures LookupAfter([(StrKey("pdo.x"), b), (StrKey("pdo.pdo.x"), a)], 2, StrKey("pdo.x")) == Some(a)
  {
    PrefixRoundTrip("x");
    PrefixRoundTrip("pdo.x");
    assert Prefixed("x") == StrKey("pdo.x");
    assert Prefixed("pdo.x") == StrKey("pdo.pdo.x");
    var first := [(StrKey("pdo.pdo.x"), a), (StrKey("pdo.x"), b)];
    var second := [(StrKey("pdo.x"), b), (StrKey("pdo.pdo.x"), a)];
    assert StrKey("pdo.x") != StrKey("pdo.pdo.x");
    assert UniqueKeys(first) && UniqueKeys(second);
    IndexOfUnique(first, 0);
    IndexOfUnique(first, 1);
    IndexOfUnique(second, 0);
    IndexOfUnique(second, 1);
  }

  /** `{pdo.db_table: "sessions"}` normalizes to `{db_table: "sessions"}`. */
  lemma DbTableExample()
    ensures LookupAfter([(StrKey("pdo.db_table"), Str("sessions"))], 1, StrKey("db_table")) == Some(Str("sessions"))
    ensures LookupAfter([(StrKey("pdo.db_table"), Str("sessions"))], 1, StrKey("pdo.db_table")) == None
  {
    var orig := [(StrKey("pdo.db_table"), Str("sessions"))];
    PrefixRoundTrip("db_table");
    assert Prefixed("db_table") == StrKey("pdo.db_table");
    IndexOfUnique(orig, 0);
    assert Prefixed("pdo.db_table") != StrKey("pdo.db_table");
  }
}
