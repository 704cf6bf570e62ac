/**
 * The system dictionary of one class loader (classfile/dictionary.cpp): a chained hash
 * table from (hash, class name) to the loaded InstanceKlass, with a protection-domain
 * set per entry, and the SymbolPropertyTable kept beside it.
 *
 * Each bucket's linked list is a sequence, head first; the table is an array of those
 * sequences. Entries are values: where the C++ code relinks nodes or replaces a
 * `_pd_set` head, the model assigns the bucket a new sequence.
 *
 * compute_hash, hash_to_index, ClassLoaderData::is_unloading,
 * InstanceKlass::is_in_error_state and SystemDictionaryShared::is_builtin are not part
 * of this model: they are passed in as functions about which nothing is assumed.
 */
module ClassDictionary {
  import opened Wrappers

  /** Identities of Symbol*, ClassLoaderData* and protection-domain oops. */
  type Symbol = nat
  type LoaderId = nat
  type Oop = nat

  /** An `unsigned int` hash value. */
  type Hash = h: int | 0 <= h < 0x1_0000_0000

  /** ClassLoaderData::the_null_class_loader_data(), the boot loader. */
  const NullLoader: LoaderId := 0

  /** The parts of an InstanceKlass the dictionary looks at. */
  datatype InstanceKlass = InstanceKlass(id: nat, name: Symbol, loader: LoaderId, protectionDomain: Oop)

  /** A DictionaryEntry: its hash, its class and its protection-domain list, head first. */
  datatype DictionaryEntry = DictionaryEntry(hash: Hash, klass: InstanceKlass, pdSet: seq<Oop>)

  /** A SymbolPropertyEntry's key: hash, symbol and symbol mode. */
  datatype SymbolPropertyEntry = SymbolPropertyEntry(hash: Hash, symbol: Symbol, mode: int)

  // ---------------------------------------------------------------------------
  // Lists
  // ---------------------------------------------------------------------------

  /** `k` is the position of the first element of `s` that satisfies `m`. */
  predicate IsFirst<T>(s: seq<T>, k: nat, m: T -> bool) {
    k < |s| && m(s[k]) && forall j :: 0 <= j < k ==> !m(s[j])
  }

  /** No element of `s` satisfies `m`. */
  predicate NoneMatch<T>(s: seq<T>, m: T -> bool) {
    forall j :: 0 <= j < |s| ==> !m(s[j])
  }

  /**
   * The walk `for (p = bucket(index); p != NULL; p = p->next())` that returns the first
   * matching node, or NULL. The node is identified by its position in the bucket.
   */
  method FindFirst<T>(s: seq<T>, m: T -> bool) returns (k: Option<nat>)
    ensures k.Some? ==> IsFirst(s, k.value, m)
    ensures k.None? <==> NoneMatch(s, m)
  {
    var i := 0;
    while i < |s|
      invariant 0 <= i <= |s|
      invariant forall j :: 0 <= j < i ==> !m(s[j])
    {
      if m(s[i]) {
        return Some(i);
      }
      i := i + 1;
    }
    return None;
  }

  /** The concatenation of all buckets, bucket 0 first: the order of the table walks. */
  function Entries<T>(bs: seq<seq<T>>): seq<T> {
    if bs == [] then [] else Entries(bs[..|bs| - 1]) + bs[|bs| - 1]
  }

  /** Walking one more bucket appends its elements. */
  lemma EntriesStep<T>(bs: seq<seq<T>>, i: nat)
    requires i < |bs|
    ensures Entries(bs[..i + 1]) == Entries(bs[..i]) + bs[i]
  {
    assert bs[..i + 1][..i] == bs[..i];
  }

  /** The table walk meets every element of every bucket. */
  lemma {:induction false} EntriesMeets<T>(bs: seq<seq<T>>, i: nat, x: T)
    requires i < |bs| && x in bs[i]
    ensures x in Entries(bs)
  {
    if i < |bs| - 1 {
      EntriesMeets(bs[..|bs| - 1], i, x);
    }
  }

  /** The table walk meets nothing that is not in some bucket. */
  lemma {:induction false} EntriesFrom<T>(bs: seq<seq<T>>, x: T) returns (i: nat)
    requires x in Entries(bs)
    ensures i < |bs| && x in bs[i]
  {
    var init := bs[..|bs| - 1];
    if x in Entries(init) {
      i := EntriesFrom(init, x);
    } else {
      i := |bs| - 1;
    }
  }

  /** A list read back to front: the order in which prepending builds it. */
  function Reverse<T>(s: seq<T>): (r: seq<T>)
    ensures |r| == |s|
  {
    if s == [] then [] else [s[|s| - 1]] + Reverse(s[..|s| - 1])
  }

  /** Reverse puts the last element first, and so on, and keeps every element. */
  lemma {:induction false} ReverseMeaning<T>(s: seq<T>)
    ensures forall i :: 0 <= i < |s| ==> Reverse(s)[i] == s[|s| - 1 - i]
    ensures multiset(Reverse(s)) == multiset(s)
  {
    if s != [] {
      var init := s[..|s| - 1];
      ReverseMeaning(init);
      assert s == init + [s[|s| - 1]];
    }
  }

  /**
   * The bucket left by a pointer-to-pointer unlinking walk that removes every node
   * satisfying `doomed`.
   */
  function Survivors(b: seq<DictionaryEntry>, doomed: DictionaryEntry -> bool): (r: seq<DictionaryEntry>)
    ensures |r| <= |b|
    ensures forall x :: x in r <==> x in b && !doomed(x)
  {
    if b == [] then []
    else Survivors(b[..|b| - 1], doomed) + (if doomed(b[|b| - 1]) then [] else [b[|b| - 1]])
  }

  /** Unlinking removes exactly the doomed occurrences, duplicates included. */
  lemma {:induction false} SurvivorsCount(b: seq<DictionaryEntry>, doomed: DictionaryEntry -> bool, x: DictionaryEntry)
    ensures multiset(Survivors(b, doomed))[x] == if doomed(x) then 0 else multiset(b)[x]
  {
    if b != [] {
      var init := b[..|b| - 1];
      SurvivorsCount(init, doomed, x);
      assert b == init + [b[|b| - 1]];
    }
  }

  /**
   * Unlinking keeps the relative order of the survivors: the survivors of a list made
   * of two parts are the survivors of the first part followed by those of the second.
   */
  lemma {:induction false} SurvivorsConcat(a: seq<DictionaryEntry>, c: seq<DictionaryEntry>, doomed: DictionaryEntry -> bool)
    ensures Survivors(a + c, doomed) == Survivors(a, doomed) + Survivors(c, doomed)
  {
    if c != [] {
      var init := c[..|c| - 1];
      SurvivorsConcat(a, init, doomed);
      assert (a + c)[..|a + c| - 1] == a + init;
    } else {
      assert a + c == a;
    }
  }

  /** A list with nothing doomed in it survives whole. */
  lemma {:induction false} SurvivorsOfClean(b: seq<DictionaryEntry>, doomed: DictionaryEntry -> bool)
    requires forall x :: x in b ==> !doomed(x)
    ensures Survivors(b, doomed) == b
  {
    if b != [] {
      SurvivorsOfClean(b[..|b| - 1], doomed);
      assert b == b[..|b| - 1] + [b[|b| - 1]];
    }
  }

  /** A second pass with the same predicate removes nothing. */
  lemma SurvivorsIdempotent(b: seq<DictionaryEntry>, doomed: DictionaryEntry -> bool)
    ensures Survivors(Survivors(b, doomed), doomed) == Survivors(b, doomed)
  {
    SurvivorsOfClean(Survivors(b, doomed), doomed);
  }

  // ---------------------------------------------------------------------------
  // Protection domains of one entry
  // ---------------------------------------------------------------------------

  /**
   * The invariant of `_pd_set`: no domain twice, and never the class's own protection
   * domain (which is checked directly instead).
   */
  predicate PdSetValid(e: DictionaryEntry) {
    && e.klass.protectionDomain !in e.pdSet
    && forall i, j :: 0 <= i < j < |e.pdSet| ==> e.pdSet[i] != e.pdSet[j]
  }

  /** Every entry of a bucket keeps the `_pd_set` invariant. */
  predicate EntriesValid(s: seq<DictionaryEntry>) {
    forall e :: e in s ==> PdSetValid(e)
  }

  /** The domains the entry admits: the class's own domain and those of `_pd_set`. */
  predicate Admits(e: DictionaryEntry, pd: Oop) {
    pd == e.klass.protectionDomain || pd in e.pdSet
  }

  /**
   * DictionaryEntry::contains_protection_domain. The debug-build check that the class's
   * own domain is not in `_pd_set` is its precondition.
   */
  method ContainsProtectionDomain(e: DictionaryEntry, pd: Oop) returns (r: bool)
    requires pd == e.klass.protectionDomain ==> pd !in e.pdSet
    ensures r <==> pd == e.klass.protectionDomain || pd in e.pdSet
  {
    if pd == e.klass.protectionDomain {
      return true;
    }
    var current := 0;
    while current < |e.pdSet|
      invariant 0 <= current <= |e.pdSet|
      invariant pd !in e.pdSet[..current]
    {
      if e.pdSet[current] == pd {
        return true;
      }
      current := current + 1;
    }
    assert e.pdSet[..current] == e.pdSet;
    return false;
  }

  /**
   * DictionaryEntry::add_protection_domain: prepend `pd` unless it is already admitted.
   * The list stays duplicate-free, the domain is admitted afterwards, and the set of
   * admitted domains grows by exactly `pd`.
   */
  function AddProtectionDomainTo(e: DictionaryEntry, pd: Oop): (r: DictionaryEntry)
    ensures PdSetValid(e) ==> PdSetValid(r)
    ensures Admits(r, pd)
    ensures forall q :: Admits(r, q) <==> Admits(e, q) || q == pd
    ensures r.hash == e.hash && r.klass == e.klass
    ensures |r.pdSet| <= |e.pdSet| + 1
  {
    if Admits(e, pd) then e else e.(pdSet := [pd] + e.pdSet)
  }

  // ---------------------------------------------------------------------------
  // Lookups, filters and redistribution over buckets
  // ---------------------------------------------------------------------------

  /**
   * The test of get_entry: same hash and same class name, and when dumping the shared
   * archive only entries of builtin loaders.
   */
  function Matches(hash: Hash, name: Symbol, dumping: bool, isBuiltin: DictionaryEntry -> bool): DictionaryEntry -> bool
  {
    (e: DictionaryEntry) => e.hash == hash && e.klass.name == name && (!dumping || isBuiltin(e))
  }

  /** The test of find_entry: same hash, same symbol and same mode. */
  function PropertyMatches(hash: Hash, sym: Symbol, mode: int): SymbolPropertyEntry -> bool
  {
    (p: SymbolPropertyEntry) => p.hash == hash && p.symbol == sym && p.mode == mode
  }

  /** An entry of a class whose defining loader is being unloaded. */
  function DefinedByUnloading(isUnloading: LoaderId -> bool): DictionaryEntry -> bool
  {
    (e: DictionaryEntry) => isUnloading(e.klass.loader)
  }

  /** An entry of a class in error state. */
  function InErrorState(isInErrorState: InstanceKlass -> bool): DictionaryEntry -> bool
  {
    (e: DictionaryEntry) => isInErrorState(e.klass)
  }

  /** The classes of `es` whose defining loader is `loader`, in order: classes_do. */
  function DefinedKlasses(es: seq<DictionaryEntry>, loader: LoaderId): seq<InstanceKlass> {
    if es == [] then []
    else
      var last := es[|es| - 1];
      DefinedKlasses(es[..|es| - 1], loader) + (if last.klass.loader == loader then [last.klass] else [])
  }

  /**
   * classes_do hands over a class exactly when some entry holds it and the class was
   * defined by the dictionary's own loader.
   */
  lemma {:induction false} DefinedKlassesMeaning(es: seq<DictionaryEntry>, loader: LoaderId, k: InstanceKlass)
    ensures k in DefinedKlasses(es, loader) <==> k.loader == loader && exists e :: e in es && e.klass == k
  {
    if es != [] {
      var init := es[..|es| - 1];
      DefinedKlassesMeaning(init, loader, k);
      assert es == init + [es[|es| - 1]];
    }
  }

  /** Every (class, initiating loader) pair of `es`, in order: all_entries_do. */
  function AllVisits(es: seq<DictionaryEntry>, loader: LoaderId): (r: seq<(InstanceKlass, LoaderId)>)
    ensures |r| == |es|
    ensures forall i :: 0 <= i < |es| ==> r[i] == (es[i].klass, loader)
  {
    if es == [] then [] else AllVisits(es[..|es| - 1], loader) + [(es[|es| - 1].klass, loader)]
  }

  /** An entry after reorder_dictionary recomputed its hash. */
  function Rehashed(e: DictionaryEntry, computeHash: Symbol -> Hash): DictionaryEntry {
    e.(hash := computeHash(e.klass.name))
  }

  /** Every entry of `s`, in order, with its hash recomputed. */
  function RehashAll(s: seq<DictionaryEntry>, computeHash: Symbol -> Hash): (r: seq<DictionaryEntry>)
    ensures |r| == |s|
    ensures forall i :: 0 <= i < |s| ==> r[i] == Rehashed(s[i], computeHash)
  {
    if s == [] then [] else [Rehashed(s[0], computeHash)] + RehashAll(s[1..], computeHash)
  }

  /**
   * The content of bucket `b` after reorder_dictionary redistributed the entries `s`
   * (in table-walk order): every entry whose recomputed hash maps to `b`, with that hash
   * stored, in the original order.
   */
  function BucketAfterReorder(s: seq<DictionaryEntry>, b: int, computeHash: Symbol -> Hash, hashToIndex: Hash -> nat)
    : (r: seq<DictionaryEntry>)
    ensures forall e :: e in r ==> e.hash == computeHash(e.klass.name) && hashToIndex(e.hash) == b
    ensures |r| <= |s|
  {
    if s == [] then []
    else
      var e := Rehashed(s[0], computeHash);
      (if hashToIndex(e.hash) == b then [e] else []) + BucketAfterReorder(s[1..], b, computeHash, hashToIndex)
  }

  /** The whole table after reorder_dictionary, with `n` buckets. */
  function Redistribute(s: seq<DictionaryEntry>, n: nat, computeHash: Symbol -> Hash, hashToIndex: Hash -> nat)
    : (r: seq<seq<DictionaryEntry>>)
    ensures |r| == n
    ensures forall b :: 0 <= b < n ==> r[b] == BucketAfterReorder(s, b, computeHash, hashToIndex)
  {
    seq(n, b => BucketAfterReorder(s, b, computeHash, hashToIndex))
  }

  lemma {:induction false} EntriesOfEmpty<T>(bs: seq<seq<T>>)
    requires forall i :: 0 <= i < |bs| ==> bs[i] == []
    ensures Entries(bs) == []
  {
    if bs != [] {
      EntriesOfEmpty(bs[..|bs| - 1]);
    }
  }

  /** Prepending one element to one bucket adds exactly that element to the table. */
  lemma {:induction false} EntriesPrepend<T>(bs: seq<seq<T>>, k: nat, x: T)
    requires k < |bs|
    ensures multiset(Entries(bs[k := [x] + bs[k]])) == multiset(Entries(bs)) + multiset{x}
  {
    var n := |bs|;
    var bs' := bs[k := [x] + bs[k]];
    if k == n - 1 {
      assert bs'[..n - 1] == bs[..n - 1];
    } else {
      assert bs'[..n - 1] == bs[..n - 1][k := [x] + bs[k]];
      EntriesPrepend(bs[..n - 1], k, x);
    }
  }

  /**
   * reorder_dictionary loses and duplicates nothing: the table afterwards holds
   * exactly the entries it held before, each with its hash recomputed.
   */
  lemma {:induction false} ReorderPreservesEntries(s: seq<DictionaryEntry>, n: nat, computeHash: Symbol -> Hash, hashToIndex: Hash -> nat)
    requires forall h: Hash :: hashToIndex(h) < n
    ensures multiset(Entries(Redistribute(s, n, computeHash, hashToIndex))) == multiset(RehashAll(s, computeHash))
  {
    if s == [] {
      EntriesOfEmpty(Redistribute(s, n, computeHash, hashToIndex));
    } else {
      var bs := Redistribute(s[1..], n, computeHash, hashToIndex);
      var x := Rehashed(s[0], computeHash);
      var k := hashToIndex(x.hash);
      forall b | 0 <= b < n
        ensures Redistribute(s, n, computeHash, hashToIndex)[b] == bs[k := [x] + bs[k]][b]
      {
      }
      assert Redistribute(s, n, computeHash, hashToIndex) == bs[k := [x] + bs[k]];
      ReorderPreservesEntries(s[1..], n, computeHash, hashToIndex);
      EntriesPrepend(bs, k, x);
    }
  }

  // ---------------------------------------------------------------------------
  // Dictionary
  // ---------------------------------------------------------------------------

  class Dictionary {
    const loaderData: LoaderId
    const buckets: array<seq<DictionaryEntry>>

    /** Every entry's protection-domain list keeps its invariant. */
    ghost predicate Valid()
      reads this, buckets
    {
      forall i :: 0 <= i < buckets.Length ==> EntriesValid(buckets[i])
    }

    constructor (loaderData: LoaderId, tableSize: nat)
      ensures Valid() && fresh(buckets)
      ensures this.loaderData == loaderData && buckets.Length == tableSize
      ensures forall i :: 0 <= i < tableSize ==> buckets[i] == []
    {
      this.loaderData := loaderData;
      buckets := new seq<DictionaryEntry>[tableSize](_ => []);
    }

    /**
     * get_entry: the position of the first entry of bucket `index` with this hash and
     * name (and builtin when dumping), or None. The table is not changed.
     */
    method GetEntry(index: nat, hash: Hash, name: Symbol, dumping: bool, isBuiltin: DictionaryEntry -> bool)
      returns (k: Option<nat>)
      requires index < buckets.Length
      ensures k.Some? ==> IsFirst(buckets[index], k.value, Matches(hash, name, dumping, isBuiltin))
      ensures k.None? <==> NoneMatch(buckets[index], Matches(hash, name, dumping, isBuiltin))
    {
      k := FindFirst(buckets[index], Matches(hash, name, dumping, isBuiltin));
    }

    /** find_class: the class of the entry get_entry finds, or NULL. */
    method FindClass(index: nat, hash: Hash, name: Symbol, dumping: bool, isBuiltin: DictionaryEntry -> bool)
      returns (r: Option<InstanceKlass>)
      requires index < buckets.Length
      ensures r.None? <==> NoneMatch(buckets[index], Matches(hash, name, dumping, isBuiltin))
      ensures r.Some? ==> exists k: nat :: IsFirst(buckets[index], k, Matches(hash, name, dumping, isBuiltin))
                                     && r.value == buckets[index][k].klass
      ensures r.Some? ==> r.value.name == name
    {
      var k := GetEntry(index, hash, name, dumping, isBuiltin);
      r := if k.Some? then Some(buckets[index][k.value].klass) else None;
    }

    /**
     * find: the class of the entry get_entry finds, provided that entry accepts
     * `pd` (the entry's is_valid_protection_domain, given as `isValid`); else NULL.
     */
    method Find(index: nat, hash: Hash, name: Symbol, pd: Oop, dumping: bool, isBuiltin: DictionaryEntry -> bool,
                isValid: (DictionaryEntry, Oop) -> bool)
      returns (r: Option<InstanceKlass>)
      requires index < buckets.Length
      ensures r.Some? <==> exists k: nat :: IsFirst(buckets[index], k, Matches(hash, name, dumping, isBuiltin))
                                       && isValid(buckets[index][k], pd)
      ensures r.Some? ==> exists k: nat :: IsFirst(buckets[index], k, Matches(hash, name, dumping, isBuiltin))
                                     && r.value == buckets[index][k].klass
    {
      var k := GetEntry(index, hash, name, dumping, isBuiltin);
      if k.Some? {
        forall k': nat | IsFirst(buckets[index], k', Matches(hash, name, dumping, isBuiltin))
          ensures k' == k.value
        {
        }
      }
      r := if k.Some? && isValid(buckets[index][k.value], pd) then Some(buckets[index][k.value].klass) else None;
    }

    /**
     * add_klass with new_entry: prepend a fresh entry for `klass`, whose protection-domain
     * list is empty, to bucket `index`. No other bucket changes.
     */
    method AddKlass(index: nat, hash: Hash, className: Symbol, klass: InstanceKlass)
      requires Valid()
      requires index < buckets.Length
      requires klass.name == className
      modifies buckets
      ensures Valid()
      ensures buckets[index] == [DictionaryEntry(hash, klass, [])] + old(buckets[index])
      ensures forall i :: 0 <= i < buckets.Length && i != index ==> buckets[i] == old(buckets[i])
    {
      var entry := DictionaryEntry(hash, klass, []);
      buckets[index] := [entry] + buckets[index];
    }

    /**
     * Dictionary::add_protection_domain: find the entry of `klass` (which must be
     * present) and add `pd` to its protection-domain list. Afterwards the entry admits
     * `pd`, and nothing else in the table changes.
     */
    method AddProtectionDomain(index: nat, hash: Hash, klass: InstanceKlass, pd: Oop,
                               dumping: bool, isBuiltin: DictionaryEntry -> bool)
      requires Valid()
      requires index < buckets.Length
      requires exists k: nat :: IsFirst(buckets[index], k, Matches(hash, klass.name, dumping, isBuiltin))
      modifies buckets
      ensures Valid()
      ensures forall k: nat :: IsFirst(old(buckets[index]), k, Matches(hash, klass.name, dumping, isBuiltin)) ==>
        && buckets[index] == old(buckets[index])[k := AddProtectionDomainTo(old(buckets[index])[k], pd)]
        && Admits(buckets[index][k], pd)
      ensures forall i :: 0 <= i < buckets.Length && i != index ==> buckets[i] == old(buckets[i])
    {
      var found := GetEntry(index, hash, klass.name, dumping, isBuiltin);
      var k := found.value;
      forall k': nat | IsFirst(buckets[index], k', Matches(hash, klass.name, dumping, isBuiltin))
        ensures k' == k
      {
      }
      var entry := buckets[index][k];
      assert entry in buckets[index];
      var present := ContainsProtectionDomain(entry, pd);
      if !present {
        buckets[index] := buckets[index][k := entry.(pdSet := [pd] + entry.pdSet)];
      }
    }

    /**
     * The pointer-to-pointer walk of do_unloading and remove_classes_in_error_state over
     * one bucket: unlink (and free) every doomed entry.
     */
    method UnlinkWhere(index: nat, doomed: DictionaryEntry -> bool)
      requires index < buckets.Length
      modifies buckets
      ensures buckets[index] == Survivors(old(buckets[index]), doomed)
      ensures forall i :: 0 <= i < buckets.Length && i != index ==> buckets[i] == old(buckets[i])
    {
      var b := buckets[index];
      var kept: seq<DictionaryEntry> := [];
      var i := 0;
      while i < |b|
        invariant 0 <= i <= |b|
        invariant kept == Survivors(b[..i], doomed)
      {
        assert b[..i + 1][..i] == b[..i];
        if !doomed(b[i]) {
          kept := kept + [b[i]];    // p = probe->next_addr()
        }                           // else *p = probe->next(); free_entry(probe)
        i := i + 1;
      }
      assert b[..i] == b;
      buckets[index] := kept;
    }

    /** Apply UnlinkWhere to every bucket. */
    method UnlinkAllWhere(doomed: DictionaryEntry -> bool)
      requires Valid()
      modifies buckets
      ensures Valid()
      ensures forall i :: 0 <= i < buckets.Length ==> buckets[i] == Survivors(old(buckets[i]), doomed)
    {
      var index := 0;
      while index < buckets.Length
        invariant 0 <= index <= buckets.Length
        invariant Valid()
        invariant forall i :: 0 <= i < index ==> buckets[i] == Survivors(old(buckets[i]), doomed)
        invariant forall i :: index <= i < buckets.Length ==> buckets[i] == old(buckets[i])
      {
        UnlinkWhere(index, doomed);
        index := index + 1;
      }
    }

    /**
     * do_unloading: nothing for the null loader's dictionary; otherwise every entry whose
     * defining loader is unloading is removed and the others stay, in order. The assert
     * that such a class is not defined by this dictionary's own loader is a precondition.
     */
    method DoUnloading(isUnloading: LoaderId -> bool)
      requires Valid()
      requires loaderData != NullLoader ==>
                 forall i, j :: 0 <= i < buckets.Length && 0 <= j < |buckets[i]| && isUnloading(buckets[i][j].klass.loader)
                   ==> buckets[i][j].klass.loader != loaderData
      modifies buckets
      ensures Valid()
      ensures loaderData == NullLoader ==> forall i :: 0 <= i < buckets.Length ==> buckets[i] == old(buckets[i])
      ensures loaderData != NullLoader ==>
        forall i :: 0 <= i < buckets.Length ==> buckets[i] == Survivors(old(buckets[i]), DefinedByUnloading(isUnloading))
    {
      if loaderData == NullLoader {
        return;
      }
      UnlinkAllWhere(DefinedByUnloading(isUnloading));
    }

    /**
     * remove_classes_in_error_state: every entry whose class is in error state is
     * removed and the others stay, in order.
     */
    method RemoveClassesInErrorState(isInErrorState: InstanceKlass -> bool)
      requires Valid()
      modifies buckets
      ensures Valid()
      ensures forall i :: 0 <= i < buckets.Length ==> buckets[i] == Survivors(old(buckets[i]), InErrorState(isInErrorState))
    {
      UnlinkAllWhere(InErrorState(isInErrorState));
    }

    /**
     * classes_do: the classes handed to the callback, in table-walk order: those whose
     * defining loader is this dictionary's loader. The table is not changed.
     */
    method ClassesDo() returns (visited: seq<InstanceKlass>)
      ensures visited == DefinedKlasses(Entries(buckets[..]), loaderData)
    {
      visited := [];
      var index := 0;
      while index < buckets.Length
        invariant 0 <= index <= buckets.Length
        invariant visited == DefinedKlasses(Entries(buckets[..index]), loaderData)
      {
        var b := buckets[index];
        ghost var walked := Entries(buckets[..index]);
        var j := 0;
        assert walked + b[..j] == walked;
        while j < |b|
          invariant 0 <= j <= |b|
          invariant visited == DefinedKlasses(walked + b[..j], loaderData)
        {
          assert walked + b[..j + 1] == (walked + b[..j]) + [b[j]];
          if b[j].klass.loader == loaderData {
            visited := visited + [b[j].klass];
          }
          j := j + 1;
        }
        assert b[..j] == b;
        EntriesStep(buckets[..], index);
        index := index + 1;
      }
      assert buckets[..index] == buckets[..];
    }

    /**
     * all_entries_do: every entry's class with this dictionary's loader as initiating
     * loader, in table-walk order. The table is not changed.
     */
    method AllEntriesDo() returns (visited: seq<(InstanceKlass, LoaderId)>)
      ensures visited == AllVisits(Entries(buckets[..]), loaderData)
    {
      visited := [];
      var index := 0;
      while index < buckets.Length
        invariant 0 <= index <= buckets.Length
        invariant visited == AllVisits(Entries(buckets[..index]), loaderData)
      {
        var b := buckets[index];
        ghost var walked := Entries(buckets[..index]);
        var j := 0;
        assert walked + b[..j] == walked;
        while j < |b|
          invariant 0 <= j <= |b|
          invariant visited == AllVisits(walked + b[..j], loaderData)
        {
          assert walked + b[..j + 1] == (walked + b[..j]) + [b[j]];
          visited := visited + [(b[j].klass, loaderData)];
          j := j + 1;
        }
        assert b[..j] == b;
        EntriesStep(buckets[..], index);
        index := index + 1;
      }
      assert buckets[..index] == buckets[..];
    }

    /**
     * reorder_dictionary: move every entry onto one master list, then push each back
     * onto the bucket its recomputed hash maps to, storing that hash. Each bucket then
     * holds exactly the entries whose new hash maps to it, in their old table-walk
     * order, and the table as a whole holds the same entries as before.
     */
    method ReorderDictionary(computeHash: Symbol -> Hash, hashToIndex: Hash -> nat)
      requires Valid()
      requires forall h: Hash :: hashToIndex(h) < buckets.Length
      modifies buckets
      ensures Valid()
      ensures forall b :: 0 <= b < buckets.Length ==>
        buckets[b] == BucketAfterReorder(Entries(old(buckets[..])), b, computeHash, hashToIndex)
      ensures multiset(Entries(buckets[..])) == multiset(RehashAll(Entries(old(buckets[..])), computeHash))
    {
      ghost var all := Entries(buckets[..]);
      var master := MoveToMasterList();
      PushBackRehashed(master, all, computeHash, hashToIndex);
      assert buckets[..] == Redistribute(all, buckets.Length, computeHash, hashToIndex);
      ReorderPreservesEntries(all, buckets.Length, computeHash, hashToIndex);
    }

    /**
     * The first phase of reorder_dictionary: empty every bucket onto the master list by
     * prepending, so the list ends up in reverse table-walk order.
     */
    method MoveToMasterList() returns (master: seq<DictionaryEntry>)
      requires Valid()
      modifies buckets
      ensures master == Reverse(Entries(old(buckets[..])))
      ensures EntriesValid(master)
      ensures forall k :: 0 <= k < buckets.Length ==> buckets[k] == []
    {
      master := [];
      var i := 0;
      while i < buckets.Length
        invariant 0 <= i <= buckets.Length
        invariant master == Reverse(Entries(old(buckets[..])[..i]))
        invariant EntriesValid(master)
        invariant forall k :: 0 <= k < i ==> buckets[k] == []
        invariant forall k :: i <= k < buckets.Length ==> buckets[k] == old(buckets[k])
        invariant forall k :: i <= k < buckets.Length ==> EntriesValid(buckets[k])
      {
        var p := buckets[i];
        ghost var before := Entries(old(buckets[..])[..i]);
        var j := 0;
        assert before + p[..j] == before;
        while j < |p|
          invariant 0 <= j <= |p|
          invariant master == Reverse(before + p[..j])
          invariant EntriesValid(master)
        {
          assert (before + p[..j + 1])[..|before| + j] == before + p[..j];
          assert p[j] in p;
          master := [p[j]] + master;    // p->set_next(master_list); master_list = p
          j := j + 1;
        }
        assert p[..j] == p;
        EntriesStep(old(buckets[..]), i);
        buckets[i] := [];               // set_entry(i, NULL)
        i := i + 1;
      }
      assert old(buckets[..])[..i] == old(buckets[..]);
    }

    /**
     * The second phase of reorder_dictionary: pop the master list and push each entry,
     * with its recomputed hash, onto the bucket that hash maps to.
     */
    method PushBackRehashed(master: seq<DictionaryEntry>, ghost all: seq<DictionaryEntry>,
                            computeHash: Symbol -> Hash, hashToIndex: Hash -> nat)
      requires master == Reverse(all) && EntriesValid(master)
      requires forall k :: 0 <= k < buckets.Length ==> buckets[k] == []
      requires forall h: Hash :: hashToIndex(h) < buckets.Length
      modifies buckets
      ensures Valid()
      ensures forall b :: 0 <= b < buckets.Length ==> buckets[b] == BucketAfterReorder(all, b, computeHash, hashToIndex)
    {
      var rest := master;
      assert all[|rest|..] == [] && all[..|rest|] == all;
      while rest != []
        invariant |rest| <= |all|
        invariant rest == Reverse(all[..|rest|])
        invariant EntriesValid(rest)
        invariant Valid()
        invariant forall b :: 0 <= b < buckets.Length ==>
          buckets[b] == BucketAfterReorder(all[|rest|..], b, computeHash, hashToIndex)
        decreases |rest|
      {
        ghost var m := |rest|;
        assert rest[0] in rest;
        var p := rest[0];
        rest := rest[1..];
        assert all[..m][..m - 1] == all[..m - 1];
        assert p == all[m - 1] && rest == Reverse(all[..m - 1]);
        var hash := computeHash(p.klass.name);
        var index := hashToIndex(hash);
        assert all[m - 1..][1..] == all[m..];
        assert PdSetValid(p.(hash := hash));
        buckets[index] := [p.(hash := hash)] + buckets[index];
      }
    }

    /**
     * ~Dictionary: unlink and free every entry, bucket by bucket from the head. Every
     * entry is freed exactly once, in table-walk order, and the table ends empty.
     */
    method Destroy() returns (freed: seq<DictionaryEntry>)
      modifies buckets
      ensures freed == Entries(old(buckets[..]))
      ensures forall i :: 0 <= i < buckets.Length ==> buckets[i] == []
    {
      freed := [];
      var index := 0;
      while index < buckets.Length
        invariant 0 <= index <= buckets.Length
        invariant freed == Entries(old(buckets[..])[..index])
        invariant forall i :: 0 <= i < index ==> buckets[i] == []
        invariant forall i :: index <= i < buckets.Length ==> buckets[i] == old(buckets[i])
      {
        ghost var before := freed;
        while buckets[index] != []
          invariant freed + buckets[index] == before + old(buckets[index])
          invariant forall i :: 0 <= i < index ==> buckets[i] == []
          invariant forall i :: index < i < buckets.Length ==> buckets[i] == old(buckets[i])
          decreases |buckets[index]|
        {
          var probe := buckets[index][0];
          buckets[index] := buckets[index][1..];    // *p = probe->next()
          freed := freed + [probe];                 // free_entry(probe)
        }
        assert old(buckets[..])[..index + 1][..index] == old(buckets[..])[..index];
        index := index + 1;
      }
      assert old(buckets[..])[..index] == old(buckets[..]);
    }
  }

  // ---------------------------------------------------------------------------
  // SymbolPropertyTable
  // ---------------------------------------------------------------------------

  class SymbolPropertyTable {
    const buckets: array<seq<SymbolPropertyEntry>>

    /** No bucket holds two entries with the same key: the "no double entry" discipline. */
    ghost predicate Valid()
      reads this, buckets
    {
      forall i, j, k :: 0 <= i < buckets.Length && 0 <= j < k < |buckets[i]| ==>
        !PropertyMatches(buckets[i][j].hash, buckets[i][j].symbol, buckets[i][j].mode)(buckets[i][k])
    }

    constructor (tableSize: nat)
      ensures Valid() && fresh(buckets) && buckets.Length == tableSize
      ensures forall i :: 0 <= i < tableSize ==> buckets[i] == []
    {
      buckets := new seq<SymbolPropertyEntry>[tableSize](_ => []);
    }

    /** find_entry: the first entry of bucket `index` with this key, or None. */
    method FindEntry(index: nat, hash: Hash, sym: Symbol, mode: int) returns (k: Option<nat>)
      requires index < buckets.Length
      ensures k.Some? ==> IsFirst(buckets[index], k.value, PropertyMatches(hash, sym, mode))
      ensures k.None? <==> NoneMatch(buckets[index], PropertyMatches(hash, sym, mode))
    {
      k := FindFirst(buckets[index], PropertyMatches(hash, sym, mode));
    }

    /**
     * add_entry: prepend a new entry for a key that is not yet present (asserted by the
     * source). find_entry then finds the new entry, and the table keeps one entry per key.
     */
    method AddEntry(index: nat, hash: Hash, sym: Symbol, mode: int) returns (k: nat)
      requires Valid()
      requires index < buckets.Length
      requires NoneMatch(buckets[index], PropertyMatches(hash, sym, mode))
      modifies buckets
      ensures Valid()
      ensures buckets[index] == [SymbolPropertyEntry(hash, sym, mode)] + old(buckets[index])
      ensures forall i :: 0 <= i < buckets.Length && i != index ==> buckets[i] == old(buckets[i])
      ensures k == 0 && IsFirst(buckets[index], k, PropertyMatches(hash, sym, mode))
    {
      var p := SymbolPropertyEntry(hash, sym, mode);
      buckets[index] := [p] + buckets[index];
      k := 0;
    }
  }
}
