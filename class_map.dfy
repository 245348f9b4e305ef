/**
 * The class-name registry of TypeLoader: an ordered PHP array from ActionScript
 * (wire) class names to PHP class names, the two searches getMappedClassName
 * runs over it, and loadType's fallback to a transliterated name.
 */
module ClassMaps {
  import opened Wrappers

  /** An ordered PHP array of string keys to string values, in insertion order. */
  type ClassMap = seq<(string, string)>

  function Keys(m: ClassMap): (ks: seq<string>)
    ensures |ks| == |m| && forall i :: 0 <= i < |m| ==> ks[i] == m[i].0
  {
    seq(|m|, i requires 0 <= i < |m| => m[i].0)
  }

  function Values(m: ClassMap): (vs: seq<string>)
    ensures |vs| == |m| && forall i :: 0 <= i < |m| ==> vs[i] == m[i].1
  {
    seq(|m|, i requires 0 <= i < |m| => m[i].1)
  }

  /** A PHP array never holds the same key twice. */
  predicate UniqueKeys(m: ClassMap)
  {
    forall i, j :: 0 <= i < j < |m| ==> m[i].0 != m[j].0
  }

  predicate UniqueValues(m: ClassMap)
  {
    forall i, j :: 0 <= i < j < |m| ==> m[i].1 != m[j].1
  }

  /** PHP truthiness of a string: only "" and "0" are false. */
  predicate Truthy(s: string)
  {
    s != "" && s != "0"
  }

  /** The first position of x in s. */
  function IndexOf(s: seq<string>, x: string): (r: Option<nat>)
    ensures r.Some? ==> r.value < |s| && s[r.value] == x && forall j :: 0 <= j < r.value ==> s[j] != x
    ensures r.None? ==> forall j :: 0 <= j < |s| ==> s[j] != x
  {
    if |s| == 0 then None
    else if s[0] == x then Some(0)
    else match IndexOf(s[1..], x)
      case Some(i) => Some(i + 1)
      case None => None
  }

  /** The last position of x in s. */
  function LastIndexOf(s: seq<string>, x: string): (r: Option<nat>)
    ensures r.Some? ==> r.value < |s| && s[r.value] == x && forall j :: r.value < j < |s| ==> s[j] != x
    ensures r.None? ==> forall j :: 0 <= j < |s| ==> s[j] != x
  {
    if |s| == 0 then None
    else if s[|s| - 1] == x then Some(|s| - 1)
    else LastIndexOf(s[..|s| - 1], x)
  }

  /** $m[$k], or None when k is not a key. */
  function Lookup(m: ClassMap, k: string): (r: Option<string>)
    ensures r.None? <==> k !in Keys(m)
  {
    match IndexOf(Keys(m), k)
    case Some(i) => Some(m[i].1)
    case None => None
  }

  lemma LookupAt(m: ClassMap, i: nat)
    requires UniqueKeys(m) && i < |m|
    ensures Lookup(m, m[i].0) == Some(m[i].1)
  {
    var r := IndexOf(Keys(m), m[i].0);
    assert Keys(m)[i] == m[i].0;
  }

  /**
   * array_search($needle, $m) with strict comparison: the key of the first
   * entry whose value is needle, or None.
   */
  function ArraySearch(needle: string, m: ClassMap): (r: Option<string>)
    ensures r.None? <==> forall j :: 0 <= j < |m| ==> m[j].1 != needle
    ensures r.Some? ==> exists i :: 0 <= i < |m| && m[i] == (r.value, needle) && forall j :: 0 <= j < i ==> m[j].1 != needle
  {
    match IndexOf(Values(m), needle)
    case Some(i) => Some(m[i].0)
    case None => None
  }

  /** $m[$k] = $v: overwrite the value of an existing key in place, or append a new entry. */
  function Put(m: ClassMap, k: string, v: string): (r: ClassMap)
    ensures forall t :: 0 <= t < |r| ==> r[t] == (k, v) || r[t] in m
    ensures UniqueKeys(m) ==> UniqueKeys(r)
  {
    match IndexOf(Keys(m), k)
    case Some(i) => m[i := (k, v)]
    case None => m + [(k, v)]
  }

  /** Lookup finds the first entry carrying the key. */
  lemma LookupFirst(m: ClassMap, k: string, i: nat)
    requires i < |m| && m[i].0 == k
    requires forall j :: 0 <= j < i ==> m[j].0 != k
    ensures Lookup(m, k) == Some(m[i].1)
  {
    var r := IndexOf(Keys(m), k);
    assert Keys(m)[i] == k;
  }

  /** After $m[$k] = $v, key k has value v and every other key keeps its value. */
  lemma PutLookup(m: ClassMap, k: string, v: string)
    ensures Lookup(Put(m, k, v), k) == Some(v)
    ensures forall k' :: k' != k ==> Lookup(Put(m, k, v), k') == Lookup(m, k')
  {
    var r := Put(m, k, v);
    match IndexOf(Keys(m), k)
    case Some(i) =>
      LookupFirst(r, k, i);
      forall k' | k' != k ensures Lookup(r, k') == Lookup(m, k') {
        match IndexOf(Keys(m), k')
        case Some(i') => LookupFirst(r, k', i');
        case None =>
      }
    case None =>
      LookupFirst(r, k, |m|);
      forall k' | k' != k ensures Lookup(r, k') == Lookup(m, k') {
        match IndexOf(Keys(m), k')
        case Some(i') => LookupFirst(r, k', i');
        case None =>
      }
  }

  /** The positions of a PHP array under $m[$k] = $v: an existing key keeps its place, a new key goes last. */
  lemma PutPositions(m: ClassMap, k: string, v: string)
    requires UniqueKeys(m)
    ensures k in Keys(m) ==> (|Put(m, k, v)| == |m| &&
      forall j :: 0 <= j < |m| ==> Put(m, k, v)[j] == if m[j].0 == k then (k, v) else m[j])
    ensures k !in Keys(m) ==> |Put(m, k, v)| == |m| + 1 && Put(m, k, v)[..|m|] == m && Put(m, k, v)[|m|] == (k, v)
  {
    match IndexOf(Keys(m), k)
    case Some(i) =>
      assert m[i].0 == k;
    case None =>
  }

  /**
   * array_flip($m): each value becomes a key whose value is its old key; when
   * several keys share a value, the last of them wins.
   */
  function ArrayFlip(m: ClassMap): (r: ClassMap)
    ensures UniqueKeys(r)
    ensures forall t :: 0 <= t < |r| ==> (r[t].1, r[t].0) in m
  {
    if |m| == 0 then []
    else Put(ArrayFlip(m[..|m| - 1]), m[|m| - 1].1, m[|m| - 1].0)
  }

  /** The key of the last entry whose value is v. */
  function LastKeyOf(m: ClassMap, v: string): (r: Option<string>)
    ensures r.Some? ==> (r.value, v) in m
    ensures r.None? <==> forall j :: 0 <= j < |m| ==> m[j].1 != v
  {
    match LastIndexOf(Values(m), v)
    case Some(i) => Some(m[i].0)
    case None => None
  }

  /** In array_flip($m), a value v maps to the last key that had value v. */
  lemma {:induction false} FlipLookup(m: ClassMap, v: string)
    ensures Lookup(ArrayFlip(m), v) == LastKeyOf(m, v)
  {
    if |m| > 0 {
      var init, last := m[..|m| - 1], m[|m| - 1];
      PutLookup(ArrayFlip(init), last.1, last.0);
      if v != last.1 {
        FlipLookup(init, v);
        assert Values(m)[..|m| - 1] == Values(init);
      }
    }
  }

  /** Searching array_flip($m) for a name that is no key of m finds nothing. */
  lemma FlipSearchMissing(m: ClassMap, name: string)
    requires forall j :: 0 <= j < |m| ==> m[j].0 != name
    ensures ArraySearch(name, ArrayFlip(m)) == None
  {
    var flip := ArrayFlip(m);
    forall t | 0 <= t < |flip| ensures flip[t].1 != name {
      assert (flip[t].1, flip[t].0) in m;
    }
  }

  /** With unique keys, the only entry of array_flip($m) whose value is the key of entry i is (its value, that key). */
  lemma FlipEntryWithValue(m: ClassMap, i: nat, t: nat)
    requires UniqueKeys(m) && i < |m|
    requires t < |ArrayFlip(m)| && ArrayFlip(m)[t].1 == m[i].0
    ensures ArrayFlip(m)[t] == (m[i].1, m[i].0)
  {
    var flip := ArrayFlip(m);
    assert (m[i].0, flip[t].0) in m;
    var x :| 0 <= x < |m| && m[x] == (m[i].0, flip[t].0);
  }

  /**
   * Searching array_flip($m) for the key of entry i finds that entry's value
   * when no later entry has the same value.
   */
  lemma FlipSearchLast(m: ClassMap, i: nat)
    requires UniqueKeys(m) && i < |m|
    requires forall j :: i < j < |m| ==> m[j].1 != m[i].1
    ensures ArraySearch(m[i].0, ArrayFlip(m)) == Some(m[i].1)
  {
    var flip := ArrayFlip(m);
    LastKeyAt(m, i);
    FlipLookup(m, m[i].1);
    LookupSome(flip, m[i].1);
    var t :| 0 <= t < |flip| && flip[t] == (m[i].1, m[i].0);
    var found := ArraySearch(m[i].0, flip);
    var t' :| 0 <= t' < |flip| && flip[t'] == (found.value, m[i].0);
    FlipEntryWithValue(m, i, t');
  }

  /** The last entry with a given value supplies LastKeyOf's answer. */
  lemma LastKeyAt(m: ClassMap, i: nat)
    requires i < |m|
    requires forall j :: i < j < |m| ==> m[j].1 != m[i].1
    ensures LastKeyOf(m, m[i].1) == Some(m[i].0)
  {
    assert Values(m)[i] == m[i].1;
  }

  /** A key that Lookup finds sits in an entry with the value found. */
  lemma LookupSome(m: ClassMap, k: string)
    ensures Lookup(m, k).Some? ==> exists t :: 0 <= t < |m| && m[t] == (k, Lookup(m, k).value)
  {
    match IndexOf(Keys(m), k)
    case Some(t) => assert m[t] == (k, Lookup(m, k).value);
    case None =>
  }

  /**
   * Searching array_flip($m) for the key of entry i finds nothing when a later
   * entry has the same value: that later key took the flipped slot.
   */
  lemma FlipSearchShadowed(m: ClassMap, i: nat, j: nat)
    requires UniqueKeys(m) && i < j < |m| && m[j].1 == m[i].1
    ensures ArraySearch(m[i].0, ArrayFlip(m)) == None
  {
    var flip := ArrayFlip(m);
    var found := ArraySearch(m[i].0, flip);
    if found.Some? {
      var t :| 0 <= t < |flip| && flip[t] == (found.value, m[i].0);
      FlipEntryWithValue(m, i, t);
      LookupAt(flip, t);
      FlipLookup(m, m[i].1);
      LastKeyShadowed(m, i, j);
      assert false;
    }
  }

  /** A later entry with the same value takes LastKeyOf's answer away from entry i. */
  lemma LastKeyShadowed(m: ClassMap, i: nat, j: nat)
    requires UniqueKeys(m) && i < j < |m| && m[j].1 == m[i].1
    ensures LastKeyOf(m, m[i].1) != Some(m[i].0)
  {
    var vs := Values(m);
    assert vs[j] == m[i].1;
    var k := LastIndexOf(vs, m[i].1).value;
    assert j <= k;
  }

  /**
   * getMappedClassName: search the values first and answer with the key; only
   * when that misses (or finds a falsy key) search the keys, through
   * array_flip, and answer with the value. A falsy answer counts as a miss.
   */
  function GetMappedClassName(m: ClassMap, className: string): (r: Option<string>)
    ensures r.Some? ==> Truthy(r.value)
    ensures r.Some? ==> (r.value, className) in m || (className, r.value) in m
  {
    var byValue := ArraySearch(className, m);
    if byValue.Some? && Truthy(byValue.value) then byValue
    else
      var byKey := ArraySearch(className, ArrayFlip(m));
      if byKey.Some? && Truthy(byKey.value) then byKey else None
  }

  /** Value search wins: a name held as a value resolves to the key of its first entry. */
  lemma ValueSearchWins(m: ClassMap, i: nat, className: string)
    requires i < |m| && m[i].1 == className && Truthy(m[i].0)
    requires forall j :: 0 <= j < i ==> m[j].1 != className
    ensures GetMappedClassName(m, className) == Some(m[i].0)
  {
    var found := ArraySearch(className, m);
    var i' :| 0 <= i' < |m| && m[i'] == (found.value, className) && forall j :: 0 <= j < i' ==> m[j].1 != className;
    assert i' == i;
  }

  /**
   * Key search through array_flip: a name held as the key of entry i, whose
   * value search misses or finds only a falsy key, resolves to that entry's
   * value exactly when the value is truthy and no later entry has the same value.
   */
  lemma KeySearch(m: ClassMap, i: nat)
    requires UniqueKeys(m) && i < |m|
    requires ArraySearch(m[i].0, m).None? || !Truthy(ArraySearch(m[i].0, m).value)
    ensures GetMappedClassName(m, m[i].0) ==
      if Truthy(m[i].1) && forall j :: i < j < |m| ==> m[j].1 != m[i].1 then Some(m[i].1) else None
  {
    if forall j :: i < j < |m| ==> m[j].1 != m[i].1 {
      FlipSearchLast(m, i);
    } else {
      var j :| i < j < |m| && m[j].1 == m[i].1;
      FlipSearchShadowed(m, i, j);
    }
  }

  /**
   * A name that is no key is not mapped when its value search misses or finds
   * only a falsy key.
   */
  lemma Unmapped(m: ClassMap, className: string)
    requires forall j :: 0 <= j < |m| ==> m[j].0 != className
    requires ArraySearch(className, m).None? || !Truthy(ArraySearch(className, m).value)
    ensures GetMappedClassName(m, className) == None
  {
    FlipSearchMissing(m, className);
  }

  /**
   * A value search that finds only a falsy key counts as a miss, and the key
   * search answers instead: "x" is the value of key "" and the key of "y".
   */
  lemma FalsyKeyFallsThrough()
    ensures GetMappedClassName([("", "x"), ("x", "y")], "x") == Some("y")
  {
    var m := [("", "x"), ("x", "y")];
    assert m[0].1 == "x" && !Truthy(m[0].0);
    KeySearch(m, 1);
  }

  /** Keys and values all distinct, truthy, and no key equal to any value. */
  predicate OneToOne(m: ClassMap)
  {
    && UniqueKeys(m)
    && UniqueValues(m)
    && (forall i :: 0 <= i < |m| ==> Truthy(m[i].0) && Truthy(m[i].1))
    && (forall i, j :: 0 <= i < |m| && 0 <= j < |m| ==> m[i].0 != m[j].1)
  }

  /** In a one-to-one map the lookup works in both directions. */
  lemma Bidirectional(m: ClassMap, i: nat)
    requires OneToOne(m) && i < |m|
    ensures GetMappedClassName(m, m[i].0) == Some(m[i].1)
    ensures GetMappedClassName(m, m[i].1) == Some(m[i].0)
  {
    KeySearch(m, i);
    ValueSearchWins(m, i, m[i].1);
  }

  /**
   * After setMapping(a, b), where a and b are truthy and no other key holds a
   * or b as its value, a maps to b and b maps back to a.
   */
  lemma PutRoundTrip(m: ClassMap, a: string, b: string)
    requires UniqueKeys(m) && Truthy(a) && Truthy(b)
    requires forall j :: 0 <= j < |m| && m[j].0 != a ==> m[j].1 != a && m[j].1 != b
    ensures GetMappedClassName(Put(m, a, b), a) == Some(b)
    ensures GetMappedClassName(Put(m, a, b), b) == Some(a)
  {
    var r := Put(m, a, b);
    PutPositions(m, a, b);
    var i: nat :| i < |r| && r[i] == (a, b);
    assert forall j :: 0 <= j < |r| && j != i ==> r[j].0 != a && r[j].1 != a && r[j].1 != b;
    if a == b {
      ValueSearchWins(r, i, a);
    } else {
      KeySearch(r, i);
    }
    ValueSearchWins(r, i, b);
  }

  /**
   * PutRoundTrip's conditions are enough, not necessary: a falsy key holding a
   * as its value does not stop the round trip, because the value search for a
   * then finds only that falsy key.
   */
  lemma FalsyOtherKeyStillRoundTrips()
    ensures Put([("", "a")], "a", "b") == [("", "a"), ("a", "b")]
    ensures GetMappedClassName(Put([("", "a")], "a", "b"), "a") == Some("b")
    ensures GetMappedClassName(Put([("", "a")], "a", "b"), "b") == Some("a")
  {
    var m := Put([("", "a")], "a", "b");
    PutPositions([("", "a")], "a", "b");
    assert m == [("", "a"), ("a", "b")];
    KeySearch(m, 1);
    ValueSearchWins(m, 1, "b");
  }

  /** The six default pairs of FlexMessaging message and collection classes. */
  const DefaultClassMap: ClassMap := [
    ("flex.messaging.messages.AcknowledgeMessage", "ZendAmf\\Value\\Messaging\\AcknowledgeMessage"),
    ("flex.messaging.messages.AsyncMessage", "ZendAmf\\Value\\Messaging\\AsyncMessage"),
    ("flex.messaging.messages.CommandMessage", "ZendAmf\\Value\\Messaging\\CommandMessage"),
    ("flex.messaging.messages.ErrorMessage", "ZendAmf\\Value\\Messaging\\ErrorMessage"),
    ("flex.messaging.messages.RemotingMessage", "ZendAmf\\Value\\Messaging\\RemotingMessage"),
    ("flex.messaging.io.ArrayCollection", "ZendAmf\\Value\\Messaging\\ArrayCollection")
  ]

  /** The default keys and values are distinct, truthy, and apart: keys start with 'f', values with 'Z'. */
  lemma DefaultIsOneToOne()
    ensures OneToOne(DefaultClassMap)
  {
    var m := DefaultClassMap;
    forall i | 0 <= i < |m|
      ensures |m[i].0| > 24 && |m[i].1| > 24 && m[i].0[0] == 'f' && m[i].1[0] == 'Z'
    {
    }
    forall i, j | 0 <= i < j < |m| ensures m[i].0 != m[j].0 && m[i].1 != m[j].1 {
      assert |m[i].0| != |m[j].0| || m[i].0[24] != m[j].0[24];
      assert |m[i].1| != |m[j].1| || m[i].1[24] != m[j].1[24];
    }
    forall i, j | 0 <= i < |m| && 0 <= j < |m| ensures m[i].0 != m[j].1 {
      assert m[i].0[0] != m[j].1[0];
    }
  }

  /** After resetMap, every default pair resolves in both directions. */
  lemma DefaultsBidirectional(i: nat)
    requires i < |DefaultClassMap|
    ensures GetMappedClassName(DefaultClassMap, DefaultClassMap[i].0) == Some(DefaultClassMap[i].1)
    ensures GetMappedClassName(DefaultClassMap, DefaultClassMap[i].1) == Some(DefaultClassMap[i].0)
  {
    DefaultIsOneToOne();
    Bidirectional(DefaultClassMap, i);
  }

  /**
   * setMapping("c", "b") when key "a" already holds value "b" does not make
   * "b" resolve to "c": the value search stops at the earlier entry, while "c"
   * still resolves to "b" through the flipped keys.
   */
  lemma SharedValueResolvesToFirstKey()
    ensures GetMappedClassName(Put([("a", "b")], "c", "b"), "b") == Some("a")
    ensures GetMappedClassName(Put([("a", "b")], "c", "b"), "c") == Some("b")
  {
    var m := Put([("a", "b")], "c", "b");
    PutPositions([("a", "b")], "c", "b");
    assert m == [("a", "b"), ("c", "b")];
    ValueSearchWins(m, 0, "b");
    KeySearch(m, 1);
  }

  /** str_replace('.', '\\', s): the PHP namespace form of a dotted name. */
  function DotsToBackslashes(s: string): (r: string)
    ensures |r| == |s| && '.' !in r
    ensures forall i :: 0 <= i < |s| ==> r[i] == if s[i] == '.' then '\\' else s[i]
  {
    if |s| == 0 then ""
    else [if s[0] == '.' then '\\' else s[0]] + DotsToBackslashes(s[1..])
  }

  /** The generic class loadType answers with when no class is found. */
  const StdClass: string := "stdClass"

  /**
   * loadType: the mapped class name, or else the name with dots turned into
   * namespace separators; "stdClass" when the host knows no such class.
   * classExists stands for PHP's class_exists (with autoloading).
   */
  function LoadType(m: ClassMap, className: string, classExists: string -> bool): (r: string)
    ensures r == StdClass || classExists(r)
    ensures GetMappedClassName(m, className).Some? ==>
      (r == GetMappedClassName(m, className).value || r == StdClass) &&
      (classExists(GetMappedClassName(m, className).value) ==> r == GetMappedClassName(m, className).value)
    ensures GetMappedClassName(m, className).None? ==>
      (r == DotsToBackslashes(className) || r == StdClass) &&
      (classExists(DotsToBackslashes(className)) ==> r == DotsToBackslashes(className))
  {
    var mapped := GetMappedClassName(m, className);
    var candidate := if mapped.Some? then mapped.value else DotsToBackslashes(className);
    if classExists(candidate) then candidate else StdClass
  }

  /** A default wire name loads its PHP class when the host knows that class. */
  lemma DefaultWireNameLoads(i: nat, classExists: string -> bool)
    requires i < |DefaultClassMap| && classExists(DefaultClassMap[i].1)
    ensures LoadType(DefaultClassMap, DefaultClassMap[i].0, classExists) == DefaultClassMap[i].1
  {
    DefaultsBidirectional(i);
  }

  /**
   * A default PHP class name maps back to its dotted wire name, which is tested
   * as it is; a host that knows no dotted class yields "stdClass".
   */
  lemma DefaultNativeNameYieldsStdClass(i: nat, classExists: string -> bool)
    requires i < |DefaultClassMap| && !classExists(DefaultClassMap[i].0)
    ensures LoadType(DefaultClassMap, DefaultClassMap[i].1, classExists) == StdClass
  {
    DefaultsBidirectional(i);
  }
}
