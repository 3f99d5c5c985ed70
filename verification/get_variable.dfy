/** `GetVariable` of src/variable/get_variable.rs: looking a variable up in
    a container, by key in the two maps and by position in the three
    sequences. Every lookup is a pure function of the container, which it
    leaves as it is (the source takes `&self`). */
module GetVariable {
  import opened Wrappers

  /** A map's entries as key-value pairs. */
  ghost predicate DistinctKeys<K, V>(entries: seq<(K, V)>)
  {
    forall i, j :: 0 <= i < j < |entries| ==> entries[i].0 != entries[j].0
  }

  ghost predicate HasKey<K, V>(entries: seq<(K, V)>, key: K)
  {
    exists i :: 0 <= i < |entries| && entries[i].0 == key
  }

  /** `HashMap::get`, on the map's entries in whatever order the table
      holds them: the value stored under `key`, if there is one. */
  function HashMapGet<K(==), V>(entries: seq<(K, V)>, key: K): (r: Option<V>)
    ensures r.Some? <==> HasKey(entries, key)
    ensures r.Some? ==> (key, r.value) in entries
  {
    if |entries| == 0 then None
    else if entries[0].0 == key then Some(entries[0].1)
    else
      var r := HashMapGet(entries[1..], key);
      assert HasKey(entries, key) ==> HasKey(entries[1..], key) by {
        if HasKey(entries, key) {
          var i :| 0 <= i < |entries| && entries[i].0 == key;
          assert entries[1..][i - 1].0 == key;
        }
      }
      r
  }

  /** With distinct keys, at most one value sits under each key. */
  lemma OneValuePerKey<K, V>(entries: seq<(K, V)>, key: K, v: V, w: V)
    requires DistinctKeys(entries)
    requires (key, v) in entries && (key, w) in entries
    ensures v == w
  {
    var i :| 0 <= i < |entries| && entries[i] == (key, v);
    var j :| 0 <= j < |entries| && entries[j] == (key, w);
    if i < j {
      assert entries[i].0 == entries[j].0;
    } else if j < i {
      assert entries[j].0 == entries[i].0;
    }
  }

  /** A `BTreeMap`'s entries in key order. */
  predicate StrictlySorted<V>(entries: seq<(int, V)>)
  {
    forall i, j :: 0 <= i < j < |entries| ==> entries[i].0 < entries[j].0
  }

  /** `BTreeMap::get`: a search guided by key order, which finds what a
      scan of all entries finds. */
  method BTreeMapGet<V>(entries: seq<(int, V)>, key: int) returns (r: Option<V>)
    requires StrictlySorted(entries)
    ensures r == HashMapGet(entries, key)
    ensures r.Some? <==> HasKey(entries, key)
  {
    var lo, hi := 0, |entries|;
    while lo < hi
      invariant 0 <= lo <= hi <= |entries|
      invariant forall i :: 0 <= i < lo ==> entries[i].0 < key
      invariant forall i :: hi <= i < |entries| ==> entries[i].0 > key
    {
      var mid := lo + (hi - lo) / 2;
      if entries[mid].0 < key {
        lo := mid + 1;
      } else if entries[mid].0 > key {
        hi := mid;
      } else {
        r := Some(entries[mid].1);
        SortedKeysDistinct(entries);
        OneValuePerKey(entries, key, entries[mid].1, HashMapGet(entries, key).value);
        return;
      }
    }
    r := None;
  }

  lemma SortedKeysDistinct<V>(entries: seq<(int, V)>)
    requires StrictlySorted(entries)
    ensures DistinctKeys(entries)
  {
  }

  /** `self.iter().nth(index)` over a `Vec`: step past `index` elements
      and take the next one, if any. */
  function VecGet<T>(xs: seq<T>, index: nat): (r: Option<T>)
    ensures r == if index < |xs| then Some(xs[index]) else None
  {
    if |xs| == 0 then None
    else if index == 0 then Some(xs[0])
    else VecGet(xs[1..], index - 1)
  }

  /** `LinkedList<T>`. */
  datatype List<T> = Nil | Cons(head: T, tail: List<T>)

  function Elements<T>(l: List<T>): seq<T>
  {
    match l
    case Nil => []
    case Cons(h, t) => [h] + Elements(t)
  }

  /** `self.iter().nth(index)` over a `LinkedList`: follows `index` links. */
  function ListGet<T>(l: List<T>, index: nat): (r: Option<T>)
    ensures r == VecGet(Elements(l), index)
  {
    match l
    case Nil => None
    case Cons(h, t) => if index == 0 then Some(h) else ListGet(t, index - 1)
  }

  /** `VecDeque<T>`: `len` elements of a ring buffer, starting at slot
      `head`. */
  datatype VecDeque<T> = VecDeque(buffer: seq<T>, head: nat, len: nat)

  predicate Valid<T>(d: VecDeque<T>)
  {
    d.len <= |d.buffer| && (|d.buffer| > 0 ==> d.head < |d.buffer|)
  }

  /** The elements front to back. */
  function Contents<T>(d: VecDeque<T>): (s: seq<T>)
    requires Valid(d)
    ensures |s| == d.len
  {
    seq(d.len, j requires 0 <= j < d.len => d.buffer[(d.head + j) % |d.buffer|])
  }

  /** `VecDeque::get`: the slot `index` places past the head, wrapping
      around the buffer, when `index` is below the length. */
  function VecDequeGet<T>(d: VecDeque<T>, index: nat): (r: Option<T>)
    requires Valid(d)
    ensures r == VecGet(Contents(d), index)
  {
    if index < d.len then Some(d.buffer[(d.head + index) % |d.buffer|]) else None
  }
}
