/** The consistent-hashing ring: one entry a node, inserted in front of the first larger key. */
module HashRing {
  import opened List
  import opened KeyText

  datatype Entry = Entry(key: nat, id: nat)

  /** What a link of the ring is embedded in; the list head is in no entry. */
  datatype Owner = Bare | Within(entry: Entry)

  // ----- the order of the ring -----

  function Insert(s: seq<Entry>, x: Entry): (r: seq<Entry>)
    ensures |r| == |s| + 1
  {
    if s == [] then [x]
    else if s[0].key > x.key then [x] + s
    else [s[0]] + Insert(s[1..], x)
  }

  /** The ring after the nodes with these keys came in turn. */
  function Ordered(keys: seq<nat>): (r: seq<Entry>)
    ensures |r| == |keys|
  {
    if keys == [] then []
    else
      var n := |keys| - 1;
      Insert(Ordered(keys[..n]), Entry(keys[n], n))
  }

  lemma {:induction false} OrderedNext(keys: seq<nat>, i: nat)
    requires i < |keys|
    ensures Ordered(keys[..i + 1]) == Insert(Ordered(keys[..i]), Entry(keys[i], i))
  {
    assert keys[..i + 1][..i] == keys[..i];
  }

  /** By key, and among equal keys by position in the configuration. */
  predicate Less(a: Entry, b: Entry)
  {
    a.key < b.key || (a.key == b.key && a.id < b.id)
  }

  ghost predicate Sorted(s: seq<Entry>) {
    forall i, j :: 0 <= i < j < |s| ==> Less(s[i], s[j])
  }

  lemma {:induction false} InsertSorted(s: seq<Entry>, x: Entry)
    requires Sorted(s) && forall i :: 0 <= i < |s| ==> s[i].id < x.id
    ensures Sorted(Insert(s, x))
    ensures forall e :: e in Insert(s, x) <==> e in s || e == x
  {
    if s != [] && s[0].key <= x.key {
      InsertSorted(s[1..], x);
      var r := Insert(s[1..], x);
      assert s == [s[0]] + s[1..];
      forall j | 0 <= j < |r| ensures Less(s[0], r[j]) {
        assert r[j] in s[1..] || r[j] == x;
      }
    }
  }

  /** The ring is sorted and holds every node of the configuration, with its key, once. */
  lemma {:induction false} OrderedCorrect(keys: seq<nat>)
    ensures Sorted(Ordered(keys))
    ensures forall e :: e in Ordered(keys) <==> e.id < |keys| && e.key == keys[e.id]
  {
    if keys != [] {
      var n := |keys| - 1;
      OrderedCorrect(keys[..n]);
      InsertSorted(Ordered(keys[..n]), Entry(keys[n], n));
    }
  }

  lemma {:induction false} SortedTail(s: seq<Entry>)
    requires Sorted(s) && s != []
    ensures forall e :: e in s[1..] <==> e in s && e != s[0]
    ensures forall e :: e in s && e != s[0] ==> Less(s[0], e)
  {
    assert s == [s[0]] + s[1..];
  }

  lemma {:induction false} SortedUnique(s: seq<Entry>, t: seq<Entry>)
    requires Sorted(s) && Sorted(t) && forall e :: e in s <==> e in t
    ensures s == t
  {
    assert s != [] ==> s[0] in t;
    assert t != [] ==> t[0] in s;
    if s != [] {
      SortedTail(s);
      SortedTail(t);
      SortedUnique(s[1..], t[1..]);
      assert s == [s[0]] + s[1..] && t == [t[0]] + t[1..];
    }
  }

  /** It is the only such sequence: the stable sort of the configuration by key. */
  lemma {:induction false} OrderedUnique(keys: seq<nat>, s: seq<Entry>)
    requires Sorted(s)
    requires forall e :: e in s <==> e.id < |keys| && e.key == keys[e.id]
    ensures s == Ordered(keys)
  {
    OrderedCorrect(keys);
    SortedUnique(s, Ordered(keys));
  }

  // ----- building the ring -----

  /** The head is bare and the other links are embedded in `es`. */
  ghost predicate Carries(ring: seq<ListHead<Owner>>, es: seq<Entry>) {
    |ring| == |es| + 1 && forall i :: 0 <= i < |es| ==> ring[i + 1].owner == Within(es[i])
  }

  lemma {:induction false} CarriesInserted(s: seq<ListHead<Owner>>, es: seq<Entry>, x: ListHead<Owner>, e: Entry,
                                           j: nat)
    requires Carries(s, es) && j <= |es| && x.owner == Within(e)
    ensures Carries(Inserted(s, j + 1, x), es[..j] + [e] + es[j..])
  {
  }

  /** `x` belongs in front of the first larger key. */
  lemma {:induction false} InsertAtFirstLarger(s: seq<Entry>, x: Entry, j: nat)
    requires j <= |s| && (forall i :: 0 <= i < j ==> s[i].key <= x.key) && (j < |s| ==> s[j].key > x.key)
    ensures Insert(s, x) == s[..j] + [x] + s[j..]
  {
    if j > 0 {
      InsertAtFirstLarger(s[1..], x, j - 1);
      assert s[..j] == [s[0]] + s[1..][..j - 1];
      assert s[j..] == s[1..][j - 1..];
    }
  }

  /** The loop over the ring: the first link with a larger key, or none. */
  method FindLarger(head: ListHead<Owner>, key: nat, ghost s: seq<ListHead<Owner>>, ghost es: seq<Entry>)
    returns (found: bool, tmp: ListHead<Owner>, ghost j: nat)
    requires Ring(s) && Carries(s, es) && head == s[0]
    ensures j <= |es| && forall i :: 0 <= i < j ==> es[i].key <= key
    ensures found <==> j < |es|
    ensures found <==> exists i :: 0 <= i < |es| && es[i].key > key
    ensures found ==> es[j].key > key && tmp == s[j + 1]
  {
    Neighbours(s, 0);
    tmp := head.next;
    j := 0;
    while tmp != head
      invariant j <= |es| && tmp == s[NextIndex(|s|, j)]
      invariant forall i :: 0 <= i < j ==> es[i].key <= key
      decreases |s| - j
    {
      assert s[j + 1].owner == Within(es[j]);
      if tmp.owner.entry.key > key {
        return true, tmp, j;
      }
      Neighbours(s, j + 1);
      tmp := tmp.next;
      j := j + 1;
    }
    found := false;
  }

  /** `list_add_tail` before any link of the ring. */
  method LinkBefore(x: ListHead<Owner>, place: ListHead<Owner>, ghost s: seq<ListHead<Owner>>, ghost i: nat)
    requires Ring(s) && i < |s| && place == s[i] && x !in s
    modifies s, x
    ensures Ring(Before(s, i, [x]))
  {
    Neighbours(s, i);
    AddTail(x, place, s, i);
  }

  /** Put the link `x` with this key into the ring. */
  method Link(x: ListHead<Owner>, head: ListHead<Owner>, key: nat, ghost s: seq<ListHead<Owner>>, ghost es: seq<Entry>)
    returns (ghost j: nat)
    requires Ring(s) && Carries(s, es) && head == s[0] && x !in s
    modifies s, x
    ensures j <= |es| && (forall i :: 0 <= i < j ==> es[i].key <= key) && (j < |es| ==> es[j].key > key)
    ensures Ring(Inserted(s, j + 1, x))
  {
    Tests(s, 0);
    Neighbours(s, 0);
    if Empty(head) {
      j := 0;
      Add(x, head, s, 0);
    } else {
      var found, tmp;
      found, tmp, j := FindLarger(head, key, s, es);
      if found {
        LinkBefore(x, tmp, s, j + 1);
      } else {
        assert Inserted(s, j + 1, x) == s + [x];
        LinkBefore(x, head, s, 0);
      }
    }
  }

  /** The entry `e`, embedded round the link `x`, comes into the ring. */
  method Place(x: ListHead<Owner>, head: ListHead<Owner>, ghost e: Entry, key: nat, ghost s: seq<ListHead<Owner>>,
               ghost es: seq<Entry>)
    returns (ghost r: seq<ListHead<Owner>>)
    requires Ring(s) && Carries(s, es) && head == s[0] && x !in s && x.owner == Within(e) && e.key == key
    modifies s, x
    ensures Ring(r) && Carries(r, Insert(es, e)) && r[0] == head && forall y :: y in r ==> y in s || y == x
  {
    ghost var j := Link(x, head, key, s, es);
    InsertAtFirstLarger(es, e, j);
    CarriesInserted(s, es, x, e, j);
    r := Inserted(s, j + 1, x);
  }

  function Keys(nodes: seq<NodeInfo>): (keys: seq<nat>)
    requires forall i :: 0 <= i < |nodes| ==> Fits(nodes[i])
    ensures |keys| == |nodes| && forall i :: 0 <= i < |nodes| ==> keys[i] == KeyOf(nodes[i])
  {
    seq(|nodes|, i requires 0 <= i < |nodes| => KeyOf(nodes[i]))
  }

  /** One turn of `hmp_hash_init`: allocate the `i`th entry and link it. */
  method AddNode(node: NodeInfo, head: ListHead<Owner>, i: nat, ghost s: seq<ListHead<Owner>>, ghost es: seq<Entry>,
                 ghost links: set<ListHead<Owner>>)
    returns (ghost r: seq<ListHead<Owner>>, ghost links': set<ListHead<Owner>>)
    requires Fits(node) && Ring(s) && Carries(s, es) && head == s[0] && forall y :: y in s ==> y in links
    modifies links
    ensures Ring(r) && Carries(r, Insert(es, Entry(KeyOf(node), i))) && r[0] == head
    ensures fresh(links' - links) && forall y :: y in r ==> y in links'
  {
    var key;
    ghost var text;
    key, text := NodeKey(node);
    var link := new ListHead(Within(Entry(key, i)));
    links' := links + {link};
    List.Init(link);
    r := Place(link, head, Entry(key, i), key, s, es);
  }

  /** The loop that logs the ring: the entries round the links, from the first to the last. */
  method Listing(head: ListHead<Owner>, ghost s: seq<ListHead<Owner>>, ghost es: seq<Entry>)
    returns (entries: seq<Entry>)
    requires Ring(s) && Carries(s, es) && head == s[0]
    ensures entries == es && Ring(s)
  {
    Neighbours(s, 0);
    var tmp := head.next;
    entries := [];
    while tmp != head
      invariant entries <= es && tmp == s[NextIndex(|s|, |entries|)]
      decreases |s| - |entries|
    {
      assert s[|entries| + 1].owner == Within(es[|entries|]);
      Neighbours(s, |entries| + 1);
      entries := entries + [tmp.owner.entry];
      tmp := tmp.next;
    }
  }

  /** `hmp_hash_init`: the ring that is built, and the entries that its closing loop meets. */
  method HashInit(nodes: seq<NodeInfo>)
    returns (head: ListHead<Owner>, logged: seq<Entry>, ghost ring: seq<ListHead<Owner>>)
    requires forall i :: 0 <= i < |nodes| ==> Fits(nodes[i])
    ensures Ring(ring) && ring[0] == head && Carries(ring, Ordered(Keys(nodes)))
    ensures logged == Ordered(Keys(nodes))
  {
    ghost var keys := Keys(nodes);
    head := new ListHead(Bare);
    List.Init(head);
    ring := [head];
    ghost var links := {head};
    var i := 0;
    while i < |nodes|
      invariant 0 <= i <= |nodes| && fresh(links) && forall y :: y in ring ==> y in links
      invariant Ring(ring) && Carries(ring, Ordered(keys[..i])) && ring[0] == head
    {
      ring, links := AddNode(nodes[i], head, i, ring, Ordered(keys[..i]), links);
      OrderedNext(keys, i);
      i := i + 1;
    }
    assert keys[..i] == keys;
    logged := Listing(head, ring, Ordered(keys));
  }
}
