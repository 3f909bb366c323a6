/** The circular doubly linked list. A list is a ring of links: the head, which carries no
    entry, followed by the entries. Each operation is stated on the sequence of entries. */
module List {
  import opened Seqs

  /** `owner` plays the part of `container_of`: the record the link is embedded in, if any.
      A null link stands for the poison that `list_del` leaves behind. */
  class ListHead<T> {
    const owner: T
    var next: ListHead?<T>
    var prev: ListHead?<T>

    constructor (owner: T)
      ensures this.owner == owner && fresh(this) && next == null && prev == null
    {
      this.owner := owner;
      next, prev := null, null;
    }
  }

  /** The links run round `s` in both directions. */
  ghost predicate Ring<T>(s: seq<ListHead<T>>)
    reads s
  {
    && |s| > 0 && NoRepeat(s)
    && (forall i :: 0 <= i < |s| - 1 ==> s[i].next == s[i + 1])
    && (forall i :: 1 <= i < |s| ==> s[i].prev == s[i - 1])
    && s[|s| - 1].next == s[0] && s[0].prev == s[|s| - 1]
  }

  function NextIndex(n: nat, i: nat): nat {
    if i + 1 == n then 0 else i + 1
  }

  function PrevIndex(n: nat, i: nat): nat
    requires n > 0
  {
    if i == 0 then n - 1 else i - 1
  }

  lemma {:induction false} Neighbours<T>(s: seq<ListHead<T>>, i: nat)
    requires Ring(s) && i < |s|
    ensures s[i].next == s[NextIndex(|s|, i)] && s[i].prev == s[PrevIndex(|s|, i)]
    ensures s[i].next in s && s[i].prev in s
    ensures s[NextIndex(|s|, i)].prev == s[i] && s[PrevIndex(|s|, i)].next == s[i]
  {
  }

  /** A ring may be read from any of its links. */
  lemma {:induction false} RingFrom<T>(s: seq<ListHead<T>>, i: nat)
    requires Ring(s) && i <= |s|
    ensures Ring(s[i..] + s[..i])
  {
    var r := s[i..] + s[..i];
    assert i == |s| ==> r == s;
    forall j | 0 <= j < |r| - 1 ensures r[j].next == r[j + 1] && r[j + 1].prev == r[j] {
      var k := if j < |s| - i then i + j else i + j - |s|;
      assert r[j] == s[k];
      if k == |s| - 1 {
        assert r[j + 1] == s[0];
      } else {
        assert r[j + 1] == s[k + 1];
      }
    }
  }

  /** Reading `s` from its `i`th link, adding `m` at the end and reading back from the first link. */
  lemma {:induction false} TurnBack<X>(s: seq<X>, i: nat, m: seq<X>)
    requires i <= |s|
    ensures var r := s[i..] + s[..i] + m; r[|s| - i..] + r[..|s| - i] == s[..i] + m + s[i..]
  {
    var r := s[i..] + s[..i] + m;
    assert r[..|s| - i] == s[i..];
    assert r[|s| - i..] == s[..i] + m;
  }

  lemma {:induction false} RingBack<T>(s: seq<ListHead<T>>, i: nat, m: seq<ListHead<T>>)
    requires i <= |s| && Ring(s[i..] + s[..i] + m)
    ensures Ring(s[..i] + m + s[i..])
    ensures i == 0 ==> Ring(s + m)
  {
    TurnBack(s, i, m);
    RingFrom(s[i..] + s[..i] + m, |s| - i);
    if i == 0 {
      assert s[i..] + s[..i] + m == s + m;
    }
  }

  /** `RingFrom` in two parts. */
  lemma {:induction false} SwapRing<T>(a: seq<ListHead<T>>, b: seq<ListHead<T>>)
    requires Ring(a + b)
    ensures Ring(b + a)
  {
    var s := a + b;
    RingFrom(s, |a|);
    assert s[|a|..] == b && s[..|a|] == a;
  }

  /** A sequence round its `i`th element. */
  lemma {:induction false} Parts<X>(s: seq<X>, i: nat)
    requires i < |s|
    ensures s == s[..i] + [s[i]] + s[i + 1..] && s == (s[..i] + [s[i]]) + s[i + 1..]
    ensures s[i + 1..] + (s[..i] + [s[i]]) == (s[i + 1..] + s[..i]) + [s[i]]
  {
  }

  /** `m` put before the `i`th link of a ring; before the head is at the end of the list. */
  function Before<X>(s: seq<X>, i: nat, m: seq<X>): seq<X>
    requires i <= |s|
  {
    if i == 0 then s + m else s[..i] + m + s[i..]
  }

  /** `INIT_LIST_HEAD`. */
  method Init<T>(list: ListHead<T>)
    modifies list
    ensures Ring([list])
  {
    list.next := list;
    list.prev := list;
  }

  /** `__list_add`: between two neighbours. */
  method AddBetween<T>(x: ListHead<T>, prev: ListHead<T>, next: ListHead<T>, ghost s: seq<ListHead<T>>)
    requires Ring(s) && next == s[0] && prev == s[|s| - 1] && x !in s
    modifies x, prev, next
    ensures Ring(s + [x])
  {
    next.prev := x;
    x.next := next;
    x.prev := prev;
    prev.next := x;
  }

  function Inserted<X>(s: seq<X>, i: nat, x: X): seq<X>
    requires i <= |s|
  {
    s[..i] + [x] + s[i..]
  }

  function Without<X>(s: seq<X>, i: nat): seq<X>
    requires i < |s|
  {
    s[..i] + s[i + 1..]
  }

  lemma {:induction false} WithoutMembers<X>(s: seq<X>, i: nat)
    requires NoRepeat(s) && i < |s|
    ensures NoRepeat(Without(s, i)) && forall x :: x in Without(s, i) <==> x in s && x != s[i]
  {
    var t := Without(s, i);
    forall x | x in s && x != s[i] ensures x in t {
      var j :| 0 <= j < |s| && s[j] == x;
      assert t[if j < i then j else j - 1] == x;
    }
  }

  /** `list_add`: `x` right after the `i`th link. */
  method Add<T>(x: ListHead<T>, head: ListHead<T>, ghost s: seq<ListHead<T>>, ghost i: nat)
    requires Ring(s) && i < |s| && head == s[i] && x !in s
    modifies x, head, head.next
    ensures Ring(Inserted(s, i + 1, x))
  {
    ghost var r := s[i + 1..] + s[..i + 1];
    RingFrom(s, i + 1);
    AddBetween(x, head, head.next, r);
    RingBack(s, i + 1, [x]);
  }

  /** `list_add_tail`: `x` right before the `i`th link, which for the head is the end of the list. */
  method AddTail<T>(x: ListHead<T>, head: ListHead<T>, ghost s: seq<ListHead<T>>, ghost i: nat)
    requires Ring(s) && i < |s| && head == s[i] && x !in s
    modifies x, head, head.prev
    ensures Ring(Before(s, i, [x]))
  {
    ghost var r := s[i..] + s[..i];
    RingFrom(s, i);
    AddBetween(x, head.prev, head, r);
    RingBack(s, i, [x]);
  }

  /** The links of a ring without its last one, `x`, and those of `x`. */
  ghost predicate Open<T>(x: ListHead<T>, u: seq<ListHead<T>>)
    reads u, x
  {
    && |u| > 0 && NoRepeat(u) && x.next == u[0] && x.prev == u[|u| - 1]
    && (forall i :: 0 <= i < |u| - 1 ==> u[i].next == u[i + 1])
    && (forall i :: 1 <= i < |u| ==> u[i].prev == u[i - 1])
  }

  lemma {:induction false} OpenRing<T>(x: ListHead<T>, u: seq<ListHead<T>>)
    requires Ring(u + [x])
    ensures if u == [] then x.next == x && x.prev == x else Open(x, u)
  {
    var r := u + [x];
    assert r[|u|] == x;
    Neighbours(r, |u|);
    if u == [] {
      assert r == [x];
    } else {
      assert r[0] == u[0] && r[|u| - 1] == u[|u| - 1];
      assert NoRepeat(u) by {
        assert forall i :: 0 <= i < |u| ==> u[i] == r[i];
      }
      forall i | 0 <= i < |u| - 1 ensures u[i].next == u[i + 1] && u[i + 1].prev == u[i] {
        assert r[i] == u[i] && r[i + 1] == u[i + 1];
      }
    }
  }

  /** `__list_del`: the neighbours of `x`, the last link of the ring, are joined. A link that
      is alone in its ring is its own neighbour and stays so. */
  method JoinNeighbours<T>(prev: ListHead<T>, next: ListHead<T>, ghost x: ListHead<T>, ghost u: seq<ListHead<T>>)
    requires if u == [] then x.next == x && x.prev == x else Open(x, u)
    requires next == x.next && prev == x.prev
    modifies prev, next
    ensures Ring(if u == [] then [x] else u)
  {
    next.prev := prev;
    prev.next := next;
  }

  /** `__list_del_entry`. */
  method DelEntry<T>(entry: ListHead<T>, ghost s: seq<ListHead<T>>, ghost i: nat)
    requires Ring(s) && i < |s| && entry == s[i]
    modifies entry.prev, entry.next
    ensures if |s| == 1 then Ring(s) else Ring(Without(s, i))
  {
    ghost var a, b := s[..i], s[i + 1..];
    Parts(s, i);
    Neighbours(s, i);
    SwapRing(a + [entry], b);
    OpenRing(entry, b + a);
    JoinNeighbours(entry.prev, entry.next, entry, b + a);
    if |s| > 1 {
      SwapRing(b, a);
    } else {
      assert s == [entry];
    }
  }

  /** `list_del`: `entry` is left with poisoned links. */
  method Del<T>(entry: ListHead<T>, ghost s: seq<ListHead<T>>, ghost i: nat)
    requires Ring(s) && i < |s| && entry == s[i]
    modifies entry, entry.prev, entry.next
    ensures |s| > 1 ==> Ring(Without(s, i))
    ensures entry.next == null && entry.prev == null
  {
    DelEntry(entry, s, i);
    entry.next := null;
    entry.prev := null;
  }

  /** `list_del_init`: `entry` is left as an empty list. */
  method DelInit<T>(entry: ListHead<T>, ghost s: seq<ListHead<T>>, ghost i: nat)
    requires Ring(s) && i < |s| && entry == s[i]
    modifies entry, entry.prev, entry.next
    ensures |s| > 1 ==> Ring(Without(s, i))
    ensures Ring([entry])
  {
    DelEntry(entry, s, i);
    Init(entry);
  }

  /** `list_replace`; replacing an empty head makes the new one an empty head. */
  method Replace<T>(old': ListHead<T>, x: ListHead<T>, ghost s: seq<ListHead<T>>, ghost i: nat)
    requires Ring(s) && i < |s| && old' == s[i] && x !in s
    modifies x, old', old'.prev, old'.next
    ensures Ring(s[i := x])
  {
    Neighbours(s, i);
    x.next := old'.next;
    x.next.prev := x;
    x.prev := old'.prev;
    x.prev.next := x;
  }

  /** `list_replace_init`. */
  method ReplaceInit<T>(old': ListHead<T>, x: ListHead<T>, ghost s: seq<ListHead<T>>, ghost i: nat)
    requires Ring(s) && i < |s| && old' == s[i] && x !in s
    modifies x, old', old'.prev, old'.next
    ensures Ring(s[i := x]) && Ring([old'])
  {
    Replace(old', x, s, i);
    Init(old');
  }

  // ----- moving -----

  /** The place of the `j`th link once the `i`th is gone. */
  function Shifted(i: nat, j: nat): nat
    requires i != j
  {
    if j < i then j else j - 1
  }

  /** `list_move` within one ring: the `i`th link goes right after the `j`th. */
  method Move<T>(list: ListHead<T>, head: ListHead<T>, ghost s: seq<ListHead<T>>, ghost i: nat, ghost j: nat)
    requires Ring(s) && i < |s| && j < |s| && i != j && list == s[i] && head == s[j]
    modifies s
    ensures Ring(Inserted(Without(s, i), Shifted(i, j) + 1, list))
  {
    ghost var t, k := Without(s, i), Shifted(i, j);
    Neighbours(s, i);
    WithoutMembers(s, i);
    DelEntry(list, s, i);
    assert t[k] == head;
    Neighbours(t, k);
    Add(list, head, t, k);
  }

  /** Nothing in `t` is in `r`, nor is it `x`. */
  ghost predicate Apart<T>(t: seq<ListHead<T>>, r: seq<ListHead<T>>, x: ListHead<T>) {
    forall i :: 0 <= i < |t| ==> t[i] != x && t[i] !in r
  }

  /** `list_add` and `list_add_tail` beside a ring `t` that they do not touch. */
  method AddApart<T>(x: ListHead<T>, head: ListHead<T>, ghost r: seq<ListHead<T>>, ghost j: nat,
                     ghost t: seq<ListHead<T>>)
    requires Ring(r) && j < |r| && head == r[j] && x !in r && Apart(t, r, x) && (t == [] || Ring(t))
    modifies x, r
    ensures Ring(Inserted(r, j + 1, x)) && (t == [] || Ring(t))
  {
    Neighbours(r, j);
    Add(x, head, r, j);
  }

  method AddTailApart<T>(x: ListHead<T>, head: ListHead<T>, ghost r: seq<ListHead<T>>, ghost j: nat,
                         ghost t: seq<ListHead<T>>)
    requires Ring(r) && j < |r| && head == r[j] && x !in r && Apart(t, r, x) && (t == [] || Ring(t))
    modifies x, r
    ensures Ring(Before(r, j, [x])) && (t == [] || Ring(t))
  {
    Neighbours(r, j);
    AddTail(x, head, r, j);
  }

  /** `list_move` into another ring. */
  method MoveAcross<T>(list: ListHead<T>, head: ListHead<T>, ghost s: seq<ListHead<T>>, ghost i: nat,
                       ghost r: seq<ListHead<T>>, ghost j: nat)
    requires Ring(s) && i < |s| && list == s[i] && Ring(r) && j < |r| && head == r[j]
    requires forall x :: x in s ==> x !in r
    modifies s, r
    ensures |s| > 1 ==> Ring(Without(s, i))
    ensures Ring(Inserted(r, j + 1, list))
  {
    ghost var t := Without(s, i);
    Neighbours(s, i);
    WithoutMembers(s, i);
    assert Apart(t, r, list);
    DelEntry(list, s, i);
    AddApart(list, head, r, j, t);
  }

  /** `list_move_tail` within one ring: the `i`th link goes right before the `j`th. */
  method MoveTail<T>(list: ListHead<T>, head: ListHead<T>, ghost s: seq<ListHead<T>>, ghost i: nat, ghost j: nat)
    requires Ring(s) && i < |s| && j < |s| && i != j && list == s[i] && head == s[j]
    modifies s
    ensures Ring(Before(Without(s, i), Shifted(i, j), [list]))
  {
    ghost var t, k := Without(s, i), Shifted(i, j);
    Neighbours(s, i);
    WithoutMembers(s, i);
    DelEntry(list, s, i);
    assert t[k] == head;
    Neighbours(t, k);
    AddTail(list, head, t, k);
  }

  method MoveTailAcross<T>(list: ListHead<T>, head: ListHead<T>, ghost s: seq<ListHead<T>>, ghost i: nat,
                           ghost r: seq<ListHead<T>>, ghost j: nat)
    requires Ring(s) && i < |s| && list == s[i] && Ring(r) && j < |r| && head == r[j]
    requires forall x :: x in s ==> x !in r
    modifies s, r
    ensures |s| > 1 ==> Ring(Without(s, i))
    ensures Ring(Before(r, j, [list]))
  {
    ghost var t := Without(s, i);
    Neighbours(s, i);
    WithoutMembers(s, i);
    assert Apart(t, r, list);
    DelEntry(list, s, i);
    AddTailApart(list, head, r, j, t);
  }

  /** `list_empty`. */
  predicate Empty<T>(head: ListHead<T>)
    reads head
  {
    head.next == head
  }

  /** `list_is_last`. */
  predicate IsLast<T>(list: ListHead<T>, head: ListHead<T>)
    reads list
  {
    list.next == head
  }

  /** `list_is_singular`. */
  predicate Singular<T>(head: ListHead<T>)
    reads head
  {
    !Empty(head) && head.next == head.prev
  }

  /** What the three tests say about the entries. */
  lemma {:induction false} Tests<T>(s: seq<ListHead<T>>, i: nat)
    requires Ring(s) && i < |s|
    ensures Empty(s[0]) <==> |s| == 1
    ensures Empty(s[0]) <==> s[0].next == s[0] && s[0].next == s[0].prev
    ensures Singular(s[0]) <==> |s| == 2
    ensures IsLast(s[i], s[0]) <==> i == |s| - 1
  {
    Neighbours(s, 0);
    Neighbours(s, i);
  }

  /** `list_rotate_left`: the first entry becomes the last. */
  method RotateLeft<T>(head: ListHead<T>, ghost s: seq<ListHead<T>>)
    requires Ring(s) && head == s[0]
    modifies s
    ensures Ring(if |s| == 1 then s else [head] + s[2..] + [s[1]])
  {
    Tests(s, 0);
    if !Empty(head) {
      Neighbours(s, 0);
      var first := head.next;
      MoveTail(first, head, s, 1, 0);
      assert Without(s, 1) + [first] == [head] + s[2..] + [s[1]];
    }
  }

  // ----- cutting and splicing -----

  /** The assignments of `__list_cut_position`. */
  method CutLinks<T>(list: ListHead<T>, head: ListHead<T>, entry: ListHead<T>)
    requires head != entry && head.next != null && entry.next != null && head.next != entry.next
    requires list != head && list != entry && list != head.next && list != entry.next
    modifies list, head`next, entry`next, head.next`prev, entry.next`prev
    ensures list.next == old(head.next) && list.prev == entry && entry.next == list
    ensures head.next == old(entry.next) && old(head.next).prev == list && old(entry.next).prev == head
  {
    var first := entry.next;
    list.next := head.next;
    list.next.prev := list;
    list.prev := entry;
    entry.next := list;
    head.next := first;
    first.prev := head;
  }

  /** The links of `s` from `lo` on and before `hi` lead from one to the next and back. */
  ghost predicate Chained<T>(s: seq<ListHead<T>>, lo: nat, hi: nat)
    requires lo <= hi <= |s|
    reads s
  {
    && (forall j :: lo <= j < hi - 1 ==> s[j].next == s[j + 1])
    && (forall j :: lo < j < hi ==> s[j].prev == s[j - 1])
  }

  /** `h` closes up these links. */
  ghost predicate Closes<T>(h: ListHead<T>, s: seq<ListHead<T>>, lo: nat, hi: nat)
    requires lo <= hi <= |s|
    reads h, s
  {
    if lo == hi then h.next == h && h.prev == h
    else h.next == s[lo] && s[lo].prev == h && h.prev == s[hi - 1] && s[hi - 1].next == h
  }

  /** The assignments at the `i`th link of a ring. */
  method CutLinksAt<T>(list: ListHead<T>, head: ListHead<T>, entry: ListHead<T>, ghost s: seq<ListHead<T>>,
                       ghost i: nat)
    requires Ring(s) && head == s[0] && 0 < i < |s| && entry == s[i] && list !in s
    modifies list, s
    ensures Chained(s, 1, i + 1) && Closes(list, s, 1, i + 1)
    ensures Chained(s, i + 1, |s|) && Closes(head, s, i + 1, |s|)
  {
    Neighbours(s, 0);
    Neighbours(s, i);
    CutLinks(list, head, entry);
  }

  /** A stretch of `s` closed up by `h` is a ring. */
  lemma {:induction false} RingStretch<T>(h: ListHead<T>, s: seq<ListHead<T>>, lo: nat, hi: nat)
    requires lo <= hi <= |s| && NoRepeat(s) && h !in s[lo..hi] && Chained(s, lo, hi) && Closes(h, s, lo, hi)
    ensures Ring([h] + s[lo..hi])
  {
    var r := [h] + s[lo..hi];
    assert forall j :: 1 <= j < |r| ==> r[j] == s[lo + j - 1];
  }

  /** `__list_cut_position`: the links up to the `i`th, `i > 0`, go to `list`. */
  method CutAt<T>(list: ListHead<T>, head: ListHead<T>, entry: ListHead<T>, ghost s: seq<ListHead<T>>, ghost i: nat)
    requires Ring(s) && head == s[0] && 0 < i < |s| && entry == s[i] && list !in s
    modifies list, s
    ensures Ring([list] + s[1..i + 1]) && Ring([head] + s[i + 1..])
  {
    CutLinksAt(list, head, entry, s, i);
    RingStretch(list, s, 1, i + 1);
    RingStretch(head, s, i + 1, |s|);
    assert s[i + 1..|s|] == s[i + 1..];
  }

  /** `list_cut_position`. An empty list is left alone, and so is `list` then. A list of one
      entry is also left alone when `entry` is not on it. */
  method CutPosition<T>(list: ListHead<T>, head: ListHead<T>, entry: ListHead<T>, ghost s: seq<ListHead<T>>,
                        ghost i: nat)
    requires Ring(s) && head == s[0] && list !in s
    requires |s| > 2 || entry in s ==> i < |s| && entry == s[i]
    modifies list, s
    ensures |s| == 1 || entry !in s ==> forall x :: x == list || x in s ==> unchanged(x)
    ensures |s| > 1 && entry == head ==> Ring([list]) && Ring(s)
    ensures |s| > 1 && entry in s && entry != head ==> Ring([list] + s[1..i + 1]) && Ring([head] + s[i + 1..])
  {
    Tests(s, 0);
    Neighbours(s, 0);
    if Empty(head) {
      return;
    }
    if Singular(head) && head.next != entry && head != entry {
      return;
    }
    if entry == head {
      Init(list);
    } else {
      CutAt(list, head, entry, s, i);
    }
  }

  /** The assignments of `__list_splice`, whatever `list` links to. */
  method SpliceLinks<T>(list: ListHead<T>, prev: ListHead<T>, next: ListHead<T>)
    requires list.next != null && list.prev != null
    modifies list.next`prev, prev`next, list.prev`next, next`prev
    ensures var first, last := old(list.next), old(list.prev);
      && next.prev == last && last.next == next
      && (first != next ==> first.prev == prev) && (last != prev ==> prev.next == first)
  {
    var first := list.next;
    var last := list.prev;
    first.prev := prev;
    prev.next := first;
    last.next := next;
    next.prev := last;
  }

  /** `list` heads the ring `t`, which shares no link with `s`. */
  ghost predicate Detached<T>(list: ListHead<T>, t: seq<ListHead<T>>, s: seq<ListHead<T>>)
    reads t
  {
    Ring(t) && list == t[0] && forall i :: 0 <= i < |t| ==> t[i] !in s
  }

  /** `__list_splice` between the last and the first link of `s`: the entries of a detached
      ring go there. The head of an empty list stays a ring only if `list` already linked back to it. */
  method SpliceBetween<T>(list: ListHead<T>, prev: ListHead<T>, next: ListHead<T>, ghost t: seq<ListHead<T>>,
                          ghost s: seq<ListHead<T>>)
    requires Ring(s) && next == s[0] && prev == s[|s| - 1] && |t| > 0
    requires list.next != null && list.prev != null && list.next != list
    modifies list.next, list.prev, prev, next
    ensures old(Detached(list, t, s)) ==> Ring(s + t[1..])
    ensures |s| == 1 ==> (Ring(s) <==> old(list.prev == prev))
  {
    ghost var r, detached := s + t[1..], Detached(list, t, s);
    if detached {
      Neighbours(t, 0);
      Joined(s, t);
    }
    SpliceLinks(list, prev, next);
  }

  lemma {:induction false} Joined<T>(s: seq<ListHead<T>>, t: seq<ListHead<T>>)
    requires NoRepeat(s) && NoRepeat(t) && |t| > 0 && forall i :: 0 <= i < |t| ==> t[i] !in s
    ensures NoRepeat(s + t[1..])
  {
  }

  /** The body of `list_splice`, whatever `list` links to. */
  method SpliceAfter<T>(list: ListHead<T>, head: ListHead<T>, ghost t: seq<ListHead<T>>, ghost s: seq<ListHead<T>>,
                        ghost i: nat)
    requires Ring(s) && i < |s| && head == s[i] && |t| > 0 && list.next != null && list.prev != null
    modifies if list.next == list then {} else {list.next, list.prev}, s
    ensures old(Detached(list, t, s)) ==> Ring(s[..i + 1] + t[1..] + s[i + 1..])
    ensures |s| == 1 ==> (Ring(s) <==> old(list.next == list || list.prev == head))
  {
    ghost var detached := Detached(list, t, s);
    if detached {
      Tests(t, 0);
      Neighbours(t, 0);
    }
    if !Empty(list) {
      Neighbours(s, i);
      RingFrom(s, i + 1);
      SpliceBetween(list, head, head.next, t, s[i + 1..] + s[..i + 1]);
      if detached {
        RingBack(s, i + 1, t[1..]);
      }
    } else if detached {
      assert s[..i + 1] + t[1..] + s[i + 1..] == s;
    }
  }

  /** `list_splice`: the entries of `t` go right after the `i`th link of `s`. */
  method Splice<T>(list: ListHead<T>, head: ListHead<T>, ghost t: seq<ListHead<T>>, ghost s: seq<ListHead<T>>,
                   ghost i: nat)
    requires Detached(list, t, s) && Ring(s) && i < |s| && head == s[i]
    modifies t[1..], s
    ensures Ring(s[..i + 1] + t[1..] + s[i + 1..])
  {
    Tests(t, 0);
    Neighbours(t, 0);
    SpliceAfter(list, head, t, s, i);
  }

  /** `list_splice_tail`: the entries of `t` go right before the `i`th link of `s`. */
  method SpliceTail<T>(list: ListHead<T>, head: ListHead<T>, ghost t: seq<ListHead<T>>, ghost s: seq<ListHead<T>>,
                       ghost i: nat)
    requires Detached(list, t, s) && Ring(s) && i < |s| && head == s[i]
    modifies t[1..], s
    ensures Ring(Before(s, i, t[1..]))
  {
    Tests(t, 0);
    Neighbours(t, 0);
    if !Empty(list) {
      Neighbours(s, i);
      RingFrom(s, i);
      SpliceBetween(list, head.prev, head, t, s[i..] + s[..i]);
      RingBack(s, i, t[1..]);
    } else {
      assert Before(s, i, t[1..]) == s;
    }
  }

  /** `INIT_LIST_HEAD` beside a ring that it does not touch. */
  method InitApart<T>(list: ListHead<T>, ghost s: seq<ListHead<T>>)
    requires Ring(s) && list !in s
    modifies list
    ensures Ring(s) && Ring([list])
  {
    Init(list);
  }

  lemma {:induction false} HeadStaysOut<T>(list: ListHead<T>, t: seq<ListHead<T>>, s: seq<ListHead<T>>, i: nat)
    requires Detached(list, t, s) && i <= |s|
    ensures list !in s[..i] + t[1..] + s[i..] && list !in Before(s, i, t[1..]) && list !in s
  {
    assert t[0] == list;
  }

  /** `list_splice_init` and `list_splice_tail_init` leave `list` as an empty list. */
  method SpliceInit<T>(list: ListHead<T>, head: ListHead<T>, ghost t: seq<ListHead<T>>, ghost s: seq<ListHead<T>>,
                       ghost i: nat)
    requires Detached(list, t, s) && Ring(s) && i < |s| && head == s[i]
    modifies t, s
    ensures Ring(s[..i + 1] + t[1..] + s[i + 1..]) && Ring([list])
  {
    Tests(t, 0);
    HeadStaysOut(list, t, s, i + 1);
    if !Empty(list) {
      Splice(list, head, t, s, i);
      InitApart(list, s[..i + 1] + t[1..] + s[i + 1..]);
    } else {
      assert s[..i + 1] + t[1..] + s[i + 1..] == s && t == [list];
    }
  }

  method SpliceTailInit<T>(list: ListHead<T>, head: ListHead<T>, ghost t: seq<ListHead<T>>, ghost s: seq<ListHead<T>>,
                           ghost i: nat)
    requires Detached(list, t, s) && Ring(s) && i < |s| && head == s[i]
    modifies t, s
    ensures Ring(Before(s, i, t[1..])) && Ring([list])
  {
    Tests(t, 0);
    HeadStaysOut(list, t, s, i);
    if !Empty(list) {
      SpliceTail(list, head, t, s, i);
      InitApart(list, Before(s, i, t[1..]));
    } else {
      assert Before(s, i, t[1..]) == s && t == [list];
    }
  }

  /** What a cut at the `i`th link takes off, and what it leaves. */
  function CutOff<X>(list: X, s: seq<X>, i: nat): seq<X>
    requires i < |s|
  {
    [list] + s[1..i + 1]
  }

  function CutRest<X>(s: seq<X>, i: nat): seq<X>
    requires i < |s|
  {
    if i > 0 then [s[0]] + s[i + 1..] else s
  }

  lemma {:induction false} CutParts<X>(s: seq<X>, i: nat, list: X)
    requires NoRepeat(s) && i < |s| && list !in s
    ensures var t, rest := CutOff(list, s, i), CutRest(s, i);
      rest[..1] + t[1..] + rest[1..] == s && (forall j :: 0 <= j < |t| ==> t[j] !in rest) && rest[0] == s[0]
    ensures (forall x :: x in CutOff(list, s, i) ==> x == list || x in s) && forall x :: x in CutRest(s, i) ==> x in s
  {
    var t, rest := CutOff(list, s, i), CutRest(s, i);
    assert forall j :: 1 <= j < |t| ==> t[j] == s[j];
    assert i > 0 ==> forall j :: 1 <= j < |rest| ==> rest[j] == s[i + j];
  }

  /** The cut at a link of the list. */
  method Cut<T>(list: ListHead<T>, head: ListHead<T>, entry: ListHead<T>, ghost s: seq<ListHead<T>>, ghost i: nat)
    requires Ring(s) && head == s[0] && list !in s && i < |s| && entry == s[i]
    modifies list, s
    ensures |s| > 1 ==> Ring(CutOff(list, s, i)) && Ring(CutRest(s, i))
    ensures |s| == 1 ==> Ring(s) && unchanged(list)
  {
    assert s[0] in s;
    CutPosition(list, head, entry, s, i);
    assert i == 0 ==> CutOff(list, s, i) == [list];
  }

  /** `list_splice` at the head, with its outcome named. */
  method SpliceFront<T>(list: ListHead<T>, head: ListHead<T>, ghost t: seq<ListHead<T>>, ghost r: seq<ListHead<T>>,
                        ghost whole: seq<ListHead<T>>,
                        ghost touched: set<ListHead?<T>>)
    requires Ring(r) && head == r[0] && |t| > 0 && whole == r[..1] + t[1..] + r[1..]
    requires list.next != null && list.prev != null && list.next in touched && list.prev in touched
    requires forall x :: x in r ==> x in touched
    modifies touched
    ensures old(Detached(list, t, r)) ==> Ring(whole)
    ensures |r| == 1 ==> (Ring(r) <==> old(list.next == list || list.prev == head))
  {
    SpliceAfter(list, head, t, r, 0);
  }

  /** The links that a cut and a splice may write: those of the list, and where `list` leads to
      when there is nothing to cut. */
  ghost function Touched<T>(list: ListHead<T>, s: seq<ListHead<T>>): set<ListHead?<T>>
    reads list
  {
    if |s| == 1 then {list, s[0], list.next, list.prev} else Elements(s) + {list}
  }

  /** Cutting anywhere and splicing the cut part back restores the list, cuts at the head, at
      the last entry and in lists of one entry included. The cut does not touch `list` when
      there is nothing to cut; then the list is restored exactly if `list` was an empty list or
      already linked back to `head`. */
  method CutThenSplice<T>(list: ListHead<T>, head: ListHead<T>, entry: ListHead<T>, ghost s: seq<ListHead<T>>,
                          ghost i: nat)
    requires Ring(s) && head == s[0] && list !in s && i < |s| && entry == s[i]
    requires |s| == 1 ==> list.next != null && list.prev != null
    modifies Touched(list, s)
    ensures Ring(s) <==> |s| > 1 || old(list.next == list || list.prev == head)
  {
    ghost var t, rest := CutOff(list, s, i), CutRest(s, i);
    CutParts(s, i, list);
    ghost var touched := Touched(list, s);
    Cut(list, head, entry, s, i);
    if |s| > 1 {
      Neighbours(t, 0);
    }
    SpliceFront(list, head, t, rest, s, touched);
  }

  method NewHead<T>(owner: T) returns (list: ListHead<T>)
    ensures fresh(list) && Ring([list])
  {
    list := new ListHead(owner);
    Init(list);
  }

  /** A list of one entry. */
  method NewSingle<T>(owner: T) returns (list: ListHead<T>, entry: ListHead<T>)
    ensures fresh(list) && fresh(entry) && Ring([list, entry])
  {
    list := NewHead(owner);
    entry := new ListHead(owner);
    AddTail(entry, list, [list], 0);
    assert [list] + [entry] == [list, entry];
  }

  /** `list` may hold data that the caller does not care about, says the comment. Then cutting
      an empty list and splicing back leaves that data in the list. */
  method NotRestored<T>(owner: T) returns (head: ListHead<T>, list: ListHead<T>, entry: ListHead<T>)
    ensures Ring([head, entry]) && !Ring([head])
  {
    head := NewHead(owner);
    list, entry := NewSingle(owner);
    ghost var t, s := [list, entry], [head];
    Neighbours(t, 0);
    Cut(list, head, head, s, 0);
    assert t[1..] == [entry] && s[..1] + [entry] + s[1..] == [head, entry];
    SpliceFront(list, head, t, s, [head, entry], {head, entry});
  }
}
