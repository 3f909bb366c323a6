/** Releasing the device list: each device is unlinked, unlinked once more and freed while
    the loop walks the list. */
module Devices {
  import opened List
  import opened Seqs

  /** `list_next_entry`. Reading the link of a freed device is not allowed. */
  method NextEntry<T>(pos: ListHead<T>, ghost freed: set<ListHead<T>>, ghost s: seq<ListHead<T>>, ghost i: nat)
    returns (n: ListHead<T>)
    requires pos !in freed && Ring(s) && i < |s| && pos == s[i]
    ensures n == s[NextIndex(|s|, i)] && Ring(s)
  {
    Neighbours(s, i);
    n := pos.next;
  }

  /** The ring once its first `k` entries are gone. */
  ghost function Rest<X>(s: seq<X>, k: nat): seq<X>
    requires k < |s|
  {
    [s[0]] + s[k + 1..]
  }

  lemma {:induction false} OneLess<X>(s: seq<X>, k: nat)
    requires NoRepeat(s) && k + 1 < |s|
    ensures Rest(s, k)[1] == s[k + 1] && [Rest(s, k)[0]] + Rest(s, k)[2..] == Rest(s, k + 1)
    ensures s[1..k + 2] == s[1..k + 1] + [s[k + 1]]
    ensures Elements(s[1..k + 2]) == Elements(s[1..k + 1]) + {s[k + 1]}
    ensures forall x :: x in Rest(s, k) ==> x in s && x !in Elements(s[1..k + 1])
  {
    var r := Rest(s, k);
    assert forall i :: 1 <= i < |r| ==> r[i] == s[i + k];
    forall x | x in r ensures x in s && x !in s[1..k + 1] {
      var i :| 0 <= i < |r| && r[i] == x;
      assert x == s[if i == 0 then 0 else i + k];
    }
  }

  /** `list_del_init`, then `hmp_device_release`: `list_del` of the link that is now alone,
      and the memory is freed. Neither the device nor its neighbours may be freed yet. */
  method Release<T>(dev: ListHead<T>, ghost freed: set<ListHead<T>>, ghost s: seq<ListHead<T>>, ghost k: nat)
    returns (ghost freed': set<ListHead<T>>)
    requires k + 1 < |s| && NoRepeat(s) && Ring(Rest(s, k)) && dev == s[k + 1]
    requires forall x :: x in Rest(s, k) ==> x !in freed
    modifies s
    ensures Ring(Rest(s, k + 1)) && freed' == freed + {dev}
    ensures dev.next == null && dev.prev == null
  {
    ghost var r := Rest(s, k);
    OneLess(s, k);
    Neighbours(r, 1);
    DelInit(dev, r, 1);
    assert Without(r, 1) == Rest(s, k + 1);
    Neighbours([dev], 0);
    Del(dev, [dev], 0);
    freed' := freed + {dev};
  }

  /** `hmp_device_release_handle`: every device is released once, in list order, no link of a
      freed device is read, and the list ends up empty. */
  method ReleaseAll<T>(head: ListHead<T>, ghost s: seq<ListHead<T>>)
    returns (released: seq<ListHead<T>>, ghost freed: set<ListHead<T>>)
    requires Ring(s) && head == s[0]
    modifies s
    ensures Ring([head]) && released == s[1..] && freed == Elements(s[1..])
  {
    released, freed := [], {};
    ghost var k := 0;
    var pos, n := Begin(head, s);
    while pos != head
      invariant InLoop(s, k, pos, n, freed) && released == s[1..k + 1]
      decreases |s| - k
    {
      released := released + [pos];
      pos, n, freed := Turn(pos, n, freed, s, k);
      k := k + 1;
    }
    AtEnd(s, k, pos, n, freed);
  }

  /** The entries that the loop starts with. */
  method Begin<T>(head: ListHead<T>, ghost s: seq<ListHead<T>>) returns (pos: ListHead<T>, n: ListHead<T>)
    requires Ring(s) && head == s[0]
    ensures InLoop(s, 0, pos, n, {})
  {
    assert Rest(s, 0) == s;
    pos := NextEntry(head, {}, s, 0);
    n := NextEntry(pos, {}, s, NextIndex(|s|, 0));
  }

  /** Where the loop stops, every device is freed. */
  lemma {:induction false} AtEnd<T>(s: seq<ListHead<T>>, k: nat, pos: ListHead<T>, n: ListHead<T>,
                                    freed: set<ListHead<T>>)
    requires InLoop(s, k, pos, n, freed) && pos == s[0]
    ensures s[1..k + 1] == s[1..] && Ring([s[0]]) && freed == Elements(s[1..])
  {
    assert k + 1 == |s|;
    assert s[1..k + 1] == s[1..] && Rest(s, k) == [s[0]];
  }

  /** The first `k` devices are freed, `pos` is the next and `n` the one after it. */
  ghost predicate InLoop<T>(s: seq<ListHead<T>>, k: nat, pos: ListHead<T>, n: ListHead<T>, freed: set<ListHead<T>>)
    reads s
  {
    && k < |s| && NoRepeat(s) && Ring(Rest(s, k)) && freed == Elements(s[1..k + 1])
    && pos == Rest(s, k)[NextIndex(|s| - k, 0)]
    && (k + 1 < |s| ==> n == Rest(s, k)[NextIndex(|s| - k, 1)])
  }

  /** One turn of the loop. */
  method Turn<T>(pos: ListHead<T>, n: ListHead<T>, ghost freed: set<ListHead<T>>, ghost s: seq<ListHead<T>>,
                 ghost k: nat)
    returns (pos': ListHead<T>, n': ListHead<T>, ghost freed': set<ListHead<T>>)
    requires InLoop(s, k, pos, n, freed) && pos != s[0]
    modifies s
    ensures k + 1 < |s| && s[1..k + 2] == s[1..k + 1] + [pos] && InLoop(s, k + 1, pos', n', freed')
  {
    assert Rest(s, k)[0] == s[0];
    OneLess(s, k);
    freed' := Release(pos, freed, s, k);
    pos' := n;
    n' := NextUnlessDone(n, freed', s, k + 1);
  }

  /** The step of the loop: what is read next is an entry that is left, or the head. */
  method NextUnlessDone<T>(n: ListHead<T>, ghost freed: set<ListHead<T>>, ghost s: seq<ListHead<T>>, ghost k: nat)
    returns (m: ListHead<T>)
    requires k < |s| && NoRepeat(s) && Ring(Rest(s, k)) && freed == Elements(s[1..k + 1])
    requires n == Rest(s, k)[NextIndex(|s| - k, 0)]
    ensures m == Rest(s, k)[NextIndex(|s| - k, NextIndex(|s| - k, 0))] && Ring(Rest(s, k))
  {
    ghost var r := Rest(s, k);
    assert k + 1 < |s| ==> n == s[k + 1];
    assert n !in s[1..k + 1];
    m := NextEntry(n, freed, r, NextIndex(|r|, 0));
  }
}
