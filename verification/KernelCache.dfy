/** The least-recently-used kernel cache (tfdml/core/dml_kernel_manager.h, tfdml/core/dml_kernel_manager.cc). */
module LeastRecentlyUsed {
  import opened Wrappers

  function Without<K(==)>(s: seq<K>, k: K): (r: seq<K>)
    ensures |r| <= |s|
  {
    if s == [] then [] else (if s[0] == k then [] else [s[0]]) + Without(s[1..], k)
  }

  lemma {:induction false} WithoutMembers<K>(s: seq<K>, k: K, x: K)
    ensures x in Without(s, k) <==> x in s && x != k
  {
    if s != [] {
      assert s == [s[0]] + s[1..];
      WithoutMembers(s[1..], k, x);
    }
  }

  /** The distinct keys of a history of uses, the last used first. */
  function MostRecent<K(==)>(history: seq<K>): seq<K> {
    if history == [] then []
    else
      var last := |history| - 1;
      [history[last]] + Without(MostRecent(history[..last]), history[last])
  }

  lemma {:induction false} MostRecentMembers<K>(history: seq<K>, x: K)
    ensures x in MostRecent(history) <==> x in history
  {
    if history != [] {
      var last := |history| - 1;
      assert history == history[..last] + [history[last]];
      MostRecentMembers(history[..last], x);
      WithoutMembers(MostRecent(history[..last]), history[last], x);
    }
  }

  function Take<K>(s: seq<K>, n: nat): (r: seq<K>)
    ensures |r| <= n && |r| <= |s|
  {
    if n <= |s| then s[..n] else s
  }

  /** What a cache of size max holds after a history: the max distinct keys used last, the newest first. */
  function Held<K(==)>(history: seq<K>, max: nat): (r: seq<K>)
    ensures |r| <= max
  {
    Take(MostRecent(history), max)
  }

  lemma {:induction false} WithoutDistinct<K>(s: seq<K>, k: K)
    requires Distinct(s)
    ensures Distinct(Without(s, k))
  {
    if s != [] {
      assert s[0] !in s[1..] && Distinct(s[1..]);
      WithoutDistinct(s[1..], k);
      WithoutMembers(s[1..], k, s[0]);
    }
  }

  lemma {:induction false} MostRecentDistinct<K>(history: seq<K>)
    ensures Distinct(MostRecent(history))
  {
    if history != [] {
      var last := |history| - 1;
      MostRecentDistinct(history[..last]);
      WithoutDistinct(MostRecent(history[..last]), history[last]);
      WithoutMembers(MostRecent(history[..last]), history[last], history[last]);
    }
  }

  lemma {:induction false} WithoutAbsent<K>(s: seq<K>, k: K)
    requires k !in s
    ensures Without(s, k) == s
  {
    if s != [] {
      assert s == [s[0]] + s[1..];
      assert s[0] in s && forall x <- s[1..] :: x in s;
      WithoutAbsent(s[1..], k);
    }
  }

  lemma {:induction false} WithoutConcat<K>(s: seq<K>, t: seq<K>, k: K)
    ensures Without(s + t, k) == Without(s, k) + Without(t, k)
  {
    if s == [] {
      assert s + t == t;
    } else {
      assert (s + t)[1..] == s[1..] + t;
      WithoutConcat(s[1..], t, k);
    }
  }

  /** Removing the one occurrence of a key. */
  lemma WithoutBetween<K>(front: seq<K>, k: K, back: seq<K>)
    requires k !in front && k !in back
    ensures Without(front + [k] + back, k) == front + back
  {
    hide Without;
    var tail := [k] + back;
    assert front + [k] + back == front + tail;
    WithoutConcat(front, tail, k);
    WithoutHead(k, back);
    WithoutAbsent(front, k);
  }

  lemma WithoutHead<K>(k: K, back: seq<K>)
    requires k !in back
    ensures Without([k] + back, k) == back
  {
    assert ([k] + back)[1..] == back;
    WithoutAbsent(back, k);
  }

  lemma Around<K>(s: seq<K>, i: nat)
    requires Distinct(s) && i < |s|
    ensures s == s[..i] + [s[i]] + s[i + 1..] && s[i] !in s[..i] && s[i] !in s[i + 1..]
  {
  }

  lemma TakePast<K>(front: seq<K>, k: K, rest: seq<K>, max: nat)
    requires |front| < max
    ensures var cut := Take(rest, max - 1 - |front|);
            && Take(front + [k] + rest, max) == front + [k] + cut
            && Take([k] + (front + rest), max) == [k] + (front + cut)
  {
  }

  /** Using a held key moves it to the front and evicts nothing. */
  lemma UseHeld<K>(history: seq<K>, k: K, max: nat)
    requires k in Held(history, max)
    ensures Held(history + [k], max) == [k] + Without(Held(history, max), k)
  {
    var held := Held(history, max);
    assert (history + [k])[..|history|] == history;
    MostRecentDistinct(history);
    var i :| 0 <= i < |held| && held[i] == k;
    var all := MostRecent(history);
    Around(all, i);
    MoveWithin(all[..i], k, all[i + 1..], max);
  }

  /** Moving one of the first max keys to the front, before or after cutting the list off at max. */
  lemma MoveWithin<K>(front: seq<K>, k: K, rest: seq<K>, max: nat)
    requires k !in front && k !in rest && |front| < max
    ensures var all := front + [k] + rest;
            Take([k] + Without(all, k), max) == [k] + Without(Take(all, max), k)
  {
    var cut := Take(rest, max - 1 - |front|);
    WithoutBetween(front, k, rest);
    assert k !in cut;
    WithoutBetween(front, k, cut);
    TakePast(front, k, rest, max);
  }

  /** Using a key that is not held puts it in front; when that is one too many, exactly the last key goes. */
  lemma UseOther<K>(history: seq<K>, k: K, max: nat)
    requires k !in Held(history, max)
    ensures Held(history + [k], max) == Take([k] + Held(history, max), max)
  {
    var all := MostRecent(history);
    assert (history + [k])[..|history|] == history;
    if max < |all| {
      var (front, back) := (all[..max], all[max..]);
      assert all == front + back;
      WithoutConcat(front, back, k);
      WithoutAbsent(front, k);
      assert Without(all, k) == front + Without(back, k);
      assert ([k] + (front + Without(back, k)))[..max] == ([k] + front)[..max];
    } else {
      WithoutAbsent(all, k);
    }
  }

  // ---------- How long a key stays ----------

  /** MostRecent of a longer history: the later uses first, then the earlier keys not used again. */
  function Minus<K(==)>(s: seq<K>, t: seq<K>): seq<K> {
    if s == [] then [] else (if s[0] in t then [] else [s[0]]) + Minus(s[1..], t)
  }

  lemma {:induction false} MinusExtend<K>(s: seq<K>, t: seq<K>, k: K)
    ensures Minus(s, t + [k]) == Without(Minus(s, t), k)
  {
    if s == [] {
      assert Without<K>([], k) == [];
    } else {
      MinusExtend(s[1..], t, k);
      WithoutConcat(if s[0] in t then [] else [s[0]], Minus(s[1..], t), k);
    }
  }

  lemma {:induction false} MostRecentConcat<K>(a: seq<K>, b: seq<K>)
    ensures MostRecent(a + b) == MostRecent(b) + Minus(MostRecent(a), b)
  {
    if b == [] {
      assert a + b == a;
      MinusNothing(MostRecent(a));
    } else {
      var last := |b| - 1;
      var (front, k) := (b[..last], b[last]);
      assert (a + b)[..|a + b| - 1] == a + front;
      MostRecentConcat(a, front);
      WithoutConcat(MostRecent(front), Minus(MostRecent(a), front), k);
      MinusExtend(MostRecent(a), front, k);
      assert b == front + [k];
      var (x, y) := (Without(MostRecent(front), k), Without(Minus(MostRecent(a), front), k));
      assert MostRecent(a + b) == [k] + (x + y) && MostRecent(b) == [k] + x;
      assert [k] + (x + y) == [k] + x + y;
    }
  }

  lemma {:induction false} MinusNothing<K>(s: seq<K>)
    ensures Minus(s, []) == s
  {
    if s != [] { MinusNothing(s[1..]); }
  }

  /**
   * The guarantee of the cache: after a use of a key, the key is still held exactly while fewer than max distinct
   * other keys have been used.
   */
  lemma HeldUntilMaxOthers<K>(before: seq<K>, k: K, after: seq<K>, max: nat)
    requires k !in after
    ensures k in Held(before + [k] + after, max) <==> |MostRecent(after)| < max
  {
    var all := MostRecent(before + [k] + after);
    var recent := MostRecent(before + [k]);
    assert (before + [k])[..|before|] == before;
    MostRecentConcat(before + [k], after);
    assert all == MostRecent(after) + Minus(recent, after);
    assert recent[0] == k && Minus(recent, after)[0] == k;
    var n := |MostRecent(after)|;
    assert all[n] == k;
    MostRecentDistinct(before + [k] + after);
    if k in Held(before + [k] + after, max) {
      var i :| 0 <= i < |Held(before + [k] + after, max)| && Held(before + [k] + after, max)[i] == k;
      assert all[i] == k;
      assert i == n;
    }
    if n < max {
      assert Held(before + [k] + after, max)[n] == k;
    }
  }
}

/** The cache itself: a hash map whose entries hold iterators into a list ordered by last use. */
module KernelCache {
  import opened Wrappers
  import opened LeastRecentlyUsed

  /** A list cell; its id stands for the iterator to it. */
  datatype Node<K> = Node(id: nat, key: K)

  datatype Entry<V> = Entry(kernel: V, lruIter: nat)

  function Keys<K>(list: seq<Node<K>>): (r: seq<K>)
    ensures |r| == |list|
  {
    seq(|list|, i requires 0 <= i < |list| => list[i].key)
  }

  /** Each cell is behind the iterator of its own key's entry, and no two cells share an iterator. */
  ghost predicate Pointed<K, V>(cache: map<K, Entry<V>>, list: seq<Node<K>>, nextNode: nat) {
    && (forall n <- list :: n.id < nextNode && n.key in cache && cache[n.key].lruIter == n.id)
    && (forall n, m :: n in list && m in list && n.id == m.id ==> n == m)
  }

  /** The list holds each cached key once, and each entry's iterator points at the cell of its own key. */
  ghost predicate Linked<K(!new), V>(cache: map<K, Entry<V>>, list: seq<Node<K>>, nextNode: nat) {
    && Distinct(Keys(list)) && Pointed(cache, list, nextNode)
    && (forall k :: k in cache <==> k in Keys(list))
  }

  /** Map and list have the same size, as TrimCache asserts. */
  lemma LinkedSizes<K(!new), V>(cache: map<K, Entry<V>>, list: seq<Node<K>>, nextNode: nat)
    requires Linked(cache, list, nextNode)
    ensures |cache| == |list|
  {
    SetOfDistinct(Keys(list));
    assert cache.Keys == set k | k in Keys(list);
  }

  lemma {:induction false} SetOfDistinct<K>(s: seq<K>)
    requires Distinct(s)
    ensures |set k | k in s| == |s|
  {
    if s != [] {
      SetOfDistinct(s[1..]);
      assert s == [s[0]] + s[1..];
      assert (set k | k in s) == {s[0]} + (set k | k in s[1..]);
    }
  }

  lemma LinkedPush<K(!new), V>(cache: map<K, Entry<V>>, list: seq<Node<K>>, nextNode: nat, key: K, kernel: V)
    requires Linked(cache, list, nextNode) && key !in cache
    ensures Linked(cache[key := Entry(kernel, nextNode)], [Node(nextNode, key)] + list, nextNode + 1)
    ensures Keys([Node(nextNode, key)] + list) == [key] + Keys(list)
  {
    var list' := [Node(nextNode, key)] + list;
    assert Keys(list') == [key] + Keys(list);
    assert forall n <- list' :: n == Node(nextNode, key) || n in list;
  }

  lemma KeysMoved<K(!new)>(list: seq<Node<K>>, nextNode: nat, i: nat)
    requires Distinct(Keys(list)) && i < |list|
    ensures var list' := [Node(nextNode, list[i].key)] + (list[..i] + list[i + 1..]);
            && Keys(list') == [list[i].key] + Without(Keys(list), list[i].key)
            && Distinct(Keys(list')) && forall k :: k in Keys(list) <==> k in Keys(list')
  {
    var list' := [Node(nextNode, list[i].key)] + (list[..i] + list[i + 1..]);
    var (ks, key) := (Keys(list), list[i].key);
    Around(ks, i);
    WithoutBetween(ks[..i], key, ks[i + 1..]);
    assert Keys(list') == [key] + (ks[..i] + ks[i + 1..]);
    MovedDistinct(ks[..i], key, ks[i + 1..]);
  }

  lemma LinkedMove<K(!new), V>(cache: map<K, Entry<V>>, list: seq<Node<K>>, nextNode: nat, key: K, i: nat)
    requires Linked(cache, list, nextNode) && i < |list| && list[i].key == key
    ensures var list' := [Node(nextNode, key)] + (list[..i] + list[i + 1..]);
            && Linked(cache[key := cache[key].(lruIter := nextNode)], list', nextNode + 1)
            && Keys(list') == [key] + Without(Keys(list), key)
  {
    var cache' := cache[key := cache[key].(lruIter := nextNode)];
    KeysMoved(list, nextNode, i);
    PointedMoved(cache, list, nextNode, i);
    assert cache'.Keys == cache.Keys;
  }

  lemma PointedMoved<K, V>(cache: map<K, Entry<V>>, list: seq<Node<K>>, nextNode: nat, i: nat)
    requires Distinct(Keys(list)) && Pointed(cache, list, nextNode) && i < |list| && list[i].key in cache
    ensures var key := list[i].key;
            Pointed(cache[key := cache[key].(lruIter := nextNode)],
                    [Node(nextNode, key)] + (list[..i] + list[i + 1..]), nextNode + 1)
  {
    var (key, rest) := (list[i].key, list[..i] + list[i + 1..]);
    forall n | n in rest ensures n in list && n.key != key {
      var j :| 0 <= j < |rest| && rest[j] == n;
      var m := if j < i then j else j + 1;
      assert list[m] == n && Keys(list)[m] != Keys(list)[i];
    }
    var list' := [Node(nextNode, key)] + rest;
    forall n | n in list' ensures n == Node(nextNode, key) || n in rest {
    }
  }

  lemma MovedDistinct<K>(front: seq<K>, k: K, back: seq<K>)
    requires Distinct(front + [k] + back)
    ensures Distinct([k] + (front + back))
  {
    var (s, t) := (front + [k] + back, [k] + (front + back));
    forall i, j | 0 <= i < j < |t| ensures t[i] != t[j] {
      var (i', j') := (if i == 0 then |front| else if i <= |front| then i - 1 else i,
                       if j <= |front| then j - 1 else j);
      assert t[i] == s[i'] && t[j] == s[j'] && i' != j';
    }
  }

  lemma LinkedPop<K(!new), V>(cache: map<K, Entry<V>>, list: seq<Node<K>>, nextNode: nat)
    requires Linked(cache, list, nextNode) && list != []
    ensures var last := |list| - 1;
            && Linked(cache - {list[last].key}, list[..last], nextNode)
            && Keys(list[..last]) == Keys(list)[..last]
  {
    var last := |list| - 1;
    var victim := list[last].key;
    var ks := Keys(list);
    assert ks[last] == victim && Keys(list[..last]) == ks[..last];
    forall k | k in cache - {victim} ensures k in ks[..last] {
      var i :| 0 <= i < |ks| && ks[i] == k;
      assert i != last;
      assert ks[..last][i] == k;
    }
    forall i | 0 <= i < last ensures list[i].key != victim {
      assert ks[i] != ks[last];
    }
  }

  /** The iterator of a cached key leads to the cell of that key and to no other. */
  lemma IteratorFindsKey<K(!new), V>(cache: map<K, Entry<V>>, list: seq<Node<K>>, nextNode: nat, key: K)
    requires Linked(cache, list, nextNode) && key in cache
    ensures exists i :: 0 <= i < |list| && list[i].id == cache[key].lruIter
    ensures forall i :: 0 <= i < |list| && list[i].id == cache[key].lruIter ==> list[i].key == key
  {
    assert key in cache.Keys;
    var at :| 0 <= at < |list| && Keys(list)[at] == key;
    var n := list[at];
    assert n in list && n.id == cache[key].lruIter;
    forall i | 0 <= i < |list| && list[i].id == cache[key].lruIter ensures list[i].key == key {
      assert list[i] in list;
    }
  }

  /** Following the iterator of a cached key and moving the cell to the front. */
  lemma MoveThroughIterator<K(!new), V>(cache: map<K, Entry<V>>, list: seq<Node<K>>, nextNode: nat, key: K, i: nat)
    requires Linked(cache, list, nextNode) && key in cache && i < |list| && list[i].id == cache[key].lruIter
    ensures var list' := [Node(nextNode, key)] + (list[..i] + list[i + 1..]);
            && Linked(cache[key := cache[key].(lruIter := nextNode)], list', nextNode + 1)
            && Keys(list') == [key] + Without(Keys(list), key)
    ensures i == 0 ==> Keys(list) == [key] + Without(Keys(list), key)
  {
    IteratorFindsKey(cache, list, nextNode, key);
    LinkedMove(cache, list, nextNode, key, i);
    if i == 0 {
      var ks := Keys(list);
      assert ks == [key] + ks[1..];
      WithoutHead(key, ks[1..]);
    }
  }

  ghost function KernelsOf<K, V>(cache: map<K, Entry<V>>): map<K, V> {
    map k | k in cache :: cache[k].kernel
  }

  lemma NewIteratorKeepsKernels<K, V>(cache: map<K, Entry<V>>, key: K, id: nat)
    requires key in cache
    ensures KernelsOf(cache[key := cache[key].(lruIter := id)]) == KernelsOf(cache)
  {
  }

  lemma CachedAreHeld<K(!new), V>(cache: map<K, Entry<V>>, list: seq<Node<K>>, nextNode: nat, held: seq<K>)
    requires Linked(cache, list, nextNode) && Keys(list) == held
    ensures forall k :: k in KernelsOf(cache) <==> k in held
  {
  }

  lemma KernelsAfterCreate<K, V>(was: map<K, V>, full: map<K, V>, now: map<K, V>, key: K, kernel: V, inserted: bool)
    requires inserted == (key !in was) && full == if inserted then was[key := kernel] else was
    requires forall k <- now :: k in full && now[k] == full[k]
    ensures forall k <- now :: now[k] == if k in was then was[k] else kernel
  {
  }

  lemma HeldAfterCreate<K>(history: seq<K>, key: K, max: nat, was: seq<K>, inserted: bool, now: seq<K>)
    requires was == Held(history, max) && inserted == (key !in was)
    requires inserted ==> now == Trimmed([key] + Without([key] + was, key), max)
    requires !inserted ==> now == [key] + Without(was, key)
    ensures now == Held(history + [key], max)
  {
    if inserted {
      WithoutHead(key, was);
      UseOther(history, key, max);
    } else {
      UseHeld(history, key, max);
    }
  }

  /** The list after TrimCache: at most one key shorter. */
  function Trimmed<K>(list: seq<K>, max: nat): seq<K> {
    if |list| <= max then list else list[..|list| - 1]
  }

  class KernelCache<K(==, !new), V> {
    const maxCacheSize: nat
    var kernelCache: map<K, Entry<V>>
    var lruList: seq<Node<K>>
    var nextNode: nat
    /** The uses since the cache was last cleared, oldest first. */
    ghost var history: seq<K>

    ghost predicate Valid()
      reads this
    {
      Linked(kernelCache, lruList, nextNode) && Keys(lruList) == Held(history, maxCacheSize)
    }

    ghost function Kernels(): map<K, V>
      reads this
    {
      KernelsOf(kernelCache)
    }

    constructor (maxCacheSize: nat)
      ensures Valid() && this.maxCacheSize == maxCacheSize && history == [] && Kernels() == map[]
    {
      this.maxCacheSize := maxCacheSize;
      kernelCache, lruList, nextNode, history := map[], [], 0, [];
    }

    /** Moves a cached key to the front of the list. */
    method OnRecentlyUsed(key: K)
      requires Linked(kernelCache, lruList, nextNode) && key in kernelCache
      modifies this`kernelCache, this`lruList, this`nextNode
      ensures Linked(kernelCache, lruList, nextNode)
      ensures Keys(lruList) == [key] + Without(old(Keys(lruList)), key)
      ensures Kernels() == old(Kernels())
    {
      IteratorFindsKey(kernelCache, lruList, nextNode, key);
      var node :| 0 <= node < |lruList| && lruList[node].id == kernelCache[key].lruIter;
      if kernelCache[key].lruIter == lruList[0].id {
        MoveThroughIterator(kernelCache, lruList, nextNode, key, 0);
        return;
      }
      MoveThroughIterator(kernelCache, lruList, nextNode, key, node);
      NewIteratorKeepsKernels(kernelCache, key, nextNode);
      lruList := lruList[..node] + lruList[node + 1..];
      lruList := [Node(nextNode, key)] + lruList;
      kernelCache := kernelCache[key := kernelCache[key].(lruIter := nextNode)];
      nextNode := nextNode + 1;
    }

    /** Evicts the key at the back, once, if the cache is too large. */
    method TrimCache()
      requires Linked(kernelCache, lruList, nextNode)
      modifies this`kernelCache, this`lruList
      ensures Linked(kernelCache, lruList, nextNode)
      ensures Keys(lruList) == Trimmed(old(Keys(lruList)), maxCacheSize)
      ensures forall k <- Kernels() :: k in old(Kernels()) && Kernels()[k] == old(Kernels())[k]
    {
      LinkedSizes(kernelCache, lruList, nextNode);
      assert |lruList| == |kernelCache|;
      if |kernelCache| <= maxCacheSize {
        return;
      }
      LinkedPop(kernelCache, lruList, nextNode);
      var lruKey := lruList[|lruList| - 1].key;
      lruList := lruList[..|lruList| - 1];
      kernelCache := kernelCache - {lruKey};
    }

    /** A new entry and its list cell; nothing happens when the key is present. */
    method Emplace(key: K, kernel: V) returns (inserted: bool)
      requires Linked(kernelCache, lruList, nextNode)
      modifies this`kernelCache, this`lruList, this`nextNode
      ensures Linked(kernelCache, lruList, nextNode) && key in kernelCache
      ensures inserted == (key !in old(kernelCache))
      ensures inserted == (key !in old(Keys(lruList)))
      ensures inserted ==> Keys(lruList) == [key] + old(Keys(lruList))
      ensures inserted ==> Kernels() == old(Kernels())[key := kernel]
      ensures !inserted ==> Keys(lruList) == old(Keys(lruList)) && Kernels() == old(Kernels())
    {
      inserted := key !in kernelCache;
      if inserted {
        LinkedPush(kernelCache, lruList, nextNode, key, kernel);
        kernelCache := kernelCache[key := Entry(kernel, nextNode)];
        lruList := [Node(nextNode, key)] + lruList;
        nextNode := nextNode + 1;
      }
    }

    /**
     * The locked part, for a kernel already built without the lock. If another thread got there first, its kernel
     * stays cached and ours is only returned. In every case the cached keys are the maxCacheSize distinct keys
     * used last, this use included.
     */
    method CreateCachedKernel(key: K, kernel: V) returns (r: V)
      requires Valid()
      modifies this`kernelCache, this`lruList, this`nextNode, this`history
      ensures Valid() && r == kernel && history == old(history) + [key]
      ensures forall k :: k in Kernels() <==> k in Held(history, maxCacheSize)
      ensures forall k <- Kernels() :: Kernels()[k] == if k in old(Kernels()) then old(Kernels())[k] else kernel
    {
      ghost var was, uses := Keys(lruList), history;
      assert was == Held(uses, maxCacheSize);
      var insertionSucceeded := Emplace(key, kernel);
      ghost var full := Kernels();
      ghost var pushed := if insertionSucceeded then [key] + was else was;
      assert Keys(lruList) == pushed;
      OnRecentlyUsed(key);
      ghost var front := Keys(lruList);
      assert front == [key] + Without(pushed, key);
      if insertionSucceeded {
        TrimCache();
      }
      KernelsAfterCreate(old(Kernels()), full, Kernels(), key, kernel, insertionSucceeded);
      HeldAfterCreate(uses, key, maxCacheSize, was, insertionSucceeded, Keys(lruList));
      history := history + [key];
      r := kernel;
      CachedAreHeld(kernelCache, lruList, nextNode, Held(history, maxCacheSize));
    }

    method TryGetCachedKernel(key: K) returns (r: Option<V>)
      requires Valid()
      modifies this`kernelCache, this`lruList, this`nextNode, this`history
      ensures Valid() && Kernels() == old(Kernels())
      ensures r == if key in old(Kernels()) then Some(old(Kernels())[key]) else None
      ensures history == if r.Some? then old(history) + [key] else old(history)
    {
      if key !in kernelCache {
        return None;
      }
      UseHeld(history, key, maxCacheSize);
      OnRecentlyUsed(key);
      history := history + [key];
      assert key in Kernels();
      r := Some(kernelCache[key].kernel);
    }

    method ClearCache()
      requires Valid()
      modifies this`kernelCache, this`lruList, this`history
      ensures Valid() && Kernels() == map[] && history == []
    {
      lruList := [];
      kernelCache := map[];
      history := [];
    }

    method GetCacheSize() returns (size: nat)
      requires Valid()
      ensures size == |Kernels()| == |Held(history, maxCacheSize)| <= maxCacheSize
    {
      LinkedSizes(kernelCache, lruList, nextNode);
      size := |kernelCache|;
      assert Kernels().Keys == kernelCache.Keys;
    }
  }
}
