/**
 The kernel's generic hash table: an array of buckets, each a singly linked chain of
 nodes in pages of their own, with a hash function and an equality given by the user.
 New nodes go to the front of their chain; erasing relinks the predecessor.

 A table stands for a finite map: get looks a key up, put adds exactly one key and
 refuses a present one, erase removes exactly one key.
 */
module HashTable {
  import opened Base

  const HASH_TABLE_SIZE: nat := 128

  datatype HashNode<K, V> = HashNode(key: K, value: V, next: Ptr)
  datatype Table<K, V> = Table(heads: seq<Ptr>, nodes: map<Ptr, HashNode<K, V>>)

  // ---------------------------------------------------------------------
  // What a table stands for
  // ---------------------------------------------------------------------

  // Keys are what `abs` makes of them: equality tells just that apart, and the bucket
  // depends on nothing else, so equal keys share a bucket.
  ghost predicate Lawful<K(!new), A>(func: K -> nat, equal: (K, K) -> bool, abs: K -> A, hash: A -> nat) {
    && (forall k {:trigger func(k)} :: func(k) == hash(abs(k)) && func(k) < HASH_TABLE_SIZE)
    && (forall k, l {:trigger equal(k, l)} :: equal(k, l) <==> abs(k) == abs(l))
  }

  // From head the chain visits exactly the nodes c, in order.
  ghost predicate Chained<K, V>(t: Table<K, V>, head: Ptr, c: seq<Ptr>) {
    && head == (if c == [] then NULL else c[0])
    && (forall i {:trigger c[i]} :: 0 <= i < |c| ==> c[i] != NULL && c[i] in t.nodes)
    && (forall i: nat {:trigger NextOf(c, i)} :: i < |c| ==> t.nodes[c[i]].next == NextOf(c, i))
  }

  ghost function NextOf(c: seq<Ptr>, i: nat): Ptr { if i + 1 < |c| then c[i + 1] else NULL }

  // The nodes of bucket b: their keys belong there, no two are the same, and the map has
  // them all.
  ghost predicate BucketOk<K, V, A>(t: Table<K, V>, c: seq<Ptr>, b: nat, func: K -> nat, abs: K -> A, m: map<A, V>) {
    && (forall i {:trigger c[i]} :: 0 <= i < |c| ==>
          c[i] in t.nodes && func(t.nodes[c[i]].key) == b && abs(t.nodes[c[i]].key) in m &&
          m[abs(t.nodes[c[i]].key)] == t.nodes[c[i]].value)
    && (forall i, j {:trigger c[i], c[j]} :: 0 <= i < j < |c| ==> abs(t.nodes[c[i]].key) != abs(t.nodes[c[j]].key))
  }

  ghost predicate Has<K, V, A(!new)>(t: Table<K, V>, c: seq<Ptr>, abs: K -> A, a: A) {
    exists i {:trigger c[i]} :: 0 <= i < |c| && c[i] in t.nodes && abs(t.nodes[c[i]].key) == a
  }

  ghost predicate Stands<K, V, A(!new)>(t: Table<K, V>, chains: seq<seq<Ptr>>, func: K -> nat, abs: K -> A,
                                        hash: A -> nat, m: map<A, V>) {
    && |t.heads| == |chains| == HASH_TABLE_SIZE
    && (forall b {:trigger chains[b]} :: 0 <= b < HASH_TABLE_SIZE ==>
          Chained(t, t.heads[b], chains[b]) && BucketOk(t, chains[b], b, func, abs, m))
    && (forall a {:trigger a in m} :: a in m && hash(a) < HASH_TABLE_SIZE ==> Has(t, chains[hash(a)], abs, a))
  }

  ghost predicate TableIs<K, V, A(!new)>(t: Table<K, V>, func: K -> nat, abs: K -> A, hash: A -> nat, m: map<A, V>) {
    exists chains: seq<seq<Ptr>> {:trigger Stands(t, chains, func, abs, hash, m)} ::
      Stands(t, chains, func, abs, hash, m)
  }

  function EmptyTable<K, V>(): Table<K, V> { Table(seq(HASH_TABLE_SIZE, _ => NULL), map[]) }

  /** hash_table_init */
  lemma EmptyIs<K, V, A(!new)>(func: K -> nat, abs: K -> A, hash: A -> nat)
    ensures TableIs(EmptyTable<K, V>(), func, abs, hash, map[])
  {
    var t: Table<K, V> := EmptyTable();
    var m: map<A, V> := map[];
    var chains: seq<seq<Ptr>> := seq(HASH_TABLE_SIZE, _ => []);
    assert Stands(t, chains, func, abs, hash, m);
  }

  // ---------------------------------------------------------------------
  // The operations
  // ---------------------------------------------------------------------

  // The walk of defalut_get and default_erase: the node that holds the key, or NULL, and
  // the one before it, NULL for the head of the bucket.
  method FindNode<K(!new), V, A(!new)>(t: Table<K, V>, func: K -> nat, equal: (K, K) -> bool, k: K,
                                       ghost chains: seq<seq<Ptr>>, ghost abs: K -> A, ghost hash: A -> nat,
                                       ghost m: map<A, V>)
    returns (prev: Ptr, node: Ptr, ghost i: nat)
    requires Lawful(func, equal, abs, hash) && Stands(t, chains, func, abs, hash, m)
    ensures func(k) < HASH_TABLE_SIZE
    ensures node == NULL <==> abs(k) !in m
    ensures var c := chains[func(k)];
            && i <= |c| && node == (if i < |c| then c[i] else NULL) && prev == (if i == 0 then NULL else c[i - 1])
            && (i < |c| <==> abs(k) in m)
            && (i < |c| ==> node in t.nodes && abs(t.nodes[node].key) == abs(k) && m[abs(k)] == t.nodes[node].value)
  {
    hide Has;
    var b := func(k);
    ghost var c := chains[b];
    prev, node, i := NULL, t.heads[b], 0;
    while node != NULL && !equal(t.nodes[node].key, k)
      invariant i <= |c| && node == (if i < |c| then c[i] else NULL) && prev == (if i == 0 then NULL else c[i - 1])
      invariant forall j {:trigger c[j]} :: 0 <= j < i ==> abs(t.nodes[c[j]].key) != abs(k)
      decreases |c| - i
    {
      assert t.nodes[node].next == NextOf(c, i);
      prev, node, i := node, t.nodes[node].next, i + 1;
    }
    if i == |c| { NotThere(t, chains, func, abs, hash, m, abs(k)); }
  }

  lemma NotThere<K(!new), V, A(!new)>(t: Table<K, V>, chains: seq<seq<Ptr>>, func: K -> nat, abs: K -> A,
                                      hash: A -> nat, m: map<A, V>, a: A)
    requires Stands(t, chains, func, abs, hash, m) && hash(a) < HASH_TABLE_SIZE
    requires forall j {:trigger chains[hash(a)][j]} ::
      0 <= j < |chains[hash(a)]| ==> abs(t.nodes[chains[hash(a)][j]].key) != a
    ensures a !in m
  {
    assert a in m ==> Has(t, chains[hash(a)], abs, a);
  }

  /** defalut_get */
  method HashGet<K(!new), V, A(!new)>(t: Table<K, V>, func: K -> nat, equal: (K, K) -> bool, k: K,
                                      ghost abs: K -> A, ghost hash: A -> nat, ghost m: map<A, V>)
    returns (r: Option<V>)
    requires Lawful(func, equal, abs, hash) && TableIs(t, func, abs, hash, m)
    ensures r == if abs(k) in m then Some(m[abs(k)]) else None
  {
    ghost var chains :| Stands(t, chains, func, abs, hash, m);
    hide Lawful, Stands;
    var prev, node;
    ghost var i;
    prev, node, i := FindNode(t, func, equal, k, chains, abs, hash, m);
    NodeNotNull(t, chains, func, abs, hash, m, func(k), i);
    r := if node == NULL then None else Some(t.nodes[node].value);
  }

  lemma NodeNotNull<K(!new), V, A(!new)>(t: Table<K, V>, chains: seq<seq<Ptr>>, func: K -> nat, abs: K -> A,
                                         hash: A -> nat, m: map<A, V>, b: nat, i: nat)
    requires Stands(t, chains, func, abs, hash, m) && b < HASH_TABLE_SIZE
    ensures i < |chains[b]| ==> chains[b][i] != NULL && chains[b][i] in t.nodes
  {
  }

  /** default_put, with the page that it has allocated for the node. */
  method HashPut<K(!new), V, A(!new)>(t: Table<K, V>, func: K -> nat, equal: (K, K) -> bool, k: K, v: V, page: Ptr,
                                      ghost abs: K -> A, ghost hash: A -> nat, ghost m: map<A, V>)
    returns (ret: int, t': Table<K, V>)
    requires Lawful(func, equal, abs, hash) && TableIs(t, func, abs, hash, m) && page != NULL && page !in t.nodes
    ensures ret == if abs(k) in m then -1 else 0
    ensures ret != 0 ==> t' == t
    ensures ret == 0 ==> TableIs(t', func, abs, hash, m[abs(k) := v]) && t'.nodes.Keys == t.nodes.Keys + {page}
  {
    hide TableIs;
    t' := t;
    var present := HashGet(t, func, equal, k, abs, hash, m);
    if present != None { return -1, t; }
    var b := func(k);
    assert |t.heads| == HASH_TABLE_SIZE by { HeadsCount(t, func, abs, hash, m); }
    t' := Table(t.heads[b := page], t.nodes[page := HashNode(k, v, t.heads[b])]);
    PutStands(t, func, equal, k, v, page, abs, hash, m);
    ret := 0;
  }

  lemma HeadsCount<K, V, A(!new)>(t: Table<K, V>, func: K -> nat, abs: K -> A, hash: A -> nat, m: map<A, V>)
    requires TableIs(t, func, abs, hash, m)
    ensures |t.heads| == HASH_TABLE_SIZE
  {
  }

  lemma PutStands<K(!new), V, A(!new)>(t: Table<K, V>, func: K -> nat, equal: (K, K) -> bool, k: K, v: V, page: Ptr,
                                       abs: K -> A, hash: A -> nat, m: map<A, V>)
    requires Lawful(func, equal, abs, hash) && TableIs(t, func, abs, hash, m) && page != NULL && page !in t.nodes
    requires abs(k) !in m
    requires |t.heads| == HASH_TABLE_SIZE
    ensures func(k) < HASH_TABLE_SIZE
    ensures var t' := Table(t.heads[func(k) := page], t.nodes[page := HashNode(k, v, t.heads[func(k)])]);
            TableIs(t', func, abs, hash, m[abs(k) := v])
  {
    var chains :| Stands(t, chains, func, abs, hash, m);
    hide Has, Chained, BucketOk;
    var b := func(k);
    var t' := Table(t.heads[b := page], t.nodes[page := HashNode(k, v, t.heads[b])]);
    var m' := m[abs(k) := v];
    var chains' := chains[b := [page] + chains[b]];
    forall x | 0 <= x < HASH_TABLE_SIZE
      ensures Chained(t', t'.heads[x], chains'[x]) && BucketOk(t', chains'[x], x, func, abs, m')
    {
      assert Chained(t, t.heads[x], chains[x]) && BucketOk(t, chains[x], x, func, abs, m);
      if x == b {
        PutBucket(t, chains[b], b, func, abs, m, k, v, page);
      } else {
        OtherBucket(t, t', chains[x], x, t.heads[x], func, abs, m, m');
      }
    }
    forall a | a in m' && hash(a) < HASH_TABLE_SIZE ensures Has(t', chains'[hash(a)], abs, a) {
      if a == abs(k) {
        HasFirst(t', page, chains[b], abs);
      } else {
        assert a in m && Has(t, chains[hash(a)], abs, a);
        HasStill(t, t', page, chains[hash(a)], abs, a);
      }
    }
    assert Stands(t', chains', func, abs, hash, m');
  }

  lemma HasFirst<K, V, A(!new)>(t: Table<K, V>, page: Ptr, c: seq<Ptr>, abs: K -> A)
    requires page in t.nodes
    ensures Has(t, [page] + c, abs, abs(t.nodes[page].key))
  {
    assert ([page] + c)[0] == page;
  }

  lemma HasStill<K, V, A(!new)>(t: Table<K, V>, t': Table<K, V>, page: Ptr, c: seq<Ptr>, abs: K -> A, a: A)
    requires Has(t, c, abs, a) && page !in t.nodes
    requires forall p {:trigger p in t'.nodes} :: p in t.nodes ==> p in t'.nodes && t'.nodes[p].key == t.nodes[p].key
    ensures Has(t', c, abs, a) && Has(t', [page] + c, abs, a)
  {
    var i :| 0 <= i < |c| && c[i] in t.nodes && abs(t.nodes[c[i]].key) == a;
    assert c[i] in t'.nodes && ([page] + c)[i + 1] == c[i];
  }

  lemma PutBucket<K(!new), V, A(!new)>(t: Table<K, V>, c: seq<Ptr>, b: nat, func: K -> nat, abs: K -> A, m: map<A, V>,
                                       k: K, v: V, page: Ptr)
    requires b < |t.heads| && Chained(t, t.heads[b], c) && BucketOk(t, c, b, func, abs, m)
    requires page != NULL && page !in t.nodes && abs(k) !in m && func(k) == b
    ensures var t' := Table(t.heads[b := page], t.nodes[page := HashNode(k, v, t.heads[b])]);
            Chained(t', page, [page] + c) && BucketOk(t', [page] + c, b, func, abs, m[abs(k) := v])
  {
    PutChained(t, c, b, k, v, page);
    hide Chained;
    var t' := Table(t.heads[b := page], t.nodes[page := HashNode(k, v, t.heads[b])]);
    var c' := [page] + c;
    forall i, j | 0 <= i < j < |c'| ensures abs(t'.nodes[c'[i]].key) != abs(t'.nodes[c'[j]].key) {
      assert c'[j] == c[j - 1];
      if i > 0 { assert c'[i] == c[i - 1]; }
    }
    forall i | 0 <= i < |c'|
      ensures func(t'.nodes[c'[i]].key) == b && abs(t'.nodes[c'[i]].key) in m[abs(k) := v] &&
              m[abs(k) := v][abs(t'.nodes[c'[i]].key)] == t'.nodes[c'[i]].value
    {
      if i > 0 { assert c'[i] == c[i - 1]; }
    }
  }

  lemma PutChained<K, V>(t: Table<K, V>, c: seq<Ptr>, b: nat, k: K, v: V, page: Ptr)
    requires b < |t.heads| && Chained(t, t.heads[b], c) && page != NULL && page !in t.nodes
    ensures var t' := Table(t.heads[b := page], t.nodes[page := HashNode(k, v, t.heads[b])]);
            && Chained(t', page, [page] + c)
            && forall i {:trigger ([page] + c)[i]} :: 0 <= i <= |c| ==> ([page] + c)[i] in t'.nodes
  {
    var t' := Table(t.heads[b := page], t.nodes[page := HashNode(k, v, t.heads[b])]);
    var c' := [page] + c;
    forall i | 0 <= i < |c'| ensures c'[i] != NULL && c'[i] in t'.nodes { if i > 0 { assert c'[i] == c[i - 1]; } }
    forall i: nat | i < |c'| ensures t'.nodes[c'[i]].next == NextOf(c', i) {
      if i > 0 {
        assert c'[i] == c[i - 1];
        assert NextOf(c', i) == NextOf(c, i - 1);
      }
    }
  }

  // A bucket whose nodes and whose part of the map did not change.
  lemma OtherBucket<K(!new), V, A(!new)>(t: Table<K, V>, t': Table<K, V>, c: seq<Ptr>, b: nat, head: Ptr,
                                         func: K -> nat, abs: K -> A, m: map<A, V>, m': map<A, V>)
    requires Chained(t, head, c) && BucketOk(t, c, b, func, abs, m)
    requires forall i {:trigger c[i]} :: 0 <= i < |c| ==> c[i] in t'.nodes && t'.nodes[c[i]] == t.nodes[c[i]]
    requires forall i {:trigger c[i]} :: 0 <= i < |c| ==> var a := abs(t.nodes[c[i]].key); a in m' && m'[a] == m[a]
    ensures Chained(t', head, c) && BucketOk(t', c, b, func, abs, m')
  {
  }

  /** default_erase */
  method HashErase<K(!new), V, A(!new)>(t: Table<K, V>, func: K -> nat, equal: (K, K) -> bool, k: K,
                                        ghost abs: K -> A, ghost hash: A -> nat, ghost m: map<A, V>)
    returns (ret: int, t': Table<K, V>)
    requires Lawful(func, equal, abs, hash) && TableIs(t, func, abs, hash, m)
    ensures ret == if abs(k) in m then 0 else -1
    ensures TableIs(t', func, abs, hash, m - {abs(k)}) && t'.nodes.Keys <= t.nodes.Keys
  {
    ghost var chains :| Stands(t, chains, func, abs, hash, m);
    hide Lawful, Stands, TableIs;
    var prev, node;
    ghost var i;
    prev, node, i := FindNode(t, func, equal, k, chains, abs, hash, m);
    NodeNotNull(t, chains, func, abs, hash, m, func(k), i);
    if i > 0 { NodeNotNull(t, chains, func, abs, hash, m, func(k), i - 1); }
    if node == NULL {
      assert m - {abs(k)} == m;
      StandsIs(t, chains, func, abs, hash, m);
      return -1, t;
    }
    HeadsOf(t, chains, func, abs, hash, m);
    if prev == NULL {
      t' := Table(t.heads[func(k) := t.nodes[node].next], t.nodes - {node});
    } else {
      t' := Table(t.heads, t.nodes[prev := t.nodes[prev].(next := t.nodes[node].next)] - {node});
    }
    EraseStands(t, t', chains, func, equal, abs, hash, m, k, i);
    ret := 0;
  }

  lemma HeadsOf<K, V, A(!new)>(t: Table<K, V>, chains: seq<seq<Ptr>>, func: K -> nat, abs: K -> A, hash: A -> nat,
                               m: map<A, V>)
    requires Stands(t, chains, func, abs, hash, m)
    ensures |t.heads| == |chains| == HASH_TABLE_SIZE
  {
  }

  lemma StandsIs<K, V, A(!new)>(t: Table<K, V>, chains: seq<seq<Ptr>>, func: K -> nat, abs: K -> A, hash: A -> nat,
                                m: map<A, V>)
    requires Stands(t, chains, func, abs, hash, m)
    ensures TableIs(t, func, abs, hash, m)
  {
  }

  // The table without node i of bucket b.
  ghost function Unlinked<K, V>(t: Table<K, V>, c: seq<Ptr>, b: nat, i: nat): Table<K, V>
    requires b < |t.heads| && i < |c| && c[i] in t.nodes && (i > 0 ==> c[i - 1] in t.nodes)
  {
    if i == 0 then Table(t.heads[b := t.nodes[c[0]].next], t.nodes - {c[0]})
    else Table(t.heads, t.nodes[c[i - 1] := t.nodes[c[i - 1]].(next := t.nodes[c[i]].next)] - {c[i]})
  }

  lemma EraseStands<K(!new), V, A(!new)>(t: Table<K, V>, t': Table<K, V>, chains: seq<seq<Ptr>>, func: K -> nat,
                                         equal: (K, K) -> bool, abs: K -> A, hash: A -> nat, m: map<A, V>, k: K, i: nat)
    requires Lawful(func, equal, abs, hash) && Stands(t, chains, func, abs, hash, m)
    requires |chains| == |t.heads| == HASH_TABLE_SIZE && func(k) < HASH_TABLE_SIZE && i < |chains[func(k)]|
    requires chains[func(k)][i] in t.nodes && (i > 0 ==> chains[func(k)][i - 1] in t.nodes)
    requires abs(t.nodes[chains[func(k)][i]].key) == abs(k) && t' == Unlinked(t, chains[func(k)], func(k), i)
    ensures TableIs(t', func, abs, hash, m - {abs(k)})
  {
    hide Has;
    var b := func(k);
    var c := chains[b];
    var chains', m' := chains[b := c[..i] + c[i + 1..]], m - {abs(k)};
    forall x | 0 <= x < HASH_TABLE_SIZE
      ensures Chained(t', t'.heads[x], chains'[x]) && BucketOk(t', chains'[x], x, func, abs, m')
    {
      assert Chained(t, t.heads[x], chains[x]) && BucketOk(t, chains[x], x, func, abs, m);
      if x == b {
        EraseBucket(t, t', c, b, func, abs, m, k, i);
      } else {
        assert BucketOk(t, chains[b], b, func, abs, m);
        EraseElsewhere(t, t', c, chains[x], b, x, func, equal, abs, hash, m, k, i);
      }
    }
    forall a | a in m' && hash(a) < HASH_TABLE_SIZE ensures Has(t', chains'[hash(a)], abs, a) {
      assert BucketOk(t, chains[b], b, func, abs, m) && BucketOk(t, chains[hash(a)], hash(a), func, abs, m);
      assert a in m && Has(t, chains[hash(a)], abs, a);
      EraseKeeps(t, t', c, chains[hash(a)], b, hash(a), func, abs, m, k, i, a);
    }
    assert Stands(t', chains', func, abs, hash, m');
  }

  // The other buckets.
  lemma EraseElsewhere<K(!new), V, A(!new)>(t: Table<K, V>, t': Table<K, V>, c: seq<Ptr>, d: seq<Ptr>, b: nat, x: nat,
                                            func: K -> nat, equal: (K, K) -> bool, abs: K -> A, hash: A -> nat,
                                            m: map<A, V>, k: K, i: nat)
    requires Lawful(func, equal, abs, hash) && BucketOk(t, c, b, func, abs, m) && BucketOk(t, d, x, func, abs, m)
    requires b != x
    requires b < |t.heads| && x < |t.heads| && Chained(t, t.heads[x], d) && func(k) == b && i < |c|
    requires c[i] in t.nodes && (i > 0 ==> c[i - 1] in t.nodes) && t' == Unlinked(t, c, b, i)
    ensures Chained(t', t'.heads[x], d) && BucketOk(t', d, x, func, abs, m - {abs(k)})
  {
    ElsewhereNode(t, c, d, b, x, func, abs, m);
    forall j | 0 <= j < |d|
      ensures d[j] in t'.nodes && t'.nodes[d[j]] == t.nodes[d[j]] && abs(t.nodes[d[j]].key) != abs(k)
    {
      assert d[j] != c[i] && (i > 0 ==> d[j] != c[i - 1]);
      assert func(t.nodes[d[j]].key) == x;
    }
    OtherBucket(t, t', d, x, t.heads[x], func, abs, m, m - {abs(k)});
  }

  // Every other key is still there.
  lemma EraseKeeps<K(!new), V, A(!new)>(t: Table<K, V>, t': Table<K, V>, c: seq<Ptr>, d: seq<Ptr>, b: nat, x: nat,
                                        func: K -> nat, abs: K -> A, m: map<A, V>, k: K, i: nat, a: A)
    requires BucketOk(t, c, b, func, abs, m) && BucketOk(t, d, x, func, abs, m) && (b == x ==> d == c)
    requires b < |t.heads| && i < |c| && c[i] in t.nodes && (i > 0 ==> c[i - 1] in t.nodes)
    requires t' == Unlinked(t, c, b, i)
    requires abs(t.nodes[c[i]].key) == abs(k) && a != abs(k) && Has(t, d, abs, a)
    ensures Has(t', if b == x then c[..i] + c[i + 1..] else d, abs, a)
  {
    var j :| 0 <= j < |d| && d[j] in t.nodes && abs(t.nodes[d[j]].key) == a;
    if b == x {
      assert j != i;
      var c' := c[..i] + c[i + 1..];
      assert c'[if j < i then j else j - 1] == c[j];
      assert c[j] != c[i];
    } else {
      ElsewhereNode(t, c, d, b, x, func, abs, m);
      assert d[j] != c[i];
    }
  }

  lemma ElsewhereNode<K(!new), V, A(!new)>(t: Table<K, V>, c: seq<Ptr>, d: seq<Ptr>, b: nat, x: nat, func: K -> nat,
                                           abs: K -> A, m: map<A, V>)
    requires BucketOk(t, c, b, func, abs, m) && BucketOk(t, d, x, func, abs, m) && b != x
    ensures forall i, j {:trigger c[i], d[j]} :: 0 <= i < |c| && 0 <= j < |d| ==> c[i] != d[j]
  {
  }

  // The nodes of a bucket are different.
  lemma NodesDiffer<K(!new), V, A(!new)>(t: Table<K, V>, c: seq<Ptr>, b: nat, func: K -> nat, abs: K -> A, m: map<A, V>)
    requires BucketOk(t, c, b, func, abs, m)
    ensures forall x, y {:trigger c[x], c[y]} :: 0 <= x < y < |c| ==> c[x] != c[y]
  {
    forall x, y | 0 <= x < y < |c| ensures c[x] != c[y] {
      assert abs(t.nodes[c[x]].key) != abs(t.nodes[c[y]].key);
    }
  }

  lemma EraseBucket<K(!new), V, A(!new)>(t: Table<K, V>, t': Table<K, V>, c: seq<Ptr>, b: nat, func: K -> nat,
                                         abs: K -> A, m: map<A, V>, k: K, i: nat)
    requires b < |t.heads| && Chained(t, t.heads[b], c) && BucketOk(t, c, b, func, abs, m) && i < |c|
    requires c[i] in t.nodes && (i > 0 ==> c[i - 1] in t.nodes) && abs(t.nodes[c[i]].key) == abs(k)
    requires t' == Unlinked(t, c, b, i)
    ensures Chained(t', t'.heads[b], c[..i] + c[i + 1..])
    ensures BucketOk(t', c[..i] + c[i + 1..], b, func, abs, m - {abs(k)})
  {
    hide Chained, BucketOk;
    NodesDiffer(t, c, b, func, abs, m);
    EraseChained(t, t', c, b, i);
    EraseBucketOk(t, t', c, b, func, abs, m, k, i);
  }

  lemma EraseChained<K, V>(t: Table<K, V>, t': Table<K, V>, c: seq<Ptr>, b: nat, i: nat)
    requires b < |t.heads| && Chained(t, t.heads[b], c) && i < |c| && c[i] in t.nodes && (i > 0 ==> c[i - 1] in t.nodes)
    requires t' == Unlinked(t, c, b, i)
    requires forall x, y {:trigger c[x], c[y]} :: 0 <= x < y < |c| ==> c[x] != c[y]
    ensures Chained(t', t'.heads[b], c[..i] + c[i + 1..])
  {
    var c' := c[..i] + c[i + 1..];
    forall j | 0 <= j < |c'| ensures c'[j] in t'.nodes && c'[j] != NULL {
      assert c'[j] == c[From(i, j)] && c[From(i, j)] != c[i];
    }
    forall j: nat | j < |c'| ensures t'.nodes[c'[j]].next == NextOf(c', j) { EraseNext(t, t', c, b, i, j); }
    assert t.nodes[c[0]].next == NextOf(c, 0);
    assert c' != [] ==> c'[0] == c[From(i, 0)];
  }

  lemma EraseBucketOk<K(!new), V, A(!new)>(t: Table<K, V>, t': Table<K, V>, c: seq<Ptr>, b: nat, func: K -> nat,
                                           abs: K -> A, m: map<A, V>, k: K, i: nat)
    requires b < |t.heads| && BucketOk(t, c, b, func, abs, m) && i < |c|
    requires c[i] in t.nodes && (i > 0 ==> c[i - 1] in t.nodes) && abs(t.nodes[c[i]].key) == abs(k)
    requires t' == Unlinked(t, c, b, i)
    requires forall x, y {:trigger c[x], c[y]} :: 0 <= x < y < |c| ==> c[x] != c[y]
    ensures BucketOk(t', c[..i] + c[i + 1..], b, func, abs, m - {abs(k)})
  {
    var c' := c[..i] + c[i + 1..];
    forall j | 0 <= j < |c'|
      ensures c'[j] == c[From(i, j)] && c'[j] in t'.nodes && c'[j] in t.nodes
      ensures t'.nodes[c'[j]].key == t.nodes[c'[j]].key && t'.nodes[c'[j]].value == t.nodes[c'[j]].value
      ensures abs(t.nodes[c'[j]].key) != abs(k)
    {
      var x := From(i, j);
      assert c'[j] == c[x] && x != i && c[x] != c[i];
    }
    forall x, y | 0 <= x < y < |c'| ensures abs(t'.nodes[c'[x]].key) != abs(t'.nodes[c'[y]].key) {
      assert c'[x] == c[From(i, x)] && c'[y] == c[From(i, y)];
    }
  }

  lemma EraseNext<K, V>(t: Table<K, V>, t': Table<K, V>, c: seq<Ptr>, b: nat, i: nat, j: nat)
    requires b < |t.heads| && Chained(t, t.heads[b], c) && i < |c| && c[i] in t.nodes && (i > 0 ==> c[i - 1] in t.nodes)
    requires t' == Unlinked(t, c, b, i) && j < |c| - 1
    requires forall x, y {:trigger c[x], c[y]} :: 0 <= x < y < |c| ==> c[x] != c[y]
    ensures var c' := c[..i] + c[i + 1..]; c'[j] in t'.nodes && t'.nodes[c'[j]].next == NextOf(c', j)
  {
    var c', x := c[..i] + c[i + 1..], From(i, j);
    assert c'[j] == c[x] && c[x] != c[i];
    assert t.nodes[c[x]].next == NextOf(c, x) && t.nodes[c[i]].next == NextOf(c, i);
    assert NextOf(c', j) == if x == i - 1 then NextOf(c, i) else NextOf(c, x);
    assert x != i - 1 && i > 0 ==> c[x] != c[i - 1];
  }

  function From(i: nat, j: nat): nat { if j < i then j else j + 1 }
}
