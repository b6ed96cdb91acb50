/**
 * Nested dictionaries built by inserting values at paths: the tree that `parse_query_params` grows.
 * A node keeps its keys in insertion order, as a Python dictionary does.
 */
module PathTrees {
  import opened Options

  datatype Tree<K, V> = Text(text: V) | Node(order: seq<K>, kids: map<K, Tree<K, V>>)

  // --- Insertion and lookup ----------------------------------------------------

  /** `node[key] = child`: a new key goes to the end, an old one keeps its place. */
  function Put<K(==), V>(order: seq<K>, kids: map<K, Tree<K, V>>, key: K, child: Tree<K, V>): Tree<K, V> {
    Node(if key in kids then order else order + [key], kids[key := child])
  }

  /** The child to walk into: what is there, or a fresh dictionary. */
  function Child<K(==), V>(kids: map<K, Tree<K, V>>, key: K): Tree<K, V> {
    if key in kids then kids[key] else Node([], map[])
  }

  /** Store a value at a path, replacing whatever stands in the way by fresh dictionaries. */
  function Insert<K(==), V>(t: Tree<K, V>, path: seq<K>, v: V): Tree<K, V>
    decreases |path|
  {
    if path == [] then Text(v)
    else if t.Node? then Put(t.order, t.kids, path[0], Insert(Child(t.kids, path[0]), path[1..], v))
    else Put([], map[], path[0], Insert(Node([], map[]), path[1..], v))
  }

  function Get<K(==), V>(t: Tree<K, V>, path: seq<K>): Option<V>
    decreases |path|
  {
    if path == [] then (if t.Text? then Some(t.text) else None)
    else if t.Node? && path[0] in t.kids then Get(t.kids[path[0]], path[1..])
    else None
  }

  /** One path runs through the other. */
  predicate Related<K(==)>(p: seq<K>, q: seq<K>) {
    p <= q || q <= p
  }

  lemma RelatedTails<K>(p: seq<K>, q: seq<K>)
    requires p != [] && q != []
    ensures Related(p, q) <==> p[0] == q[0] && Related(p[1..], q[1..])
    ensures p == q <==> p[0] == q[0] && p[1..] == q[1..]
  {
    assert p == [p[0]] + p[1..] && q == [q[0]] + q[1..];
  }

  /**
   * What an insertion does to every path: the inserted one holds the value, those that run through
   * it hold nothing, and all others are as they were.
   */
  lemma {:induction false} GetInsert<K, V>(t: Tree<K, V>, p: seq<K>, v: V, q: seq<K>)
    ensures Get(Insert(t, p, v), q) == if p == q then Some(v) else if Related(p, q) then None else Get(t, q)
    decreases |p|
  {
    if p != [] && q != [] {
      RelatedTails(p, q);
      if p[0] == q[0] {
        var child := if t.Node? then Child(t.kids, p[0]) else Node([], map[]);
        GetInsert(child, p[1..], v, q[1..]);
      }
    }
  }

  // --- Well-formed trees, and what determines them -----------------------------

  /** The key list is that of the dictionary, each key once. */
  ghost predicate Keyed<K, V>(order: seq<K>, kids: map<K, Tree<K, V>>) {
    && (forall i, j | 0 <= i < j < |order| :: order[i] != order[j])
    && (forall k | k in order :: k in kids) && (forall k | k in kids :: k in order)
  }

  /** No empty dictionary anywhere in the tree. */
  ghost predicate Solid<K, V>(t: Tree<K, V>) {
    t.Node? ==> t.order != [] && Keyed(t.order, t.kids) && forall k | k in t.kids :: Solid(t.kids[k])
  }

  /** A root: a dictionary that may be empty, over solid trees. */
  ghost predicate SolidRoot<K, V>(t: Tree<K, V>) {
    t.Node? && Keyed(t.order, t.kids) && forall k | k in t.kids :: Solid(t.kids[k])
  }

  lemma PutKeyed<K, V>(order: seq<K>, kids: map<K, Tree<K, V>>, key: K, child: Tree<K, V>)
    requires Keyed(order, kids) && Solid(child) && forall k | k in kids :: Solid(kids[k])
    ensures SolidRoot(Put(order, kids, key, child)) && Solid(Put(order, kids, key, child))
  {
    var t := Put(order, kids, key, child);
    assert key in order + [key];
  }

  /** An insertion below the root keeps the tree solid, whatever it overwrites. */
  lemma {:induction false} InsertSolid<K, V>(t: Tree<K, V>, p: seq<K>, v: V)
    requires Solid(t) || SolidRoot(t)
    ensures Solid(Insert(t, p, v)) && (p != [] ==> SolidRoot(Insert(t, p, v)))
    decreases |p|
  {
    if p != [] {
      var child := if t.Node? then Child(t.kids, p[0]) else Node([], map[]);
      InsertSolid(child, p[1..], v);
      if t.Node? {
        PutKeyed(t.order, t.kids, p[0], Insert(child, p[1..], v));
      } else {
        PutKeyed([], map[], p[0], Insert(child, p[1..], v));
      }
    }
  }

  /** Every solid tree holds a value somewhere. */
  lemma {:induction false} SolidHasLeaf<K, V>(t: Tree<K, V>) returns (q: seq<K>)
    requires Solid(t)
    ensures Get(t, q).Some?
    decreases t
  {
    if t.Text? {
      q := [];
    } else {
      var k := t.order[0];
      assert k in t.order;
      var rest := SolidHasLeaf(t.kids[k]);
      q := [k] + rest;
    }
  }

  // --- The order of keys -------------------------------------------------------

  /** The keys of the dictionary at a path, in their order; none if there is no dictionary. */
  function OrderAt<K(==), V>(t: Tree<K, V>, p: seq<K>): seq<K>
    decreases |p|
  {
    if !t.Node? then []
    else if p == [] then t.order
    else if p[0] in t.kids then OrderAt(t.kids[p[0]], p[1..])
    else []
  }

  /** A key list after a value was stored below one of its keys: a new key goes to the end. */
  function WithKey<K(==)>(order: seq<K>, key: K): seq<K> {
    if key in order then order else order + [key]
  }

  lemma PrefixTails<K>(p: seq<K>, q: seq<K>)
    requires p != [] && q != []
    ensures p <= q <==> p[0] == q[0] && p[1..] <= q[1..]
    ensures p < q <==> p[0] == q[0] && p[1..] < q[1..]
  {
    if p[0] == q[0] && p[1..] <= q[1..] {
      assert p == [p[0]] + p[1..] && q == [q[0]] + q[1..];
    }
  }

  /**
   * What storing at `s` does to the keys at every path: below or at `s` there is no dictionary any
   * more, on the way to `s` the next segment is a key, and nothing else changes.
   */
  lemma {:induction false} OrderInsert<K, V>(t: Tree<K, V>, s: seq<K>, v: V, p: seq<K>)
    requires Solid(t) || SolidRoot(t)
    ensures OrderAt(Insert(t, s, v), p) ==
              if s <= p then [] else if p < s then WithKey(OrderAt(t, p), s[|p|]) else OrderAt(t, p)
    decreases |s|
  {
    if s != [] {
      var child := if t.Node? then Child(t.kids, s[0]) else Node([], map[]);
      if p != [] {
        PrefixTails(s, p);
        PrefixTails(p, s);
        if p[0] == s[0] {
          OrderInsert(child, s[1..], v, p[1..]);
        }
      }
    }
  }
}
