/**
 * The walk of `parse_query_params` as the program does it: dictionaries that refer to each other
 * and are changed in place.  Storing a value at a path is proved to be `PathTrees.Insert` on the
 * tree that the dictionaries stand for.
 */
module QueryHeap {
  import opened PathTrees
  import opened QueryParams
  import opened QueryText

  datatype Entry<K(==), !V> = Str(text: V) | Sub(dict: Dict<K, V>)

  class Dict<K(==), V> {
    var order: seq<K>
    var entries: map<K, Entry<K, V>>
    ghost var repr: set<Dict<K, V>>

    constructor ()
      ensures Valid() && repr == {this} && Value() == Node([], map[])
    {
      order, entries := [], map[];
      repr := {this};
    }

    /** The dictionaries form a tree: sub-dictionaries are below, and share nothing. */
    ghost predicate Valid()
      reads this, repr
      decreases repr
    {
      && this in repr
      && (forall k | k in entries && entries[k].Sub? ::
            && entries[k].dict in repr && entries[k].dict.repr < repr && this !in entries[k].dict.repr
            && entries[k].dict.Valid())
      && (forall k, l | k in entries && l in entries && k != l && entries[k].Sub? && entries[l].Sub? ::
            entries[k].dict.repr !! entries[l].dict.repr)
    }

    ghost function EntryValue(k: K): Tree<K, V>
      requires Valid() && k in entries
      reads this, repr
      decreases repr, 0
    {
      match entries[k]
      case Str(s) => Text(s)
      case Sub(d) => d.Value()
    }

    /** The tree the dictionary stands for. */
    ghost function Value(): Tree<K, V>
      requires Valid()
      reads this, repr
      decreases repr, 1
    {
      Node(order, map k | k in entries :: EntryValue(k))
    }
  }

  /** A dictionary whose entries are those of a node but for one is that node with the one put in. */
  lemma ValueIsPut<K, V>(d: Dict<K, V>, before: Tree<K, V>, segment: K, child: Tree<K, V>)
    requires d.Valid() && before.Node? && d.order == Put(before.order, before.kids, segment, child).order
    requires d.entries.Keys == before.kids.Keys + {segment} && d.EntryValue(segment) == child
    requires forall k | k in before.kids && k != segment :: d.EntryValue(k) == before.kids[k]
    ensures d.Value() == Put(before.order, before.kids, segment, child)
  {
    assert d.Value().kids == before.kids[segment := child];
  }

  /** `cursor[segment] = value`. */
  method StoreLeaf<K(==), V>(cursor: Dict<K, V>, segment: K, value: V)
    requires cursor.Valid()
    modifies cursor
    ensures cursor.Valid() && cursor.repr == old(cursor.repr)
    ensures cursor.Value() == Put(old(cursor.Value()).order, old(cursor.Value()).kids, segment, Text(value))
  {
    ghost var before := cursor.Value();
    cursor.order := if segment in cursor.entries then cursor.order else cursor.order + [segment];
    cursor.entries := cursor.entries[segment := Str(value)];
    assert cursor.Valid();
    forall k | k in before.kids && k != segment
      ensures cursor.EntryValue(k) == old(cursor.EntryValue(k))
    {
    }
    ValueIsPut(cursor, before, segment, Text(value));
  }

  /** `cursor[segment] = fresh`, for a new dictionary. */
  method AttachFresh<K(==), V>(cursor: Dict<K, V>, segment: K)
    requires cursor.Valid()
    modifies cursor
    ensures cursor.Valid() && fresh(cursor.repr - old(cursor.repr))
    ensures segment in cursor.entries && cursor.entries[segment].Sub?
    ensures cursor.Value() == Put(old(cursor.Value()).order, old(cursor.Value()).kids, segment, Node([], map[]))
  {
    ghost var before := cursor.Value();
    var made := new Dict<K, V>();
    cursor.order := if segment in cursor.entries then cursor.order else cursor.order + [segment];
    cursor.entries := cursor.entries[segment := Sub(made)];
    cursor.repr := cursor.repr + {made};
    assert cursor.Valid();
    forall k | k in before.kids && k != segment
      ensures cursor.EntryValue(k) == old(cursor.EntryValue(k))
    {
    }
    ValueIsPut(cursor, before, segment, Node([], map[]));
  }

  /** The walk goes on in an existing sub-dictionary. */
  method StoreBelow<K(==), V>(cursor: Dict<K, V>, segment: K, rest: seq<K>, value: V)
    requires cursor.Valid() && rest != [] && segment in cursor.entries && cursor.entries[segment].Sub?
    modifies cursor.repr
    ensures cursor.Valid() && fresh(cursor.repr - old(cursor.repr))
    ensures cursor.Value() == Put(old(cursor.Value()).order, old(cursor.Value()).kids, segment,
                                  Insert(old(cursor.Value()).kids[segment], rest, value))
    decreases |rest|, 2
  {
    ghost var before := cursor.Value();
    var existing := cursor.entries[segment].dict;
    assert before.kids[segment] == cursor.EntryValue(segment);
    Store(existing, rest, value);
    assert cursor.entries == old(cursor.entries) && cursor.order == old(cursor.order);
    forall k | k in cursor.entries && k != segment && cursor.entries[k].Sub?
      ensures cursor.entries[k].dict.Valid() && cursor.entries[k].dict.repr == old(cursor.entries[k].dict.repr)
      ensures cursor.entries[k].dict.Value() == old(cursor.entries[k].dict.Value())
      ensures cursor.entries[k].dict.repr !! existing.repr
    {
    }
    cursor.repr := cursor.repr + existing.repr;
    assert cursor.Valid();
    forall k | k in before.kids && k != segment
      ensures cursor.EntryValue(k) == before.kids[k]
    {
      assert before.kids[k] == old(cursor.EntryValue(k));
    }
    ValueIsPut(cursor, before, segment, existing.Value());
  }

  /** One turn of the walk per call: follow or make the sub-dictionary, until the last segment. */
  method Store<K(==), V>(cursor: Dict<K, V>, segments: seq<K>, value: V)
    requires cursor.Valid() && segments != []
    modifies cursor.repr
    ensures cursor.Valid() && fresh(cursor.repr - old(cursor.repr))
    ensures cursor.Value() == Insert(old(cursor.Value()), segments, value)
    decreases |segments|, 1
  {
    var segment := segments[0];
    if |segments| == 1 {
      StoreLeaf(cursor, segment, value);
    } else if segment in cursor.entries && cursor.entries[segment].Sub? {
      StoreBelow(cursor, segment, segments[1..], value);
    } else {
      AttachFresh(cursor, segment);
      StoreBelow(cursor, segment, segments[1..], value);
    }
  }

  /** One parameter: a name without segments is skipped. */
  method StorePair(tree: Dict<string, string>, pair: Pair)
    requires tree.Valid()
    modifies tree.repr
    ensures tree.Valid() && fresh(tree.repr - old(tree.repr))
    ensures tree.Value() == QueryParams.Store(old(tree.Value()), pair)
  {
    var segments := KeepCounting(Split(pair.key));
    if segments != [] {
      Store(tree, segments, pair.value);
    }
  }

  /** The first pass of `parse_query_params`: the dictionaries stand for the tree of the parameters. */
  method BuildInPlace(pairs: seq<Pair>) returns (tree: Dict<string, string>)
    ensures fresh(tree.repr) && tree.Valid() && tree.Value() == Build(pairs)
  {
    tree := new Dict<string, string>();
    for i := 0 to |pairs|
      invariant tree.Valid() && fresh(tree.repr) && tree.Value() == Build(pairs[..i])
    {
      StorePair(tree, pairs[i]);
      BuildNext(pairs, i);
    }
    assert pairs[..|pairs|] == pairs;
  }
}
