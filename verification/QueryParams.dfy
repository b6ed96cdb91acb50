/**
 * The AWS Query protocol's un-flattening: `A.1.B=x` parameters become `{"A": [{"B": "x"}]}`.
 * The flattening that it inverts is the specification: `DocGet` reads a document at a flattened,
 * 1-indexed path.
 */
module QueryParams {
  import opened Options
  import opened PathTrees
  import opened QueryText

  /** A document: strings, lists and string-keyed maps. */
  datatype Doc = Leaf(s: string) | Lst(items: seq<Doc>) | Obj(fields: map<string, Doc>)

  type Path = seq<string>

  type ParamTree = Tree<string, string>

  datatype Pair = Pair(key: string, value: string)

  const LIST_INFIX: string := "member"

  // --- Path segments -----------------------------------------------------------

  /** A segment that counts: neither empty nor the list infix. */
  predicate Counts(segment: string) {
    segment != "" && segment != LIST_INFIX
  }

  function Counting(pieces: seq<string>): seq<string> {
    if pieces == [] then [] else (if Counts(pieces[0]) then [pieces[0]] else []) + Counting(pieces[1..])
  }

  function Segments(key: string): Path {
    Counting(Split(key))
  }

  // --- Building and collapsing -------------------------------------------------

  function Store(t: ParamTree, p: Pair): ParamTree {
    if Segments(p.key) == [] then t else Insert(t, Segments(p.key), p.value)
  }

  function Build(pairs: seq<Pair>): (t: ParamTree)
    ensures SolidRoot(t)
  {
    if pairs == [] then Node([], map[]) else
      var n := |pairs| - 1;
      InsertSolid(Build(pairs[..n]), Segments(pairs[n].key), pairs[n].value);
      Store(Build(pairs[..n]), pairs[n])
  }

  /** The number a key is sorted by. */
  function Num(n: Numerals, key: string): nat {
    if n.toInt(key).Some? then n.toInt(key).value else 0
  }

  /** One more parameter is stored in the tree of those before it. */
  lemma BuildNext(pairs: seq<Pair>, i: nat)
    requires i < |pairs|
    ensures Build(pairs[..i + 1]) == Store(Build(pairs[..i]), pairs[i])
  {
    assert pairs[..i + 1][..i] == pairs[..i];
  }

  /** Insertion into a sorted list, after the keys that are not larger. */
  function InsertKey(n: Numerals, keys: seq<string>, key: string): seq<string> {
    if keys == [] || Num(n, keys[|keys| - 1]) <= Num(n, key) then keys + [key]
    else InsertKey(n, keys[..|keys| - 1], key) + [keys[|keys| - 1]]
  }

  function SortKeys(n: Numerals, order: seq<string>): (keys: seq<string>)
    ensures |keys| == |order| && forall k | k in keys :: k in order
  {
    if order == [] then [] else
      var m := |order| - 1;
      InsertKeyMembers(n, SortKeys(n, order[..m]), order[m]);
      InsertKey(n, SortKeys(n, order[..m]), order[m])
  }

  lemma {:induction false} InsertKeyMembers(n: Numerals, keys: seq<string>, key: string)
    ensures |InsertKey(n, keys, key)| == |keys| + 1
    ensures forall k | k in InsertKey(n, keys, key) :: k in keys || k == key
    decreases |keys|
  {
    if !(keys == [] || Num(n, keys[|keys| - 1]) <= Num(n, key)) {
      InsertKeyMembers(n, keys[..|keys| - 1], key);
    }
  }

  predicate AllIndices(n: Numerals, order: seq<string>) {
    forall i | 0 <= i < |order| :: n.isDigits(order[i])
  }

  predicate AllRead(n: Numerals, order: seq<string>) {
    forall i | 0 <= i < |order| :: n.toInt(order[i]).Some?
  }

  /** A list of values, if none of them failed. */
  function ListOf(items: seq<Option<Doc>>): Option<Doc> {
    if forall i | 0 <= i < |items| :: items[i].Some?
    then Some(Lst(seq(|items|, i requires 0 <= i < |items| && items[i].Some? => items[i].value)))
    else None
  }

  /** A map of values, if none of them failed. */
  function MapOf(fields: map<string, Option<Doc>>): Option<Doc> {
    if forall k | k in fields :: fields[k].Some?
    then Some(Obj(map k | k in fields :: fields[k].value))
    else None
  }

  /**
   * `_collapse_value`: a dictionary whose keys are all digits becomes a list, sorted by `int`.  `None`
   * is the `ValueError` of a key that `int` refuses, here or below.
   */
  function CollapseValue(n: Numerals, t: ParamTree): Option<Doc>
    requires Solid(t)
    decreases t, 1
  {
    match t
    case Text(s) => Some(Leaf(s))
    case Node(order, kids) =>
      if !AllIndices(n, order) then MapOf(Fields(n, t))
      else if !AllRead(n, order) then None
      else ListOf(Items(n, t, SortKeys(n, order)))
  }

  function Fields(n: Numerals, t: ParamTree): map<string, Option<Doc>>
    requires SolidRoot(t)
    decreases t, 0
  {
    map k | k in t.kids :: CollapseValue(n, t.kids[k])
  }

  function Items(n: Numerals, t: ParamTree, keys: seq<string>): seq<Option<Doc>>
    requires SolidRoot(t) && forall k | k in keys :: k in t.kids
    decreases t, 0
  {
    seq(|keys|, i requires 0 <= i < |keys| => assert keys[i] in keys; CollapseValue(n, t.kids[keys[i]]))
  }

  /** `_collapse_indices` at the top: always a map. */
  function CollapseRoot(n: Numerals, t: ParamTree): Option<Doc>
    requires SolidRoot(t)
  {
    MapOf(Fields(n, t))
  }

  function Parse(n: Numerals, pairs: seq<Pair>): Option<Doc> {
    CollapseRoot(n, Build(pairs))
  }

  method ParseQueryParams(n: Numerals, pairs: seq<Pair>) returns (doc: Option<Doc>)
    ensures doc == Parse(n, pairs)
  {
    var tree: ParamTree := Node([], map[]);
    for i := 0 to |pairs|
      invariant tree == Build(pairs[..i])
    {
      assert pairs[..i + 1][..i] == pairs[..i];
      var segments := KeepCounting(Split(pairs[i].key));
      if segments != [] {
        tree := Insert(tree, segments, pairs[i].value);
      }
    }
    assert pairs[..|pairs|] == pairs;
    doc := CollapseRoot(n, tree);
  }

  method KeepCounting(pieces: seq<string>) returns (segments: seq<string>)
    ensures segments == Counting(pieces)
    ensures forall s :: s in segments <==> s in pieces && s != "" && s != "member"
  {
    CountingMembers(pieces);
    segments := [];
    for i := 0 to |pieces|
      invariant segments + Counting(pieces[i..]) == Counting(pieces)
    {
      assert pieces[i..][1..] == pieces[i + 1..];
      if Counts(pieces[i]) {
        segments := segments + [pieces[i]];
      }
    }
  }

  // --- What the built tree holds, for any parameters ---------------------------

  /** The last parameter on, through or below the path decides what is there. */
  function LastWord(pairs: seq<Pair>, q: Path): Option<string> {
    if pairs == [] then None else
      var n := |pairs| - 1;
      var p := Segments(pairs[n].key);
      if p == [] then LastWord(pairs[..n], q)
      else if p == q then Some(pairs[n].value)
      else if Related(p, q) then None
      else LastWord(pairs[..n], q)
  }

  /** For all parameters, conflicting or not, every path of the tree holds its last word. */
  lemma {:induction false} BuildHoldsLastWords(pairs: seq<Pair>, q: Path)
    ensures Get(Build(pairs), q) == LastWord(pairs, q)
    decreases |pairs|
  {
    if pairs != [] {
      var n := |pairs| - 1;
      BuildHoldsLastWords(pairs[..n], q);
      var p := Segments(pairs[n].key);
      if p != [] {
        GetInsert(Build(pairs[..n]), p, pairs[n].value, q);
      }
    }
  }

  /** The keys that the parameters leave at a path, in the order in which they first came up there. */
  function FirstNamed(pairs: seq<Pair>, q: Path): seq<string> {
    if pairs == [] then [] else
      var n := |pairs| - 1;
      var p := Segments(pairs[n].key);
      if p == [] then FirstNamed(pairs[..n], q)
      else if p <= q then []
      else if q < p then WithKey(FirstNamed(pairs[..n], q), p[|q|])
      else FirstNamed(pairs[..n], q)
  }

  /** Every dictionary of the tree has its keys in the order in which the parameters first named them. */
  lemma {:induction false} BuildKeepsKeyOrder(pairs: seq<Pair>, q: Path)
    ensures OrderAt(Build(pairs), q) == FirstNamed(pairs, q)
    decreases |pairs|
  {
    if pairs != [] {
      var n := |pairs| - 1;
      BuildKeepsKeyOrder(pairs[..n], q);
      var p := Segments(pairs[n].key);
      if p != [] {
        OrderInsert(Build(pairs[..n]), p, pairs[n].value, q);
      }
    }
  }

  // --- The flattening, as the specification ------------------------------------

  /** The item a path segment selects: "1" is the first, and only plain decimal counts. */
  predicate Selects(key: string, n: nat) {
    IsDigits(key) && 1 <= ToInt(key) <= n && NatText(ToInt(key)) == key
  }

  /** The string at a flattened path of the document, if the path ends at a string. */
  function DocGet(d: Doc, q: Path): Option<string>
    decreases |q|
  {
    match d
    case Leaf(s) => if q == [] then Some(s) else None
    case Lst(items) => if q != [] && Selects(q[0], |items|) then DocGet(items[ToInt(q[0]) - 1], q[1..]) else None
    case Obj(fields) => if q != [] && q[0] in fields then DocGet(fields[q[0]], q[1..]) else None
  }

  /** The segment that selects item `i`. */
  function ItemKey(i: nat): string {
    NatText(i + 1)
  }

  predicate GoodKey(key: string) {
    Counts(key) && DotFree(key)
  }

  /** A value that flattening can carry: no empty list, no empty or all-digit-keyed map. */
  ghost predicate GoodValue(n: Numerals, d: Doc) {
    match d
    case Leaf(_) => true
    case Lst(items) => items != [] && forall i | 0 <= i < |items| :: GoodValue(n, items[i])
    case Obj(fields) =>
      && (exists k :: k in fields && !n.isDigits(k))
      && forall k | k in fields :: GoodKey(k) && GoodValue(n, fields[k])
  }

  ghost predicate GoodDoc(n: Numerals, d: Doc) {
    d.Obj? && forall k | k in d.fields :: GoodKey(k) && GoodValue(n, d.fields[k])
  }

  /** `int` reads the index of every item of every list: no list is too long for its limit. */
  ghost predicate ItemsReadable(n: Numerals, d: Doc) {
    match d
    case Leaf(_) => true
    case Lst(items) =>
      forall i | 0 <= i < |items| :: n.toInt(ItemKey(i)).Some? && ItemsReadable(n, items[i])
    case Obj(fields) => forall k | k in fields :: ItemsReadable(n, fields[k])
  }

  lemma {:induction false} GoodHasLeaf(n: Numerals, d: Doc) returns (q: Path)
    requires GoodValue(n, d)
    ensures DocGet(d, q).Some?
  {
    match d
    case Leaf(_) => q := [];
    case Lst(items) =>
      var rest := GoodHasLeaf(n, items[0]);
      ToIntNatText(1);
      q := [ItemKey(0)] + rest;
    case Obj(fields) =>
      var k :| k in fields && !n.isDigits(k);
      var rest := GoodHasLeaf(n, fields[k]);
      q := [k] + rest;
  }

  /** No path to a string runs through another. */
  lemma {:induction false} LeavesAreUnrelated(d: Doc, p: Path, q: Path)
    requires DocGet(d, p).Some? && DocGet(d, q).Some? && Related(p, q)
    ensures p == q
    decreases |p|
  {
    if p != [] && q != [] {
      RelatedTails(p, q);
      match d
      case Lst(items) => LeavesAreUnrelated(items[ToInt(p[0]) - 1], p[1..], q[1..]);
      case Obj(fields) => LeavesAreUnrelated(fields[p[0]], p[1..], q[1..]);
    }
  }

  // --- The tree of a document --------------------------------------------------

  /** The tree is the nested-dictionary form of the document. */
  ghost predicate Shows(t: ParamTree, d: Doc)
    decreases d
  {
    match d
    case Leaf(s) => t == Text(s)
    case Lst(items) =>
      && t.Node? && (forall k | k in t.kids :: Selects(k, |items|))
      && forall i: nat | i < |items| :: ItemKey(i) in t.kids && Shows(t.kids[ItemKey(i)], items[i])
    case Obj(fields) =>
      && t.Node? && t.kids.Keys == fields.Keys
      && forall k | k in fields :: Shows(t.kids[k], fields[k])
  }

  lemma GetBelow(t: ParamTree, k: string, q: Path)
    requires t.Node?
    ensures Get(t, [k] + q) == if k in t.kids then Get(t.kids[k], q) else None
  {
    assert ([k] + q)[1..] == q;
  }

  lemma ListKeys(t: ParamTree, d: Doc, k: string)
    requires t.Node? && d.Lst? && k in t.kids && Solid(t.kids[k])
    requires forall q :: Get(t, q) == DocGet(d, q)
    ensures Selects(k, |d.items|)
  {
    var q := SolidHasLeaf(t.kids[k]);
    GetBelow(t, k, q);
    assert DocGet(d, [k] + q).Some?;
  }

  lemma ListItem(n: Numerals, t: ParamTree, d: Doc, i: nat)
    requires t.Node? && d.Lst? && i < |d.items| && GoodValue(n, d.items[i])
    requires forall q :: Get(t, q) == DocGet(d, q)
    ensures ItemKey(i) in t.kids
    ensures forall q :: Get(t.kids[ItemKey(i)], q) == DocGet(d.items[i], q)
  {
    var k := ItemKey(i);
    ToIntNatText(i + 1);
    forall q
      ensures DocGet(d, [k] + q) == DocGet(d.items[i], q)
    {
      assert ([k] + q)[1..] == q;
    }
    var leaf := GoodHasLeaf(n, d.items[i]);
    GetBelow(t, k, leaf);
    assert Get(t, [k] + leaf) == DocGet(d, [k] + leaf);
    forall q
      ensures Get(t.kids[k], q) == DocGet(d.items[i], q)
    {
      GetBelow(t, k, q);
      assert Get(t, [k] + q) == DocGet(d, [k] + q);
    }
  }

  lemma MapKeys(n: Numerals, t: ParamTree, d: Doc)
    requires t.Node? && d.Obj? && (forall k | k in t.kids :: Solid(t.kids[k]))
    requires forall k | k in d.fields :: GoodValue(n, d.fields[k])
    requires forall q :: Get(t, q) == DocGet(d, q)
    ensures t.kids.Keys == d.fields.Keys
    ensures forall k, q | k in d.fields :: Get(t.kids[k], q) == DocGet(d.fields[k], q)
  {
    forall k: string, q: Path
      ensures DocGet(d, [k] + q) == if k in d.fields then DocGet(d.fields[k], q) else None
      ensures Get(t, [k] + q) == DocGet(d, [k] + q)
      ensures Get(t, [k] + q) == if k in t.kids then Get(t.kids[k], q) else None
    {
      GetBelow(t, k, q);
      assert ([k] + q)[1..] == q;
    }
    forall k | k in t.kids
      ensures k in d.fields
    {
      var q := SolidHasLeaf(t.kids[k]);
      assert Get(t, [k] + q).Some?;
    }
    forall k | k in d.fields
      ensures k in t.kids
    {
      var q := GoodHasLeaf(n, d.fields[k]);
      assert DocGet(d, [k] + q).Some?;
    }
  }

  /** A tree without empty dictionaries is determined by what its paths hold. */
  lemma {:induction false} PathsDetermine(n: Numerals, t: ParamTree, d: Doc)
    requires Solid(t) && GoodValue(n, d) && forall q :: Get(t, q) == DocGet(d, q)
    ensures Shows(t, d)
    decreases d
  {
    assert Get(t, []) == DocGet(d, []);
    match d
    case Leaf(_) =>
    case Lst(items) =>
      forall k | k in t.kids
        ensures Selects(k, |items|)
      {
        ListKeys(t, d, k);
      }
      forall i: nat | i < |items|
        ensures ItemKey(i) in t.kids && Shows(t.kids[ItemKey(i)], items[i])
      {
        ListItem(n, t, d, i);
        PathsDetermine(n, t.kids[ItemKey(i)], items[i]);
      }
    case Obj(fields) =>
      MapKeys(n, t, d);
      forall k | k in fields
        ensures Shows(t.kids[k], fields[k])
      {
        PathsDetermine(n, t.kids[k], fields[k]);
      }
  }

  // --- Collapsing the tree of a document gives the document ---------------------

  ghost predicate SortedByInt(n: Numerals, keys: seq<string>) {
    forall i, j | 0 <= i < j < |keys| :: Num(n, keys[i]) <= Num(n, keys[j])
  }

  ghost predicate DistinctKeys(keys: seq<string>) {
    forall i, j | 0 <= i < j < |keys| :: keys[i] != keys[j]
  }

  /** `a` stands before `b` in the list. */
  ghost predicate Before(order: seq<string>, a: string, b: string) {
    exists i, j :: 0 <= i < j < |order| && order[i] == a && order[j] == b
  }

  /** Keys of the same number come in the order in which they were given. */
  ghost predicate Stable(n: Numerals, keys: seq<string>, order: seq<string>) {
    forall i, j | 0 <= i < j < |keys| && Num(n, keys[i]) == Num(n, keys[j]) :: Before(order, keys[i], keys[j])
  }

  /** The list with the key put in at `p`, by position. */
  ghost predicate PutIn(all: seq<string>, keys: seq<string>, p: nat, key: string) {
    && p <= |keys| && |all| == |keys| + 1 && all[p] == key
    && (forall i | 0 <= i < p :: all[i] == keys[i])
    && (forall i | p < i < |all| :: all[i] == keys[i - 1])
  }

  /** The key goes in front of exactly the larger ones. */
  lemma {:induction false} InsertKeyAt(n: Numerals, keys: seq<string>, key: string) returns (p: nat)
    requires SortedByInt(n, keys)
    ensures PutIn(InsertKey(n, keys, key), keys, p, key)
    ensures forall i | 0 <= i < p :: Num(n, keys[i]) <= Num(n, key)
    ensures forall i | p <= i < |keys| :: Num(n, keys[i]) > Num(n, key)
    decreases |keys|
  {
    if keys == [] || Num(n, keys[|keys| - 1]) <= Num(n, key) {
      p := |keys|;
    } else {
      var front, last := keys[..|keys| - 1], keys[|keys| - 1];
      p := InsertKeyAt(n, front, key);
      PutInGrows(InsertKey(n, front, key), front, p, key, last);
      assert front + [last] == keys;
      assert forall i | 0 <= i < |front| :: front[i] == keys[i];
    }
  }

  lemma PutInGrows(all: seq<string>, keys: seq<string>, p: nat, key: string, last: string)
    requires PutIn(all, keys, p, key)
    ensures PutIn(all + [last], keys + [last], p, key)
  {
  }

  lemma BeforeGrows(order: seq<string>, a: string, b: string, key: string)
    ensures Before(order, a, b) ==> Before(order + [key], a, b)
    ensures a in order ==> Before(order + [key], a, key)
  {
    if i, j :| 0 <= i < j < |order| && order[i] == a && order[j] == b {
      assert (order + [key])[i] == a && (order + [key])[j] == b;
    }
    if i :| 0 <= i < |order| && order[i] == a {
      assert (order + [key])[i] == a && (order + [key])[|order|] == key;
    }
  }

  lemma PutInKeepsOrder(n: Numerals, all: seq<string>, keys: seq<string>, p: nat, key: string)
    requires PutIn(all, keys, p, key) && SortedByInt(n, keys)
    requires forall i | 0 <= i < p :: Num(n, keys[i]) <= Num(n, key)
    requires forall i | p <= i < |keys| :: Num(n, keys[i]) > Num(n, key)
    ensures SortedByInt(n, all)
  {
  }

  lemma PutInKeepsKeys(all: seq<string>, keys: seq<string>, p: nat, key: string)
    requires PutIn(all, keys, p, key) && DistinctKeys(keys) && key !in keys
    ensures DistinctKeys(all) && key in all && forall k | k in keys :: k in all
  {
    forall k | k in keys
      ensures k in all
    {
      var i :| 0 <= i < |keys| && keys[i] == k;
      assert k == if i < p then all[i] else all[i + 1];
    }
  }

  lemma InsertKeySorts(n: Numerals, keys: seq<string>, key: string)
    requires SortedByInt(n, keys) && DistinctKeys(keys) && key !in keys
    ensures SortedByInt(n, InsertKey(n, keys, key)) && DistinctKeys(InsertKey(n, keys, key))
    ensures key in InsertKey(n, keys, key) && forall k | k in keys :: k in InsertKey(n, keys, key)
  {
    var p := InsertKeyAt(n, keys, key);
    PutInKeepsOrder(n, InsertKey(n, keys, key), keys, p, key);
    PutInKeepsKeys(InsertKey(n, keys, key), keys, p, key);
  }

  lemma InsertKeyIsStable(n: Numerals, keys: seq<string>, key: string, order: seq<string>)
    requires SortedByInt(n, keys) && Stable(n, keys, order) && forall k | k in keys :: k in order
    ensures Stable(n, InsertKey(n, keys, key), order + [key])
  {
    var p := InsertKeyAt(n, keys, key);
    var all := InsertKey(n, keys, key);
    forall i, j | 0 <= i < j < |all| && Num(n, all[i]) == Num(n, all[j])
      ensures Before(order + [key], all[i], all[j])
    {
      BeforeGrows(order, all[i], all[j], key);
      if i != p {
        assert all[i] in keys;
      }
    }
  }

  /** Sorting keeps every key, once, in numeric order, and keys of the same number in the order given. */
  lemma {:induction false} SortKeysSorts(n: Numerals, order: seq<string>)
    requires DistinctKeys(order)
    ensures SortedByInt(n, SortKeys(n, order)) && DistinctKeys(SortKeys(n, order))
    ensures Stable(n, SortKeys(n, order), order)
    ensures forall k | k in order :: k in SortKeys(n, order)
    decreases |order|
  {
    if order != [] {
      var m := |order| - 1;
      SortKeysSorts(n, order[..m]);
      assert order == order[..m] + [order[m]];
      InsertKeySorts(n, SortKeys(n, order[..m]), order[m]);
      InsertKeyIsStable(n, SortKeys(n, order[..m]), order[m], order[..m]);
    }
  }

  /** Strictly increasing numbers that are exactly 1 to n count them up. */
  lemma {:induction false} CountsUp(vals: seq<nat>, n: nat)
    requires forall i, j | 0 <= i < j < |vals| :: vals[i] < vals[j]
    requires forall v | v in vals :: 1 <= v <= n
    requires forall v | 1 <= v <= n :: v in vals
    ensures |vals| == n && forall i | 0 <= i < n :: vals[i] == i + 1
    decreases n
  {
    if vals != [] {
      assert vals[0] in vals;
    }
    if n > 0 {
      assert n in vals;
      var m := |vals| - 1;
      assert vals[m] in vals && vals[m] == n;
      var front := vals[..m];
      assert forall i | 0 <= i < m :: vals[i] in vals && vals[i] < n;
      forall v | 1 <= v <= n - 1
        ensures v in front
      {
        assert v in vals;
      }
      CountsUp(front, n - 1);
    }
  }

  /** Keys that select the items, sorted and without repetition, list them in order. */
  lemma SortedSelectors(n: Numerals, keys: seq<string>, m: nat)
    requires Lawful(n) && AllRead(n, keys) && SortedByInt(n, keys) && DistinctKeys(keys)
    requires forall k | k in keys :: Selects(k, m)
    requires forall i: nat | i < m :: ItemKey(i) in keys
    ensures |keys| == m && forall i: nat | i < m :: keys[i] == ItemKey(i)
  {
    var vals := seq(|keys|, i requires 0 <= i < |keys| => ToInt(keys[i]));
    forall i | 0 <= i < |keys|
      ensures 1 <= vals[i] <= m && keys[i] == NatText(vals[i]) && Num(n, keys[i]) == vals[i]
    {
      assert keys[i] in keys;
    }
    forall v: nat | 1 <= v <= m
      ensures v in vals
    {
      ToIntNatText(v);
      assert ItemKey(v - 1) in keys;
      var i :| 0 <= i < |keys| && keys[i] == ItemKey(v - 1);
      assert vals[i] == v;
    }
    CountsUp(vals, m);
  }

  /** The keys of a list's tree are its item keys. */
  lemma ShownKeys(n: Numerals, t: ParamTree, d: Doc)
    requires Lawful(n) && Solid(t) && d.Lst? && Shows(t, d)
    ensures AllIndices(n, t.order)
    ensures AllRead(n, t.order) <==> forall i | 0 <= i < |d.items| :: n.toInt(ItemKey(i)).Some?
  {
    forall k | k in t.order
      ensures n.isDigits(k) && 1 <= ToInt(k) <= |d.items| && k == ItemKey(ToInt(k) - 1)
    {
    }
    assert forall i | 0 <= i < |t.order| :: t.order[i] in t.order;
    if AllRead(n, t.order) {
      forall i: nat | i < |d.items|
        ensures n.toInt(ItemKey(i)).Some?
      {
        assert ItemKey(i) in t.order;
      }
    }
  }

  lemma ShownListKeys(n: Numerals, t: ParamTree, d: Doc)
    requires Lawful(n) && Solid(t) && d.Lst? && Shows(t, d) && AllRead(n, t.order)
    ensures |SortKeys(n, t.order)| == |d.items|
    ensures forall i: nat | i < |d.items| :: SortKeys(n, t.order)[i] == ItemKey(i)
  {
    var keys := SortKeys(n, t.order);
    SortKeysSorts(n, t.order);
    forall i | 0 <= i < |keys|
      ensures n.toInt(keys[i]).Some?
    {
      assert keys[i] in keys;
    }
    SortedSelectors(n, keys, |d.items|);
  }

  /** What collapsing the tree of a document gives: the document, if `int` reads its indices. */
  function Collapsed(readable: bool, d: Doc): Option<Doc> {
    if readable then Some(d) else None
  }

  /** A list of collapsed items is the collapsed list. */
  lemma ListOfCollapsed(n: Numerals, items: seq<Doc>, out: seq<Option<Doc>>)
    requires |out| == |items|
    requires forall i | 0 <= i < |items| :: out[i] == Collapsed(ItemsReadable(n, items[i]), items[i])
    ensures ListOf(out) == Collapsed(forall i | 0 <= i < |items| :: ItemsReadable(n, items[i]), Lst(items))
  {
    if forall i | 0 <= i < |items| :: ItemsReadable(n, items[i]) {
      assert ListOf(out).value.items == items;
    } else {
      var i :| 0 <= i < |items| && !ItemsReadable(n, items[i]);
      assert out[i].None?;
    }
  }

  lemma MapOfCollapsed(n: Numerals, fields: map<string, Doc>, out: map<string, Option<Doc>>)
    requires out.Keys == fields.Keys
    requires forall k | k in fields :: out[k] == Collapsed(ItemsReadable(n, fields[k]), fields[k])
    ensures MapOf(out) == Collapsed(forall k | k in fields :: ItemsReadable(n, fields[k]), Obj(fields))
  {
    if forall k | k in fields :: ItemsReadable(n, fields[k]) {
      assert MapOf(out).value.fields == fields;
    } else {
      var k :| k in fields && !ItemsReadable(n, fields[k]);
      assert out[k].None?;
    }
  }

  /** Collapsing the tree of a document gives the document, unless `int` refuses one of its indices. */
  lemma {:induction false} CollapseShown(n: Numerals, t: ParamTree, d: Doc)
    requires Lawful(n) && Solid(t) && GoodValue(n, d) && Shows(t, d)
    ensures CollapseValue(n, t) == Collapsed(ItemsReadable(n, d), d)
    decreases d
  {
    match d
    case Leaf(_) =>
    case Lst(items) =>
      ShownKeys(n, t, d);
      if AllRead(n, t.order) {
        CollapseShownList(n, t, d);
      }
    case Obj(fields) =>
      var k :| k in fields && !n.isDigits(k);
      assert k in t.order;
      CollapseShownMap(n, t, d);
  }

  lemma {:induction false} CollapseShownMap(n: Numerals, t: ParamTree, d: Doc)
    requires Lawful(n) && SolidRoot(t) && d.Obj? && t.kids.Keys == d.fields.Keys
    requires forall k | k in d.fields :: GoodValue(n, d.fields[k]) && Shows(t.kids[k], d.fields[k])
    ensures MapOf(Fields(n, t)) == Collapsed(ItemsReadable(n, d), d)
    decreases d, 0
  {
    var out := Fields(n, t);
    forall k | k in d.fields
      ensures out[k] == Collapsed(ItemsReadable(n, d.fields[k]), d.fields[k])
    {
      CollapseShown(n, t.kids[k], d.fields[k]);
    }
    MapOfCollapsed(n, d.fields, out);
  }

  lemma {:induction false} CollapseShownList(n: Numerals, t: ParamTree, d: Doc)
    requires Lawful(n) && Solid(t) && GoodValue(n, d) && d.Lst? && Shows(t, d)
    requires AllIndices(n, t.order) && AllRead(n, t.order)
    ensures CollapseValue(n, t) == Collapsed(forall i | 0 <= i < |d.items| :: ItemsReadable(n, d.items[i]), d)
    decreases d, 0
  {
    ShownListKeys(n, t, d);
    var keys := SortKeys(n, t.order);
    var out := Items(n, t, keys);
    forall i | 0 <= i < |d.items|
      ensures out[i] == Collapsed(ItemsReadable(n, d.items[i]), d.items[i])
    {
      CollapseShown(n, t.kids[ItemKey(i)], d.items[i]);
    }
    ListOfCollapsed(n, d.items, out);
  }

  /** The keys list those of the dictionary once each, by number, and keys of one number as they stand in it. */
  ghost predicate ListsByNumber(n: Numerals, keys: seq<string>, t: ParamTree)
    requires t.Node?
  {
    && (forall k :: k in keys <==> k in t.kids) && DistinctKeys(keys)
    && (forall i, j | 0 <= i < j < |keys| :: Num(n, keys[i]) <= Num(n, keys[j])) && Stable(n, keys, t.order)
  }

  /** The value of the child under the i-th key is the i-th item. */
  ghost predicate ItemsAre(n: Numerals, t: ParamTree, keys: seq<string>, items: seq<Doc>)
    requires SolidRoot(t) && forall k | k in keys :: k in t.kids
  {
    && |items| == |keys|
    && forall i | 0 <= i < |keys| :: keys[i] in keys && CollapseValue(n, t.kids[keys[i]]) == Some(items[i])
  }

  /**
   * Any dictionary of digit keys that collapses, whether or not its keys count from one, becomes the
   * list of its collapsed children in the order of their numbers.
   */
  lemma IndexMapsBecomeLists(n: Numerals, t: ParamTree)
    requires Solid(t) && t.Node? && (forall k | k in t.kids :: n.isDigits(k)) && CollapseValue(n, t).Some?
    ensures CollapseValue(n, t).value.Lst?
    ensures exists keys :: ListsByNumber(n, keys, t) && ItemsAre(n, t, keys, CollapseValue(n, t).value.items)
  {
    assert forall i | 0 <= i < |t.order| :: t.order[i] in t.order;
    var keys := SortKeys(n, t.order);
    SortKeysSorts(n, t.order);
    var out := Items(n, t, keys);
    assert CollapseValue(n, t) == ListOf(out);
    assert forall i | 0 <= i < |keys| :: keys[i] in keys && out[i].Some?;
    assert ListsByNumber(n, keys, t) && ItemsAre(n, t, keys, CollapseValue(n, t).value.items);
  }

  /** Any other dictionary that collapses becomes the map of its collapsed children. */
  lemma OtherMapsStayMaps(n: Numerals, t: ParamTree)
    requires Solid(t) && t.Node? && (exists k :: k in t.kids && !n.isDigits(k)) && CollapseValue(n, t).Some?
    ensures var d := CollapseValue(n, t).value;
            && d.Obj? && d.fields.Keys == t.kids.Keys
            && forall k | k in t.kids :: CollapseValue(n, t.kids[k]) == Some(d.fields[k])
  {
    var k :| k in t.kids && !n.isDigits(k);
    var i :| 0 <= i < |t.order| && t.order[i] == k;
    assert CollapseValue(n, t) == MapOf(Fields(n, t));
  }

  // --- Un-flattening inverts flattening ----------------------------------------

  /** The parameters are the flattening of the document, in any order and with any infixes. */
  ghost predicate Flattens(pairs: seq<Pair>, d: Doc) {
    && (forall i | 0 <= i < |pairs| :: DocGet(d, Segments(pairs[i].key)) == Some(pairs[i].value))
    && (forall q: Path | DocGet(d, q).Some? :: exists i :: 0 <= i < |pairs| && Segments(pairs[i].key) == q)
  }

  lemma {:induction false} LastWordOfLeaf(pairs: seq<Pair>, d: Doc, q: Path, i: nat)
    requires d.Obj? && i < |pairs| && Segments(pairs[i].key) == q
    requires forall j | 0 <= j < |pairs| :: DocGet(d, Segments(pairs[j].key)) == Some(pairs[j].value)
    ensures LastWord(pairs, q) == DocGet(d, q)
    decreases |pairs|
  {
    var n := |pairs| - 1;
    var p := Segments(pairs[n].key);
    if p != q {
      assert DocGet(d, Segments(pairs[i].key)).Some?;
      if Related(p, q) {
        LeavesAreUnrelated(d, p, q);
      }
      assert pairs[..n][i] == pairs[i];
      LastWordOfLeaf(pairs[..n], d, q, i);
    }
  }

  lemma {:induction false} LastWordElsewhere(pairs: seq<Pair>, q: Path)
    requires forall j | 0 <= j < |pairs| :: Segments(pairs[j].key) != q
    ensures LastWord(pairs, q) == None
    decreases |pairs|
  {
    if pairs != [] {
      var n := |pairs| - 1;
      assert forall j | 0 <= j < n :: pairs[..n][j] == pairs[j];
      LastWordElsewhere(pairs[..n], q);
    }
  }

  lemma FlatteningIsHeld(pairs: seq<Pair>, d: Doc, q: Path)
    requires d.Obj? && Flattens(pairs, d)
    ensures Get(Build(pairs), q) == DocGet(d, q)
  {
    BuildHoldsLastWords(pairs, q);
    if i: nat :| i < |pairs| && Segments(pairs[i].key) == q {
      LastWordOfLeaf(pairs, d, q, i);
    } else {
      LastWordElsewhere(pairs, q);
    }
  }

  /**
   * Un-flattening inverts flattening, for any order of the parameters, with or without infixes; it
   * fails only if a list is so long that `int` refuses one of its indices.
   */
  lemma ParseInvertsFlattening(n: Numerals, pairs: seq<Pair>, d: Doc)
    requires Lawful(n) && GoodDoc(n, d) && Flattens(pairs, d)
    ensures Parse(n, pairs) == if ItemsReadable(n, d) then Some(d) else None
  {
    var t := Build(pairs);
    forall q
      ensures Get(t, q) == DocGet(d, q)
    {
      FlatteningIsHeld(pairs, d, q);
    }
    MapKeys(n, t, d);
    forall k | k in d.fields
      ensures Shows(t.kids[k], d.fields[k])
    {
      PathsDetermine(n, t.kids[k], d.fields[k]);
    }
    CollapseShownMap(n, t, d);
  }

  // --- The infix is optional ---------------------------------------------------

  /** However the infix, or empty segments, are sprinkled into a name, the path is the same. */
  lemma InfixesAreSkipped(pieces: seq<string>, path: Path)
    requires pieces != [] && Counting(pieces) == path && forall i | 0 <= i < |pieces| :: DotFree(pieces[i])
    ensures Segments(Join(pieces)) == path
  {
    SplitJoin(pieces);
  }

  lemma ConcatAssociates(a: seq<string>, b: seq<string>, c: seq<string>)
    ensures (a + b) + c == a + (b + c)
  {
  }

  lemma {:induction false} CountingConcat(a: seq<string>, b: seq<string>)
    ensures Counting(a + b) == Counting(a) + Counting(b)
  {
    if a == [] {
      assert a + b == b;
    } else {
      CountingConcat(a[1..], b);
      assert (a + b)[1..] == a[1..] + b && (a + b)[0] == a[0];
      var head := if Counts(a[0]) then [a[0]] else [];
      ConcatAssociates(head, Counting(a[1..]), Counting(b));
    }
  }

  lemma {:induction false} CountingMembers(pieces: seq<string>)
    ensures forall s :: s in Counting(pieces) <==> s in pieces && s != "" && s != "member"
  {
    if pieces != [] {
      CountingMembers(pieces[1..]);
      assert pieces == [pieces[0]] + pieces[1..];
    }
  }

  /** Exactly the empty segment and the word "member" do not count. */
  lemma OneSegment(s: string)
    ensures Counting([s]) == if s == "" || s == "member" then [] else [s]
  {
    assert [s][1..] == [];
  }

  /** A segment "member", or an empty one, anywhere among the pieces of a name changes nothing. */
  lemma MemberIsDropped(a: seq<string>, b: seq<string>)
    ensures Counting(a + ["member"] + b) == Counting(a + b)
    ensures Counting(a + [""] + b) == Counting(a + b)
  {
    OneSegment("member");
    OneSegment("");
    CountingConcat(a, b);
    CountingConcat(a, ["member"]);
    CountingConcat(a + ["member"], b);
    CountingConcat(a, [""]);
    CountingConcat(a + [""], b);
  }

  /** A name with "member" inserted between any two of its pieces, or at an end, has the same path. */
  lemma MemberIsOptional(a: seq<string>, b: seq<string>)
    requires a + b != [] && forall i | 0 <= i < |a + b| :: DotFree((a + b)[i])
    ensures Segments(Join(a + ["member"] + b)) == Segments(Join(a + b))
  {
    var pieces := a + ["member"] + b;
    forall i | 0 <= i < |pieces|
      ensures DotFree(pieces[i])
    {
      if i < |a| {
        assert pieces[i] == (a + b)[i];
      } else if i > |a| {
        assert pieces[i] == (a + b)[i - 1];
      }
    }
    SplitJoin(pieces);
    SplitJoin(a + b);
    MemberIsDropped(a, b);
  }

  lemma {:induction false} CountingAll(path: Path)
    requires forall i | 0 <= i < |path| :: Counts(path[i])
    ensures Counting(path) == path
  {
    if path != [] {
      CountingAll(path[1..]);
    }
  }

  // --- Exactly the good documents come out of parsing --------------------------

  ghost predicate GoodPath(path: Path) {
    forall i | 0 <= i < |path| :: GoodKey(path[i])
  }

  lemma {:induction false} CountingIsGood(pieces: seq<string>)
    requires forall i | 0 <= i < |pieces| :: DotFree(pieces[i])
    ensures GoodPath(Counting(pieces))
  {
    if pieces != [] {
      CountingIsGood(pieces[1..]);
    }
  }

  ghost predicate GoodTree(t: ParamTree) {
    t.Node? ==> forall k | k in t.kids :: GoodKey(k) && GoodTree(t.kids[k])
  }

  lemma {:induction false} InsertIsGood(t: ParamTree, path: Path, v: string)
    requires GoodTree(t) && GoodPath(path)
    ensures GoodTree(Insert(t, path, v))
    decreases |path|
  {
    if path != [] {
      var child := if t.Node? then Child(t.kids, path[0]) else Node([], map[]);
      InsertIsGood(child, path[1..], v);
    }
  }

  lemma {:induction false} BuildIsGood(pairs: seq<Pair>)
    ensures GoodTree(Build(pairs))
    decreases |pairs|
  {
    if pairs != [] {
      var n := |pairs| - 1;
      BuildIsGood(pairs[..n]);
      SplitIsDotFree(pairs[n].key);
      CountingIsGood(Split(pairs[n].key));
      InsertIsGood(Build(pairs[..n]), Segments(pairs[n].key), pairs[n].value);
    }
  }

  lemma {:induction false} CollapseIsGood(n: Numerals, t: ParamTree)
    requires Solid(t) && GoodTree(t) && CollapseValue(n, t).Some?
    ensures GoodValue(n, CollapseValue(n, t).value)
    decreases t, 1
  {
    if t.Node? {
      if AllIndices(n, t.order) {
        ListIsGood(n, t, SortKeys(n, t.order));
      } else {
        var i :| 0 <= i < |t.order| && !n.isDigits(t.order[i]);
        assert t.order[i] in t.order;
        MapIsGood(n, t);
        assert t.order[i] in CollapseValue(n, t).value.fields;
      }
    }
  }

  lemma {:induction false} ListIsGood(n: Numerals, t: ParamTree, keys: seq<string>)
    requires SolidRoot(t) && GoodTree(t) && keys != [] && (forall k | k in keys :: k in t.kids)
    requires ListOf(Items(n, t, keys)).Some?
    ensures GoodValue(n, ListOf(Items(n, t, keys)).value)
    decreases t, 0
  {
    var out := Items(n, t, keys);
    forall i | 0 <= i < |out|
      ensures out[i].Some? && GoodValue(n, out[i].value)
    {
      assert out[i].Some? && keys[i] in keys;
      CollapseIsGood(n, t.kids[keys[i]]);
    }
  }

  lemma {:induction false} MapIsGood(n: Numerals, t: ParamTree)
    requires SolidRoot(t) && GoodTree(t) && MapOf(Fields(n, t)).Some?
    ensures var d := MapOf(Fields(n, t)).value;
            && d.Obj? && d.fields.Keys == t.kids.Keys
            && forall k | k in d.fields :: GoodKey(k) && GoodValue(n, d.fields[k])
    decreases t, 0
  {
    var out := Fields(n, t);
    forall k | k in t.kids
      ensures out[k].Some? && GoodValue(n, out[k].value)
    {
      assert k in out && out[k].Some?;
      CollapseIsGood(n, t.kids[k]);
    }
  }

  /** Whatever the parameters, a document that comes out is a good one. */
  lemma ParsedDocumentsAreGood(n: Numerals, pairs: seq<Pair>)
    requires Parse(n, pairs).Some?
    ensures GoodDoc(n, Parse(n, pairs).value)
  {
    BuildIsGood(pairs);
    MapIsGood(n, Build(pairs));
  }

  // --- A printer ---------------------------------------------------------------

  datatype Line = Line(path: Path, value: string)

  /** The lines are the strings of the document with their paths. */
  ghost predicate Lists(lines: seq<Line>, d: Doc) {
    && (forall l | l in lines :: DocGet(d, l.path) == Some(l.value) && GoodPath(l.path))
    && (forall q: Path | DocGet(d, q).Some? :: Line(q, DocGet(d, q).value) in lines)
  }

  /** The lines are those of the document whose path starts with one of the keys. */
  ghost predicate ListsUnder(lines: seq<Line>, d: Doc, keys: set<string>) {
    && (forall l | l in lines :: DocGet(d, l.path) == Some(l.value) && GoodPath(l.path))
    && (forall q: Path | q != [] && q[0] in keys && DocGet(d, q).Some? :: Line(q, DocGet(d, q).value) in lines)
  }

  function Under(key: string, lines: seq<Line>): seq<Line> {
    seq(|lines|, i requires 0 <= i < |lines| => Line([key] + lines[i].path, lines[i].value))
  }

  /** The lines of one child, put under its key. */
  lemma UnderLists(key: string, lines: seq<Line>, child: Doc, d: Doc)
    requires Lists(lines, child) && GoodKey(key)
    requires forall q: Path :: DocGet(d, [key] + q) == DocGet(child, q)
    ensures ListsUnder(Under(key, lines), d, {key})
  {
    var under := Under(key, lines);
    forall l | l in under
      ensures DocGet(d, l.path) == Some(l.value) && GoodPath(l.path)
    {
      var i :| 0 <= i < |under| && under[i] == l;
      assert lines[i] in lines;
    }
    forall q: Path | q != [] && q[0] in {key} && DocGet(d, q).Some?
      ensures Line(q, DocGet(d, q).value) in under
    {
      assert q == [key] + q[1..];
      var l := Line(q[1..], DocGet(child, q[1..]).value);
      assert l in lines;
      var i :| 0 <= i < |lines| && lines[i] == l;
      assert under[i] == Line(q, DocGet(d, q).value);
    }
  }

  lemma AppendLists(a: seq<Line>, b: seq<Line>, d: Doc, ks: set<string>, ls: set<string>)
    requires ListsUnder(a, d, ks) && ListsUnder(b, d, ls)
    ensures ListsUnder(a + b, d, ks + ls)
  {
  }

  lemma DigitsAreGoodKeys(n: nat)
    ensures GoodKey(NatText(n))
  {
    ToIntNatText(n);
    var text := NatText(n);
    assert IsDigit(text[0]) && LIST_INFIX[0] == 'm';
  }

  /** Every good value has its finite list of strings with paths. */
  lemma {:induction false} ListValue(n: Numerals, d: Doc) returns (lines: seq<Line>)
    requires GoodValue(n, d)
    ensures Lists(lines, d)
    decreases d, 1, 0
  {
    match d
    case Leaf(s) =>
      lines := [Line([], s)];
    case Lst(items) =>
      lines := ListItems(n, d, |items|);
      forall q: Path | DocGet(d, q).Some?
        ensures Line(q, DocGet(d, q).value) in lines
      {
        assert ItemKey(ToInt(q[0]) - 1) == q[0];
      }
    case Obj(fields) =>
      lines := ListFields(n, d, fields.Keys);
  }

  lemma {:induction false} ListItems(n: Numerals, d: Doc, m: nat) returns (lines: seq<Line>)
    requires d.Lst? && m <= |d.items| && forall i | 0 <= i < |d.items| :: GoodValue(n, d.items[i])
    ensures ListsUnder(lines, d, set i: nat | i < m :: ItemKey(i))
    decreases d, 0, m
  {
    lines := [];
    if m > 0 {
      var rest := ListItems(n, d, m - 1);
      var own := ListValue(n, d.items[m - 1]);
      var key := ItemKey(m - 1);
      ToIntNatText(m);
      DigitsAreGoodKeys(m);
      assert forall q: Path :: ([key] + q)[1..] == q;
      UnderLists(key, own, d.items[m - 1], d);
      AppendLists(rest, Under(key, own), d, set i: nat | i < m - 1 :: ItemKey(i), {key});
      assert (set i: nat | i < m - 1 :: ItemKey(i)) + {key} == set i: nat | i < m :: ItemKey(i);
      lines := rest + Under(key, own);
    }
  }

  lemma {:induction false} ListFields(n: Numerals, d: Doc, keys: set<string>) returns (lines: seq<Line>)
    requires d.Obj? && keys <= d.fields.Keys && forall k | k in d.fields :: GoodKey(k) && GoodValue(n, d.fields[k])
    ensures ListsUnder(lines, d, keys)
    decreases d, 0, |keys|
  {
    lines := [];
    if keys != {} {
      var key :| key in keys;
      var rest := ListFields(n, d, keys - {key});
      var own := ListValue(n, d.fields[key]);
      assert forall q: Path :: ([key] + q)[1..] == q;
      UnderLists(key, own, d.fields[key], d);
      AppendLists(rest, Under(key, own), d, keys - {key}, {key});
      assert (keys - {key}) + {key} == keys;
      lines := rest + Under(key, own);
    }
  }

  lemma PrintedPairs(lines: seq<Line>, d: Doc) returns (pairs: seq<Pair>)
    requires d.Obj? && Lists(lines, d)
    ensures Flattens(pairs, d)
  {
    forall l | l in lines
      ensures l.path != [] && Segments(Join(l.path)) == l.path
    {
      CountingAll(l.path);
      InfixesAreSkipped(l.path, l.path);
    }
    assert forall i | 0 <= i < |lines| :: lines[i] in lines;
    pairs := seq(|lines|, i requires 0 <= i < |lines| => Pair(Join(lines[i].path), lines[i].value));
    forall q: Path | DocGet(d, q).Some?
      ensures exists i :: 0 <= i < |pairs| && Segments(pairs[i].key) == q
    {
      assert Line(q, DocGet(d, q).value) in lines;
      var i :| 0 <= i < |lines| && lines[i] == Line(q, DocGet(d, q).value);
      assert Segments(pairs[i].key) == q;
    }
  }

  /**
   * Parsing produces exactly the good documents: each has a flattening, which parses back to it,
   * and no parameters produce any other document.
   */
  lemma ParseProducesExactly(n: Numerals, d: Doc)
    requires Lawful(n) && ItemsReadable(n, d)
    ensures (exists pairs :: Parse(n, pairs) == Some(d)) <==> GoodDoc(n, d)
  {
    if pairs :| Parse(n, pairs) == Some(d) {
      ParsedDocumentsAreGood(n, pairs);
    }
    if GoodDoc(n, d) {
      var lines := ListFields(n, d, d.fields.Keys);
      var pairs := PrintedPairs(lines, d);
      ParseInvertsFlattening(n, pairs, d);
    }
  }

  // --- When parsing fails ------------------------------------------------------

  /** A dictionary that is taken for a list and cannot be sorted. */
  ghost predicate Stuck(n: Numerals, t: ParamTree) {
    t.Node? && AllIndices(n, t.order) && !AllRead(n, t.order)
  }

  ghost predicate HasStuck(n: Numerals, t: ParamTree) {
    Stuck(n, t) || (t.Node? && exists k :: k in t.kids && HasStuck(n, t.kids[k]))
  }

  lemma {:induction false} CollapseFailsExactly(n: Numerals, t: ParamTree)
    requires Solid(t)
    ensures CollapseValue(n, t).None? <==> HasStuck(n, t)
    decreases t
  {
    if t.Node? && !Stuck(n, t) {
      forall k | k in t.kids
        ensures CollapseValue(n, t.kids[k]).None? <==> HasStuck(n, t.kids[k])
      {
        CollapseFailsExactly(n, t.kids[k]);
      }
      if AllIndices(n, t.order) {
        SortKeysSorts(n, t.order);
        ListFailsExactly(n, t, SortKeys(n, t.order));
      } else {
        MapFailsExactly(n, t);
      }
    }
  }

  lemma MapFailsExactly(n: Numerals, t: ParamTree)
    requires SolidRoot(t)
    ensures MapOf(Fields(n, t)).None? <==> exists k :: k in t.kids && CollapseValue(n, t.kids[k]).None?
  {
    var out := Fields(n, t);
    if k :| k in t.kids && CollapseValue(n, t.kids[k]).None? {
      assert k in out && out[k].None?;
    }
  }

  lemma ListFailsExactly(n: Numerals, t: ParamTree, keys: seq<string>)
    requires SolidRoot(t) && forall k :: k in keys <==> k in t.kids
    ensures ListOf(Items(n, t, keys)).None? <==> exists k :: k in t.kids && CollapseValue(n, t.kids[k]).None?
  {
    var out := Items(n, t, keys);
    if k :| k in t.kids && CollapseValue(n, t.kids[k]).None? {
      var i :| 0 <= i < |keys| && keys[i] == k;
      assert out[i].None?;
    }
    if i :| 0 <= i < |out| && out[i].None? {
      assert keys[i] in keys;
    }
  }

  /** The dictionary at path `p` has the key `k`: something is held below. */
  ghost predicate HasKey(t: ParamTree, p: Path, k: string) {
    exists q: Path :: Get(t, p + [k] + q).Some?
  }

  /** The dictionary at path `p` has only keys that are digits, and one that `int` refuses. */
  ghost predicate StuckAt(n: Numerals, t: ParamTree, p: Path) {
    (forall k | HasKey(t, p, k) :: n.isDigits(k)) && exists k :: HasKey(t, p, k) && n.toInt(k).None?
  }

  lemma KeysAreHeld(t: ParamTree, k: string)
    requires Solid(t)
    ensures HasKey(t, [], k) <==> t.Node? && k in t.kids
  {
    if q: Path :| Get(t, [] + [k] + q).Some? {
      assert [] + [k] + q == [k] + q;
      if t.Node? {
        GetBelow(t, k, q);
      }
    }
    if t.Node? && k in t.kids {
      var q := SolidHasLeaf(t.kids[k]);
      GetBelow(t, k, q);
      assert [] + [k] + q == [k] + q;
    }
  }

  lemma KeysBelow(t: ParamTree, k0: string, p: Path, k: string)
    requires t.Node?
    ensures HasKey(t, [k0] + p, k) <==> k0 in t.kids && HasKey(t.kids[k0], p, k)
  {
    forall q: Path
      ensures Get(t, [k0] + p + [k] + q) == if k0 in t.kids then Get(t.kids[k0], p + [k] + q) else None
    {
      assert [k0] + p + [k] + q == [k0] + (p + [k] + q);
      GetBelow(t, k0, p + [k] + q);
    }
  }

  lemma StuckHere(n: Numerals, t: ParamTree)
    requires Solid(t)
    ensures Stuck(n, t) <==> StuckAt(n, t, [])
  {
    forall k: string
      ensures HasKey(t, [], k) <==> t.Node? && k in t.kids
    {
      KeysAreHeld(t, k);
    }
    if t.Node? {
      assert forall i | 0 <= i < |t.order| :: t.order[i] in t.order;
    }
  }

  lemma StuckBelow(n: Numerals, t: ParamTree, k0: string, p: Path)
    requires t.Node?
    ensures StuckAt(n, t, [k0] + p) <==> k0 in t.kids && StuckAt(n, t.kids[k0], p)
  {
    forall k: string
      ensures HasKey(t, [k0] + p, k) <==> k0 in t.kids && HasKey(t.kids[k0], p, k)
    {
      KeysBelow(t, k0, p, k);
    }
  }

  lemma {:induction false} StuckIsSomewhere(n: Numerals, t: ParamTree) returns (p: Path)
    requires Solid(t) && HasStuck(n, t)
    ensures StuckAt(n, t, p)
    decreases t
  {
    p := [];
    if Stuck(n, t) {
      StuckHere(n, t);
    } else {
      var k :| k in t.kids && HasStuck(n, t.kids[k]);
      var rest := StuckIsSomewhere(n, t.kids[k]);
      StuckBelow(n, t, k, rest);
      p := [k] + rest;
    }
  }

  lemma {:induction false} SomewhereIsStuck(n: Numerals, t: ParamTree, p: Path)
    requires Solid(t) && StuckAt(n, t, p)
    ensures HasStuck(n, t)
    decreases |p|
  {
    if p == [] {
      StuckHere(n, t);
    } else {
      var k :| HasKey(t, p, k) && n.toInt(k).None?;
      assert p == [p[0]] + p[1..];
      assert t.Node?;
      StuckBelow(n, t, p[0], p[1..]);
      SomewhereIsStuck(n, t.kids[p[0]], p[1..]);
    }
  }

  /** Some parameter has the last word on a path through `p` and then `k`. */
  ghost predicate Names(pairs: seq<Pair>, p: Path, k: string) {
    exists q: Path :: LastWord(pairs, p + [k] + q).Some?
  }

  /** What the parameters leave at path `p` is keyed by digits only, one of which `int` refuses. */
  ghost predicate Unreadable(n: Numerals, pairs: seq<Pair>, p: Path) {
    (forall k | Names(pairs, p, k) :: n.isDigits(k)) && exists k :: Names(pairs, p, k) && n.toInt(k).None?
  }

  lemma UnreadableIsStuck(n: Numerals, pairs: seq<Pair>, p: Path)
    ensures Unreadable(n, pairs, p) <==> StuckAt(n, Build(pairs), p)
  {
    forall k: string
      ensures Names(pairs, p, k) <==> HasKey(Build(pairs), p, k)
    {
      forall q: Path
        ensures LastWord(pairs, p + [k] + q) == Get(Build(pairs), p + [k] + q)
      {
        BuildHoldsLastWords(pairs, p + [k] + q);
      }
    }
  }

  /**
   * Parsing fails if and only if somewhere below the top the parameters leave a dictionary whose keys
   * are all digits, one of which `int` refuses.
   */
  lemma ParseFailsExactly(n: Numerals, pairs: seq<Pair>)
    ensures Parse(n, pairs).None? <==> exists p: Path :: p != [] && Unreadable(n, pairs, p)
  {
    var t := Build(pairs);
    MapFailsExactly(n, t);
    if k :| k in t.kids && CollapseValue(n, t.kids[k]).None? {
      var p := FailureIsSomewhere(n, t, k);
      UnreadableIsStuck(n, pairs, p);
    }
    if p: Path :| p != [] && Unreadable(n, pairs, p) {
      UnreadableIsStuck(n, pairs, p);
      SomewhereIsFailure(n, t, p);
    }
  }

  lemma FailureIsSomewhere(n: Numerals, t: ParamTree, k: string) returns (p: Path)
    requires SolidRoot(t) && k in t.kids && CollapseValue(n, t.kids[k]).None?
    ensures p != [] && StuckAt(n, t, p)
  {
    CollapseFailsExactly(n, t.kids[k]);
    var rest := StuckIsSomewhere(n, t.kids[k]);
    StuckBelow(n, t, k, rest);
    p := [k] + rest;
  }

  lemma SomewhereIsFailure(n: Numerals, t: ParamTree, p: Path)
    requires SolidRoot(t) && p != [] && StuckAt(n, t, p)
    ensures p[0] in t.kids && CollapseValue(n, t.kids[p[0]]).None?
  {
    assert p == [p[0]] + p[1..];
    StuckBelow(n, t, p[0], p[1..]);
    SomewhereIsStuck(n, t.kids[p[0]], p[1..]);
    CollapseFailsExactly(n, t.kids[p[0]]);
  }

  /** One parameter `A.k=v`: a map, a list or a failure, as `isdigit` and `int` take the key. */
  lemma OneIndexKey(n: Numerals, k: string, v: string)
    requires GoodKey(k)
    ensures Parse(n, [Pair("A." + k, v)]) ==
              if !n.isDigits(k) then Some(Obj(map["A" := Obj(map[k := Leaf(v)])]))
              else if n.toInt(k).Some? then Some(Obj(map["A" := Lst([Leaf(v)])]))
              else None
  {
    var inner: ParamTree := Node([k], map[k := Text(v)]);
    var t: ParamTree := Node(["A"], map["A" := inner]);
    OnePairBuilds(k, v);
    OneEntry(n, k, v);
    OneField(n, "A", inner);
  }

  lemma OnePairBuilds(k: string, v: string)
    requires GoodKey(k)
    ensures Build([Pair("A." + k, v)]) == Node(["A"], map["A" := Node([k], map[k := Text(v)])])
  {
    var pairs := [Pair("A." + k, v)];
    assert pairs[..0] == [];
    assert Build([]) == Node([], map[]);
    TwoSegments(k);
    TwoStepInsert("A", k, v);
  }

  lemma TwoSegments(k: string)
    requires GoodKey(k)
    ensures Segments("A." + k) == ["A", k]
  {
    SplitAtDot("A", k);
    SplitDotFree(k);
    assert "A" + "." + k == "A." + k;
    assert ["A"] + [k] == ["A", k];
    assert Counts("A");
    CountingAll(["A", k]);
  }

  lemma TwoStepInsert(a: string, k: string, v: string)
    ensures Insert(Node([], map[]), [a, k], v) == Node([a], map[a := Node([k], map[k := Text(v)])])
  {
    assert [a, k][1..] == [k];
    OneStepInsert(k, v);
  }

  lemma OneStepInsert(k: string, v: string)
    ensures Insert(Node([], map[]), [k], v) == Node([k], map[k := Text(v)])
  {
    assert [k][1..] == [];
  }

  /** A dictionary of one entry collapses to a map of one entry. */
  lemma OneField(n: Numerals, k: string, child: ParamTree)
    requires Solid(child)
    ensures SolidRoot(Node([k], map[k := child]))
    ensures MapOf(Fields(n, Node([k], map[k := child]))) ==
              if CollapseValue(n, child).Some? then Some(Obj(map[k := CollapseValue(n, child).value])) else None
  {
    var t: ParamTree := Node([k], map[k := child]);
    assert t.order[0] == k;
    var out := Fields(n, t);
    assert out == map[k := CollapseValue(n, child)];
    if out[k].Some? {
      assert MapOf(out).value.fields == map[k := out[k].value];
    }
  }

  lemma OneEntry(n: Numerals, k: string, v: string)
    ensures Solid(Node([k], map[k := Text(v)]))
    ensures CollapseValue(n, Node([k], map[k := Text(v)])) ==
              if !n.isDigits(k) then Some(Obj(map[k := Leaf(v)]))
              else if n.toInt(k).Some? then Some(Lst([Leaf(v)]))
              else None
  {
    var t: ParamTree := Node([k], map[k := Text(v)]);
    OneField(n, k, Text(v));
    assert t.order[0] == k;
    if n.isDigits(k) && n.toInt(k).Some? {
      assert [k][..0] == [];
      assert SortKeys(n, [k]) == [k];
      assert Items(n, t, [k]) == [Some(Leaf(v))];
      assert ListOf([Some(Leaf(v))]).value.items == [Leaf(v)];
    }
  }

  /** `A.member.1=v` is a list of one item, like `A.1=v`. */
  lemma MemberListOfOne(n: Numerals, v: string)
    requires Lawful(n)
    ensures Parse(n, [Pair("A.member.1", v)]) ==
              if n.toInt("1").Some? then Some(Obj(map["A" := Lst([Leaf(v)])])) else None
  {
    MemberPathIsPlain();
    var plain, named := [Pair("A." + "1", v)], [Pair("A.member.1", v)];
    assert plain[..0] == named[..0] == [];
    assert Build(named) == Build(plain);
    assert GoodKey("1") && IsDigits("1");
    OneIndexKey(n, "1", v);
  }

  lemma MemberPathIsPlain()
    ensures Segments("A.member.1") == Segments("A." + "1")
  {
    assert Join(["1"]) == "1";
    assert ["member", "1"][1..] == ["1"];
    assert Join(["member", "1"]) == "member" + "." + "1";
    assert ["A", "member", "1"][1..] == ["member", "1"] && ["A", "1"][1..] == ["1"];
    assert Join(["A", "member", "1"]) == "A.member.1";
    assert Join(["A", "1"]) == "A." + "1";
    assert ["A"] + ["member"] + ["1"] == ["A", "member", "1"] && ["A"] + ["1"] == ["A", "1"];
    MemberIsOptional(["A"], ["1"]);
  }
}
