/**
 * Snowflake ids: 41 bits of milliseconds, 10 bits of node, 12 bits of sequence, minted by one
 * generator per node from whatever its clock reads.
 */
module Snowflake {
  import opened Arith
  import opened Bits
  import opened Options
  import Base62

  const NODE_ID_BITS: nat := 10
  const SEQUENCE_BITS: nat := 12
  const MAX_NODE_ID: nat := 1024
  const MAX_SEQUENCE: nat := 4096
  const TIMESTAMP_SHIFT: nat := 22

  datatype IdParts = IdParts(timestamp: nat, node: nat, sequence: nat)

  // --- Packing -----------------------------------------------------------------

  function AssembleId(timestamp: nat, sequence: nat, node: nat): nat {
    Or(Or(Shl(timestamp, TIMESTAMP_SHIFT), Shl(node, SEQUENCE_BITS)), sequence)
  }

  function Decode(id: nat): IdParts {
    IdParts(Shr(id, TIMESTAMP_SHIFT), And(Shr(id, SEQUENCE_BITS), MAX_NODE_ID - 1), And(id, MAX_SEQUENCE - 1))
  }

  lemma Powers()
    ensures Pow2(NODE_ID_BITS) == MAX_NODE_ID
    ensures Pow2(SEQUENCE_BITS) == MAX_SEQUENCE
    ensures Pow2(TIMESTAMP_SHIFT) == 4194304
  {
    assert Pow2(5) == 32;
    assert Pow2(10) == 1024;
    assert Pow2(15) == 32768;
    assert Pow2(20) == 1048576;
  }

  /** With the fields in range, the packed id is their weighted sum. */
  lemma AssembleIsSum(timestamp: nat, sequence: nat, node: nat)
    requires node < MAX_NODE_ID && sequence < MAX_SEQUENCE
    ensures AssembleId(timestamp, sequence, node) == timestamp * 4194304 + node * 4096 + sequence
  {
    Powers();
    OrDisjoint(timestamp, TIMESTAMP_SHIFT, Shl(node, SEQUENCE_BITS));
    var high := timestamp * 1024 + node;
    assert Shl(timestamp, TIMESTAMP_SHIFT) + Shl(node, SEQUENCE_BITS) == Shl(high, SEQUENCE_BITS);
    OrDisjoint(high, SEQUENCE_BITS, sequence);
  }

  lemma DecodeIsDivMod(id: nat)
    ensures Decode(id) == IdParts(id / 4194304, id / 4096 % 1024, id % 4096)
  {
    Powers();
    AndMask(id / 4096, NODE_ID_BITS);
    AndMask(id, SEQUENCE_BITS);
  }

  lemma SplitSum(t: nat, n: nat, s: nat)
    requires n < 1024 && s < 4096
    ensures var x := t * 4194304 + n * 4096 + s;
            x / 4194304 == t && x / 4096 % 1024 == n && x % 4096 == s
  {
    var x := t * 4194304 + n * 4096 + s;
    DivUnique(x, 4194304, t, n * 4096 + s);
    DivUnique(x, 4096, t * 1024 + n, s);
    DivUnique(t * 1024 + n, 1024, t, n);
  }

  /** Unpacking recovers the fields. */
  lemma DecodeInvertsAssemble(timestamp: nat, sequence: nat, node: nat)
    requires node < MAX_NODE_ID && sequence < MAX_SEQUENCE
    ensures Decode(AssembleId(timestamp, sequence, node)) == IdParts(timestamp, node, sequence)
  {
    AssembleIsSum(timestamp, sequence, node);
    DecodeSum(AssembleId(timestamp, sequence, node), timestamp, node, sequence);
  }

  lemma DecodeSum(id: nat, t: nat, n: nat, s: nat)
    requires n < 1024 && s < 4096 && id == t * 4194304 + n * 4096 + s
    ensures Decode(id) == IdParts(t, n, s)
  {
    DecodeIsDivMod(id);
    SplitSum(t, n, s);
  }

  lemma JoinParts(x: nat)
    ensures x == x / 4194304 * 4194304 + x / 4096 % 1024 * 4096 + x % 4096
  {
    var a := x / 4096;
    DivUnique(x, 4194304, a / 1024, a % 1024 * 4096 + x % 4096);
  }

  /** Every number is the packing of its own fields, and fits 63 bits exactly when its timestamp fits 41. */
  lemma AssembleInvertsDecode(id: nat)
    ensures var p := Decode(id);
            && p.node < MAX_NODE_ID && p.sequence < MAX_SEQUENCE
            && AssembleId(p.timestamp, p.sequence, p.node) == id
            && (id < 0x8000_0000_0000_0000 <==> p.timestamp < 0x200_0000_0000)
  {
    DecodeIsDivMod(id);
    AssembleIsSum(id / 4194304, id % 4096, id / 4096 % 1024);
    JoinParts(id);
  }

  // --- One call of next_id -----------------------------------------------------

  /** The last timestamp minted and its sequence number. */
  datatype Gen = Gen(last: int, sequence: nat)

  ghost predicate ValidGen(g: Gen) {
    0 <= g.last && g.sequence < MAX_SEQUENCE
  }

  /**
   * A call reads the clock until it can mint; `used` readings were consumed.  `Spinning` is a call
   * that has consumed every reading given and still waits.
   */
  datatype Call = Minted(g: Gen, used: nat) | Spinning

  /** The first position from `i` on whose reading is at least `bound`. */
  function FirstAtLeast(clock: seq<int>, i: nat, bound: int): (k: nat)
    requires i <= |clock|
    ensures i <= k <= |clock|
    ensures forall j | i <= j < k :: clock[j] < bound
    ensures k < |clock| ==> clock[k] >= bound
    decreases |clock| - i
  {
    if i == |clock| || clock[i] >= bound then i else FirstAtLeast(clock, i + 1, bound)
  }

  function NextCall(g: Gen, clock: seq<int>): Call {
    var k := FirstAtLeast(clock, 0, g.last);
    if k == |clock| then Spinning
    else if clock[k] > g.last then Minted(Gen(clock[k], 0), k + 1)
    else if g.sequence + 1 < MAX_SEQUENCE then Minted(Gen(g.last, g.sequence + 1), k + 1)
    else
      var m := FirstAtLeast(clock, k + 1, g.last + 1);
      if m == |clock| then Spinning else Minted(Gen(clock[m], 0), m + 1)
  }

  /** The generator object.  Its clock is the sequence of readings still to come. */
  class IdGenerator {
    const nodeId: nat
    var lastTimestamp: int
    var sequence: nat

    ghost predicate Valid()
      reads this
    {
      nodeId < MAX_NODE_ID && ValidGen(State())
    }

    ghost function State(): Gen
      reads this
    {
      Gen(lastTimestamp, sequence)
    }

    constructor (nodeId: nat)
      requires nodeId < MAX_NODE_ID
      ensures Valid() && this.nodeId == nodeId && State() == Gen(0, 0)
    {
      this.nodeId := nodeId;
      lastTimestamp, sequence := 0, 0;
    }

    /** `next_id`; `None` while it is still spinning after the given readings. */
    method NextId(clock: seq<int>) returns (id: Option<nat>, used: nat)
      requires Valid()
      modifies this
      ensures Valid()
      ensures match NextCall(old(State()), clock)
              case Minted(g, n) =>
                State() == g && used == n && g.last >= 0 && id == Some(AssembleId(g.last, g.sequence, nodeId))
              case Spinning =>
                State() == old(State()) && used == |clock| && id == None
    {
      var minted;
      minted, used := Advance(clock);
      if minted {
        id := Some(AssembleId(lastTimestamp, sequence, nodeId));
      } else {
        id := None;
      }
    }

    /** The timestamp and sequence of the next id, and how many readings it took. */
    method Advance(clock: seq<int>) returns (minted: bool, used: nat)
      requires Valid()
      modifies this
      ensures Valid() && (minted ==> lastTimestamp >= 0)
      ensures match NextCall(old(State()), clock)
              case Minted(g, n) => minted && State() == g && used == n
              case Spinning => !minted && State() == old(State()) && used == |clock|
    {
      var first := SpinUntil(clock, 0, lastTimestamp);
      if first == |clock| {
        return false, |clock|;
      }
      var timestamp, next := clock[first], 0;
      used := first + 1;
      if timestamp == lastTimestamp {
        next := sequence + 1;
        if next >= MAX_SEQUENCE {
          var later := SpinUntil(clock, used, lastTimestamp + 1);
          if later == |clock| {
            return false, |clock|;
          }
          timestamp, used, next := clock[later], later + 1, 0;
        }
      }
      lastTimestamp, sequence := timestamp, next;
      minted := true;
    }
  }

  /** Read the clock until it reaches the bound; the result is the position of that reading. */
  method SpinUntil(clock: seq<int>, from: nat, bound: int) returns (k: nat)
    requires from <= |clock|
    ensures k == FirstAtLeast(clock, from, bound)
  {
    k := from;
    while k < |clock| && clock[k] < bound
      invariant from <= k <= |clock|
      invariant FirstAtLeast(clock, k, bound) == FirstAtLeast(clock, from, bound)
    {
      k := k + 1;
    }
  }

  /** `IdGenerator(node_id)`; `None` is the `ValueError` on a node id that does not fit its bits. */
  method NewIdGenerator(nodeId: int) returns (g: Option<IdGenerator>)
    ensures g.Some? <==> 0 <= nodeId < MAX_NODE_ID
    ensures g.Some? ==> fresh(g.value) && g.value.Valid() && g.value.nodeId == nodeId && g.value.State() == Gen(0, 0)
  {
    if !(0 <= nodeId < MAX_NODE_ID) {
      return None;
    }
    var made := new IdGenerator(nodeId);
    g := Some(made);
  }

  // --- What one call promises --------------------------------------------------

  ghost predicate Later(a: Gen, b: Gen) {
    a.last < b.last || (a.last == b.last && a.sequence < b.sequence)
  }

  /** A minted id carries the last reading of its own call, and advances the pair by one in the same millisecond. */
  lemma CallAdvances(g: Gen, clock: seq<int>)
    requires ValidGen(g) && NextCall(g, clock).Minted?
    ensures var Minted(g', used) := NextCall(g, clock);
            && ValidGen(g') && 1 <= used <= |clock| && g'.last == clock[used - 1]
            && Later(g, g') && (g'.last == g.last ==> g'.sequence == g.sequence + 1)
  {
  }

  /** A call returns exactly when the clock shows a later millisecond, or the same one with sequence numbers left. */
  lemma CallReturnsExactly(g: Gen, clock: seq<int>)
    requires ValidGen(g)
    ensures NextCall(g, clock).Minted? <==>
              || (exists r | r in clock :: r > g.last)
              || (g.sequence + 1 < MAX_SEQUENCE && exists r | r in clock :: r == g.last)
  {
    var k := FirstAtLeast(clock, 0, g.last);
    assert k < |clock| ==> clock[k] in clock;
    if k < |clock| && clock[k] == g.last {
      var m := FirstAtLeast(clock, k + 1, g.last + 1);
      assert m < |clock| ==> clock[m] in clock;
    }
  }

  /** The reading lets a generator mint: a later millisecond, or the same one with sequence numbers left. */
  ghost predicate Usable(g: Gen, reading: int) {
    reading > g.last || (reading == g.last && g.sequence + 1 < MAX_SEQUENCE)
  }

  /**
   * A call mints with the first usable reading, having waited out all before it: the next sequence
   * number in the same millisecond, and zero in a later one.
   */
  lemma CallsAreExact(g: Gen, clock: seq<int>)
    requires ValidGen(g) && NextCall(g, clock).Minted?
    ensures var Minted(g', used) := NextCall(g, clock);
            && 1 <= used <= |clock| && Usable(g, clock[used - 1]) && g'.last == clock[used - 1]
            && (forall i | 0 <= i < used - 1 :: !Usable(g, clock[i]))
            && g'.sequence == if g'.last == g.last then g.sequence + 1 else 0
  {
    var k := FirstAtLeast(clock, 0, g.last);
    if clock[k] == g.last && g.sequence + 1 >= MAX_SEQUENCE {
      var m := FirstAtLeast(clock, k + 1, g.last + 1);
      assert forall i | 0 <= i < m :: clock[i] <= g.last;
    }
  }

  // --- Runs --------------------------------------------------------------------

  /** One completed call: what it read, and the state it left. */
  datatype Mint = Mint(readings: seq<int>, g: Gen)

  /** All the calls a stream of readings lets a generator complete, one after another. */
  function Mints(g: Gen, clock: seq<int>): seq<Mint>
    requires ValidGen(g)
    decreases |clock|
  {
    match NextCall(g, clock)
    case Spinning => []
    case Minted(g', used) =>
      CallAdvances(g, clock);
      [Mint(clock[..used], g')] + Mints(g', clock[used..])
  }

  function IdOf(m: Mint, node: nat): nat
    requires m.g.last >= 0
  {
    AssembleId(m.g.last, m.g.sequence, node)
  }

  lemma {:induction false} MintsAreLater(g: Gen, clock: seq<int>, j: nat)
    requires ValidGen(g) && j < |Mints(g, clock)|
    ensures ValidGen(Mints(g, clock)[j].g) && Later(g, Mints(g, clock)[j].g)
    ensures Mints(g, clock)[j].g.last in Mints(g, clock)[j].readings
    ensures Mints(g, clock)[j].g.last == g.last ==> Mints(g, clock)[j].g.sequence >= g.sequence + 1 + j
    decreases j
  {
    var Minted(g', used) := NextCall(g, clock);
    CallAdvances(g, clock);
    if j > 0 {
      MintsAreLater(g', clock[used..], j - 1);
    } else {
      assert clock[..used][used - 1] == g'.last;
    }
  }

  /** The calls after the first are those of the generator the first one left. */
  lemma MintsAfterFirst(g: Gen, clock: seq<int>) returns (g': Gen, rest: seq<int>)
    requires ValidGen(g) && |Mints(g, clock)| > 0
    ensures ValidGen(g') && Mints(g, clock)[0].g == g' && Mints(g, clock)[1..] == Mints(g', rest)
  {
    CallAdvances(g, clock);
    var Minted(left, used) := NextCall(g, clock);
    g', rest := left, clock[used..];
  }

  ghost predicate Advanced(a: Gen, b: Gen, calls: int) {
    Later(a, b) && (a.last == b.last ==> b.sequence >= a.sequence + calls)
  }

  lemma {:induction false} MintsKeepAdvancing(g: Gen, clock: seq<int>, i: nat, j: nat)
    requires ValidGen(g) && i < j < |Mints(g, clock)|
    ensures Advanced(Mints(g, clock)[i].g, Mints(g, clock)[j].g, j - i)
    decreases i
  {
    var g', rest := MintsAfterFirst(g, clock);
    var all := Mints(g, clock);
    assert all[j] == all[1..][j - 1];
    if i == 0 {
      MintsAreLater(g', rest, j - 1);
    } else {
      assert all[i] == all[1..][i - 1];
      MintsKeepAdvancing(g', rest, i - 1, j - 1);
    }
  }

  /** Along a run, each id has the next sequence number of its millisecond, or starts a later one at zero. */
  lemma {:induction false} SequencesRestart(g: Gen, clock: seq<int>, j: nat)
    requires ValidGen(g) && j < |Mints(g, clock)|
    ensures var before := if j == 0 then g else Mints(g, clock)[j - 1].g;
            var after := Mints(g, clock)[j].g;
            || (after.last == before.last && after.sequence == before.sequence + 1)
            || (after.last > before.last && after.sequence == 0)
    decreases j
  {
    if j == 0 {
      CallsAreExact(g, clock);
      CallAdvances(g, clock);
    } else {
      var g', rest := MintsAfterFirst(g, clock);
      var all := Mints(g, clock);
      SequencesRestart(g', rest, j - 1);
      assert all[j] == all[1..][j - 1];
      if j > 1 {
        assert all[j - 1] == all[1..][j - 2];
      }
    }
  }

  lemma LaterIsGreater(a: Gen, b: Gen, node: nat)
    requires ValidGen(a) && ValidGen(b) && Later(a, b) && node < MAX_NODE_ID
    ensures AssembleId(a.last, a.sequence, node) < AssembleId(b.last, b.sequence, node)
  {
    AssembleIsSum(a.last, a.sequence, node);
    AssembleIsSum(b.last, b.sequence, node);
  }

  /** Every id, the first included, decodes to a timestamp read during its own call and to its node. */
  lemma IdsCarryTheirReadings(g: Gen, clock: seq<int>, node: nat, j: nat)
    requires ValidGen(g) && node < MAX_NODE_ID && j < |Mints(g, clock)|
    ensures var m := Mints(g, clock)[j];
            && m.g.last >= 0
            && Decode(IdOf(m, node)) == IdParts(m.g.last, node, m.g.sequence) && m.g.last in m.readings
  {
    MintsAreLater(g, clock, j);
    var m := Mints(g, clock)[j].g;
    DecodeInvertsAssemble(m.last, m.sequence, node);
  }

  /** Whatever the clock reads, backward steps included, the ids of one generator strictly increase. */
  lemma IdsStrictlyIncrease(g: Gen, clock: seq<int>, node: nat, i: nat, j: nat)
    requires ValidGen(g) && node < MAX_NODE_ID && i < j < |Mints(g, clock)|
    ensures var (a, b) := (Mints(g, clock)[i], Mints(g, clock)[j]);
            && a.g.last >= 0 && b.g.last >= 0
            && IdOf(a, node) < IdOf(b, node)
            && Decode(IdOf(b, node)).timestamp in b.readings
            && Decode(IdOf(b, node)).node == node
  {
    MintsAreLater(g, clock, i);
    MintsAreLater(g, clock, j);
    MintsKeepAdvancing(g, clock, i, j);
    IdsCarryTheirReadings(g, clock, node, j);
    LaterIsGreater(Mints(g, clock)[i].g, Mints(g, clock)[j].g, node);
  }

  /** At most 4096 ids of one generator share a millisecond. */
  lemma MillisecondHolds4096(g: Gen, clock: seq<int>, i: nat, j: nat)
    requires ValidGen(g) && i < j < |Mints(g, clock)|
    requires Mints(g, clock)[i].g.last == Mints(g, clock)[j].g.last
    ensures j - i < MAX_SEQUENCE
  {
    MintsAreLater(g, clock, i);
    MintsAreLater(g, clock, j);
    MintsKeepAdvancing(g, clock, i, j);
  }

  /** Generators with different node ids never mint the same id. */
  lemma NodesNeverCollide(a: Gen, b: Gen, nodeA: nat, nodeB: nat)
    requires ValidGen(a) && ValidGen(b) && nodeA < MAX_NODE_ID && nodeB < MAX_NODE_ID && nodeA != nodeB
    ensures AssembleId(a.last, a.sequence, nodeA) != AssembleId(b.last, b.sequence, nodeB)
  {
    DecodeInvertsAssemble(a.last, a.sequence, nodeA);
    DecodeInvertsAssemble(b.last, b.sequence, nodeB);
  }

  /** Every slug reads back to its id, and has at most 11 characters while the timestamp fits 41 bits. */
  lemma SlugsReadBack(g: Gen, clock: seq<int>, node: nat, j: nat)
    requires ValidGen(g) && node < MAX_NODE_ID && j < |Mints(g, clock)|
    ensures var m := Mints(g, clock)[j];
            && m.g.last >= 0
            && Base62.Decode(Base62.Encode(IdOf(m, node))) == Some(IdOf(m, node))
            && (m.g.last < 0x200_0000_0000 ==> |Base62.Encode(IdOf(m, node))| <= 11)
  {
    IdsCarryTheirReadings(g, clock, node, j);
    var id := IdOf(Mints(g, clock)[j], node);
    Base62.DecodeInvertsEncode(id);
    Base62.ElevenCharactersSuffice(id);
    AssembleInvertsDecode(id);
  }

  /** The slugs of one generator come out in shortlex order. */
  lemma SlugsStrictlyIncrease(g: Gen, clock: seq<int>, node: nat, i: nat, j: nat)
    requires ValidGen(g) && node < MAX_NODE_ID && i < j < |Mints(g, clock)|
    ensures var (a, b) := (Mints(g, clock)[i], Mints(g, clock)[j]);
            && a.g.last >= 0 && b.g.last >= 0
            && Base62.Shortlex(Base62.Encode(IdOf(a, node)), Base62.Encode(IdOf(b, node)))
            && Base62.Decode(Base62.Encode(IdOf(b, node))) == Some(IdOf(b, node))
            && (b.g.last < 0x200_0000_0000 ==> |Base62.Encode(IdOf(b, node))| <= 11)
  {
    IdsStrictlyIncrease(g, clock, node, i, j);
    SlugsReadBack(g, clock, node, j);
    Base62.SlugsAreOrdered(IdOf(Mints(g, clock)[i], node), IdOf(Mints(g, clock)[j], node));
  }
}
