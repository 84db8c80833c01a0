/** A packed vector of bits that remembers whether all of them are set: BitVector. */
module BitVectors {

  /** What the vector is: its bits, and the cached answer, 0 for no, 1 for yes, 2 for not known. */
  datatype Vec = Vec(bits: seq<bool>, cache: nat)

  datatype Op = Set(i: nat, value: bool) | SetSize(n: nat, value: bool) | Clear | SetBuffer(data: seq<bv8>) | AllTrue | SetAllTrue

  predicate All(bits: seq<bool>) { forall i :: 0 <= i < |bits| ==> bits[i] }

  function PosMask(i: nat): bv8
    requires i < 8
  {
    match i case 0 => 0x01 case 1 => 0x02 case 2 => 0x04 case 3 => 0x08 case 4 => 0x10 case 5 => 0x20 case 6 => 0x40 case 7 => 0x80
  }

  function NegMask(i: nat): bv8
    requires i < 8
  {
    match i case 0 => 0xFE case 1 => 0xFD case 2 => 0xFB case 3 => 0xF7 case 4 => 0xEF case 5 => 0xDF case 6 => 0xBF case 7 => 0x7F
  }

  predicate Bit(b: bv8, i: nat)
    requires i < 8
  {
    b & PosMask(i) != 0
  }

  function Bytes(n: nat): nat { (n + 7) / 8 }

  /** The first n bits of the bytes; the padding in the last byte may be anything. */
  function Unpacked(data: seq<bv8>, n: nat): (bits: seq<bool>)
    requires |data| == Bytes(n)
    ensures |bits| == n
    ensures forall i :: 0 <= i < n ==> bits[i] == Bit(data[i / 8], i % 8)
  {
    seq(n, i requires 0 <= i < n => Bit(data[i / 8], i % 8))
  }

  function Step(v: Vec, op: Op): (Vec, bool)
    requires op.SetBuffer? ==> |op.data| == Bytes(|v.bits|)
  {
    match op
    case Set(i, value) =>
      (if i >= |v.bits| then v
       else Vec(v.bits[i := value], if !value then 0 else if v.cache == 0 then 2 else v.cache), false)
    case SetSize(n, value) => (Vec(seq(n, _ => value), if n > 0 && value then 1 else 0), false)
    case Clear => (Vec([], 0), false)
    case SetBuffer(data) => (Vec(Unpacked(data, |v.bits|), 2), false)
    case AllTrue =>
      var yes := if v.cache == 2 then All(v.bits) else v.cache == 1;
      (v.(cache := if yes then 1 else if v.cache == 2 then 0 else v.cache), yes)
    case SetAllTrue => (v.(bits := seq(|v.bits|, _ => true)), false)
  }

  // ---- One byte ----

  lemma FullByte(b: bv8)
    ensures b == 0xFF <==> forall i :: 0 <= i < 8 ==> Bit(b, i)
  {
    assert b == 0xFF <==> Bit(b, 0) && Bit(b, 1) && Bit(b, 2) && Bit(b, 3) && Bit(b, 4) && Bit(b, 5) && Bit(b, 6) && Bit(b, 7);
  }

  lemma EmptyByte(i: nat)
    requires i < 8
    ensures !Bit(0, i)
  {
  }

  /** The byte with one bit written through its mask. */
  function With(b: bv8, i: nat, value: bool): bv8
    requires i < 8
  {
    if value then b | PosMask(i) else b & NegMask(i)
  }

  /** A byte is the sum of its bits, the first of them worth 1 and each next one twice as much. */
  lemma SumOfBits(b: bv8)
    ensures b == (if Bit(b, 0) then 1 else 0) + (if Bit(b, 1) then 2 else 0) + (if Bit(b, 2) then 4 else 0) + (if Bit(b, 3) then 8 else 0)
              + (if Bit(b, 4) then 16 else 0) + (if Bit(b, 5) then 32 else 0) + (if Bit(b, 6) then 64 else 0) + (if Bit(b, 7) then 128 else 0)
  {
  }

  lemma WithBit(b: bv8, i: nat, value: bool, j: nat)
    requires i < 8 && j < 8
    ensures Bit(With(b, i, value), j) == if i == j then value else Bit(b, j)
  {
  }

  lemma Apart(i: nat, k: nat)
    ensures i == k <==> i / 8 == k / 8 && i % 8 == k % 8
  {
  }

  lemma SetInPlace(data: seq<bv8>, n: nat, i: nat, k: nat, value: bool)
    requires |data| == Bytes(n) && i < n && k < n
    ensures Bit(data[i / 8 := With(data[i / 8], i % 8, value)][k / 8], k % 8) == if k == i then value else Bit(data[k / 8], k % 8)
  {
    WithBit(data[i / 8], i % 8, value, k % 8);
    Apart(i, k);
    hide Bit, With;
  }

  /** Writing one bit leaves every other as it was. */
  lemma SetUnpacked(data: seq<bv8>, n: nat, i: nat, value: bool)
    requires |data| == Bytes(n) && i < n
    ensures Unpacked(data[i / 8 := With(data[i / 8], i % 8, value)], n) == Unpacked(data, n)[i := value]
  {
    var after, wanted := Unpacked(data[i / 8 := With(data[i / 8], i % 8, value)], n), Unpacked(data, n)[i := value];
    hide Bit, With;
    forall k | 0 <= k < n
      ensures after[k] == wanted[k]
    {
      SetInPlace(data, n, i, k, value);
    }
  }

  /** A whole byte is full exactly if its eight bits are set. */
  lemma WholeByte(data: seq<bv8>, n: nat, b: nat)
    requires |data| == Bytes(n) && 8 * (b + 1) <= n
    ensures data[b] == 0xFF <==> forall k :: 8 * b <= k < 8 * (b + 1) ==> Unpacked(data, n)[k]
  {
    FullByte(data[b]);
    hide Bit;
    if j :| 0 <= j < 8 && !Bit(data[b], j) {
      assert (8 * b + j) / 8 == b && (8 * b + j) % 8 == j;
      assert !Unpacked(data, n)[8 * b + j];
    }
    forall k | 8 * b <= k < 8 * (b + 1) && data[b] == 0xFF
      ensures Unpacked(data, n)[k]
    {
      assert k / 8 == b;
    }
  }

  class BitVector {
    var size: nat
    var vector: array<bv8>
    var allTrue: nat

    constructor ()
      ensures Valid() && State() == Vec([], 0)
    {
      size, vector, allTrue := 0, new bv8[0], 0;
    }

    ghost predicate Valid()
      reads this
    {
      vector.Length == Bytes(size) && allTrue <= 2
    }

    ghost function State(): Vec
      requires Valid()
      reads this, vector
    {
      Vec(Unpacked(vector[..], size), allTrue)
    }

    method Get(i: nat) returns (r: bool)
      requires Valid()
      ensures r == (i < size && State().bits[i])
    {
      if i >= size {
        return false;
      }
      r := vector[i / 8] & PosMask(i % 8) != 0;
    }

    method Set(i: nat, value: bool)
      requires Valid()
      modifies this`allTrue, vector
      ensures Valid() && State() == Step(old(State()), Op.Set(i, value)).0
    {
      if i >= size {
        return;
      }
      SetUnpacked(vector[..], size, i, value);
      hide Unpacked, With, Bit;
      ghost var was := vector[..];
      if value {
        vector[i / 8] := With(vector[i / 8], i % 8, true);
        if allTrue == 0 {
          allTrue := 2;
        }
      } else {
        vector[i / 8] := With(vector[i / 8], i % 8, false);
        allTrue := 0;
      }
      assert vector[..] == was[i / 8 := vector[i / 8]];
    }

    method Clear()
      modifies this
      ensures Valid() && fresh(vector) && State() == Vec([], 0)
    {
      size, allTrue := 0, 0;
      vector := new bv8[0];
    }

    method SetSize(n: nat, value: bool)
      modifies this
      ensures Valid() && fresh(vector) && State() == Vec(seq(n, _ => value), if n > 0 && value then 1 else 0)
    {
      if n == 0 {
        Clear();
        return;
      }
      size := n;
      vector := new bv8[Bytes(n)](_ => if value then 0xFF else 0);
      allTrue := if value then 1 else 0;
      FullByte(0xFF);
      forall i | 0 <= i < 8 ensures !Bit(0, i) {
        EmptyByte(i);
      }
    }

    method SetBuffer(data: seq<bv8>)
      requires Valid() && |data| == Bytes(size)
      modifies this`allTrue, vector
      ensures Valid() && State() == Step(old(State()), Op.SetBuffer(data)).0
    {
      forall i | 0 <= i < |data| {
        vector[i] := data[i];
      }
      assert vector[..] == data;
      allTrue := 2;
    }

    method SetAllTrue()
      requires Valid()
      modifies vector
      ensures Valid() && State() == Step(old(State()), Op.SetAllTrue).0
    {
      FullByte(0xFF);
      hide Bit;
      forall i | 0 <= i < vector.Length {
        vector[i] := 0xFF;
      }
    }

    /** Checks the bits of an incomplete last byte one by one, and the rest by bytes; the padding is never looked at. */
    method AllTrue() returns (yes: bool)
      requires Valid()
      modifies this`allTrue
      ensures Valid() && (State(), yes) == Step(old(State()), Op.AllTrue)
    {
      if allTrue == 2 {
        var found := FoundFalse();
        allTrue := if found then 0 else 1;
      }
      yes := allTrue == 1;
    }

    method FoundFalse() returns (found: bool)
      requires Valid()
      ensures found == !All(State().bits)
    {
      ghost var bits := State().bits;
      found := false;
      var lastByte := vector.Length;
      if size % 8 != 0 {
        lastByte := lastByte - 1;
        var i := size - size % 8;
        while !found && i < size
          invariant 8 * lastByte <= i <= size
          invariant if found then !All(bits) else forall k :: 8 * lastByte <= k < i ==> bits[k]
        {
          var b := Get(i);
          found := !b;
          i := i + 1;
        }
      }
      var i := 0;
      while !found && i < lastByte
        invariant i <= lastByte
        invariant if found then !All(bits) else forall k :: 0 <= k < 8 * i || 8 * lastByte <= k < size ==> bits[k]
      {
        WholeByte(vector[..], size, i);
        hide Bit;
        found := vector[i] != 0xFF;
        i := i + 1;
      }
    }
  }

  // ---- The cached answer over whole runs ----

  predicate CacheOk(v: Vec) {
    v.cache <= 2 && (v.bits != [] ==> (v.cache == 0 ==> !All(v.bits)) && (v.cache == 1 ==> All(v.bits)))
  }

  lemma StepKeepsCache(v: Vec, op: Op)
    requires CacheOk(v) && (op.SetBuffer? ==> |op.data| == Bytes(|v.bits|))
    requires op.SetAllTrue? && v.bits != [] ==> v.cache != 0
    ensures CacheOk(Step(v, op).0)
    ensures op.AllTrue? && v.bits != [] ==> Step(v, op).1 == All(v.bits)
  {
    if op.Set? && op.i < |v.bits| && !op.value {
      assert !v.bits[op.i := false][op.i];
    }
    if op.SetSize? && op.n > 0 && !op.value {
      assert !Step(v, op).0.bits[0];
    }
  }

  /** SetAllTrue leaves a right answer exactly if the cache did not say no. */
  lemma SetAllTrueCache(v: Vec)
    requires CacheOk(v) && v.bits != []
    ensures Step(Step(v, SetAllTrue).0, AllTrue).1 == All(Step(v, SetAllTrue).0.bits) <==> v.cache != 0
  {
  }

  /** Calls whose buffers have the vector's size, none of them SetAllTrue on a vector that the cache denies. */
  predicate Allowed(v: Vec, ops: seq<Op>)
    decreases |ops|
  {
    ops == [] ||
      ((ops[0].SetBuffer? ==> |ops[0].data| == Bytes(|v.bits|)) && (ops[0].SetAllTrue? && v.bits != [] ==> v.cache != 0)
       && Allowed(Step(v, ops[0]).0, ops[1..]))
  }

  function Run(v: Vec, ops: seq<Op>): Vec
    requires Allowed(v, ops)
    decreases |ops|
  {
    if ops == [] then v else Run(Step(v, ops[0]).0, ops[1..])
  }

  /** After any such run, AllTrue on a vector that is not empty says whether every bit is set. */
  lemma {:induction false} AllTrueExact(v: Vec, ops: seq<Op>)
    requires CacheOk(v) && Allowed(v, ops)
    ensures CacheOk(Run(v, ops))
    ensures Run(v, ops).bits != [] ==> Step(Run(v, ops), AllTrue).1 == All(Run(v, ops).bits)
    decreases |ops|
  {
    if ops == [] {
      StepKeepsCache(v, AllTrue);
    } else {
      StepKeepsCache(v, ops[0]);
      AllTrueExact(Step(v, ops[0]).0, ops[1..]);
    }
  }
}
