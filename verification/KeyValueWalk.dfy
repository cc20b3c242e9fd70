/** The walk over the key-value parameters of a lidar's answer, with its narrow counters. */
module KeyValueWalk {
  import opened LivoxDefinitions

  type Byte = x: nat | x < 256

  const POINT_HOST_KEY := 0x0006
  const IMU_HOST_KEY := 0x0007

  function Little(lo: Byte, hi: Byte): (n: nat)
    ensures n < 0x1_0000
  {
    lo + 256 * hi
  }

  /** The four ports that the walk fills in. */
  datatype Ports = Ports(hostPoint: nat, lidarPoint: nat, hostImu: nat, lidarImu: nat)

  /** The ports after an item with this key, of which `bytes` are what the walk finds where the
      value of the item starts. */
  function Taken(p: Ports, key: nat, bytes: seq<Byte>): Ports
    requires IsAddress(key) ==> |bytes| >= 8
  {
    if key == POINT_HOST_KEY then p.(hostPoint := Little(bytes[4], bytes[5]), lidarPoint := Little(bytes[6], bytes[7]))
    else if key == IMU_HOST_KEY then p.(hostImu := Little(bytes[4], bytes[5]), lidarImu := Little(bytes[6], bytes[7]))
    else p
  }

  predicate IsAddress(key: nat) {
    key == POINT_HOST_KEY || key == IMU_HOST_KEY
  }

  // ----- the walk over any bytes -----

  /** The 16-bit offset and the ports after some turns. */
  datatype Place = Place(off: nat, ports: Ports)

  function KeyAt(data: seq<Byte>, off: nat): nat
    requires off + 4 <= |data|
  {
    Little(data[off], data[off + 1])
  }

  /** The turn at this offset reads a header, and after the key of an address eight bytes more,
      whatever length the header gives. */
  predicate Readable(data: seq<Byte>, off: nat) {
    off + 4 <= |data| && (IsAddress(KeyAt(data, off)) ==> off + 12 <= |data|)
  }

  /** Reduction to 16 bits. */
  function Wrapped(x: nat): nat {
    x % 0x1_0000
  }

  function Turn(data: seq<Byte>, at: Place): Place
    requires Readable(data, at.off)
  {
    Place(Wrapped(at.off + 4 + Little(data[at.off + 2], data[at.off + 3])),
          Taken(at.ports, KeyAt(data, at.off), data[at.off + 4..]))
  }

  /** Whether the first k turns stay inside the buffer. */
  predicate Inside(data: seq<Byte>, p: Ports, k: nat)
    decreases k, 0
  {
    k == 0 || (Inside(data, p, k - 1) && Readable(data, After(data, p, k - 1).off))
  }

  function After(data: seq<Byte>, p: Ports, k: nat): Place
    requires Inside(data, p, k)
    decreases k, 1
  {
    if k == 0 then Place(0, p) else Turn(data, After(data, p, k - 1))
  }

  /** The walk itself, with an 8-bit counter and a 16-bit offset. */
  method Walk(data: seq<Byte>, paramNum: nat, p: Ports) returns (q: Ports)
    requires paramNum <= 255 && Inside(data, p, paramNum)
    ensures q == After(data, p, paramNum).ports
  {
    hide Taken, After, Inside;
    InsideBefore(data, p, paramNum, 0);
    q := p;
    var off := 0;
    var i := 0;
    while i < paramNum
      invariant i <= paramNum && Inside(data, p, i) && After(data, p, i) == Place(off, q)
    {
      InsideBefore(data, p, paramNum, i + 1);
      AfterNext(data, p, i);
      off, q := Step(data, off, q);
      i := (i + 1) % 256;
    }
  }

  lemma {:induction false} InsideBefore(data: seq<Byte>, p: Ports, k: nat, j: nat)
    requires Inside(data, p, k) && j <= k
    ensures Inside(data, p, j) && (j == 0 ==> After(data, p, j) == Place(0, p))
    decreases k
  {
    if j < k {
      InsideBefore(data, p, k - 1, j);
    }
  }

  lemma AfterNext(data: seq<Byte>, p: Ports, k: nat)
    requires Inside(data, p, k + 1)
    ensures Inside(data, p, k) && Readable(data, After(data, p, k).off) && After(data, p, k + 1) == Turn(data, After(data, p, k))
  {}

  /** One turn of the walk: the offset is advanced in two steps. */
  method Step(data: seq<Byte>, off: nat, p: Ports) returns (next: nat, q: Ports)
    requires Readable(data, off)
    ensures Place(next, q) == Turn(data, Place(off, p))
  {
    hide Little, Wrapped;
    TwoAdditions(off + 4, Little(data[off + 2], data[off + 3]));
    q := p;
    var key := Little(data[off], data[off + 1]);
    if key == POINT_HOST_KEY {
      q := q.(hostPoint := Little(data[off + 8], data[off + 9]), lidarPoint := Little(data[off + 10], data[off + 11]));
    } else if key == IMU_HOST_KEY {
      q := q.(hostImu := Little(data[off + 8], data[off + 9]), lidarImu := Little(data[off + 10], data[off + 11]));
    }
    next := Wrapped(off + 4);
    next := Wrapped(next + Little(data[off + 2], data[off + 3]));
  }

  lemma TwoAdditions(x: nat, y: nat)
    ensures Wrapped(Wrapped(x) + y) == Wrapped(x + y)
  {}

  // ----- where the walk ends -----

  /** The value of the 8-bit counter after k increments. */
  function Counter(k: nat): nat {
    k % 256
  }

  /** The walk has come to its end after k turns, all inside the buffer. */
  predicate EndsAfter(data: seq<Byte>, p: Ports, paramNum: nat, k: nat) {
    Inside(data, p, k) && Counter(k) >= paramNum && forall j :: 0 <= j < k ==> Counter(j) < paramNum
  }

  /** With up to 255 parameters the walk ends after as many turns, if they stay inside the
      buffer. With more it never ends there: however many turns stay inside, it goes on. */
  lemma EndsExactlyWhen(data: seq<Byte>, p: Ports, paramNum: nat, k: nat)
    ensures EndsAfter(data, p, paramNum, k) <==> k == paramNum <= 255 && Inside(data, p, paramNum)
  {
    hide Inside, Turn, After;
    if paramNum <= 255 {
      assert Counter(paramNum) == paramNum;
      if k > paramNum {
        assert !(Counter(paramNum) < paramNum);
      }
    }
  }

  // ----- what the buffer encodes -----

  function Bytes(n: nat): seq<Byte>
    requires n < 0x1_0000
  {
    [n % 256, n / 256]
  }

  /** A parameter: two bytes of key, two of length, and the value. */
  datatype Item = Item(key: nat, value: seq<Byte>) {
    /** Keys and lengths fit their fields. */
    predicate Valid() {
      key < 0x1_0000 && |value| < 0x1_0000
    }

    function Encode(): (b: seq<Byte>)
      requires Valid()
      ensures |b| == 4 + |value|
    {
      Bytes(key) + Bytes(|value|) + value
    }
  }

  predicate AllValid(items: seq<Item>) {
    forall i :: 0 <= i < |items| ==> items[i].Valid()
  }

  /** What is found where the value of item i starts: its value, and behind it whatever the
      buffer holds next. */
  function Found(items: seq<Item>, rest: seq<Byte>, i: nat): seq<Byte>
    requires AllValid(items) && i < |items|
  {
    items[i].value + EncodeFrom(items, i + 1) + rest
  }

  /** The encoding of the items from the i-th on. */
  function EncodeFrom(items: seq<Item>, i: nat): seq<Byte>
    requires AllValid(items) && i <= |items|
    decreases |items| - i
  {
    if i == |items| then [] else items[i].Encode() + EncodeFrom(items, i + 1)
  }

  /** No address item is so close to the end that eight bytes behind its header are missing. */
  predicate Complete(items: seq<Item>, rest: seq<Byte>)
    requires AllValid(items)
  {
    forall i :: 0 <= i < |items| && IsAddress(items[i].key) ==> |Found(items, rest, i)| >= 8
  }

  /** The ports after the first k items in front of these bytes. */
  function AllTaken(p: Ports, items: seq<Item>, rest: seq<Byte>, k: nat): Ports
    requires AllValid(items) && Complete(items, rest) && k <= |items|
  {
    if k == 0 then p else Taken(AllTaken(p, items, rest, k - 1), items[k - 1].key, Found(items, rest, k - 1))
  }

  /** The point ports are those of the last item with their key, or stay as they were. */
  lemma {:induction false} LastPointItem(p: Ports, items: seq<Item>, rest: seq<Byte>, j: nat, k: nat)
    requires AllValid(items) && Complete(items, rest)
    requires j < k <= |items| && items[j].key == POINT_HOST_KEY && (forall i :: j < i < k ==> items[i].key != POINT_HOST_KEY)
    ensures var found, q := Found(items, rest, j), AllTaken(p, items, rest, k);
            |found| >= 8 && q.hostPoint == Little(found[4], found[5]) && q.lidarPoint == Little(found[6], found[7])
    decreases k
  {
    hide Found;
    if j + 1 < k {
      LastPointItem(p, items, rest, j, k - 1);
    }
  }

  lemma {:induction false} LastImuItem(p: Ports, items: seq<Item>, rest: seq<Byte>, j: nat, k: nat)
    requires AllValid(items) && Complete(items, rest)
    requires j < k <= |items| && items[j].key == IMU_HOST_KEY && (forall i :: j < i < k ==> items[i].key != IMU_HOST_KEY)
    ensures var found, q := Found(items, rest, j), AllTaken(p, items, rest, k);
            |found| >= 8 && q.hostImu == Little(found[4], found[5]) && q.lidarImu == Little(found[6], found[7])
    decreases k
  {
    hide Found;
    if j + 1 < k {
      LastImuItem(p, items, rest, j, k - 1);
    }
  }

  lemma {:induction false} NoItem(p: Ports, items: seq<Item>, rest: seq<Byte>, k: nat)
    requires AllValid(items) && Complete(items, rest) && k <= |items|
    ensures var q := AllTaken(p, items, rest, k);
            && ((forall i :: 0 <= i < k ==> items[i].key != POINT_HOST_KEY) ==> q.hostPoint == p.hostPoint && q.lidarPoint == p.lidarPoint)
            && ((forall i :: 0 <= i < k ==> items[i].key != IMU_HOST_KEY) ==> q.hostImu == p.hostImu && q.lidarImu == p.lidarImu)
    decreases k
  {
    hide Found;
    if k != 0 {
      NoItem(p, items, rest, k - 1);
    }
  }

  /** A value of eight bytes or more is read itself; of a shorter one the missing bytes are
      those of the next header and what comes after it. */
  lemma FoundBytes(items: seq<Item>, rest: seq<Byte>, i: nat, k: nat)
    requires AllValid(items) && i < |items| && k < |Found(items, rest, i)|
    ensures k < |items[i].value| ==> Found(items, rest, i)[k] == items[i].value[k]
    ensures k >= |items[i].value| ==>
              k - |items[i].value| < |EncodeFrom(items, i + 1) + rest|
              && Found(items, rest, i)[k] == (EncodeFrom(items, i + 1) + rest)[k - |items[i].value|]
  {}

  // ----- the walk over encoded items -----

  /** Where the i-th item starts. */
  function Start(items: seq<Item>, i: nat): nat
    requires AllValid(items) && i <= |items|
  {
    if i == 0 then 0 else Start(items, i - 1) + 4 + |items[i - 1].value|
  }

  lemma {:induction false} ItemsFrom(items: seq<Item>, rest: seq<Byte>, i: nat)
    requires AllValid(items) && i <= |items|
    ensures var data := EncodeFrom(items, 0) + rest;
            Start(items, i) <= |data| && data[Start(items, i)..] == EncodeFrom(items, i) + rest
    decreases i
  {
    if i != 0 {
      ItemsFrom(items, rest, i - 1);
      var data, off, code := EncodeFrom(items, 0) + rest, Start(items, i - 1), items[i - 1].Encode();
      assert data[off..] == code + (EncodeFrom(items, i) + rest);
      assert data[off + |code|..] == data[off..][|code|..];
    }
  }

  /** The bytes of an item, read where it starts. */
  lemma ItemAt(data: seq<Byte>, off: nat, item: Item, behind: seq<Byte>)
    requires item.Valid() && off <= |data| && data[off..] == item.Encode() + behind
    ensures off + 4 <= |data| && KeyAt(data, off) == item.key && Little(data[off + 2], data[off + 3]) == |item.value|
    ensures data[off + 4..] == item.value + behind
  {
    var code := item.Encode();
    assert forall k :: 0 <= k < |code| ==> data[off + k] == data[off..][k] == code[k];
    assert data[off + 4..] == data[off..][4..];
  }

  lemma TurnAt(data: seq<Byte>, off: nat, p: Ports, item: Item, behind: seq<Byte>)
    requires item.Valid() && off <= |data| < 0x1_0000 && data[off..] == item.Encode() + behind
    requires IsAddress(item.key) ==> |item.value + behind| >= 8
    ensures Readable(data, off)
    ensures Turn(data, Place(off, p)) == Place(off + 4 + |item.value|, Taken(p, item.key, item.value + behind))
  {
    hide Taken, Item.Encode, KeyAt;
    ItemAt(data, off, item, behind);
    assert |data[off + 4..]| == |data| - off - 4;
  }

  lemma TurnTakesItem(p: Ports, items: seq<Item>, rest: seq<Byte>, i: nat)
    requires AllValid(items) && Complete(items, rest) && i < |items| && |EncodeFrom(items, 0) + rest| < 0x1_0000
    ensures Readable(EncodeFrom(items, 0) + rest, Start(items, i))
    ensures Turn(EncodeFrom(items, 0) + rest, Place(Start(items, i), p)) == Place(Start(items, i + 1), Taken(p, items[i].key, Found(items, rest, i)))
  {
    hide Taken, Turn, Readable, Item.Encode;
    ItemsFrom(items, rest, i);
    FromNext(items, rest, i);
    TurnAt(EncodeFrom(items, 0) + rest, Start(items, i), p, items[i], EncodeFrom(items, i + 1) + rest);
    hide EncodeFrom, Complete;
  }

  lemma FromNext(items: seq<Item>, rest: seq<Byte>, i: nat)
    requires AllValid(items) && i < |items|
    ensures EncodeFrom(items, i) + rest == items[i].Encode() + (EncodeFrom(items, i + 1) + rest)
    ensures Found(items, rest, i) == items[i].value + (EncodeFrom(items, i + 1) + rest)
  {}

  /** On a buffer that starts with encoded items every turn is at the start of an item, and takes
      that item. */
  lemma {:induction false} WalkTakesItems(p: Ports, items: seq<Item>, rest: seq<Byte>, k: nat)
    requires AllValid(items) && Complete(items, rest) && k <= |items| && |EncodeFrom(items, 0) + rest| < 0x1_0000
    ensures Inside(EncodeFrom(items, 0) + rest, p, k)
    ensures After(EncodeFrom(items, 0) + rest, p, k) == Place(Start(items, k), AllTaken(p, items, rest, k))
    decreases k
  {
    hide Taken, Turn, Readable, Item.Encode, EncodeFrom, Found, Complete;
    if k != 0 {
      WalkTakesItems(p, items, rest, k - 1);
      TurnTakesItem(AllTaken(p, items, rest, k - 1), items, rest, k - 1);
    }
  }

  /** An answer with more than 255 parameters and nothing behind them: after the last one the
      guard still holds, and the next turn is outside the buffer. */
  lemma WalkOverruns(p: Ports, items: seq<Item>)
    requires AllValid(items) && Complete(items, []) && |items| > 255 && |EncodeFrom(items, 0) + []| < 0x1_0000
    ensures var data := EncodeFrom(items, 0) + [];
            Inside(data, p, |items|) && Counter(|items|) < |items| && !Inside(data, p, |items| + 1)
  {
    WalkTakesItems(p, items, [], |items|);
    ItemsFrom(items, [], |items|);
    var data := EncodeFrom(items, 0) + [];
    assert data[Start(items, |items|)..] == [];
    hide AllTaken, Complete, Start, Item.Encode;
  }

  /** Such an answer: 256 parameters without a value. */
  lemma OverrunInput(p: Ports, items: seq<Item>)
    requires items == seq(256, _ => Item(0, []))
    ensures AllValid(items) && Complete(items, []) && !Inside(EncodeFrom(items, 0) + [], p, 257)
  {
    assert AllValid(items);
    EmptyItems(items, 256);
    ItemsFrom(items, [], 256);
    WalkOverruns(p, items);
    hide Inside, After, EncodeFrom, Item.Encode;
  }

  lemma {:induction false} EmptyItems(items: seq<Item>, k: nat)
    requires AllValid(items) && k <= |items| && forall i :: 0 <= i < |items| ==> items[i] == Item(0, [])
    ensures Start(items, k) == 4 * k && Complete(items, [])
    decreases k
  {
    if k != 0 {
      EmptyItems(items, k - 1);
    }
    hide EncodeFrom;
  }

  // ----- viewed lidars -----

  /** Item j is the last one with this key. */
  predicate IsLast(items: seq<Item>, key: nat, j: nat) {
    j < |items| && items[j].key == key && forall i :: j < i < |items| ==> items[i].key != key
  }

  /** A port of a view: zero without an item that gives it, and otherwise what the bytes `at` and
      at + 1 of the last such item say. */
  ghost predicate PortIs(items: seq<Item>, rest: seq<Byte>, key: nat, at: nat, port: nat)
    requires AllValid(items)
  {
    && ((forall i :: 0 <= i < |items| ==> items[i].key != key) ==> port == 0)
    && (forall j: nat :: IsLast(items, key, j) ==>
          var found := Found(items, rest, j);
          |found| > at + 1 && port == found[at] as int + 256 * (found[at + 1] as int))
  }

  lemma WalkedPorts(items: seq<Item>, rest: seq<Byte>)
    requires AllValid(items) && Complete(items, rest)
    ensures var q := AllTaken(Ports(0, 0, 0, 0), items, rest, |items|);
            && PortIs(items, rest, 0x0006, 4, q.hostPoint) && PortIs(items, rest, 0x0006, 6, q.lidarPoint)
            && PortIs(items, rest, 0x0007, 4, q.hostImu) && PortIs(items, rest, 0x0007, 6, q.lidarImu)
  {
    hide AllTaken, Found, Complete;
    var zero := Ports(0, 0, 0, 0);
    NoItem(zero, items, rest, |items|);
    forall j: nat | IsLast(items, POINT_HOST_KEY, j)
      ensures var found, q := Found(items, rest, j), AllTaken(zero, items, rest, |items|);
              |found| >= 8 && q.hostPoint == Little(found[4], found[5]) && q.lidarPoint == Little(found[6], found[7])
    {
      LastPointItem(zero, items, rest, j, |items|);
    }
    forall j: nat | IsLast(items, IMU_HOST_KEY, j)
      ensures var found, q := Found(items, rest, j), AllTaken(zero, items, rest, |items|);
              |found| >= 8 && q.hostImu == Little(found[4], found[5]) && q.lidarImu == Little(found[6], found[7])
    {
      LastImuItem(zero, items, rest, j, |items|);
    }
  }

  /** Parameters of a new view, all zero before the walk, from an answer that holds these items.
      The lidar's own ports are fixed for the types 9 and 35. */
  method AddViewLidar(data: seq<Byte>, paramNum: nat, deviceType: nat, ghost items: seq<Item>, ghost rest: seq<Byte>) returns (q: Ports)
    requires AllValid(items) && Complete(items, rest) && data == EncodeFrom(items, 0) + rest && |data| < 0x1_0000
    requires paramNum == |items| <= 255
    ensures PortIs(items, rest, 0x0006, 4, q.hostPoint) && PortIs(items, rest, 0x0007, 4, q.hostImu)
    ensures if deviceType == 9 || deviceType == 35 then q.lidarPoint == 56300 && q.lidarImu == 56400
            else PortIs(items, rest, 0x0006, 6, q.lidarPoint) && PortIs(items, rest, 0x0007, 6, q.lidarImu)
  {
    WalkTakesItems(Ports(0, 0, 0, 0), items, rest, |items|);
    WalkedPorts(items, rest);
    hide AllTaken, EncodeFrom, Inside, After, Complete, PortIs;
    q := Walk(data, paramNum, Ports(0, 0, 0, 0));
    if deviceType == MID360 {
      q := q.(lidarPoint := MID360_LIDAR_POINT_PORT, lidarImu := MID360_LIDAR_IMU_PORT);
    }
    if deviceType == MID360S {
      q := q.(lidarPoint := MID360S_LIDAR_POINT_PORT, lidarImu := MID360S_LIDAR_IMU_PORT);
    }
  }
}
