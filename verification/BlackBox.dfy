/** The recorder's box as one thread sees it: opening, closing, and writing records into
    the mapped array. */
module BlackBox {
  import opened Recorder
  import opened Wrapping

  /** What log_cbk returns when no slot is left. */
  const SIZE_MAX: nat := WRAP - 1

  class Box {
    const capacity: nat
    var base: array?<Record>
    var fd: int
    var idx: nat
    var serials: nat
    var running: bool

    ghost predicate Valid()
      reads this
    {
      && capacity < SIZE_MAX && idx < WRAP && serials < WRAP
      && (fd >= 0 <==> base != null) && (running <==> fd >= 0)
      && (base != null ==> base.Length == capacity)
    }

    /** One producer: the slots below the mark are filled, and numbered in order. */
    ghost predicate InOrder()
      requires Valid()
      reads this, base
    {
      && base != null && serials == Min(idx, capacity)
      && (forall j :: 0 <= j < Min(idx, capacity) ==> base[j].serial == j + 1 && base[j].capDone)
    }

    constructor (n: nat)
      requires n < SIZE_MAX
      ensures Valid() && capacity == n && fd < 0 && idx == 0 == serials
    {
      capacity := n;
      base, fd, idx, serials, running := null, -1, 0, 0, false;
    }

    /** Opens, allocates and maps the file, each with the outcome given; a failure undoes what
        came before. An open box is left alone, and the counters are never reset. */
    method Init(descriptor: int, reserved: bool, mapping: array?<Record>) returns (ok: bool)
      requires Valid() && (mapping != null ==> mapping.Length == capacity)
      modifies this
      ensures Valid() && idx == old(idx) && serials == old(serials)
      ensures old(fd) >= 0 ==> ok && fd == old(fd) && base == old(base)
      ensures old(fd) < 0 ==> (ok <==> descriptor >= 0 && reserved && mapping != null)
      ensures old(fd) < 0 && ok ==> fd == descriptor && base == mapping && running
      ensures old(fd) < 0 && !ok ==> fd < 0 && base == null && !running
    {
      if fd >= 0 {
        return true;
      }
      fd := descriptor;
      if fd < 0 {
        return false;
      }
      if !reserved {
        fd := -1;
        return false;
      }
      if mapping == null {
        fd := -1;
        return false;
      }
      base := mapping;
      running := true;
      return true;
    }

    /** Closes the box; a second call does nothing. */
    method Shutdown()
      requires Valid()
      modifies this
      ensures Valid() && fd < 0 && base == null && !running && idx == old(idx) && serials == old(serials)
    {
      if fd < 0 {
        return;
      }
      running := false;
      if base != null {
        base := null;
      }
      fd := -1;
    }

    method NextIdx() returns (i: nat)
      requires Valid()
      modifies this`idx
      ensures Valid() && idx == Wrapped(old(idx) + 1)
      ensures i == if old(idx) < capacity then old(idx) else SIZE_MAX
    {
      i := idx;
      idx := Wrapped(idx + 1);
      if i >= capacity {
        i := SIZE_MAX;
      }
    }

    method NextSeq() returns (value: nat)
      requires Valid()
      modifies this`serials
      ensures Valid() && serials == value == Wrapped(old(serials) + 1)
    {
      serials := Wrapped(serials + 1);
      value := serials;
    }

    /** Fills the next slot and returns its index; without a box or a slot it writes nothing. */
    method LogCbk(header: nat, capture: nat, clock: nat) returns (i: nat)
      requires Valid()
      modifies this`idx, this`serials, base
      ensures Valid() && base == old(base) && fd == old(fd)
      ensures fd < 0 ==> i == SIZE_MAX && idx == old(idx) && serials == old(serials)
      ensures fd >= 0 ==> idx == Wrapped(old(idx) + 1) && i == if old(idx) < capacity then old(idx) else SIZE_MAX
      ensures fd >= 0 && i == SIZE_MAX ==> serials == old(serials) && base[..] == old(base[..])
      ensures fd >= 0 && i != SIZE_MAX ==>
                && i < capacity && serials == Wrapped(old(serials) + 1)
                && base[..] == old(base[..])[i := Record(serials, header, capture, clock, 0, true, false)]
      ensures old(fd >= 0 && InOrder()) && old(idx) + 1 < WRAP ==> InOrder()
    {
      if fd < 0 {
        return SIZE_MAX;
      }
      i := NextIdx();
      WrapsLate(old(idx));
      if i == SIZE_MAX {
        return;
      }
      var number := NextSeq();
      WrapsLate(old(serials));
      base[i] := base[i].(serial := number);
      base[i] := base[i].(header := header);
      base[i] := base[i].(capture := capture);
      base[i] := base[i].(cbk := clock);
      base[i] := base[i].(pub := 0);
      base[i] := base[i].(capDone := true);
      base[i] := base[i].(rosDone := false);
    }

    /** Stamps the publication of a slot; an index that is none is ignored. */
    method LogPub(i: nat, clock: nat)
      requires Valid()
      modifies base
      ensures Valid()
      ensures fd >= 0 && i < capacity ==> base[..] == old(base[..])[i := old(base[i]).(pub := clock, rosDone := true)]
      ensures fd >= 0 && i >= capacity ==> base[..] == old(base[..])
      ensures old(fd >= 0 && InOrder()) ==> InOrder()
    {
      if fd < 0 || i == SIZE_MAX || i >= capacity {
        return;
      }
      base[i] := base[i].(pub := clock);
      base[i] := base[i].(rosDone := true);
    }
  }

  lemma WrapsLate(x: nat)
    ensures x + 1 < WRAP ==> Wrapped(x + 1) == x + 1
    ensures Wrapped(x + 1) < WRAP
  {}
}
