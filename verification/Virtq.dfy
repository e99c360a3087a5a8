/**
 The block driver of virtio.c and the device, as two parties that take turns in
 any order. Sections 2.6 (split virtqueues) and 5.2.6 (block device operation)
 of VIRTIO 1.1. Indices are 16-bit and wrap around.
 */
module Virtq {
  import opened Bytes
  import opened Ustar

  const ENTRIES: nat := 16
  const WRAP: nat := 0x1_0000
  const F_NEXT: nat := 1
  const F_WRITE: nat := 2
  const T_IN: nat := 0
  const T_OUT: nat := 1
  // Offsets of the three parts of a request from its address.
  const HEADER_LEN: nat := 16
  const DATA_AT: nat := 16
  const STATUS_AT: nat := 528

  datatype Desc = Desc(addr: nat, len: nat, flags: nat, next: nat)
  type Descs = d: seq<Desc> | |d| == ENTRIES witness seq(ENTRIES, _ => Desc(0, 0, 0, 0))
  type Ring = r: seq<nat> | |r| == ENTRIES witness seq(ENTRIES, _ => 0)

  /** The request structure shared with the device. */
  datatype Request = Request(kind: nat, sector: nat, data: Sector, status: nat)

  /** A call of virtio_rw: the caller's buffer, the sector, and the direction. */
  datatype Call = Call(buf: Sector, sector: nat, write: bool)

  /** What the last call came to; after a read that succeeded the buffer holds `buf`. */
  datatype Return = Nothing | OutOfRange | Failed | Done(buf: Sector)

  /** The driver is between calls, or at a step of one. */
  datatype Driver = Idle | Busy(c: Call, at: nat)

  /** The device waits, has fetched the request at a descriptor, or has served it. */
  datatype Device = Resting | Fetched(head: nat) | Served(head: nat)

  datatype State = State(
    base: nat, req: Request, descs: Descs, ring: Ring, avail: nat, lastUsed: nat, driver: Driver, returned: Return,
    disk: seq<Sector>, device: Device, seen: nat, used: nat, usedRing: Ring)

  function Next(i: nat): nat { (i + 1) % WRAP }

  // ---- the driver ----

  function HeaderDesc(base: nat): Desc { Desc(base, HEADER_LEN, F_NEXT, 1) }

  function DataDesc(base: nat, write: bool): Desc { Desc(base + DATA_AT, SECTOR, F_NEXT + (if write then 0 else F_WRITE), 2) }

  /** The status descriptor's next field is left as it is. */
  function StatusDesc(base: nat, next: nat): Desc { Desc(base + STATUS_AT, 1, F_WRITE, next) }

  /** virtq_is_busy. */
  predicate IsBusy(s: State) { s.lastUsed != s.used }

  function Goto(s: State, c: Call, at: nat): State { s.(driver := Busy(c, at)) }

  /** The next store or test of virtio_rw and virtq_kick; a test of the busy flag that fails is repeated. */
  function DriverStep(s: State): State {
    match s.driver
    case Idle => s
    case Busy(c, at) =>
      match at
      case 0 => if c.sector >= |s.disk| then s.(driver := Idle, returned := OutOfRange) else Goto(s, c, 1)
      case 1 => Goto(s.(req := s.req.(sector := c.sector)), c, 2)
      case 2 => Goto(s.(req := s.req.(kind := if c.write then T_OUT else T_IN)), c, 3)
      case 3 => Goto(if c.write then s.(req := s.req.(data := c.buf)) else s, c, 4)
      case 4 => Goto(s.(descs := s.descs[0 := HeaderDesc(s.base)]), c, 5)
      case 5 => Goto(s.(descs := s.descs[1 := DataDesc(s.base, c.write)]), c, 6)
      case 6 => Goto(s.(descs := s.descs[2 := StatusDesc(s.base, s.descs[2].next)]), c, 7)
      case 7 => Goto(s.(ring := s.ring[s.avail % ENTRIES := 0]), c, 8)
      case 8 => Goto(s.(avail := Next(s.avail)), c, 9)
      case 9 => Goto(s, c, 10)
      case 10 => Goto(s.(lastUsed := Next(s.lastUsed)), c, 11)
      case 11 => if IsBusy(s) then s else Goto(s, c, 12)
      case _ =>
        if s.req.status != 0 then s.(driver := Idle, returned := Failed)
        else s.(driver := Idle, returned := Done(if c.write then c.buf else s.req.data))
  }

  // ---- the device ----

  // The flag bits of section 2.6.5: the chain goes on, and the buffer is for the device to write.
  predicate GoesOn(d: Desc) { d.flags % 2 == 1 }
  predicate ForDevice(d: Desc) { (d.flags / 2) % 2 == 1 }

  /** The chain the device can follow (section 5.2.6): 16 bytes of type and sector for it to read; the sector's 512 bytes,
      for it to read when the type is 1 and to write when it is 0; and one byte of status for it to write. */
  predicate ChainOk(s: State, head: nat) {
    && head < ENTRIES && s.descs[head].next < ENTRIES && s.descs[s.descs[head].next].next < ENTRIES
    && var header := s.descs[head];
    var data := s.descs[header.next];
    var status := s.descs[data.next];
    && header.addr == s.base && header.len == 16 && GoesOn(header) && !ForDevice(header)
    && data.addr == s.base + 16 && data.len == 512 && GoesOn(data) && (ForDevice(data) <==> s.req.kind == 0)
    && status.addr == s.base + 528 && status.len == 1 && !GoesOn(status) && ForDevice(status)
    && s.req.kind <= 1
  }

  /** The device's part. A request it cannot serve, or chooses not to, is answered with a status other than 0 and
      whatever data; a chain it cannot follow it does not touch. */
  function DeviceStep(s: State, fails: bool, junk: Sector): State {
    match s.device
    case Resting =>
      if s.seen != s.avail then s.(device := Fetched(s.ring[s.seen % ENTRIES]), seen := Next(s.seen)) else s
    case Fetched(h) =>
      if !ChainOk(s, h) then s
      else if fails || s.req.sector >= |s.disk| then
        (if s.req.kind == 1 then
           s.(req := s.req.(status := 1), disk := if s.req.sector < |s.disk| then s.disk[s.req.sector := junk] else s.disk, device := Served(h))
         else s.(req := s.req.(status := 1, data := junk), device := Served(h)))
      else if s.req.kind == 1 then
        s.(req := s.req.(status := 0), disk := s.disk[s.req.sector := s.req.data], device := Served(h))
      else s.(req := s.req.(status := 0, data := s.disk[s.req.sector]), device := Served(h))
    case Served(h) => s.(usedRing := s.usedRing[s.used % ENTRIES := h], used := Next(s.used), device := Resting)
  }

  // ---- the invariant ----

  /** The request has been made available and not been returned. */
  predicate Outstanding(s: State) { s.avail != s.used }

  /** How far the device has come with the one request made available. */
  ghost predicate Underway(s: State) {
    || (s.device == Resting && s.seen == s.used && s.avail == Next(s.used))
    || ((s.device == Fetched(0) || s.device == Served(0)) && s.seen == s.avail == Next(s.used))
    || (s.device == Resting && s.seen == s.used == s.avail)
  }

  /** What the driver has stored for the call `c` before step `at`. */
  ghost predicate Stored(s: State, c: Call, at: nat) {
    && (at >= 1 ==> c.sector < |s.disk|)
    && (at >= 2 ==> s.req.sector == c.sector)
    && (at >= 3 ==> s.req.kind == if c.write then T_OUT else T_IN)
    && (at >= 4 && c.write ==> s.req.data == c.buf)
    && (at >= 5 ==> s.descs[0] == HeaderDesc(s.base))
    && (at >= 6 ==> s.descs[1] == DataDesc(s.base, c.write))
    && (at >= 7 ==> s.descs[2].addr == s.base + STATUS_AT && s.descs[2].len == 1 && s.descs[2].flags == F_WRITE)
    && (at == 8 ==> s.ring[s.avail % ENTRIES] == 0)
  }

  /** Served with status 0, a read has put the sector into the request, a write the buffer onto the disk. */
  ghost predicate Answered(s: State, c: Call) {
    s.req.status == 0 && c.sector < |s.disk| ==>
      (if c.write then s.disk[c.sector] == c.buf else s.req.data == s.disk[c.sector])
  }

  ghost predicate Inv(s: State) {
    && s.avail < WRAP && s.used < WRAP && s.lastUsed < WRAP && s.seen < WRAP
    && match s.driver
       case Idle => s.device == Resting && s.avail == s.used == s.seen == s.lastUsed
       case Busy(c, at) =>
         && Stored(s, c, at) && at <= 12
         && (at <= 8 ==> s.device == Resting && s.avail == s.used == s.seen == s.lastUsed)
         && (at >= 9 ==> Underway(s))
         && (9 <= at <= 10 ==> s.avail == Next(s.lastUsed))
         && (at >= 11 ==> s.lastUsed == s.avail)
         && (at >= 9 && s.device == Resting && s.seen != s.avail ==> s.ring[s.seen % ENTRIES] == 0)
         && (at >= 9 && (s.device.Served? || !Outstanding(s)) ==> Answered(s, c))
         && (at == 12 ==> !Outstanding(s))
  }

  lemma DriverKeeps(s: State)
    requires Inv(s)
    ensures Inv(DriverStep(s))
  {
  }

  lemma DeviceKeeps(s: State, fails: bool, junk: Sector)
    requires Inv(s)
    ensures Inv(DeviceStep(s, fails, junk))
  {
  }

  // ---- what it means ----

  /** At most one request is outstanding, and the driver waits exactly while it is. */
  lemma AtMostOne(s: State)
    requires Inv(s)
    ensures Outstanding(s) ==> s.avail == Next(s.used)
    ensures s.driver.Busy? && s.driver.at == 11 ==> (IsBusy(s) <==> Outstanding(s))
  {
  }

  /** While a request is outstanding the driver stores to neither descriptors nor request nor ring. */
  lemma DriverWaits(s: State)
    requires Inv(s) && Outstanding(s)
    ensures var t := DriverStep(s); t.descs == s.descs && t.req == s.req && t.ring == s.ring && t.avail == s.avail
    ensures DriverStep(s).driver.Busy? && DriverStep(s).returned == s.returned
  {
  }

  /** And the device touches request and disk only while one is. */
  lemma DeviceWaits(s: State, fails: bool, junk: Sector)
    requires Inv(s) && !Outstanding(s)
    ensures DeviceStep(s, fails, junk) == s
  {
  }

  /** The device can always follow the chain it has fetched. */
  lemma DeviceProgress(s: State, fails: bool, junk: Sector)
    requires Inv(s) && Outstanding(s)
    ensures var t := DeviceStep(s, fails, junk);
      if s.device == Resting then t.device.Fetched? else if s.device.Fetched? then t.device.Served? else !Outstanding(t)
  {
  }

  /** A call that ends well has done what was asked: the buffer of a read is the sector's contents, and the sector of a
      write is the buffer. A sector out of range ends the call before anything is stored. */
  lemma CallReturns(s: State)
    requires Inv(s) && s.driver.Busy? && DriverStep(s).driver == Idle
    ensures var c, r := s.driver.c, DriverStep(s).returned;
      && (r == OutOfRange <==> c.sector >= |s.disk|)
      && (r.Done? ==> c.sector < |s.disk| && r.buf == s.disk[c.sector] && (c.write ==> s.disk[c.sector] == c.buf))
      && (r == OutOfRange || r == Failed || r.Done?)
      && DriverStep(s).disk == s.disk
  {
  }

  // ---- every interleaving ----

  datatype Event = Begin(c: Call) | DriverTurn | DeviceTurn(fails: bool, junk: Sector)

  function Step(s: State, e: Event): State {
    match e
    case Begin(c) => if s.driver == Idle then s.(driver := Busy(c, 0), returned := Nothing) else s
    case DriverTurn => DriverStep(s)
    case DeviceTurn(fails, junk) => DeviceStep(s, fails, junk)
  }

  function Run(s: State, es: seq<Event>): State
    decreases |es|
  {
    if es == [] then s else Run(Step(s, es[0]), es[1..])
  }

  lemma StepKeeps(s: State, e: Event)
    requires Inv(s)
    ensures Inv(Step(s, e))
  {
    hide Inv, DriverStep, DeviceStep;
    match e
    case Begin(c) => BeginKeeps(s, c);
    case DriverTurn => DriverKeeps(s);
    case DeviceTurn(fails, junk) => DeviceKeeps(s, fails, junk);
  }

  lemma {:induction false} RunKeeps(s: State, es: seq<Event>)
    requires Inv(s)
    ensures Inv(Run(s, es))
    decreases |es|
  {
    hide Inv, Step;
    if es != [] {
      StepKeeps(s, es[0]);
      RunKeeps(Step(s, es[0]), es[1..]);
    }
  }

  lemma BeginKeeps(s: State, c: Call)
    requires Inv(s)
    ensures Inv(Step(s, Begin(c)))
  {
  }

  /** A queue that has been set up, with all indices at `i`. */
  function SetUp(base: nat, disk: seq<Sector>, i: nat, req: Request, descs: Descs, ring: Ring): State {
    State(base, req, descs, ring, i, i, Idle, Nothing, disk, Resting, i, i, seq<nat>(ENTRIES, _ => 0))
  }

  /** Whatever the order of driver and device steps, and however often the indices have wrapped: when a call returns with
      success, its sector is in range and on the disk is what the buffer holds. */
  lemma RunReturns(base: nat, disk: seq<Sector>, i: nat, req: Request, descs: Descs, ring: Ring, es: seq<Event>)
    requires i < WRAP
    ensures var s := Run(SetUp(base, disk, i, req, descs, ring), es);
      && Inv(s)
      && (Outstanding(s) ==> s.avail == Next(s.used))
      && (s.driver.Busy? && DriverStep(s).driver == Idle && DriverStep(s).returned.Done? ==>
          s.driver.c.sector < |s.disk| && DriverStep(s).returned.buf == s.disk[s.driver.c.sector])
  {
    hide Inv, DriverStep, Run;
    var s0 := SetUp(base, disk, i, req, descs, ring);
    assert Inv(s0) by { SetUpOk(base, disk, i, req, descs, ring); }
    RunKeeps(s0, es);
    var s := Run(s0, es);
    AtMostOne(s);
    if s.driver.Busy? && DriverStep(s).driver == Idle { CallReturns(s); }
  }

  lemma SetUpOk(base: nat, disk: seq<Sector>, i: nat, req: Request, descs: Descs, ring: Ring)
    requires i < WRAP
    ensures Inv(SetUp(base, disk, i, req, descs, ring))
  {
  }

  /** A run of reads leaves the disk alone. */
  lemma {:induction false} ReadsLeaveDisk(s: State, es: seq<Event>)
    requires Inv(s) && (s.driver.Busy? ==> !s.driver.c.write) && forall e :: e in es && e.Begin? ==> !e.c.write
    ensures Run(s, es).disk == s.disk
    decreases |es|
  {
    hide Inv, Step;
    if es != [] {
      assert es[0] in es;
      StepKeeps(s, es[0]);
      ReadStep(s, es[0]);
      ReadsLeaveDisk(Step(s, es[0]), es[1..]);
    }
  }

  lemma ReadStep(s: State, e: Event)
    requires Inv(s) && (s.driver.Busy? ==> !s.driver.c.write) && (e.Begin? ==> !e.c.write)
    ensures Step(s, e).disk == s.disk && (Step(s, e).driver.Busy? ==> !Step(s, e).driver.c.write)
  {
  }

  // ---- virtio.c ----

  /** The driver as it runs, in a world where the device gets its turns while the driver waits. */
  class BlockDriver {
    const base: nat
    var req: Request
    var descs: Descs
    var ring: Ring
    var avail: nat
    var lastUsed: nat
    var disk: seq<Sector>
    var device: Device
    var seen: nat
    var used: nat
    var usedRing: Ring

    constructor (base: nat, disk: seq<Sector>)
      ensures this.base == base && this.disk == disk && Ready()
    {
      this.base, this.disk := base, disk;
      req := Request(0, 0, seq<Byte>(SECTOR, _ => 0), 0);
      descs := seq<Desc>(ENTRIES, _ => Desc(0, 0, 0, 0));
      ring := seq<nat>(ENTRIES, _ => 0);
      avail, lastUsed, seen, used := 0, 0, 0, 0;
      device := Resting;
      usedRing := seq<nat>(ENTRIES, _ => 0);
    }

    ghost function Now(d: Driver): State
      reads this
    {
      State(base, req, descs, ring, avail, lastUsed, d, Nothing, disk, device, seen, used, usedRing)
    }

    /** Between calls. */
    ghost predicate Ready()
      reads this
    {
      Inv(Now(Idle))
    }

    /** virtq_is_busy. */
    method VirtqIsBusy() returns (busy: bool)
      ensures busy == IsBusy(Now(Idle))
    {
      busy := lastUsed != used;
    }

    /** virtq_kick. */
    method VirtqKick(ghost c: Call, descIndex: nat)
      requires descIndex == 0 && Inv(Now(Busy(c, 7)))
      modifies this`ring, this`avail, this`lastUsed
      ensures Inv(Now(Busy(c, 11)))
      ensures device == Resting && avail != used
      ensures ring == old(ring)[old(avail) % ENTRIES := 0] && avail == Next(old(avail)) &&
        lastUsed == Next(old(lastUsed))
    {
      KickOk(Now(Busy(c, 7)), c);
      ring := ring[avail % ENTRIES := descIndex];
      avail := (avail + 1) % WRAP;
      lastUsed := (lastUsed + 1) % WRAP;
    }

    /** A turn of the device. */
    method Serve(ghost c: Call, fails: bool, junk: Sector, ghost before: seq<Sector>)
      requires Inv(Now(Busy(c, 11))) && Outstanding(Now(Busy(c, 11))) && SoFar(c, fails, junk, before)
      modifies this`req, this`disk, this`device, this`seen, this`used, this`usedRing
      ensures Inv(Now(Busy(c, 11))) && Now(Busy(c, 11)) == DeviceStep(old(Now(Busy(c, 11))), fails, junk)
      ensures SoFar(c, fails, junk, before) && Turns(Now(Busy(c, 11))) < Turns(old(Now(Busy(c, 11))))
    {
      hide Inv, ChainOk;
      ghost var s := Now(Busy(c, 11));
      DeviceKeeps(s, fails, junk);
      Servable(s, c);
      match device {
        case Resting =>
          device, seen := Fetched(ring[seen % ENTRIES]), Next(seen);
        case Fetched(h) =>
          if fails {
            if req.kind == T_OUT {
              req, disk := req.(status := 1), disk[req.sector := junk];
            } else {
              req := req.(status := 1, data := junk);
            }
          } else if req.kind == T_OUT {
            req, disk := req.(status := 0), disk[req.sector := req.data];
          } else {
            req := req.(status := 0, data := disk[req.sector]);
          }
          device := Served(h);
        case Served(h) =>
          usedRing, used, device := usedRing[used % ENTRIES := h], Next(used), Resting;
      }
    }

    /** virtio_rw: whatever the indices have come to, a call in range is carried out, or reported as failed. */
    method VirtioRw(buf: Sector, sector: nat, isWrite: bool, fails: bool, junk: Sector) returns (done: bool, out: Sector)
      requires Ready()
      modifies this
      ensures Ready() && |disk| == |old(disk)|
      ensures done <==> sector < |disk| && !fails
      ensures !done || isWrite ==> out == buf
      ensures done && !isWrite ==> out == old(disk)[sector]
      ensures disk == if sector < |old(disk)| &&
        isWrite then old(disk)[sector := if fails then junk else buf] else old(disk)
    {
      hide Inv, SoFar;
      done, out := false, buf;
      if sector >= |disk| { return; }
      ghost var c := Call(buf, sector, isWrite);
      Prepare(buf, sector, isWrite);
      VirtqKick(c, 0);
      SoFarStart(c, fails, junk);
      Await(c, fails, junk, disk);
      SoFarEnd(c, fails, junk, old(disk));
      if req.status != 0 { return; }
      done := true;
      if !isWrite { out := req.data; }
    }

    /** The request and its three descriptors. */
    method Prepare(buf: Sector, sector: nat, isWrite: bool)
      requires Ready() && sector < |disk|
      modifies this`req, this`descs
      ensures Inv(Now(Busy(Call(buf, sector, isWrite), 7)))
    {
      hide Inv;
      PrepareOk(Now(Idle), Call(buf, sector, isWrite));
      req := req.(sector := sector);
      req := req.(kind := if isWrite then T_OUT else T_IN);
      if isWrite { req := req.(data := buf); }
      descs := descs[0 := HeaderDesc(base)];
      descs := descs[1 := DataDesc(base, isWrite)];
      descs := descs[2 := StatusDesc(base, descs[2].next)];
    }

    /** The busy-wait. */
    method Await(ghost c: Call, fails: bool, junk: Sector, ghost before: seq<Sector>)
      requires Inv(Now(Busy(c, 11))) && SoFar(c, fails, junk, before)
      modifies this`req, this`disk, this`device, this`seen, this`used, this`usedRing
      ensures Inv(Now(Busy(c, 11))) && SoFar(c, fails, junk, before) && avail == used
    {
      hide Inv, SoFar;
      var busy := VirtqIsBusy();
      while busy
        invariant Inv(Now(Busy(c, 11))) && busy == IsBusy(Now(Idle)) && SoFar(c, fails, junk, before)
        decreases Turns(Now(Busy(c, 11)))
      {
        AtMostOne(Now(Busy(c, 11)));
        Serve(c, fails, junk, before);
        busy := VirtqIsBusy();
      }
      AtMostOne(Now(Busy(c, 11)));
    }

    lemma SoFarStart(c: Call, fails: bool, junk: Sector)
      requires Inv(Now(Busy(c, 11))) && device == Resting && avail != used
      ensures SoFar(c, fails, junk, disk)
    {
    }

    lemma SoFarEnd(c: Call, fails: bool, junk: Sector, before: seq<Sector>)
      requires Inv(Now(Busy(c, 11))) && SoFar(c, fails, junk, before) && avail == used
      ensures Ready() && c.sector < |before| == |disk| && (req.status == 0 <==> !fails)
      ensures !fails && !c.write ==> req.data == before[c.sector]
      ensures disk == if c.write then before[c.sector := if fails then junk else c.buf] else before
    {
    }

    /** What the device has made of the call so far. */
    ghost predicate SoFar(c: Call, fails: bool, junk: Sector, before: seq<Sector>)
      reads this
    {
      && c.sector < |before|
      && var over := device.Served? || avail == used;
      && (over ==> (req.status == 0 <==> !fails))
      && disk == if over && c.write then before[c.sector := if fails then junk else c.buf] else before
    }
  }

  /** What the driver waits for is within the device's power. */
  lemma Servable(s: State, c: Call)
    requires Inv(s) && s.driver == Busy(c, 11) && c.sector < |s.disk|
    ensures s.seen < WRAP && s.used < WRAP && s.avail < WRAP
    ensures s.device.Fetched? ==>
      ChainOk(s, s.device.head) && s.req.sector == c.sector && (s.req.kind == T_OUT <==> c.write)
    ensures s.device.Fetched? || s.device.Served? ==> s.seen == s.avail == Next(s.used)
    ensures s.device == Resting ==> s.seen == s.used && (s.avail == s.used || s.avail == Next(s.used))
    ensures c.write && s.device.Fetched? ==> s.req.data == c.buf
  {
  }

  /** The state in which everything has been stored for the call. */
  function Prepared(s: State, c: Call): State {
    s.(req := Request(if c.write then T_OUT else T_IN, c.sector, if c.write then c.buf else s.req.data, s.req.status),
       descs := s.descs[0 := HeaderDesc(s.base)][1 := DataDesc(s.base, c.write)][2 := StatusDesc(s.base, s.descs[2].next)],
       driver := Busy(c, 7))
  }

  lemma PrepareOk(s: State, c: Call)
    requires Inv(s) && s.driver == Idle && c.sector < |s.disk|
    ensures Inv(Prepared(s, c))
  {
  }

  /** virtq_kick is four steps of the driver. */
  lemma KickOk(s: State, c: Call)
    requires Inv(s) && s.driver == Busy(c, 7)
    ensures DriverStep(DriverStep(DriverStep(DriverStep(s)))) ==
      s.(ring := s.ring[s.avail % ENTRIES := 0], avail := Next(s.avail), lastUsed := Next(s.lastUsed), driver := Busy(c, 11))
    ensures Inv(DriverStep(DriverStep(DriverStep(DriverStep(s)))))
    ensures s.device == Resting && Next(s.avail) != s.used
  {
    DriverKeeps(s);
    DriverKeeps(DriverStep(s));
    DriverKeeps(DriverStep(DriverStep(s)));
    DriverKeeps(DriverStep(DriverStep(DriverStep(s))));
  }

  /** The turns the device still has to take before it has returned the request. */
  function Turns(s: State): nat {
    if !Outstanding(s) then 0 else if s.device == Resting then 3 else if s.device.Fetched? then 2 else 1
  }
}
