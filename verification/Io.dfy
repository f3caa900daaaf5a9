/**
 The operating system as an adversary. Every call to it happens at a tick of a clock, and the
 environment says, tick by tick, what the call finds: a read or write may fail or stop short,
 the source and the inspected target may be something else than a tick before, and what is read
 back from the medium need not be what was written.
 */
module Io {
  import opened Bytes
  import opened Status
  import opened Device

  /** One positioned read or write: an error after some bytes moved, or success with at most `limit` bytes. */
  datatype Transfer = Fault(moved: nat) | Moved(limit: nat)

  datatype Environment = Environment(
    openSource: nat -> Result<FileSize>,
    source: nat -> seq<Byte>,
    inspect: nat -> Result<TargetInfo>,
    openTarget: nat -> Status,
    resize: nat -> Status,
    flush: nat -> Status,
    transfer: nat -> Transfer,
    openReadback: nat -> Result<FileSize>,
    readback: (nat, seq<Byte>) -> seq<Byte>,
    memory: nat -> bool)

  datatype Phase = Prepare | HashSource | Write | Flush | Verify | Complete

  /** One call of the progress callback. */
  datatype Event = Event(phase: Phase, completed: nat, total: nat)

  /** The clock, the medium, how often it was told to change, and the progress the current operation reported. */
  datatype Snapshot = Snapshot(clock: nat, bytes: seq<Byte>, mutations: nat, events: seq<Event>)

  /** What a read of `length` bytes at `offset` returns. */
  function ReadResult(content: seq<Byte>, transfer: Transfer, length: nat, offset: nat): Result<seq<Byte>> {
    match transfer
    case Fault(_) => Failure(IoFailed)
    case Moved(limit) => Success(Window(content, offset, Min(length, limit)))
  }

  /** How many of `length` bytes a write moves to the medium; a device cannot grow. */
  function Accepted(bytes: seq<Byte>, device: bool, length: nat, offset: nat, transfer: Transfer): (n: nat)
    ensures n <= length
  {
    var limit := if transfer.Fault? then transfer.moved else transfer.limit;
    var room := if device then Max(0, |bytes| - offset) else length;
    Min(length, Min(limit, room))
  }

  function WriteEffect(bytes: seq<Byte>, device: bool, data: seq<Byte>, offset: nat, transfer: Transfer): seq<Byte> {
    Overlay(bytes, offset, data[..Accepted(bytes, device, |data|, offset, transfer)])
  }

  /** Nothing outside [lo, hi) differs. */
  ghost predicate ChangedOnlyIn(before: seq<Byte>, after: seq<Byte>, lo: nat, hi: nat) {
    && |before| <= |after| <= Max(|before|, hi)
    && forall i :: 0 <= i < |before| && !(lo <= i < hi) ==> after[i] == before[i]
  }

  class World {
    const env: Environment
    var clock: nat
    var bytes: seq<Byte>
    var mutations: nat
    var events: seq<Event>

    constructor (env: Environment, bytes: seq<Byte>)
      ensures this.env == env && View() == Snapshot(0, bytes, 0, [])
    {
      this.env := env;
      this.clock, this.bytes, this.mutations, this.events := 0, bytes, 0, [];
    }

    function View(): Snapshot
      reads this
    {
      Snapshot(clock, bytes, mutations, events)
    }

    method Notify(phase: Phase, completed: nat, total: nat)
      modifies this
      ensures View() == old(View()).(events := old(events) + [Event(phase, completed, total)])
    {
      events := events + [Event(phase, completed, total)];
    }

    /** Reports are collected anew for every operation. */
    method ClearReports()
      modifies this
      ensures View() == old(View()).(events := [])
    {
      events := [];
    }

    method Tick() returns (now: nat)
      modifies this
      ensures now == old(clock) && View() == old(View()).(clock := now + 1)
    {
      now := clock;
      clock := clock + 1;
    }

    method ReadSource(length: nat, offset: nat) returns (r: Result<seq<Byte>>)
      modifies this
      ensures View() == old(View()).(clock := old(clock) + 1)
      ensures r == ReadResult(env.source(old(clock)), env.transfer(old(clock)), length, offset)
    {
      var now := Tick();
      r := ReadResult(env.source(now), env.transfer(now), length, offset);
    }

    method ReadBack(length: nat, offset: nat) returns (r: Result<seq<Byte>>)
      modifies this
      ensures View() == old(View()).(clock := old(clock) + 1)
      ensures r == ReadResult(env.readback(old(clock), bytes), env.transfer(old(clock)), length, offset)
    {
      var now := Tick();
      r := ReadResult(env.readback(now, bytes), env.transfer(now), length, offset);
    }

    /** A positioned write: on a fault the caller learns nothing, yet a prefix may have reached the medium. */
    method WriteAt(device: bool, data: seq<Byte>, offset: nat) returns (status: Status, written: nat)
      modifies this
      ensures View() == old(View()).(clock := old(clock) + 1, mutations := old(mutations) + 1,
                                     bytes := WriteEffect(old(bytes), device, data, offset, env.transfer(old(clock))))
      ensures if env.transfer(old(clock)).Fault? then status == IoFailed && written == 0
              else status == Ok && written == Accepted(old(bytes), device, |data|, offset, env.transfer(old(clock)))
    {
      var now := Tick();
      var transfer := env.transfer(now);
      if transfer.Fault? {
        status, written := IoFailed, 0;
      } else {
        status, written := Ok, Accepted(bytes, device, |data|, offset, transfer);
      }
      bytes := WriteEffect(bytes, device, data, offset, transfer);
      mutations := mutations + 1;
    }

    method Resize(size: nat) returns (status: Status)
      modifies this
      ensures status == env.resize(old(clock))
      ensures View() == old(View()).(clock := old(clock) + 1, mutations := old(mutations) + 1,
                                     bytes := if status == Ok then Resized(old(bytes), size) else old(bytes))
    {
      var now := Tick();
      status := env.resize(now);
      if status == Ok {
        bytes := Resized(bytes, size);
      }
      mutations := mutations + 1;
    }

    method FlushTarget() returns (status: Status)
      modifies this
      ensures status == env.flush(old(clock)) && View() == old(View()).(clock := old(clock) + 1)
    {
      var now := Tick();
      status := env.flush(now);
    }

    method Allocate() returns (ok: bool)
      modifies this
      ensures ok == env.memory(old(clock)) && View() == old(View()).(clock := old(clock) + 1)
    {
      var now := Tick();
      ok := env.memory(now);
    }
  }
}
