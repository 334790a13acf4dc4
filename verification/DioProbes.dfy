/** The kernel probes of the direct-I/O tracer in info mode: three bounded maps keyed by kernel
    pointers that the kernel reuses, and a ring buffer whose reservations may fail. */
module DioProbes {
  import opened BpfMaps

  const EVENTS: nat := 8192
  const FILTERED: nat := 256
  const REQUESTS: nat := 512

  datatype Drive = NoDrive | Nvme | Scsi

  datatype SimpleDio = SimpleDio(startDio: nat, startExt4: nat, startBlockIo: nat, endBlockIo: nat,
                                 size: int, inode: nat, write: bool)

  /** The two words after `rqStart` are shared by the SCSI and the NVMe path. */
  datatype RqInfo = RqInfo(dioUid: nat, rqPtr: nat, rqBioStart: nat, queueRq: nat,
                           rqStart: nat, word0: nat, word1: nat, accountIo: nat,
                           hctx: nat, sector: nat, stats: nat, segments: nat, drive: Drive)

  datatype Record =
    | DioRecord(dioUid: nat, event: SimpleDio)
    | HctxRecord(hctx: nat, tp: nat)
    | RqRecord(info: RqInfo)

  datatype Probe =
    | SyncCall(write: bool, selected: bool)
    | DioIter(write: bool, iocb: nat, inode: nat, selected: bool)
    | BioActor(dio: nat, iocb: nat)
    | Kfree(ptr: nat, iocb: nat, size: int, reserved: bool, garbage: nat)
    | RqTrack(rq: nat, bioPrivate: nat)
    | QueueRq(rq: nat, hctx: nat, reserved: bool)
    | StartRequest(rq: nat)
    | SoftirqDone(rq: nat)
    | ScsiEnd(rq: nat)
    | PciComplete(rq: nat)
    | NvmeComplete(rq: nat)
    | Account(rq: nat, now: nat, sector: nat, hctx: nat, stats: nat, segments: nat, reserved: bool)

  /** One probe firing at a clock reading; `passes` tells whether the process and command filters
      let it through, for the probes that ask. `garbage` is what a fresh ring-buffer record holds. */
  datatype Step = Step(time: nat, passes: bool, probe: Probe)

  datatype State = State(writeStart: nat, readStart: nat,
                         events: map<nat, SimpleDio>, filter: map<nat, nat>, rqs: map<nat, RqInfo>,
                         log: seq<Record>)

  const START: State := State(0, 0, map[], map[], map[], [])

  function Tagged(rq: nat, uid: nat, time: nat): RqInfo {
    RqInfo(uid, rq, time, 0, 0, 0, 0, 0, 0, 0, 0, 0, NoDrive)
  }

  function OnDioIter(s: State, time: nat, write: bool, iocb: nat, inode: nat): State {
    var start := if write then s.writeStart else s.readStart;
    s.(events := PutNew(s.events, iocb, SimpleDio(start, time, 0, 0, 0, inode, write), EVENTS))
  }

  /** The clock reading becomes the uid under which the dio's requests will be found. */
  function OnBioActor(s: State, time: nat, dio: nat, iocb: nat): State {
    if iocb !in s.events then s
    else s.(events := s.events[iocb := s.events[iocb].(startBlockIo := time)],
            filter := Put(s.filter, dio, time, FILTERED))
  }

  /** The uid of an emitted record is left as it was when the pointer is not found. */
  function OnKfree(s: State, time: nat, ptr: nat, iocb: nat, size: int, reserved: bool, garbage: nat): State {
    if iocb !in s.events then s
    else
      var event := s.events[iocb].(endBlockIo := time, size := size);
      var uid := if ptr in s.filter then s.filter[ptr] else garbage;
      s.(events := s.events - {iocb},
         filter := if reserved then s.filter - {ptr} else s.filter,
         log := if reserved then s.log + [DioRecord(uid, event)] else s.log)
  }

  function OnTrack(s: State, time: nat, rq: nat, bioPrivate: nat): State {
    var recycled := s.rqs - {rq};
    if bioPrivate in s.filter then
      s.(rqs := PutNew(recycled, rq, Tagged(rq, s.filter[bioPrivate], time), REQUESTS))
    else s.(rqs := recycled)
  }

  function OnQueueRq(s: State, time: nat, rq: nat, hctx: nat, reserved: bool): State {
    if rq !in s.rqs then s
    else s.(rqs := s.rqs[rq := s.rqs[rq].(queueRq := time)],
            log := if reserved then s.log + [HctxRecord(hctx, time)] else s.log)
  }

  /** A probe that only stamps fields of a cached request. */
  function Stamped(info: RqInfo, time: nat, probe: Probe): RqInfo {
    match probe
    case StartRequest(_) => info.(rqStart := time)
    case SoftirqDone(_) => info.(word0 := time, drive := Scsi)
    case ScsiEnd(_) => info.(word1 := time)
    case PciComplete(_) => info.(word0 := time, drive := Nvme)
    case NvmeComplete(_) => info.(word1 := time)
    case _ => info
  }

  function OnStamp(s: State, time: nat, rq: nat, probe: Probe): State {
    if rq !in s.rqs then s else s.(rqs := s.rqs[rq := Stamped(s.rqs[rq], time, probe)])
  }

  function Accounted(info: RqInfo, now: nat, sector: nat, hctx: nat, stats: nat, segments: nat): RqInfo {
    info.(accountIo := now, sector := sector, hctx := hctx, stats := stats, segments := segments)
  }

  function OnAccount(s: State, rq: nat, now: nat, sector: nat, hctx: nat, stats: nat, segments: nat,
                     reserved: bool): State {
    if rq !in s.rqs then s
    else
      var info := Accounted(s.rqs[rq], now, sector, hctx, stats, segments);
      if reserved then s.(rqs := s.rqs - {rq}, log := s.log + [RqRecord(info)])
      else s.(rqs := s.rqs[rq := info])
  }

  /** The probes that consult the process and command filters. */
  predicate Asks(probe: Probe) {
    !(probe.SoftirqDone? || probe.ScsiEnd? || probe.PciComplete? || probe.NvmeComplete? || probe.Account?)
  }

  function Next(s: State, step: Step): State {
    if Asks(step.probe) && !step.passes then s
    else
      match step.probe
      case SyncCall(write, selected) =>
        if !selected then s
        else if write then s.(writeStart := step.time) else s.(readStart := step.time)
      case DioIter(write, iocb, inode, selected) =>
        if selected then OnDioIter(s, step.time, write, iocb, inode) else s
      case BioActor(dio, iocb) => OnBioActor(s, step.time, dio, iocb)
      case Kfree(ptr, iocb, size, reserved, garbage) => OnKfree(s, step.time, ptr, iocb, size, reserved, garbage)
      case RqTrack(rq, bioPrivate) => OnTrack(s, step.time, rq, bioPrivate)
      case QueueRq(rq, hctx, reserved) => OnQueueRq(s, step.time, rq, hctx, reserved)
      case Account(rq, now, sector, hctx, stats, segments, reserved) =>
        OnAccount(s, rq, now, sector, hctx, stats, segments, reserved)
      case _ => OnStamp(s, step.time, step.probe.rq, step.probe)
  }

  /** The probes as the kernel runs them: shared maps updated in place. */
  class Tracer {
    var writeStart: nat
    var readStart: nat
    var events: map<nat, SimpleDio>
    var filter: map<nat, nat>
    var rqs: map<nat, RqInfo>
    var log: seq<Record>

    ghost function View(): State
      reads this
    {
      State(writeStart, readStart, events, filter, rqs, log)
    }

    constructor ()
      ensures View() == START
    {
      writeStart, readStart, events, filter, rqs, log := 0, 0, map[], map[], map[], [];
    }

    method SyncCall(passes: bool, time: nat, write: bool, selected: bool)
      modifies this
      ensures View() == Next(old(View()), Step(time, passes, Probe.SyncCall(write, selected)))
    {
      if !passes {
        return;
      }
      if selected {
        if write {
          writeStart := time;
        } else {
          readStart := time;
        }
      }
    }

    method DioIter(passes: bool, time: nat, write: bool, iocb: nat, inode: nat, selected: bool)
      modifies this
      ensures View() == Next(old(View()), Step(time, passes, Probe.DioIter(write, iocb, inode, selected)))
    {
      if !passes || !selected {
        return;
      }
      var dioSimple := SimpleDio(if write then writeStart else readStart, time, 0, 0, 0, inode, write);
      events := PutNew(events, iocb, dioSimple, EVENTS);
    }

    method BioActor(passes: bool, time: nat, dio: nat, iocb: nat)
      modifies this
      ensures View() == Next(old(View()), Step(time, passes, Probe.BioActor(dio, iocb)))
    {
      if !passes {
        return;
      }
      if iocb in events {
        events := events[iocb := events[iocb].(startBlockIo := time)];
        var dioUid := events[iocb].startBlockIo;
        filter := Put(filter, dio, dioUid, FILTERED);
      }
    }

    method Kfree(passes: bool, time: nat, ptr: nat, iocb: nat, size: int, reserved: bool, garbage: nat)
      modifies this
      ensures View() == Next(old(View()), Step(time, passes, Probe.Kfree(ptr, iocb, size, reserved, garbage)))
    {
      if !passes {
        return;
      }
      if iocb in events {
        events := events[iocb := events[iocb].(endBlockIo := time, size := size)];
        if reserved {
          var record := DioRecord(garbage, events[iocb]);
          if ptr in filter {
            record := record.(dioUid := filter[ptr]);
          }
          log := log + [record];
          filter := filter - {ptr};
        }
        events := events - {iocb};
      }
    }

    method RqQosTrack(passes: bool, time: nat, rq: nat, bioPrivate: nat)
      modifies this
      ensures View() == Next(old(View()), Step(time, passes, RqTrack(rq, bioPrivate)))
    {
      if !passes {
        return;
      }
      rqs := rqs - {rq};
      if bioPrivate in filter {
        rqs := PutNew(rqs, rq, Tagged(rq, filter[bioPrivate], time), REQUESTS);
      }
    }

    method QueueRq(passes: bool, time: nat, rq: nat, hctx: nat, reserved: bool)
      modifies this
      ensures View() == Next(old(View()), Step(time, passes, Probe.QueueRq(rq, hctx, reserved)))
    {
      if !passes {
        return;
      }
      if rq in rqs {
        rqs := rqs[rq := rqs[rq].(queueRq := time)];
        if reserved {
          log := log + [HctxRecord(hctx, time)];
        }
      }
    }

    method Stamp(passes: bool, time: nat, probe: Probe)
      requires probe.StartRequest? || probe.SoftirqDone? || probe.ScsiEnd? || probe.PciComplete? || probe.NvmeComplete?
      modifies this
      ensures View() == Next(old(View()), Step(time, passes, probe))
    {
      if probe.StartRequest? && !passes {
        return;
      }
      if probe.rq in rqs {
        rqs := rqs[probe.rq := Stamped(rqs[probe.rq], time, probe)];
      }
    }

    method AccountIoDone(time: nat, rq: nat, now: nat, sector: nat, hctx: nat, stats: nat, segments: nat,
                         reserved: bool)
      modifies this
      ensures View() == Next(old(View()), Step(time, true, Account(rq, now, sector, hctx, stats, segments, reserved)))
    {
      if rq in rqs {
        rqs := rqs[rq := Accounted(rqs[rq], now, sector, hctx, stats, segments)];
        if reserved {
          log := log + [RqRecord(rqs[rq])];
          rqs := rqs - {rq};
        }
      }
    }
  }
}
