/** The kernel probes of the block tracer: one map from bio pointers to their latest submission, one
    from request pointers to the record being filled in. Both kinds of pointer are reused. */
module BlockProbes {
  import opened BpfMaps

  const BIOS: nat := 32768
  const REQUESTS: nat := 256

  datatype Schedu = UnknownSchedu | Bypass | MqDeadline | Bfq | Kyber | NoSchedu
  datatype Dispatch = UnknownDispatch | FromCtx | FromDeadline | FromBfq | FromKyber | DirectDispatch
  datatype Drive = NoDrive | Nvme | Scsi

  /** `path` is the word shared by the insertion and the direct-issue times, `complete` the one
      shared by the two completion times. Names are opaque numbers. */
  datatype Trace = Trace(bioEnter: nat, rqStart: nat, common: nat, write: bool,
                         plug: nat, path: nat, dispatch: nat, queueRq: nat, sType: Schedu, dType: Dispatch,
                         complete: nat, accountIo: nat, sector: nat, stats: nat, segments: nat,
                         drive: Drive, disk: nat)

  datatype Record = BioEnter(bio: nat, bioPrivate: nat, tp: nat) | RqTrace(trace: Trace)

  datatype Probe =
    | Submit(bio: nat, bioPrivate: nat, reserved: bool)
    | RqTrack(rq: nat, bio: nat, write: bool, common: nat)
    | Plug(rq: nat)
    | BypassInsert(rq: nat)
    | DeadlineInsert(rq: nat)
    | BfqInsert(rq: nat)
    | SchedInserted(rq: nat)
    | Dispatched(rq: nat, how: Dispatch)
    | IssueDirectly(rq: nat)
    | QueueRq(rq: nat, drive: Drive, disk: nat)
    | ScsiEnd(rq: nat)
    | NvmeComplete(rq: nat)
    | Account(rq: nat, now: nat, sector: nat, stats: nat, segments: nat, reserved: bool)

  /** One probe firing at a clock reading; only the first two kinds ask the filters. */
  datatype Step = Step(time: nat, passes: bool, probe: Probe)

  datatype State = State(bioPass: map<nat, nat>, rqs: map<nat, Trace>, log: seq<Record>)

  const START: State := State(map[], map[], [])

  function NewTrace(bioEnter: nat, time: nat, write: bool, common: nat): Trace {
    Trace(bioEnter, time, common, write, 0, 0, 0, 0, UnknownSchedu, UnknownDispatch, 0, 0, 0, 0, 0, NoDrive, 0)
  }

  function OnSubmit(s: State, time: nat, bio: nat, bioPrivate: nat, reserved: bool): State {
    s.(log := if reserved then s.log + [BioEnter(bio, bioPrivate, time)] else s.log,
       bioPass := Put(s.bioPass, bio, time, BIOS))
  }

  function OnTrack(s: State, time: nat, rq: nat, bio: nat, write: bool, common: nat): State {
    var recycled := s.rqs - {rq};
    if bio in s.bioPass then
      s.(rqs := PutNew(recycled, rq, NewTrace(s.bioPass[bio], time, write, common), REQUESTS))
    else s.(rqs := recycled)
  }

  /** What a probe writes into the record of its request. */
  function Stamped(t: Trace, time: nat, probe: Probe): Trace {
    match probe
    case Plug(_) => t.(plug := time)
    case BypassInsert(_) => t.(path := time, sType := Bypass)
    case DeadlineInsert(_) => t.(sType := MqDeadline)
    case BfqInsert(_) => t.(sType := Bfq)
    case SchedInserted(_) =>
      t.(path := time, sType := if t.sType.MqDeadline? || t.sType.Bfq? then t.sType else Kyber)
    case Dispatched(_, how) => t.(dType := how, dispatch := time)
    case IssueDirectly(_) => t.(path := time, sType := NoSchedu, dType := DirectDispatch)
    case QueueRq(_, drive, disk) => t.(queueRq := time, drive := drive, disk := disk)
    case ScsiEnd(_) => t.(complete := time)
    case NvmeComplete(_) => t.(complete := time)
    case Account(_, now, sector, stats, segments, _) =>
      t.(accountIo := now, sector := sector, stats := stats, segments := segments)
    case _ => t
  }

  function OnRequest(s: State, time: nat, rq: nat, probe: Probe): State {
    if rq !in s.rqs then s
    else
      var trace := Stamped(s.rqs[rq], time, probe);
      if probe.Account? && probe.reserved then s.(rqs := s.rqs - {rq}, log := s.log + [RqTrace(trace)])
      else s.(rqs := s.rqs[rq := trace])
  }

  function Next(s: State, step: Step): State {
    match step.probe
    case Submit(bio, bioPrivate, reserved) =>
      if step.passes then OnSubmit(s, step.time, bio, bioPrivate, reserved) else s
    case RqTrack(rq, bio, write, common) =>
      if step.passes then OnTrack(s, step.time, rq, bio, write, common) else s
    case _ => OnRequest(s, step.time, step.probe.rq, step.probe)
  }

  /** The probes as the kernel runs them: shared maps updated in place. */
  class Tracer {
    var bioPass: map<nat, nat>
    var rqs: map<nat, Trace>
    var log: seq<Record>

    ghost function View(): State
      reads this
    {
      State(bioPass, rqs, log)
    }

    constructor ()
      ensures View() == START
    {
      bioPass, rqs, log := map[], map[], [];
    }

    method SubmitBio(passes: bool, time: nat, bio: nat, bioPrivate: nat, reserved: bool)
      modifies this
      ensures View() == Next(old(View()), Step(time, passes, Submit(bio, bioPrivate, reserved)))
    {
      if !passes {
        return;
      }
      if reserved {
        log := log + [BioEnter(bio, bioPrivate, time)];
      }
      bioPass := Put(bioPass, bio, time, BIOS);
    }

    method RqQosTrack(passes: bool, time: nat, rq: nat, bio: nat, write: bool, common: nat)
      modifies this
      ensures View() == Next(old(View()), Step(time, passes, RqTrack(rq, bio, write, common)))
    {
      if !passes {
        return;
      }
      rqs := rqs - {rq};
      if bio in bioPass {
        rqs := PutNew(rqs, rq, NewTrace(bioPass[bio], time, write, common), REQUESTS);
      }
    }

    /** Every other probe up to the completion: -1 when the request is not being traced. */
    method Stamp(time: nat, probe: Probe) returns (ret: int)
      requires !probe.Submit? && !probe.RqTrack? && !probe.Account?
      modifies this
      ensures forall passes :: View() == Next(old(View()), Step(time, passes, probe))
      ensures ret == if probe.rq in old(rqs) then 0 else -1
    {
      if probe.rq in rqs {
        rqs := rqs[probe.rq := Stamped(rqs[probe.rq], time, probe)];
      } else {
        return -1;
      }
      return 0;
    }

    method AccountIoDone(time: nat, rq: nat, now: nat, sector: nat, stats: nat, segments: nat, reserved: bool)
      returns (ret: int)
      modifies this
      ensures forall passes :: View() == Next(old(View()),
                Step(time, passes, Account(rq, now, sector, stats, segments, reserved)))
      ensures ret == if rq in old(rqs) && reserved then 0 else -1
    {
      if rq in rqs {
        rqs := rqs[rq := rqs[rq].(accountIo := now, sector := sector, stats := stats, segments := segments)];
      } else {
        return -1;
      }
      if reserved {
        log := log + [RqTrace(rqs[rq])];
        rqs := rqs - {rq};
      } else {
        return -1;
      }
      return 0;
    }
  }
}
