/**
 The process supervisor of the shell: every waiting request is resumed exactly
 once, however replies, timeouts, crashes and stale frames interleave.
 */
module Supervisor {
  import opened Sets
  import opened Wrappers

  const MAXIMUM_PENDING_REQUESTS := 128
  const MAXIMUM_AUTHORIZATIONS := 32

  type Request = nat
  type Job = nat

  datatype Failure = CoreExited | InvalidFrame | OversizedFrame | ProtocolMismatch | TimedOut | CapacityExceeded | Replied(code: nat)

  // How a continuation was resumed.
  datatype Outcome = Frame | Threw(failure: Failure)

  // A frame as validation classifies it.
  datatype Incoming =
    | Malformed
    | StartedEvent(sequence: nat, request: Request, job: Job, matches: bool)
    | OtherEvent(number: nat, wellFormed: bool)
    | Response(answered: Request, sound: bool)
    | ErrorReply(refused: Request, code: nat, valid: bool)

  datatype Authorization = Authorization(job: Option<Job>, cancelled: bool)

  ghost predicate Partition(issued: set<Request>, pending: set<Request>, resumed: set<Request>) {
    issued == pending + resumed && pending !! resumed
  }

  lemma OneRefused(issued: set<Request>, pending: set<Request>, resumed: set<Request>, r: Request)
    requires Partition(issued, pending, resumed) && r !in issued
    ensures Partition(issued + {r}, pending, resumed + {r}) && Partition(issued + {r}, pending + {r}, resumed)
    ensures r !in resumed && r !in pending
  {
  }

  lemma OneResumed(issued: set<Request>, pending: set<Request>, resumed: set<Request>, r: Request)
    requires Partition(issued, pending, resumed) && r in pending
    ensures Partition(issued, pending - {r}, resumed + {r}) && r !in resumed
  {
  }

  lemma AllResumed(issued: set<Request>, pending: set<Request>, resumed: set<Request>)
    requires Partition(issued, pending, resumed)
    ensures Partition(issued, {}, resumed + pending) && pending !! resumed
  {
  }

  function ResumeAll(resumed: map<Request, Outcome>, pending: set<Request>, failure: Failure): map<Request, Outcome> {
    resumed + map r | r in pending :: Threw(failure)
  }

  lemma ResumeAllKeys(resumed: map<Request, Outcome>, pending: set<Request>, failure: Failure)
    requires pending !! resumed.Keys
    ensures ResumeAll(resumed, pending, failure).Keys == resumed.Keys + pending
    ensures forall r <- pending :: ResumeAll(resumed, pending, failure)[r] == Threw(failure)
    ensures forall r <- resumed :: ResumeAll(resumed, pending, failure)[r] == resumed[r]
  {
  }

  // Why a request is refused before anything is written.
  function Refusal(running: bool, oversized: bool, waiting: nat): Option<Failure> {
    if !running then Some(CoreExited)
    else if oversized then Some(OversizedFrame)
    else if waiting >= MAXIMUM_PENDING_REQUESTS then Some(CapacityExceeded)
    else None
  }

  lemma OneKey(m: map<Request, Outcome>, r: Request, x: Outcome)
    ensures m[r := x].Keys == m.Keys + {r}
  {
  }

  class CoreSupervisor {
    var running: bool
    var generation: Option<nat>
    var generationFailed: bool
    var stopping: bool
    var lastEventSequence: nat
    var pending: set<Request>
    var authorizations: map<Request, Authorization>
    // What has left: outcomes of requests, forwarded event numbers of this
    // generation, cancellations sent, restart notices.
    var resumed: map<Request, Outcome>
    var forwarded: seq<nat>
    var cancellations: seq<Job>
    var notices: nat
    ghost var issued: set<Request>

    // Every request that was issued either waits or has been resumed, not both.
    ghost predicate Accounted()
      reads this`issued, this`pending, this`resumed
    {
      Partition(issued, pending, resumed.Keys)
    }

    ghost predicate Small()
      reads this`pending, this`authorizations
    {
      |pending| <= MAXIMUM_PENDING_REQUESTS && |authorizations| <= MAXIMUM_AUTHORIZATIONS
    }

    // Nobody waits on a failed generation, although a request that is about to be
    // refused may be on the list of authorizations.
    ghost predicate Down()
      reads this`generationFailed, this`pending, this`generation, this`running
    {
      generationFailed ==> pending == {} && generation.None? && !running
    }

    // Events are forwarded in increasing order of their numbers.
    ghost predicate Increasing()
      reads this`forwarded, this`lastEventSequence
    {
      && (forall i, j | 0 <= i < j < |forwarded| :: forwarded[i] < forwarded[j])
      && (forall i | 0 <= i < |forwarded| :: forwarded[i] <= lastEventSequence)
    }

    ghost predicate Valid()
      reads this`issued, this`pending, this`resumed, this`authorizations, this`generationFailed, this`generation, this`running,
            this`forwarded, this`lastEventSequence
    {
      Accounted() && Small() && Down() && Increasing()
    }

    // Outcomes are never changed.
    twostate predicate Keeps()
      reads this`issued, this`resumed
    {
      && old(issued) <= issued
      && (forall r <- old(resumed) :: r in resumed && resumed[r] == old(resumed)[r])
    }

    // Everybody who waited is resumed with this failure, and there is one notice
    // unless the supervisor is stopping.
    twostate predicate Fails(failure: Failure)
      reads this`pending, this`resumed, this`generationFailed, this`authorizations, this`generation, this`running, this`notices
    {
      && notices == old(notices) + (if old(stopping) then 0 else 1)
      && generationFailed && pending == {} && authorizations == map[] && generation.None? && !running
      && resumed.Keys == old(resumed.Keys) + old(pending)
      && forall r <- old(pending) :: r in resumed && resumed[r] == Threw(failure)
    }

    // Nobody is resumed and nothing else about requests changes.
    twostate predicate Waits()
      reads this`pending, this`resumed, this`generationFailed, this`generation, this`running, this`notices
    {
      && notices == old(notices)
      && pending == old(pending) && resumed == old(resumed)
      && generationFailed == old(generationFailed) && generation == old(generation) && running == old(running)
    }

    constructor ()
      ensures Valid() && pending == {} && resumed == map[] && authorizations == map[] && !running && !generationFailed && !stopping
    {
      running, generation, generationFailed, stopping, lastEventSequence := false, None, false, false, 0;
      pending, authorizations, resumed, forwarded, cancellations, notices := {}, map[], map[], [], [], 0;
      issued := {};
    }

    // A new process; requests of the one that is gone may still be waiting.
    method Start(next: nat)
      requires Valid() && !running
      modifies this
      ensures Valid() && Keeps() && running && generation == Some(next) && !generationFailed && !stopping
      ensures lastEventSequence == 0 && forwarded == []
      ensures pending == old(pending) && resumed == old(resumed) && authorizations == old(authorizations) && issued == old(issued)
    {
      hide Accounted, Small;
      running, generation, generationFailed, stopping, lastEventSequence := true, Some(next), false, false, 0;
      forwarded := [];
    }

    method Resume(r: Request, outcome: Outcome)
      requires r in pending && r !in resumed
      modifies this`pending, this`resumed
      ensures pending == old(pending) - {r} && resumed == old(resumed)[r := outcome]
    {
      pending := pending - {r};
      resumed := resumed[r := outcome];
    }

    // Resume everybody who waits, and forget the process.
    method ClearProcess(failure: Failure)
      requires Valid()
      modifies this`resumed, this`pending, this`authorizations, this`running, this`generation
      ensures Valid() && Keeps() && pending == {} && authorizations == map[] && generation.None? && !running
      ensures resumed.Keys == old(resumed.Keys) + old(pending) && forall r <- old(pending) :: resumed[r] == Threw(failure)
    {
      hide Increasing, Partition, ResumeAll;
      AllResumed(issued, pending, resumed.Keys);
      ResumeAllKeys(resumed, pending, failure);
      resumed := ResumeAll(resumed, pending, failure);
      pending, authorizations := {}, map[];
      running, generation := false, None;
    }

    // Fail the current generation, once.
    method FailGeneration(failure: Failure)
      requires Valid()
      modifies this`resumed, this`pending, this`authorizations, this`running, this`generation, this`generationFailed, this`notices
      ensures Valid() && Keeps() && generationFailed && pending == {} && resumed.Keys == old(resumed.Keys) + old(pending)
      ensures !old(generationFailed) ==> Fails(failure)
      ensures old(generationFailed) ==> Waits() && authorizations == old(authorizations)
      ensures notices == old(notices) + if old(generationFailed) || old(stopping) then 0 else 1
    {
      hide Increasing, Accounted, Small;
      if generationFailed {
        return;
      }
      ClearProcess(failure);
      generationFailed := true;
      if !stopping {
        notices := notices + 1;
      }
    }

    // Issue a request: it is refused at once, or waits until it is resumed.
    method Send(r: Request, oversized: bool, written: bool)
      requires Valid() && r !in issued
      modifies this`issued, this`resumed, this`pending, this`authorizations, this`running, this`generation, this`generationFailed, this`notices
      ensures Valid() && Keeps() && issued == old(issued) + {r}
      ensures
        if !old(running) then resumed == old(resumed)[r := Threw(CoreExited)] && pending == old(pending)
        else if oversized then resumed == old(resumed)[r := Threw(OversizedFrame)] && pending == old(pending)
        else if |old(pending)| >= MAXIMUM_PENDING_REQUESTS then resumed == old(resumed)[r := Threw(CapacityExceeded)] && pending == old(pending)
        else if written then pending == old(pending) + {r} && resumed == old(resumed) && generationFailed == old(generationFailed)
        else generationFailed && pending == {} && forall k <- old(pending) + {r} :: k in resumed && resumed[k] == Threw(CoreExited)
      ensures !old(running) || oversized || |old(pending)| >= 128 ==> generationFailed == old(generationFailed)
    {
      hide Accounted, Small, Down, Increasing;
      var refusal := Refusal(running, oversized, |pending|);
      if refusal.Some? {
        Refuse(r, refusal.value);
      } else {
        Write(r, written);
      }
    }

    method Refuse(r: Request, why: Failure)
      requires Valid() && r !in issued
      modifies this`issued, this`resumed
      ensures Valid() && Keeps() && issued == old(issued) + {r} && resumed == old(resumed)[r := Threw(why)]
    {
      hide Small, Down, Increasing, Partition;
      OneRefused(issued, pending, resumed.Keys, r);
      OneKey(resumed, r, Threw(why));
      issued := issued + {r};
      resumed := resumed[r := Threw(why)];
    }

    // The continuation waits before the frame is written.
    method Write(r: Request, written: bool)
      requires Valid() && r !in issued && running && |pending| < MAXIMUM_PENDING_REQUESTS
      modifies this`issued, this`resumed, this`pending, this`authorizations, this`running, this`generation, this`generationFailed, this`notices
      ensures Valid() && Keeps() && issued == old(issued) + {r}
      ensures if written then pending == old(pending) + {r} && resumed == old(resumed) && generationFailed == old(generationFailed)
              else generationFailed && pending == {} && forall k <- old(pending) + {r} :: k in resumed && resumed[k] == Threw(CoreExited)
    {
      hide Accounted, Small, Down, Increasing;
      Enlist(r);
      if !written {
        StillUp(r);
        FailGeneration(CoreExited);
      }
    }

    method Enlist(r: Request)
      requires Valid() && r !in issued && running && |pending| < MAXIMUM_PENDING_REQUESTS
      modifies this`issued, this`pending
      ensures Valid() && issued == old(issued) + {r} && pending == old(pending) + {r}
    {
      hide Increasing, Partition;
      OneRefused(issued, pending, resumed.Keys, r);
      issued := issued + {r};
      pending := pending + {r};
    }

    // A frame from the reader of some generation.  A frame of a stale one fails
    // the current generation.
    method Receive(frame: Incoming, from: nat)
      requires Valid()
      modifies this
      ensures Valid() && Keeps() && issued == old(issued)
      ensures generation != old(generation) ==> generationFailed
      // Not from the process that is running: it fails the one that is.
      ensures old(generationFailed) ==> Waits() && authorizations == old(authorizations) && forwarded == old(forwarded)
      ensures !old(generationFailed) && (old(generation) != Some(from) || frame.Malformed?) ==> Fails(InvalidFrame) && forwarded == old(forwarded)
      // A reply resumes exactly its request, with what it says.
      ensures old(Stands(from)) && frame.Response? && frame.answered in old(pending) && frame.sound ==>
        Answers(frame.answered, Frame)
      ensures old(Stands(from)) && frame.ErrorReply? && frame.refused in old(pending) && frame.valid ==>
        Answers(frame.refused, Threw(Replied(frame.code)))
      ensures old(Stands(from)) && frame.Response? && frame.answered in old(pending) && !frame.sound ==> Fails(InvalidFrame)
      ensures old(Stands(from)) && frame.ErrorReply? && frame.refused in old(pending) && !frame.valid ==> Fails(InvalidFrame)
      ensures old(Stands(from)) && frame.Response? && frame.answered !in old(pending) ==> Fails(ProtocolMismatch)
      ensures old(Stands(from)) && frame.ErrorReply? && frame.refused !in old(pending) ==> Fails(ProtocolMismatch)
      ensures frame.Response? || frame.ErrorReply? ==> forwarded == old(forwarded) && cancellations == old(cancellations)
      // An event is forwarded, in increasing order.
      ensures old(Stands(from)) && frame.OtherEvent? && frame.wellFormed && frame.number > old(lastEventSequence) ==>
        Waits() && forwarded == old(forwarded) + [frame.number] && lastEventSequence == frame.number && authorizations == old(authorizations)
      ensures old(Stands(from)) && frame.OtherEvent? && !frame.wellFormed ==> Fails(InvalidFrame) && forwarded == old(forwarded)
      ensures old(Stands(from)) && frame.OtherEvent? && frame.wellFormed && frame.number <= old(lastEventSequence) ==>
        Fails(ProtocolMismatch) && forwarded == old(forwarded)
      // A started event makes the job of its authorization known.
      ensures old(Stands(from)) && frame.StartedEvent? ==> forwarded == old(forwarded)
      ensures old(Stands(from)) && frame.StartedEvent? && old(Awaited(frame.sequence, frame.request, frame.matches)) ==>
        && Waits() && lastEventSequence == frame.sequence
        && authorizations == old(authorizations)[frame.request := Authorization(Some(frame.job), old(authorizations)[frame.request].cancelled)]
        && cancellations == old(cancellations) + if old(authorizations)[frame.request].cancelled then [frame.job] else []
      ensures old(Stands(from)) && frame.StartedEvent? && !old(Awaited(frame.sequence, frame.request, frame.matches)) ==>
        Fails(ProtocolMismatch) && cancellations == old(cancellations)
    {
      hide Accounted, Small, Down, Increasing, Fails, Waits;
      if generation != Some(from) || generationFailed {
        FailGeneration(InvalidFrame);
        return;
      }
      match frame {
        case Malformed => FailGeneration(InvalidFrame);
        case StartedEvent(sequence, request, job, matches) => ReceiveStarted(sequence, request, job, matches);
        case OtherEvent(number, wellFormed) => ReceiveEvent(number, wellFormed);
        case Response(answered, sound) => ReceiveReply(answered, Frame, sound);
        case ErrorReply(refused, code, valid) => ReceiveReply(refused, Threw(Replied(code)), valid);
      }
    }

    // The next event, for an authorization whose job is not known yet.
    ghost predicate Awaited(sequence: nat, request: Request, matches: bool)
      reads this`lastEventSequence, this`authorizations
    {
      sequence > lastEventSequence && matches && request in authorizations && authorizations[request].job.None?
    }

    // The generation stands and is the one that the frame is from.
    ghost predicate Stands(from: nat)
      reads this`generation, this`generationFailed
    {
      generation == Some(from) && !generationFailed
    }

    // Exactly this request is resumed, with this outcome.
    twostate predicate Answers(r: Request, outcome: Outcome)
      reads this`pending, this`resumed, this`generationFailed, this`generation, this`authorizations, this`notices
    {
      && notices == old(notices)
      && pending == old(pending) - {r} && resumed == old(resumed)[r := outcome]
      && !generationFailed && generation == old(generation) && authorizations == old(authorizations)
    }

    method ReceiveStarted(sequence: nat, request: Request, job: Job, matches: bool)
      requires Valid() && !generationFailed
      modifies this
      ensures Valid() && Keeps() && issued == old(issued) && forwarded == old(forwarded)
      ensures generation != old(generation) ==> generationFailed
      ensures
        if old(Awaited(sequence, request, matches))
        then
          && Waits() && lastEventSequence == sequence
          && authorizations == old(authorizations)[request := Authorization(Some(job), old(authorizations)[request].cancelled)]
          && cancellations == old(cancellations) + if old(authorizations)[request].cancelled then [job] else []
        else Fails(ProtocolMismatch) && cancellations == old(cancellations)
    {
      hide Accounted, Small, Down;
      if sequence <= lastEventSequence {
        FailGeneration(ProtocolMismatch);
        return;
      }
      lastEventSequence := sequence;
      if request !in authorizations || authorizations[request].job.Some? || !matches {
        FailGeneration(ProtocolMismatch);
        return;
      }
      RecordJob(request, job);
    }

    method ReceiveEvent(number: nat, wellFormed: bool)
      requires Valid() && !generationFailed
      modifies this
      ensures Valid() && Keeps() && issued == old(issued)
      ensures generation != old(generation) ==> generationFailed
      ensures wellFormed && number > old(lastEventSequence) ==>
        Waits() && forwarded == old(forwarded) + [number] && lastEventSequence == number && authorizations == old(authorizations)
      ensures !wellFormed ==> Fails(InvalidFrame) && forwarded == old(forwarded)
      ensures wellFormed && number <= old(lastEventSequence) ==> Fails(ProtocolMismatch) && forwarded == old(forwarded)
    {
      hide Accounted, Small, Down, Fails;
      if !wellFormed {
        FailGeneration(InvalidFrame);
        return;
      }
      if number <= lastEventSequence {
        FailGeneration(ProtocolMismatch);
        return;
      }
      lastEventSequence := number;
      forwarded := forwarded + [number];
    }

    method ReceiveReply(r: Request, outcome: Outcome, sound: bool)
      requires Valid() && !generationFailed
      modifies this`resumed, this`pending, this`authorizations, this`running, this`generation, this`generationFailed, this`notices
      ensures Valid() && Keeps()
      ensures generation != old(generation) ==> generationFailed
      ensures r in old(pending) && sound ==> Answers(r, outcome)
      ensures r in old(pending) && !sound ==> Fails(InvalidFrame)
      ensures r !in old(pending) ==> Fails(ProtocolMismatch)
    {
      hide Increasing, Partition, Accounted, Small, Down;
      if r !in pending {
        FailGeneration(ProtocolMismatch);
        return;
      }
      ResumeOne(r, if sound then outcome else Threw(InvalidFrame));
      if !sound {
        FailGeneration(InvalidFrame);
        AlsoFails(r);
      }
    }

    method ResumeOne(r: Request, outcome: Outcome)
      requires Valid() && r in pending
      modifies this`pending, this`resumed
      ensures Valid() && Keeps() && pending == old(pending) - {r} && resumed == old(resumed)[r := outcome]
      ensures resumed.Keys == old(resumed.Keys) + {r}
    {
      hide Increasing, Partition;
      OneResumed(issued, pending, resumed.Keys, r);
      OneKey(resumed, r, outcome);
      Resume(r, outcome);
      SubsetSize(pending, old(pending));
    }

    twostate lemma AlsoFails(r: Request)
      requires r in old(pending)
      requires generationFailed && pending == {} && authorizations == map[] && generation.None? && !running
      requires notices == old(notices) + if old(stopping) then 0 else 1
      requires resumed.Keys == old(resumed.Keys) + {r} + (old(pending) - {r})
      requires r in resumed && resumed[r] == Threw(InvalidFrame)
      requires forall k <- old(pending) - {r} :: k in resumed && resumed[k] == Threw(InvalidFrame)
      ensures Fails(InvalidFrame)
    {
    }

    method Timeout(r: Request)
      requires Valid()
      modifies this
      ensures Valid() && Keeps() && r !in pending && issued == old(issued)
      ensures r !in old(pending) ==> resumed == old(resumed) && pending == old(pending)
      ensures r in old(pending) ==> Fails(TimedOut)
    {
      if r in pending {
        StillUp(r);
        FailGeneration(TimedOut);
      }
    }

    // Somebody waits only while the generation stands.
    lemma StillUp(r: Request)
      requires Valid() && r in pending
      ensures !generationFailed
    {
    }

    // The transport of a generation broke; only the current one counts.
    method TransportFailed(from: nat, failure: Failure)
      requires Valid()
      modifies this
      ensures Valid() && Keeps() && issued == old(issued)
      ensures old(generation) == Some(from) ==> Fails(failure)
      ensures old(generation) != Some(from) ==> Waits()
    {
      hide Fails, Accounted, Small, Increasing;
      if generation == Some(from) {
        FailGeneration(failure);
      }
    }

    // The process ended by itself; its transport has not reported it yet.
    method Exit()
      requires Valid()
      modifies this`running
      ensures Valid() && !running
    {
      running := false;
    }

    // Stopping takes a while: a shutdown request, a wait, a kill; anything may be
    // received in between, and no restart notice is given meanwhile.
    method BeginStop() returns (under: bool)
      requires Valid()
      modifies this`stopping
      ensures Valid() && under == generation.Some? && stopping == (under || old(stopping))
    {
      under := generation.Some?;
      if under { stopping := true; }
    }

    method FinishStop()
      requires Valid()
      modifies this
      ensures Valid() && Keeps() && issued == old(issued) && notices == old(notices) && !stopping
      ensures resumed.Keys == issued && generation.None? && !running && pending == {}
      ensures forall r <- old(pending) :: resumed[r] == Threw(CoreExited)
    {
      ClearProcess(CoreExited);
      stopping := false;
    }

    /** Authorizations: a job is cancelled once it is known and unwanted. */

    method Authorize(r: Request) returns (ok: bool)
      requires Valid() && r !in authorizations
      modifies this`authorizations
      ensures Valid() && ok == (|old(authorizations)| < 32)
      ensures authorizations == if ok then old(authorizations)[r := Authorization(None, false)] else old(authorizations)
    {
      ok := |authorizations| < MAXIMUM_AUTHORIZATIONS;
      if ok {
        authorizations := authorizations[r := Authorization(None, false)];
      }
    }

    // The reply arrived: the job must be known by then.
    method FinishAuthorization(r: Request)
      requires Valid()
      modifies this
      ensures Valid() && Keeps() && issued == old(issued) && cancellations == old(cancellations)
      ensures if r in old(authorizations) && old(authorizations)[r].job.Some?
        then authorizations == old(authorizations) - {r} && Waits()
        else if old(generationFailed) then Waits() else Fails(ProtocolMismatch)
    {
      hide Accounted, Down, Increasing;
      if r !in authorizations || authorizations[r].job.None? {
        FailGeneration(ProtocolMismatch);
      } else {
        MapSize(authorizations - {r}, authorizations);
        authorizations := authorizations - {r};
      }
    }

    method RecordJob(r: Request, job: Job)
      requires Valid() && r in authorizations && authorizations[r].job.None?
      modifies this`authorizations, this`cancellations
      ensures Valid() && authorizations == old(authorizations)[r := Authorization(Some(job), old(authorizations)[r].cancelled)]
      ensures cancellations == old(cancellations) + if old(authorizations)[r].cancelled then [job] else []
    {
      var wanted := !authorizations[r].cancelled;
      MapSize(authorizations[r := Authorization(Some(job), !wanted)], authorizations);
      authorizations := authorizations[r := Authorization(Some(job), !wanted)];
      if !wanted {
        cancellations := cancellations + [job];
      }
    }

    method CancelAuthorization(r: Request)
      requires Valid()
      modifies this`authorizations, this`cancellations
      ensures Valid()
      ensures r in old(authorizations) ==>
        && authorizations == old(authorizations)[r := Authorization(old(authorizations)[r].job, true)]
        && cancellations == old(cancellations) + if old(authorizations)[r].job.Some? then [old(authorizations)[r].job.value] else []
      ensures r !in old(authorizations) ==> authorizations == old(authorizations) && cancellations == old(cancellations)
    {
      if r in authorizations {
        var job := authorizations[r].job;
        MapSize(authorizations[r := Authorization(job, true)], authorizations);
        authorizations := authorizations[r := Authorization(job, true)];
        if job.Some? {
          cancellations := cancellations + [job.value];
        }
      }
    }
  }

}
