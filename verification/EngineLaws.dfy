/**
 What the engine admits, in which order work is taken and answered, and what the
 client is told, over every run.
 */
module EngineLaws {
  import opened Wrappers
  import opened Sets
  import opened Tables
  import opened Engine

  /** What a run has seen. */

  predicate TakesNow(s: State, a: Action) { a.Takes? && a.taker < |s.workers| && s.workers[a.taker].Idle? && s.queue != [] }

  predicate SendsNow(s: State, a: Action) { a.Sends? && a.sender < |s.workers| && s.workers[a.sender].Busy? }

  // The works that workers took, in the order they took them.
  function Taken(actions: seq<Action>): seq<Work>
    decreases |actions|
  {
    if actions == [] then [] else
      var before, a := Run(Start(), actions[..|actions| - 1]), actions[|actions| - 1];
      Taken(actions[..|actions| - 1]) + if TakesNow(before, a) then [before.queue[0]] else []
  }

  // The answers that workers sent, in the order they sent them.
  function Sent(actions: seq<Action>): seq<Response>
    decreases |actions|
  {
    if actions == [] then [] else
      var before, a := Run(Start(), actions[..|actions| - 1]), actions[|actions| - 1];
      Sent(actions[..|actions| - 1]) + if SendsNow(before, a) then [Response(before.workers[a.sender].work, a.ok)] else []
  }

  // For every answer that was taken: whether its session was open at that moment.
  function Open(actions: seq<Action>): seq<bool>
    decreases |actions|
  {
    if actions == [] then [] else
      var front, a := actions[..|actions| - 1], actions[|actions| - 1];
      Open(front) + if a.Delivers? then OpenNow(Run(Start(), front), Sent(front), |Open(front)|) else []
  }

  function OpenNow(s: State, sent: seq<Response>, n: nat): seq<bool> {
    if n < |sent| then [sent[n].work.session in s.sessions] else []
  }

  // Whether the n-th delivery is what the n-th answer and the session say.
  ghost predicate Faithful(delivered: seq<Delivery>, sent: seq<Response>, open: seq<bool>) {
    && |delivered| == |open| <= |sent|
    && forall i | 0 <= i < |delivered| ::
         delivered[i].work == sent[i].work && (delivered[i].descriptor <==> sent[i].ok && open[i])
  }

  lemma SendsKeep(s: State, a: Action)
    requires |s.workers| == RENDITION_WORKERS && !a.Delivers?
    ensures Step(s, a).delivered == s.delivered
    ensures Step(s, a).responses == s.responses + if SendsNow(s, a) then [Response(s.workers[a.sender].work, a.ok)] else []
  {
    assert s.responses + [] == s.responses;
  }

  lemma OneDelivery(s: State)
    requires |s.workers| == RENDITION_WORKERS && s.responses != []
    ensures var r, first := Step(s, Delivers), s.responses[0];
      && r.responses == s.responses[1..] && |r.delivered| == |s.delivered| + 1 && r.delivered[..|s.delivered|] == s.delivered
      && r.delivered[|s.delivered|].work == first.work
      && (r.delivered[|s.delivered|].descriptor <==> first.ok && first.work.session in s.sessions)
  {
  }

  lemma FaithfulMore(delivered: seq<Delivery>, sent: seq<Response>, open: seq<bool>, d: Delivery, now: bool)
    requires Faithful(delivered, sent, open) && |delivered| < |sent|
    requires d.work == sent[|delivered|].work && (d.descriptor <==> sent[|delivered|].ok && now)
    ensures Faithful(delivered + [d], sent, open + [now])
  {
  }

  lemma FaithfulLonger(delivered: seq<Delivery>, sent: seq<Response>, open: seq<bool>, more: seq<Response>)
    requires Faithful(delivered, sent, open)
    ensures Faithful(delivered, sent + more, open)
  {
  }

  // Answers are taken in the order they were sent, each told as it was sent: with
  // its descriptor exactly if the rendition succeeded and the session was open
  // when the answer was taken.
  lemma {:induction false} DeliveredAsSent(actions: seq<Action>)
    ensures var s, sent := Run(Start(), actions), Sent(actions);
      Faithful(s.delivered, sent, Open(actions)) && |s.delivered| <= |sent| && s.responses == sent[|s.delivered|..]
    decreases |actions|
  {
    if actions != [] {
      var front, a := actions[..|actions| - 1], actions[|actions| - 1];
      var before, sent, open := Run(Start(), front), Sent(front), Open(front);
      DeliveredAsSent(front);
      assert Sent(actions) == sent + if SendsNow(before, a) then [Response(before.workers[a.sender].work, a.ok)] else [];
      assert Open(actions) == open + if a.Delivers? then OpenNow(before, sent, |open|) else [];
      assert Run(Start(), actions) == Step(before, a);
      hide Step, Faithful, Run, Sent, Open, SendsNow, OpenNow;
      if a.Delivers? {
        Delivered(before, sent, open);
        assert !SendsNow(before, a) by { NoSend(before, a); }
        assert sent + [] == sent;
      } else {
        SendsKeep(before, a);
        var more := if SendsNow(before, a) then [Response(before.workers[a.sender].work, a.ok)] else [];
        FaithfulLonger(before.delivered, sent, open, more);
        assert open + [] == open;
        assert (sent + more)[|before.delivered|..] == sent[|before.delivered|..] + more;
      }
    }
  }

  lemma NoSend(s: State, a: Action)
    requires a.Delivers?
    ensures !SendsNow(s, a)
  {
  }

  lemma Delivered(s: State, sent: seq<Response>, open: seq<bool>)
    requires |s.workers| == RENDITION_WORKERS
    requires Faithful(s.delivered, sent, open) && |s.delivered| <= |sent| && s.responses == sent[|s.delivered|..]
    ensures var r := Step(s, Delivers);
      && Faithful(r.delivered, sent, open + OpenNow(s, sent, |open|))
      && |r.delivered| <= |sent| && r.responses == sent[|r.delivered|..]
  {
    hide Step;
    var n := |open|;
    if n < |sent| {
      assert s.responses[0] == sent[n];
      OneDelivery(s);
      var r := Step(s, Delivers);
      var d := r.delivered[n];
      assert r.delivered == s.delivered + [d];
      FaithfulMore(s.delivered, sent, open, d, sent[n].work.session in s.sessions);
    } else {
      NothingThere(s);
      assert open + [] == open;
    }
  }

  lemma NothingThere(s: State)
    requires |s.workers| == RENDITION_WORKERS && s.responses == []
    ensures Step(s, Delivers) == s
  {
  }

  /** First come, first served. */

  lemma QueueStep(s: State, a: Action)
    requires |s.workers| == RENDITION_WORKERS
    ensures var r := Step(s, a);
      if TakesNow(s, a)
      then r.queue == s.queue[1..] && r.accepted == s.accepted && r.workers == s.workers[a.taker := Busy(s.queue[0])]
      else
        || (r.accepted == s.accepted && r.queue == s.queue)
        || (a.Authorizes? && r.accepted == s.accepted + [a.work] && r.queue == s.queue + [a.work])
  {
  }

  // Work is taken in the order in which it was accepted, and each worker has the
  // oldest that was waiting.
  lemma {:induction false} TakenInOrder(actions: seq<Action>)
    ensures Run(Start(), actions).accepted == Taken(actions) + Run(Start(), actions).queue
    decreases |actions|
  {
    if actions != [] {
      var front, a := actions[..|actions| - 1], actions[|actions| - 1];
      TakenInOrder(front);
      QueueStep(Run(Start(), front), a);
      hide Step;
    }
  }

  // Every answer, and what every worker is at, was taken.
  ghost predicate AllIn(sent: seq<Response>, workers: seq<Worker>, taken: seq<Work>) {
    && (forall x <- sent :: x.work in taken)
    && forall i | 0 <= i < |workers| :: workers[i].Busy? ==> workers[i].work in taken
  }

  lemma {:induction false} SentWasTaken(actions: seq<Action>)
    ensures AllIn(Sent(actions), Run(Start(), actions).workers, Taken(actions))
    decreases |actions|
  {
    if actions != [] {
      var front, a := actions[..|actions| - 1], actions[|actions| - 1];
      var before, after := Run(Start(), front), Run(Start(), actions);
      var taken, sent := Taken(front), Sent(front);
      SentWasTaken(front);
      assert after == Step(before, a);
      assert Taken(actions) == taken + if TakesNow(before, a) then [before.queue[0]] else [];
      assert Sent(actions) == sent + if SendsNow(before, a) then [Response(before.workers[a.sender].work, a.ok)] else [];
      TakenMore(before, a, taken, sent);
    }
  }

  lemma TakenMore(s: State, a: Action, taken: seq<Work>, sent: seq<Response>)
    requires |s.workers| == RENDITION_WORKERS
    requires AllIn(sent, s.workers, taken)
    ensures AllIn(sent + (if SendsNow(s, a) then [Response(s.workers[a.sender].work, a.ok)] else []), Step(s, a).workers,
                  taken + (if TakesNow(s, a) then [s.queue[0]] else []))
  {
    hide Step;
    var r, more := Step(s, a), taken + if TakesNow(s, a) then [s.queue[0]] else [];
    assert forall w <- taken :: w in more;
    forall i | 0 <= i < |r.workers| && r.workers[i].Busy? ensures r.workers[i].work in more {
      BusyStep(s, a, i);
    }
  }

  lemma BusyStep(s: State, a: Action, i: nat)
    requires |s.workers| == RENDITION_WORKERS && i < |Step(s, a).workers| && Step(s, a).workers[i].Busy?
    ensures |Step(s, a).workers| == RENDITION_WORKERS
    ensures
      || (s.workers[i].Busy? && s.workers[i].work == Step(s, a).workers[i].work)
      || (TakesNow(s, a) && Step(s, a).workers[i].work == s.queue[0])
  {
  }

  /** Admission. */

  ghost predicate Admissible(s: State, work: Work, eventSent: bool) {
    && work.session in s.sessions && work.job !in s.used && eventSent
    && s.inflight < 10 && |s.queue| < 8
  }

  // A request is accepted exactly if its session is open, its job is new, the
  // client was told that it started, and there is room for it; else nothing is
  // queued, counted or put on record.
  lemma AdmittedExactly(s: State, work: Work, eventSent: bool)
    requires |s.workers| == RENDITION_WORKERS
    ensures var r := Step(s, Authorizes(work, eventSent));
      if Admissible(s, work, eventSent)
      then
        && r.accepted == s.accepted + [work] && r.queue == s.queue + [work] && r.inflight == s.inflight + 1
        && work.job in r.jobs && r.jobs[work.job] == Control(work.session, Resource, false, false)
        && r.jobs - {work.job} == s.jobs - {work.job}
      else r.accepted == s.accepted && r.queue == s.queue && r.inflight == s.inflight && r.jobs == s.jobs
    ensures var r := Step(s, Authorizes(work, eventSent));
      r.sessions == s.sessions && r.workers == s.workers && r.threads == s.threads && r.delivered == s.delivered
  {
  }

  // A scan starts exactly if its session is open, its job is new and fewer than
  // two scans are on record.
  lemma ScanAdmittedExactly(s: State, job: Id, session: Id)
    requires |s.workers| == RENDITION_WORKERS
    ensures var r := Step(s, StartsScan(job, session));
      if session in s.sessions && job !in s.used && |ScanJobs(s.jobs)| < 2
      then
        && job in r.threads && r.threads[job] == Writing && r.threads - {job} == s.threads - {job}
        && job in r.jobs && r.jobs[job] == Control(session, Scan, false, false) && r.jobs - {job} == s.jobs - {job}
      else r == s
  {
  }

  /** Being told to stop, and having stopped. */

  // Cancelling tells exactly the named job, if the session is open, the job is one
  // of its own and its row is not final; closing a session that does not finish in
  // time tells exactly the jobs of that session.
  lemma CancelTells(s: State, session: Id, job: Id, over: bool)
    requires |s.workers| == RENDITION_WORKERS
    ensures var r := Step(s, Cancels(session, job, over));
      && r == s.(jobs := r.jobs) && r.jobs.Keys == s.jobs.Keys
      && forall j <- s.jobs ::
           r.jobs[j] == if j == job && s.jobs[j].session == session && session in s.sessions && !over
                        then s.jobs[j].(cancelled := true) else s.jobs[j]
  {
  }

  lemma CloseTells(s: State, session: Id)
    requires |s.workers| == RENDITION_WORKERS
    ensures var r := Step(s, Closes(session, true));
      && r == s.(jobs := r.jobs) && r.jobs.Keys == s.jobs.Keys
      && forall j <- s.jobs :: r.jobs[j] == if s.jobs[j].session == session then s.jobs[j].(cancelled := true) else s.jobs[j]
  {
  }

  // A worker or scan thread that is past its last write has its job marked, so
  // that closing need not wait for it any longer.
  lemma SignalMarks(s: State, i: nat)
    requires |s.workers| == RENDITION_WORKERS && i < |s.workers| && s.workers[i].Answered?
    ensures var r, job := Step(s, Signals(i)), s.workers[i].work.job;
      && r.workers == s.workers[i := Idle] && r.jobs.Keys == s.jobs.Keys && r == s.(workers := r.workers, jobs := r.jobs)
      && (job in s.jobs ==> r.jobs[job] == s.jobs[job].(completed := true)) && forall j <- s.jobs | j != job :: r.jobs[j] == s.jobs[j]
  {
  }

  lemma ScanSignalMarks(s: State, job: Id)
    requires |s.workers| == RENDITION_WORKERS && job in s.threads && s.threads[job] == Writing
    ensures var r := Step(s, ScanSignals(job));
      && r.threads == s.threads[job := Signalled] && r.jobs.Keys == s.jobs.Keys && r == s.(threads := r.threads, jobs := r.jobs)
      && (job in s.jobs ==> r.jobs[job] == s.jobs[job].(completed := true)) && forall j <- s.jobs | j != job :: r.jobs[j] == s.jobs[j]
  {
  }

  // Once every job of a session is marked, closing it succeeds, and leaves the
  // other sessions and their jobs alone.
  lemma ClosesWhenMarked(s: State, session: Id)
    requires |s.workers| == RENDITION_WORKERS && forall j <- s.jobs | s.jobs[j].session == session :: s.jobs[j].completed
    ensures var r := Step(s, Closes(session, false));
      && r.sessions == s.sessions - {session} && (session in s.sessions ==> session in r.closed)
      && (forall j :: j in r.jobs <==> j in s.jobs && s.jobs[j].session != session)
      && (forall j <- r.jobs :: r.jobs[j] == s.jobs[j])
      && (forall j <- s.threads :: j in r.threads && r.threads[j] == if j in s.jobs && s.jobs[j].session == session then Gone else s.threads[j])
      && r.queue == s.queue && r.workers == s.workers && r.responses == s.responses && r.delivered == s.delivered && r.inflight == s.inflight
  {
  }

  // A reaping forgets exactly the scans whose threads are gone.
  lemma ReapsGone(s: State)
    requires |s.workers| == RENDITION_WORKERS
    ensures var r := Step(s, Reaps);
      && r == s.(jobs := r.jobs) && (forall j <- r.jobs :: j in s.jobs && r.jobs[j] == s.jobs[j])
      && forall j <- s.jobs :: j !in r.jobs <==> s.jobs[j].kind == Scan && j in s.threads && s.threads[j] == Gone
  {
  }

  // Seeing a scan's last event joins its thread and forgets it.
  lemma TerminalJoins(s: State, job: Id)
    requires |s.workers| == RENDITION_WORKERS
    ensures var r := Step(s, SeesTerminal(job));
      if job in s.jobs && s.jobs[job].kind == Scan && job in s.threads
      then r == s.(jobs := s.jobs - {job}, threads := s.threads[job := Gone]) else r == s
  {
  }

  // A session that has been closed is not opened again under the same id.
  lemma OpensNew(s: State, session: Id)
    requires |s.workers| == RENDITION_WORKERS
    ensures Step(s, Opens(session)) == if session in s.closed then s else s.(sessions := s.sessions + {session})
  {
  }
}
