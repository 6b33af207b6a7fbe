/**
 The command engine with its bounded work queue, two rendition workers, scan
 threads and response channel, as one state machine: engine commands interleave
 with the steps of the threads.
 */
module Engine {
  import opened Wrappers
  import opened Sets
  import opened Tables

  const MAX_RENDITION_WORK := 10
  const RENDITION_WORKERS := 2
  const MAX_SCANS := 2

  datatype Work = Work(request: nat, job: Id, session: Id)

  // A worker between jobs, running one (it may write to the cache and the
  // ledger), or having sent its answer but not yet signalled completion.
  datatype Worker = Idle | Busy(work: Work) | Answered(work: Work)

  datatype Response = Response(work: Work, ok: bool)

  // A scan thread: still writing, or past its last write and signalled, or gone.
  datatype Thread = Writing | Signalled | Gone

  datatype Kind = Scan | Resource

  datatype Control = Control(session: Id, kind: Kind, cancelled: bool, completed: bool)

  // What the client finally got for a request.
  datatype Delivery = Delivery(work: Work, descriptor: bool)

  datatype State = State(
    sessions: set<Id>,
    closed: set<Id>,
    jobs: map<Id, Control>,
    used: set<Id>,
    queue: seq<Work>,
    workers: seq<Worker>,
    responses: seq<Response>,
    inflight: nat,
    threads: map<Id, Thread>,
    accepted: seq<Work>,
    delivered: seq<Delivery>)

  datatype Action =
    | Opens(library: Id)
    | Authorizes(work: Work, eventSent: bool)
    | Takes(taker: nat)
    | Sends(sender: nat, ok: bool)
    | Signals(signaller: nat)
    | Delivers
    | StartsScan(scan: Id, owner: Id)
    | ScanSignals(signalled: Id)
    | ScanExits(exited: Id)
    | Reaps
    | SeesTerminal(ended: Id)
    | Cancels(canceller: Id, cancelled: Id, over: bool)
    | Closes(closing: Id, timesOut: bool)

  function ScanJobs(jobs: map<Id, Control>): set<Id> {
    set j | j in jobs && jobs[j].kind == Scan
  }

  function JobsOf(jobs: map<Id, Control>, session: Id): set<Id> {
    set j | j in jobs && jobs[j].session == session
  }

  // Admission: room for one more, the session open, the started event queued,
  // and a place in the bounded queue.
  function Authorize(s: State, work: Work, eventSent: bool): State {
    if s.inflight >= MAX_RENDITION_WORK || work.session !in s.sessions || work.job in s.used then s
    else if !eventSent || |s.queue| >= MAX_RENDITION_WORK - RENDITION_WORKERS then s.(used := s.used + {work.job})
    else s.(queue := s.queue + [work],
            jobs := s.jobs[work.job := Control(work.session, Resource, false, false)],
            used := s.used + {work.job},
            inflight := s.inflight + 1,
            accepted := s.accepted + [work])
  }

  // Take one answer from the channel; a descriptor reaches only an open session.
  function Deliver(s: State): State {
    if s.responses == [] then s else
      var r := s.responses[0];
      s.(responses := s.responses[1..],
         inflight := if s.inflight == 0 then 0 else s.inflight - 1,
         jobs := s.jobs - {r.work.job},
         delivered := s.delivered + [Delivery(r.work, r.ok && r.work.session in s.sessions)])
  }

  function Joined(threads: map<Id, Thread>, jobs: set<Id>): map<Id, Thread> {
    map j | j in threads :: if j in jobs then Gone else threads[j]
  }

  // Closing cancels the session's jobs and waits for each of them to signal; if
  // one does not in time, the session stays.
  function Close(s: State, session: Id, timesOut: bool): State {
    var mine := JobsOf(s.jobs, session);
    var told := s.(jobs := map j | j in s.jobs :: if j in mine then s.jobs[j].(cancelled := true) else s.jobs[j]);
    if timesOut || exists j :: j in mine && !s.jobs[j].completed then told
    else s.(jobs := s.jobs - mine, threads := Joined(s.threads, mine), sessions := s.sessions - {session},
            closed := if session in s.sessions then s.closed + {session} else s.closed)
  }

  // A worker takes the next piece of work, sends its answer, and signals.
  function Take(s: State, i: nat): State
    requires i < |s.workers| && s.queue != []
  {
    s.(queue := s.queue[1..], workers := s.workers[i := Busy(s.queue[0])])
  }

  function Send(s: State, i: nat, ok: bool): State
    requires i < |s.workers| && s.workers[i].Busy?
  {
    s.(workers := s.workers[i := Answered(s.workers[i].work)], responses := s.responses + [Response(s.workers[i].work, ok)])
  }

  function Signal(s: State, i: nat): State
    requires i < |s.workers| && s.workers[i].Answered?
  {
    var job := s.workers[i].work.job;
    s.(workers := s.workers[i := Idle],
       jobs := if job in s.jobs then s.jobs[job := s.jobs[job].(completed := true)] else s.jobs)
  }

  function Step(s: State, a: Action): State
    requires |s.workers| == RENDITION_WORKERS
  {
    match a
    case Opens(session) => if session in s.sessions + s.closed then s else s.(sessions := s.sessions + {session})
    case Authorizes(work, eventSent) => Authorize(s, work, eventSent)
    case Takes(i) => if i < |s.workers| && s.workers[i].Idle? && s.queue != [] then Take(s, i) else s
    case Sends(i, ok) => if i < |s.workers| && s.workers[i].Busy? then Send(s, i, ok) else s
    case Signals(i) => if i < |s.workers| && s.workers[i].Answered? then Signal(s, i) else s
    case Delivers => Deliver(s)
    case StartsScan(job, session) =>
      if |ScanJobs(s.jobs)| >= MAX_SCANS || session !in s.sessions || job in s.used then s
      else s.(jobs := s.jobs[job := Control(session, Scan, false, false)], used := s.used + {job},
              threads := s.threads[job := Writing])
    case ScanSignals(job) =>
      if job in s.threads && s.threads[job] == Writing
      then s.(threads := s.threads[job := Signalled],
              jobs := if job in s.jobs then s.jobs[job := s.jobs[job].(completed := true)] else s.jobs) else s
    case ScanExits(job) =>
      if job in s.threads && s.threads[job] == Signalled then s.(threads := s.threads[job := Gone]) else s
    case Reaps =>
      s.(jobs := map j | j in s.jobs && !(s.jobs[j].kind == Scan && j in s.threads && s.threads[j] == Gone) :: s.jobs[j])
    case SeesTerminal(job) =>
      if job in s.jobs && s.jobs[job].kind == Scan && job in s.threads
      then s.(jobs := s.jobs - {job}, threads := s.threads[job := Gone]) else s
    case Cancels(session, job, over) =>
      if session in s.sessions && !over && job in s.jobs && s.jobs[job].session == session
      then s.(jobs := s.jobs[job := s.jobs[job].(cancelled := true)]) else s
    case Closes(session, timesOut) => Close(s, session, timesOut)
  }

  function Start(): State {
    State({}, {}, map[], {}, [], [Idle, Idle], [], 0, map[], [], [])
  }

  /** What every reachable state satisfies. */

  function BusyWorks(workers: seq<Worker>): seq<Work>
    requires |workers| == RENDITION_WORKERS
  {
    (if workers[0].Busy? then [workers[0].work] else []) + (if workers[1].Busy? then [workers[1].work] else [])
  }

  function WorksOf(rs: seq<Response>): seq<Work> {
    seq(|rs|, i requires 0 <= i < |rs| => rs[i].work)
  }

  function Answers(ds: seq<Delivery>): seq<Work> {
    seq(|ds|, i requires 0 <= i < |ds| => ds[i].work)
  }

  // Every accepted request is in exactly one place: queued, being worked on,
  // answered but untaken, or delivered.
  ghost predicate Conserved(s: State)
    requires |s.workers| == RENDITION_WORKERS
  {
    multiset(s.accepted)
    == multiset(s.queue) + multiset(BusyWorks(s.workers)) + (multiset(WorksOf(s.responses)) + multiset(Answers(s.delivered)))
  }

  ghost predicate Counted(s: State)
    requires |s.workers| == RENDITION_WORKERS
  {
    && s.inflight == |s.queue| + |BusyWorks(s.workers)| + |s.responses|
    && s.inflight <= MAX_RENDITION_WORK
    && |s.queue| <= MAX_RENDITION_WORK - RENDITION_WORKERS
  }

  // A work item that may still be written for: its job is on record for its open
  // session and has not signalled.
  ghost predicate Live(s: State, w: Work) {
    && w.session in s.sessions
    && w.job in s.jobs && s.jobs[w.job] == Control(w.session, Resource, s.jobs[w.job].cancelled, false)
  }

  // Works accepted are for different jobs.
  ghost predicate OneEach(s: State) {
    && (forall i, j | 0 <= i < j < |s.accepted| :: s.accepted[i].job != s.accepted[j].job)
    && (forall w <- s.accepted :: w.job in s.used && w.job !in s.threads)
  }

  ghost predicate Worked(s: State)
    requires |s.workers| == RENDITION_WORKERS
  {
    && (forall w <- s.queue :: Live(s, w))
    && (forall i | 0 <= i < |s.workers| :: s.workers[i].Busy? ==> Live(s, s.workers[i].work))
    && (forall i | 0 <= i < |s.workers| :: s.workers[i].Answered? ==>
          s.workers[i].work in WorksOf(s.responses) || s.workers[i].work in Answers(s.delivered))
  }

  ghost predicate Scanned(s: State) {
    && (forall j <- s.threads :: s.threads[j] == Writing ==>
          j in s.jobs && s.jobs[j].kind == Scan && !s.jobs[j].completed && s.jobs[j].session in s.sessions)
    && (forall j <- s.threads :: j in s.used && (j in s.jobs ==> s.jobs[j].kind == Scan))
    && |ScanJobs(s.jobs)| <= MAX_SCANS
    && s.jobs.Keys <= s.used && s.sessions !! s.closed
  }

  ghost predicate Valid(s: State) {
    |s.workers| == RENDITION_WORKERS && Counted(s) && Conserved(s) && OneEach(s) && Worked(s) && Scanned(s)
  }

  /** The accounts: where requests are and how many. */

  lemma PopFront<T>(s: seq<T>)
    requires s != []
    ensures multiset(s) == multiset{s[0]} + multiset(s[1..])
  {
    assert s == [s[0]] + s[1..];
  }

  ghost predicate Accounts(s: State) { |s.workers| == RENDITION_WORKERS && Counted(s) && Conserved(s) }

  lemma AuthorizeAccounts(s: State, work: Work, eventSent: bool)
    requires Accounts(s)
    ensures Accounts(Authorize(s, work, eventSent))
  {
  }

  lemma TakeAccounts(s: State, i: nat)
    requires Accounts(s) && i < |s.workers| && s.workers[i].Idle? && s.queue != []
    ensures Accounts(Take(s, i))
  {
    hide Conserved, BusyWorks;
    TakeConserved(s, i);
    OneBusier(s.workers, i, s.queue[0]);
  }

  lemma TakeConserved(s: State, i: nat)
    requires |s.workers| == RENDITION_WORKERS && Conserved(s) && i < |s.workers| && s.workers[i].Idle? && s.queue != []
    ensures Conserved(Take(s, i))
  {
    var w, workers := s.queue[0], s.workers[i := Busy(s.queue[0])];
    PopFront(s.queue);
    OneBusier(s.workers, i, w);
    hide BusyWorks, WorksOf, Answers;
    Moves(multiset(s.queue), multiset(s.queue[1..]), multiset(BusyWorks(s.workers)), multiset(BusyWorks(workers)),
          multiset(WorksOf(s.responses)) + multiset(Answers(s.delivered)), w);
  }

  lemma Moves(from: multiset<Work>, left: multiset<Work>, to: multiset<Work>, more: multiset<Work>, rest: multiset<Work>, w: Work)
    requires from == multiset{w} + left && more == to + multiset{w}
    ensures from + to + rest == left + more + rest
  {
  }

  lemma OneBusier(workers: seq<Worker>, i: nat, w: Work)
    requires |workers| == RENDITION_WORKERS && i < |workers| && workers[i].Idle?
    ensures multiset(BusyWorks(workers[i := Busy(w)])) == multiset(BusyWorks(workers)) + multiset{w}
    ensures |BusyWorks(workers[i := Busy(w)])| == |BusyWorks(workers)| + 1
  {
    var before, after := BusyWorks(workers), BusyWorks(workers[i := Busy(w)]);
    assert after == if i == 0 then [w] + before else before + [w];
  }

  lemma SendAccounts(s: State, i: nat, ok: bool)
    requires Accounts(s) && i < |s.workers| && s.workers[i].Busy?
    ensures Accounts(Send(s, i, ok))
  {
    hide Conserved, BusyWorks;
    SendConserved(s, i, ok);
    OneFreer(s.workers, i);
  }

  lemma SendConserved(s: State, i: nat, ok: bool)
    requires |s.workers| == RENDITION_WORKERS && Conserved(s) && i < |s.workers| && s.workers[i].Busy?
    ensures Conserved(Send(s, i, ok))
  {
    var w := s.workers[i].work;
    var workers, responses := s.workers[i := Answered(w)], s.responses + [Response(w, ok)];
    OneFreer(s.workers, i);
    assert WorksOf(responses) == WorksOf(s.responses) + [w];
    hide BusyWorks, WorksOf, Answers;
    Moves(multiset(BusyWorks(s.workers)), multiset(BusyWorks(workers)), multiset(WorksOf(s.responses)), multiset(WorksOf(responses)),
          multiset(s.queue) + multiset(Answers(s.delivered)), w);
  }

  lemma OneFreer(workers: seq<Worker>, i: nat)
    requires |workers| == RENDITION_WORKERS && i < |workers| && workers[i].Busy?
    ensures var freed := workers[i := Answered(workers[i].work)];
      && multiset(BusyWorks(workers)) == multiset{workers[i].work} + multiset(BusyWorks(freed))
      && |BusyWorks(workers)| == |BusyWorks(freed)| + 1
  {
    var w := workers[i].work;
    var before, after := BusyWorks(workers), BusyWorks(workers[i := Answered(w)]);
    assert before == if i == 0 then [w] + after else after + [w];
  }

  lemma SignalAccounts(s: State, i: nat)
    requires Accounts(s) && i < |s.workers| && s.workers[i].Answered?
    ensures Accounts(Signal(s, i))
  {
  }

  lemma DeliverAccounts(s: State)
    requires Accounts(s)
    ensures Accounts(Deliver(s)) && (s.responses != [] ==> Deliver(s).inflight == s.inflight - 1)
  {
    if s.responses != [] {
      var r, first := Deliver(s), s.responses[0];
      assert WorksOf(s.responses) == [first.work] + WorksOf(r.responses);
      assert Answers(r.delivered) == Answers(s.delivered) + [first.work];
    }
  }

  lemma WorkSteps(s: State, a: Action)
    requires |s.workers| == RENDITION_WORKERS
    ensures a.Authorizes? ==> Step(s, a) == Authorize(s, a.work, a.eventSent)
    ensures a.Takes? ==> Step(s, a) == if a.taker < |s.workers| && s.workers[a.taker].Idle? && s.queue != [] then Take(s, a.taker) else s
    ensures a.Sends? ==> Step(s, a) == if a.sender < |s.workers| && s.workers[a.sender].Busy? then Send(s, a.sender, a.ok) else s
    ensures a.Signals? ==> Step(s, a) == if a.signaller < |s.workers| && s.workers[a.signaller].Answered? then Signal(s, a.signaller) else s
    ensures a.Delivers? ==> Step(s, a) == Deliver(s)
  {
  }

  // Nothing else touches the accounts.
  lemma StepAccounts(s: State, a: Action)
    requires Accounts(s)
    ensures Accounts(Step(s, a))
  {
    assert |s.workers| == RENDITION_WORKERS;
    WorkSteps(s, a);
    hide Accounts, Deliver, Take, Send, Signal, Authorize, Step;
    if a.Authorizes? {
      AuthorizeAccounts(s, a.work, a.eventSent);
    } else if a.Takes? {
      if a.taker < |s.workers| && s.workers[a.taker].Idle? && s.queue != [] { TakeAccounts(s, a.taker); }
    } else if a.Sends? {
      if a.sender < |s.workers| && s.workers[a.sender].Busy? { SendAccounts(s, a.sender, a.ok); }
    } else if a.Signals? {
      if a.signaller < |s.workers| && s.workers[a.signaller].Answered? { SignalAccounts(s, a.signaller); }
    } else if a.Delivers? {
      DeliverAccounts(s);
    } else {
      OtherAccounts(s, a);
    }
  }

  lemma OtherAccounts(s: State, a: Action)
    requires Accounts(s) && !a.Authorizes? && !a.Takes? && !a.Sends? && !a.Signals? && !a.Delivers?
    ensures Accounts(Step(s, a))
  {
    assert |s.workers| == RENDITION_WORKERS;
    hide Accounts;
    SameAccounts(s, Step(s, a));
  }

  lemma SameAccounts(s: State, r: State)
    requires Accounts(s) && r.queue == s.queue && r.workers == s.workers && r.responses == s.responses
    requires r.inflight == s.inflight && r.accepted == s.accepted && r.delivered == s.delivered
    ensures Accounts(r)
  {
  }

  /** A work item is in one place. */

  lemma {:induction false} OnlyOnce(ws: seq<Work>, w: Work)
    requires forall i, j | 0 <= i < j < |ws| :: ws[i].job != ws[j].job
    ensures multiset(ws)[w] <= 1
    ensures forall v <- ws :: v.job == w.job && w in ws ==> v == w
  {
    if ws != [] {
      OnlyOnce(ws[1..], w);
      PopFront(ws);
      assert ws[0] == w ==> w !in ws[1..];
    }
  }

  // An answered work item is not also queued or worked on.
  lemma Apart(s: State, w: Work, v: Work)
    requires Accounts(s) && OneEach(s)
    requires w in s.queue || w in BusyWorks(s.workers)
    requires v in WorksOf(s.responses) || v in Answers(s.delivered)
    ensures w.job != v.job
  {
    assert w in multiset(s.accepted) && v in multiset(s.accepted);
    OnlyOnce(s.accepted, w);
    OnlyOnce(s.accepted, v);
  }

  /** Works stay live until they are answered. */

  lemma AuthorizeWorked(s: State, work: Work, eventSent: bool)
    requires Valid(s)
    ensures Worked(Authorize(s, work, eventSent)) && OneEach(Authorize(s, work, eventSent)) && Scanned(Authorize(s, work, eventSent))
  {
    hide Counted, Conserved;
    var r := Authorize(s, work, eventSent);
    assert ScanJobs(r.jobs) == ScanJobs(s.jobs);
  }

  lemma TakeWorked(s: State, i: nat)
    requires Valid(s) && i < |s.workers| && s.workers[i].Idle? && s.queue != []
    ensures Worked(Take(s, i))
  {
    hide Counted, Conserved, Scanned, OneEach;
    var r := Take(s, i);
    assert Live(s, s.queue[0]);
    forall w <- r.queue ensures Live(r, w) {
      assert w in s.queue;
    }
    forall k | 0 <= k < |r.workers| && r.workers[k].Busy? ensures Live(r, r.workers[k].work) {
      assert k != i ==> r.workers[k] == s.workers[k];
    }
  }

  lemma SendWorked(s: State, i: nat, ok: bool)
    requires Valid(s) && i < |s.workers| && s.workers[i].Busy?
    ensures Worked(Send(s, i, ok))
  {
    hide Counted, Conserved, Scanned, OneEach;
    var r := Send(s, i, ok);
    assert WorksOf(r.responses) == WorksOf(s.responses) + [s.workers[i].work];
  }

  lemma SignalWorked(s: State, i: nat)
    requires Valid(s) && i < |s.workers| && s.workers[i].Answered?
    ensures Worked(Signal(s, i))
  {
    hide Counted, Conserved, OneEach, Scanned;
    var v := s.workers[i].work;
    forall w | w in s.queue || w in BusyWorks(s.workers) ensures w.job != v.job {
      Apart(s, w, v);
    }
    BusyListed(s.workers);
  }

  lemma SignalScanned(s: State, i: nat)
    requires Valid(s) && i < |s.workers| && s.workers[i].Answered?
    ensures Scanned(Signal(s, i))
  {
    AnsweredJob(s, i);
    hide Counted, Conserved, OneEach, Worked, ScanJobs;
    SameOrGone(s.jobs, Signal(s, i).jobs);
  }

  lemma AnsweredJob(s: State, i: nat)
    requires Valid(s) && i < |s.workers| && s.workers[i].Answered?
    ensures s.workers[i].work.job !in s.threads
  {
    hide Scanned;
    AnsweredAccepted(s, s.workers[i].work);
  }

  lemma AnsweredAccepted(s: State, v: Work)
    requires Accounts(s) && (v in WorksOf(s.responses) || v in Answers(s.delivered))
    ensures v in s.accepted
  {
    assert v in multiset(s.accepted);
  }

  lemma BusyListed(workers: seq<Worker>)
    requires |workers| == RENDITION_WORKERS
    ensures forall i | 0 <= i < |workers| :: workers[i].Busy? ==> workers[i].work in BusyWorks(workers)
  {
  }

  lemma DeliverWorked(s: State)
    requires Valid(s) && s.responses != []
    ensures Worked(Deliver(s))
  {
    hide Counted, Conserved, OneEach, Scanned;
    var r, v := Deliver(s), s.responses[0].work;
    assert WorksOf(s.responses) == [v] + WorksOf(r.responses);
    assert Answers(r.delivered) == Answers(s.delivered) + [v];
    forall w | w in s.queue || w in BusyWorks(s.workers) ensures w.job != v.job {
      Apart(s, w, v);
    }
    BusyListed(s.workers);
  }

  lemma DeliverScanned(s: State)
    requires Valid(s) && s.responses != []
    ensures Scanned(Deliver(s))
  {
    var r, v := Deliver(s), s.responses[0].work;
    FirstAccepted(s);
    hide Counted, Conserved, OneEach, Worked, ScanJobs;
    AcceptedNoThread(s, v);
    SameOrGone(s.jobs, r.jobs);
  }

  lemma FirstAccepted(s: State)
    requires Accounts(s) && s.responses != []
    ensures s.responses[0].work in s.accepted
  {
    assert WorksOf(s.responses)[0] == s.responses[0].work;
    AnsweredAccepted(s, s.responses[0].work);
  }

  lemma AcceptedNoThread(s: State, v: Work)
    requires OneEach(s) && v in s.accepted
    ensures v.job !in s.threads && v.job in s.used
  {
  }

  // Steps of scans and cancellations leave resource jobs alone.
  lemma ScanWorked(s: State, a: Action)
    requires Valid(s) && (a.StartsScan? || a.ScanSignals? || a.ScanExits? || a.Reaps? || a.SeesTerminal? || a.Cancels?)
    ensures Worked(Step(s, a)) && OneEach(Step(s, a))
  {
    hide Counted, Conserved;
  }

  lemma ScanScanned(s: State, a: Action)
    requires Valid(s) && (a.StartsScan? || a.ScanSignals? || a.ScanExits? || a.Reaps? || a.SeesTerminal? || a.Cancels?)
    ensures Scanned(Step(s, a))
  {
    hide Counted, Conserved, OneEach, Worked, ScanJobs;
    var r := Step(s, a);
    if a.StartsScan? {
      if r != s { OneScanMore(s.jobs, a.scan, a.owner); }
    } else {
      SameOrGone(s.jobs, r.jobs);
    }
  }

  lemma OneScanMore(jobs: map<Id, Control>, job: Id, session: Id)
    requires job !in jobs
    ensures |ScanJobs(jobs[job := Control(session, Scan, false, false)])| == |ScanJobs(jobs)| + 1
  {
    assert ScanJobs(jobs[job := Control(session, Scan, false, false)]) == ScanJobs(jobs) + {job};
  }

  lemma SameOrGone(a: map<Id, Control>, b: map<Id, Control>)
    requires forall j <- b :: j in a && b[j].kind == a[j].kind
    ensures |ScanJobs(b)| <= |ScanJobs(a)|
  {
    SubsetSize(ScanJobs(b), ScanJobs(a));
  }

  lemma CloseWorked(s: State, session: Id, timesOut: bool)
    requires Valid(s)
    ensures Worked(Close(s, session, timesOut)) && OneEach(Close(s, session, timesOut)) && Scanned(Close(s, session, timesOut))
  {
    hide Counted, Conserved;
    var r := Close(s, session, timesOut);
    SubsetSize(ScanJobs(r.jobs), ScanJobs(s.jobs));
  }

  lemma StepKeeps(s: State, a: Action)
    requires Valid(s)
    ensures Valid(Step(s, a))
  {
    hide Counted, Conserved, OneEach, Worked, Scanned;
    StepAccounts(s, a);
    match a
    case Opens(_) => OpenKeeps(s, a);
    case Authorizes(work, eventSent) => AuthorizeWorked(s, work, eventSent);
    case Takes(i) =>
      if i < |s.workers| && s.workers[i].Idle? && s.queue != [] {
        TakeWorked(s, i);
        SameRest(s, Step(s, a));
      }
    case Sends(i, ok) =>
      if i < |s.workers| && s.workers[i].Busy? {
        SendWorked(s, i, ok);
        SameRest(s, Step(s, a));
      }
    case Signals(i) =>
      if i < |s.workers| && s.workers[i].Answered? {
        SignalWorked(s, i);
        SignalScanned(s, i);
        SameEach(s, Step(s, a));
      }
    case Delivers =>
      if s.responses != [] {
        DeliverWorked(s);
        DeliverScanned(s);
        SameEach(s, Step(s, a));
      }
    case Closes(session, timesOut) => CloseWorked(s, session, timesOut);
    case _ =>
      ScanWorked(s, a);
      ScanScanned(s, a);
  }

  lemma OpenKeeps(s: State, a: Action)
    requires Valid(s) && a.Opens?
    ensures Worked(Step(s, a)) && OneEach(Step(s, a)) && Scanned(Step(s, a))
  {
    hide Counted, Conserved;
  }

  lemma SameEach(s: State, r: State)
    requires OneEach(s) && r.accepted == s.accepted && r.used == s.used && r.threads == s.threads
    ensures OneEach(r)
  {
  }

  lemma SameRest(s: State, r: State)
    requires OneEach(s) && Scanned(s) && r.accepted == s.accepted && r.used == s.used && r.threads == s.threads
    requires r.jobs == s.jobs && r.sessions == s.sessions && r.closed == s.closed
    ensures OneEach(r) && Scanned(r)
  {
  }

  /** Every run. */

  function Run(s: State, actions: seq<Action>): (r: State)
    requires |s.workers| == RENDITION_WORKERS
    ensures |r.workers| == RENDITION_WORKERS
    decreases |actions|
  {
    if actions == [] then s else Step(Run(s, actions[..|actions| - 1]), actions[|actions| - 1])
  }

  // In every reachable state the counter is queued plus running plus untaken and
  // at most ten, its decrement never saturates, and every accepted request is in
  // exactly one place: none is lost, none is answered twice.
  lemma {:induction false} RunValid(actions: seq<Action>)
    ensures Valid(Run(Start(), actions))
    decreases |actions|
  {
    if actions == [] {
      StartValid();
    } else {
      hide Valid, Step;
      RunValid(actions[..|actions| - 1]);
      StepKeeps(Run(Start(), actions[..|actions| - 1]), actions[|actions| - 1]);
    }
  }

  // At most ten requests are pending, of which at most eight are queued, and the
  // counter tells how many.
  lemma PendingBound(actions: seq<Action>)
    ensures var s := Run(Start(), actions);
      |s.workers| == 2 && s.inflight == |s.queue| + |BusyWorks(s.workers)| + |s.responses| <= 10 && |s.queue| <= 8
  {
    RunValid(actions);
    hide Run, Conserved, OneEach, Worked, Scanned;
  }

  lemma StartValid()
    ensures Valid(Start())
  {
    assert ScanJobs(map[]) == {};
    assert WorksOf([]) == [] && Answers([]) == [];
  }

  lemma NeverSaturates(s: State)
    requires Valid(s) && s.responses != []
    ensures s.inflight > 0
  {
  }

  // When nothing is pending, exactly the accepted requests have been answered.
  lemma AllAnswered(s: State)
    requires Valid(s) && s.inflight == 0
    ensures multiset(Answers(s.delivered)) == multiset(s.accepted)
  {
    assert WorksOf(s.responses) == [];
    assert BusyWorks(s.workers) == [];
  }

  /** Closing a Library. */

  // Nobody writes for the session any more.
  ghost predicate Quiet(s: State, session: Id)
    requires |s.workers| == RENDITION_WORKERS
  {
    && (forall w <- s.queue :: w.session != session)
    && (forall i | 0 <= i < |s.workers| :: s.workers[i].Busy? ==> s.workers[i].work.session != session)
    && (forall j <- s.threads :: s.threads[j] == Writing ==> j in s.jobs && s.jobs[j].session != session)
  }

  lemma ClosedIsQuiet(s: State, session: Id)
    requires Valid(s) && session in s.closed
    ensures Quiet(s, session)
  {
    hide Counted, Conserved, OneEach;
  }

  lemma ClosedForever(s: State, a: Action)
    requires |s.workers| == RENDITION_WORKERS
    ensures s.closed <= Step(s, a).closed
  {
  }

  // A closing command ends the session or keeps it open: on a timeout it stays,
  // and when it is closed every one of its jobs had signalled.
  lemma CloseOutcome(s: State, session: Id, timesOut: bool)
    requires Valid(s) && session in s.sessions
    ensures var r := Close(s, session, timesOut);
      if timesOut || exists j :: j in JobsOf(s.jobs, session) && !s.jobs[j].completed
      then r.sessions == s.sessions && r.queue == s.queue && r.threads == s.threads && r.jobs.Keys == s.jobs.Keys
      else session in r.closed && session !in r.sessions && JobsOf(r.jobs, session) == {}
  {
  }

  // After a Library is closed, nothing writes for it and no descriptor is
  // delivered for it, whatever happens next.
  lemma {:induction false} ClosedStaysQuiet(s: State, actions: seq<Action>, session: Id)
    requires Valid(s) && session in s.closed
    ensures Valid(Run(s, actions)) && session in Run(s, actions).closed && Quiet(Run(s, actions), session)
    ensures |s.delivered| <= |Run(s, actions).delivered| && Run(s, actions).delivered[..|s.delivered|] == s.delivered
    ensures forall i | |s.delivered| <= i < |Run(s, actions).delivered| && Run(s, actions).delivered[i].work.session == session ::
      !Run(s, actions).delivered[i].descriptor
    decreases |actions|
  {
    assert |s.workers| == RENDITION_WORKERS;
    hide Valid, Quiet, Step;
    if actions == [] {
      ClosedIsQuiet(s, session);
    } else {
      var before, last := Run(s, actions[..|actions| - 1]), actions[|actions| - 1];
      ClosedStaysQuiet(s, actions[..|actions| - 1], session);
      StepKeeps(before, last);
      ClosedForever(before, last);
      ClosedIsQuiet(Step(before, last), session);
      StepDelivers(before, last, session);
    }
  }

  lemma StepDelivers(s: State, a: Action, session: Id)
    requires Valid(s) && session in s.closed
    ensures var r := Step(s, a);
      || r.delivered == s.delivered
      || exists d :: r.delivered == s.delivered + [d] && (d.work.session == session ==> !d.descriptor)
  {
    hide Counted, Conserved, OneEach, Worked;
    if a.Delivers? && s.responses != [] {
      var r := s.responses[0];
      assert Step(s, a).delivered == s.delivered + [Delivery(r.work, r.ok && r.work.session in s.sessions)];
    }
  }

  function LiveScans(threads: map<Id, Thread>): set<Id> {
    set j | j in threads && threads[j] == Writing
  }

  // At most two scan threads write at any time.
  lemma FewScans(s: State)
    requires Valid(s)
    ensures |LiveScans(s.threads)| <= 2
  {
    hide Counted, Conserved, OneEach, Worked;
    SubsetSize(LiveScans(s.threads), ScanJobs(s.jobs));
  }
}
