// The read-modify-write loops on a cluster's own Cluster record
// (pkg/agent/agent.go): registration, endpoint reports and heartbeats, each a Get
// followed by a versioned write, interleaved arbitrarily.

module ClusterProtocol {
  import opened Wrappers
  import opened BgpMesh
  import Runs

  // "" (Unset), Pending, Ready; Degraded is never written by these loops.
  datatype Phase = Unset | Pending | Ready | Degraded

  datatype Spec = Spec(clusterId: string, vtepCidr: string, asn: int)

  datatype Status = Status(phase: Phase, endpoints: seq<Endpoint>, heartbeat: int)

  datatype Body = Body(spec: Spec, status: Status)

  datatype Record = Record(body: Body, version: nat)

  // What an operation is after.
  datatype Intent =
    | Register(spec: Spec, now: int)
    | Report(endpoints: seq<Endpoint>)
    | Beat(now: int)

  // Idle, about to read, or about to write what was read, edited.
  datatype Pc = Idle | Reading(intent: Intent) | Writing(intent: Intent, snapshot: Option<Record>)

  datatype Commit = Did(intent: Intent) | Removed

  datatype Sys = Sys(record: Option<Record>, version: nat, procs: map<nat, Pc>, log: seq<Commit>)

  // Done: executed and answered. Lost: executed, but the caller sees an error.
  // Refused: not executed, and the caller sees an error.
  datatype Outcome = Done | Lost | Refused

  datatype Event =
    | Call(pid: nat, intent: Intent)
    | Request(pid: nat, outcome: Outcome)
    | Crash(pid: nat)
    | Delete

  // The edit an operation makes to the record it has read (None: there is none,
  // and registration creates it).
  function Edit(intent: Intent, before: Option<Body>): Body
    requires before == None ==> intent.Register?
  {
    match intent
    case Register(spec, now) =>
      (match before
       case None => Body(spec, Status(Pending, [], now))
       case Some(b) =>
         Body(Spec(b.spec.clusterId, spec.vtepCidr, spec.asn),
              Status(if b.status.phase == Unset then Pending else b.status.phase, b.status.endpoints, now)))
    case Report(endpoints) =>
      before.value.(status := before.value.status.(endpoints := endpoints))
    case Beat(now) =>
      var st := before.value.status;
      before.value.(status := st.(phase := if st.phase == Pending then Ready else st.phase, heartbeat := now))
  }

  function Unversioned(r: Option<Record>): Option<Body>
  {
    match r case Some(rec) => Some(rec.body) case None => None
  }

  // Create needs the name to be free; Update needs the version that was read.
  predicate Writable(s: Sys, snapshot: Option<Record>)
  {
    match snapshot
    case None => s.record == None
    case Some(snap) => s.record.Some? && s.record.value.version == snap.version
  }

  function SetPc(s: Sys, p: nat, pc: Pc): Sys
  {
    s.(procs := s.procs[p := pc])
  }

  function Write(s: Sys, intent: Intent, snapshot: Option<Record>): Sys
    requires snapshot == None ==> intent.Register?
  {
    s.(record := Some(Record(Edit(intent, Unversioned(snapshot)), s.version + 1)),
       version := s.version + 1,
       log := s.log + [Did(intent)])
  }

  function Step(s: Sys, p: nat, o: Outcome): Sys
    requires p in s.procs
  {
    match s.procs[p]
    case Idle => s
    case Reading(intent) =>
      if o == Done && (s.record.Some? || intent.Register?) then SetPc(s, p, Writing(intent, s.record)) else SetPc(s, p, Idle)
    case Writing(intent, snapshot) =>
      if o != Refused && Writable(s, snapshot) && (snapshot == None ==> intent.Register?)
      then SetPc(Write(s, intent, snapshot), p, Idle)
      else SetPc(s, p, Idle)
  }

  function Apply(s: Sys, e: Event): Sys
  {
    match e
    case Call(p, intent) =>
      if p in s.procs && s.procs[p] == Idle then SetPc(s, p, Reading(intent)) else s
    case Request(p, o) =>
      if p in s.procs then Step(s, p, o) else s
    case Crash(p) =>
      if p in s.procs then SetPc(s, p, Idle) else s
    case Delete =>
      if s.record.Some? then s.(record := None, log := s.log + [Removed]) else s
  }

  function Run(s: Sys, events: seq<Event>): Sys
  {
    Runs.Fold(Apply, s, events)
  }

  predicate Initial(s: Sys)
  {
    s.record == None && s.log == [] && forall p :: p in s.procs ==> s.procs[p] == Idle
  }

  // -------------------------------------------------------------- the reference

  // The same operations on a record without versions, one whole operation at a time.
  function Replay(log: seq<Commit>): Option<Body>
  {
    if log == [] then None
    else
      var before := Replay(log[..|log| - 1]);
      match log[|log| - 1]
      case Removed => None
      case Did(intent) => if before == None && !intent.Register? then None else Some(Edit(intent, before))
  }

  lemma ReplayAppend(log: seq<Commit>, e: Commit)
    ensures Replay(log + [e]) ==
      match e
      case Removed => None
      case Did(intent) => if Replay(log) == None && !intent.Register? then None else Some(Edit(intent, Replay(log)))
  {
    assert (log + [e])[..|log|] == log;
  }

  // -------------------------------------------------------------- invariant

  // Optimistic locking: a snapshot whose version is current is the record itself.
  ghost predicate PcOk(s: Sys, pc: Pc)
  {
    pc.Writing? ==>
      match pc.snapshot
      case None => pc.intent.Register?
      case Some(snap) => snap.version <= s.version && (Writable(s, pc.snapshot) ==> s.record == pc.snapshot)
  }

  // Only registration is committed while there is no record.
  ghost predicate HistoryLegal(log: seq<Commit>)
  {
    forall i :: 0 <= i < |log| ==> log[i] == Removed || log[i].intent.Register? || Replay(log[..i]).Some?
  }

  lemma HistoryAppend(log: seq<Commit>, e: Commit)
    requires HistoryLegal(log) && (e == Removed || e.intent.Register? || Replay(log).Some?)
    ensures HistoryLegal(log + [e])
  {
    var log' := log + [e];
    forall i | 0 <= i < |log'| ensures log'[i] == Removed || log'[i].intent.Register? || Replay(log'[..i]).Some? {
      assert log'[..i] == log[..i];
      assert log[..|log|] == log;
    }
  }

  ghost predicate Inv(s: Sys)
  {
    && HistoryLegal(s.log)
    && Unversioned(s.record) == Replay(s.log)
    && (s.record.Some? ==> s.record.value.version <= s.version)
    && forall p :: p in s.procs ==> PcOk(s, s.procs[p])
  }

  lemma WriteKeepsInv(s: Sys, p: nat)
    requires Inv(s) && p in s.procs && s.procs[p].Writing? && Writable(s, s.procs[p].snapshot)
    ensures s.procs[p].snapshot == None ==> s.procs[p].intent.Register?
    ensures Inv(Write(s, s.procs[p].intent, s.procs[p].snapshot))
  {
    var Writing(intent, snapshot) := s.procs[p];
    assert PcOk(s, s.procs[p]);
    var t := Write(s, intent, snapshot);
    ReplayAppend(s.log, Did(intent));
    HistoryAppend(s.log, Did(intent));
    forall q | q in t.procs ensures PcOk(t, t.procs[q]) {
      assert PcOk(s, s.procs[q]);
    }
  }

  lemma PcKeepsInv(s: Sys, p: nat, pc: Pc)
    requires Inv(s) && PcOk(s, pc)
    ensures Inv(SetPc(s, p, pc))
  {
    var t := SetPc(s, p, pc);
    forall q | q in t.procs ensures PcOk(t, t.procs[q]) {
      if q != p {
        assert PcOk(s, s.procs[q]);
      }
    }
  }

  lemma ApplyKeepsInv(s: Sys, e: Event)
    requires Inv(s)
    ensures Inv(Apply(s, e))
  {
    match e
    case Call(p, intent) => PcKeepsInv(s, p, Reading(intent));
    case Request(p, o) =>
      if p in s.procs {
        StepKeepsInv(s, p, o);
      }
    case Crash(p) => PcKeepsInv(s, p, Idle);
    case Delete =>
      var t := Apply(s, e);
      ReplayAppend(s.log, Removed);
      HistoryAppend(s.log, Removed);
      forall q | q in t.procs ensures PcOk(t, t.procs[q]) {
        assert PcOk(s, s.procs[q]);
      }
  }

  lemma StepKeepsInv(s: Sys, p: nat, o: Outcome)
    requires Inv(s) && p in s.procs
    ensures Inv(Step(s, p, o))
  {
    PcKeepsInv(s, p, Idle);
    match s.procs[p]
    case Idle =>
    case Reading(intent) =>
      if s.record.Some? || intent.Register? {
        PcKeepsInv(s, p, Writing(intent, s.record));
      }
    case Writing(intent, snapshot) =>
      if Writable(s, snapshot) {
        WriteKeepsInv(s, p);
        PcKeepsInv(Write(s, intent, snapshot), p, Idle);
      }
  }

  lemma {:induction false} RunKeepsInv(s: Sys, events: seq<Event>)
    requires Inv(s)
    ensures Inv(Run(s, events))
  {
    if events != [] {
      RunKeepsInv(s, events[..|events| - 1]);
      ApplyKeepsInv(Run(s, events[..|events| - 1]), events[|events| - 1]);
    }
  }

  // -------------------------------------------------------------- main results

  // No lost update: in every interleaving the stored record is what the committed
  // operations give when each is done whole, in the order of their commits.
  lemma NoLostUpdate(s: Sys, events: seq<Event>)
    requires Initial(s)
    ensures Unversioned(Run(s, events).record) == Replay(Run(s, events).log) && HistoryLegal(Run(s, events).log)
  {
    RunKeepsInv(s, events);
  }

  predicate NotRemovedSince(log: seq<Commit>, at: nat)
  {
    forall i :: at <= i < |log| ==> log[i] != Removed
  }

  // No commit of the given kind, and no removal, from `at` on.
  predicate NoneSince(log: seq<Commit>, at: nat, affects: Intent -> bool)
  {
    forall i :: at <= i < |log| ==> log[i].Did? && !affects(log[i].intent)
  }

  function Reports(): Intent -> bool { (i: Intent) => i.Report? }
  function Beats(): Intent -> bool { (i: Intent) => !i.Report? }
  function Registers(): Intent -> bool { (i: Intent) => i.Register? }

  // Each kind of commit leaves alone what the others write.
  lemma {:induction false} UnaffectedSince(log: seq<Commit>, at: nat)
    requires at <= |log| && NotRemovedSince(log, at)
    requires Replay(log[..at]).Some?
    ensures Replay(log).Some?
    ensures NoneSince(log, at, Reports()) ==> Replay(log).value.status.endpoints == Replay(log[..at]).value.status.endpoints
    ensures NoneSince(log, at, Beats()) ==> Replay(log).value.status.heartbeat == Replay(log[..at]).value.status.heartbeat
    ensures NoneSince(log, at, Registers()) ==> Replay(log).value.spec == Replay(log[..at]).value.spec
    decreases |log|
  {
    if at == |log| {
      assert log[..at] == log;
    } else {
      var init := log[..|log| - 1];
      assert init[..at] == log[..at];
      UnaffectedSince(init, at);
    }
  }

  // The stored endpoints are those of the last successful report ...
  lemma LastReportStands(s: Sys, events: seq<Event>, i: nat)
    requires Initial(s) && i < |Run(s, events).log|
    requires var log := Run(s, events).log;
      && log[i].Did? && log[i].intent.Report?
      && forall k :: i < k < |log| ==> log[k].Did? && !log[k].intent.Report?
    ensures var t := Run(s, events);
      t.record.Some? && t.record.value.body.status.endpoints == t.log[i].intent.endpoints
  {
    var log := Run(s, events).log;
    NoLostUpdate(s, events);
    assert log[..i + 1] == log[..i] + [log[i]];
    ReplayAppend(log[..i], log[i]);
    UnaffectedSince(log, i + 1);
  }

  // ... the stored heartbeat that of the last successful heartbeat (or registration) ...
  lemma LastBeatStands(s: Sys, events: seq<Event>, i: nat)
    requires Initial(s) && i < |Run(s, events).log|
    requires var log := Run(s, events).log;
      && log[i].Did? && (log[i].intent.Beat? || log[i].intent.Register?)
      && forall k :: i < k < |log| ==> log[k].Did? && log[k].intent.Report?
    ensures var t := Run(s, events);
      t.record.Some? && t.record.value.body.status.heartbeat == t.log[i].intent.now
  {
    var log := Run(s, events).log;
    NoLostUpdate(s, events);
    assert log[..i + 1] == log[..i] + [log[i]];
    ReplayAppend(log[..i], log[i]);
    UnaffectedSince(log, i + 1);
  }

  // ... and the spec that of the last registration: neither loop ever changes it.
  lemma SpecStands(s: Sys, events: seq<Event>, i: nat)
    requires Initial(s) && i < |Run(s, events).log|
    requires var log := Run(s, events).log;
      && log[i].Did? && log[i].intent.Register?
      && forall k :: i < k < |log| ==> log[k].Did? && !log[k].intent.Register?
    ensures var t := Run(s, events);
      && t.record.Some?
      && t.record.value.body.spec.vtepCidr == t.log[i].intent.spec.vtepCidr
      && t.record.value.body.spec.asn == t.log[i].intent.spec.asn
      && (Replay(t.log[..i]) == None ==> t.record.value.body.spec == t.log[i].intent.spec)
  {
    var log := Run(s, events).log;
    NoLostUpdate(s, events);
    assert log[..i + 1] == log[..i] + [log[i]];
    ReplayAppend(log[..i], log[i]);
    UnaffectedSince(log, i + 1);
  }

  // The phase: Pending until the first heartbeat after the record's creation, and
  // Ready from then on, so never back to Pending.
  predicate BeatenSinceRemoval(log: seq<Commit>)
  {
    log != [] &&
    match log[|log| - 1]
    case Removed => false
    case Did(intent) =>
      BeatenSinceRemoval(log[..|log| - 1]) || (intent.Beat? && Replay(log[..|log| - 1]).Some?)
  }

  lemma {:induction false} PhaseOf(log: seq<Commit>)
    ensures Replay(log).Some? ==> Replay(log).value.status.phase == if BeatenSinceRemoval(log) then Ready else Pending
    ensures Replay(log) == None ==> !BeatenSinceRemoval(log)
  {
    if log != [] {
      PhaseOf(log[..|log| - 1]);
    }
  }

  lemma {:induction false} BeatenStays(log: seq<Commit>, at: nat)
    requires at <= |log| && BeatenSinceRemoval(log[..at])
    requires NotRemovedSince(log, at)
    ensures BeatenSinceRemoval(log)
    decreases |log|
  {
    if at == |log| {
      assert log[..at] == log;
    } else {
      assert log[..|log| - 1][..at] == log[..at];
      BeatenStays(log[..|log| - 1], at);
    }
  }

  lemma {:induction false} HistoryGrows(s: Sys, events: seq<Event>)
    ensures s.log <= Run(s, events).log
  {
    if events != [] {
      HistoryGrows(s, events[..|events| - 1]);
    }
  }

  // A heartbeat moves the phase from Pending to Ready and no other, registration an
  // unset one to Pending and no other; reports never touch it.
  lemma PhaseMoves(intent: Intent, b: Body)
    ensures var before, after := b.status.phase, Edit(intent, Some(b)).status.phase;
      && (after == before
          || (intent.Beat? && before == Pending && after == Ready)
          || (intent.Register? && before == Unset && after == Pending))
      && (intent.Beat? ==> after != Pending) && (intent.Register? ==> after != Unset)
  {
  }

  // A record keeps the cluster ID it was created with, whoever registers again.
  lemma {:induction false} ClusterIdStands(log: seq<Commit>, at: nat)
    requires at <= |log| && NotRemovedSince(log, at) && Replay(log[..at]).Some?
    ensures Replay(log).Some? && Replay(log).value.spec.clusterId == Replay(log[..at]).value.spec.clusterId
    decreases |log|
  {
    if at == |log| {
      assert log[..at] == log;
    } else {
      assert log[..|log| - 1][..at] == log[..at];
      ClusterIdStands(log[..|log| - 1], at);
    }
  }

  // From Ready the phase never goes back to Pending while the record exists.
  lemma ReadyStays(s: Sys, events: seq<Event>, more: seq<Event>)
    requires Initial(s)
    requires var t := Run(s, events); t.record.Some? && t.record.value.body.status.phase == Ready
    requires NotRemovedSince(Run(s, events + more).log, |Run(s, events).log|)
    ensures var u := Run(s, events + more);
      u.record.Some? && u.record.value.body.status.phase == Ready
  {
    var t, u := Run(s, events), Run(s, events + more);
    NoLostUpdate(s, events);
    NoLostUpdate(s, events + more);
    Runs.FoldConcat(Apply, s, events, more);
    HistoryGrows(t, more);
    assert u.log[..|t.log|] == t.log;
    PhaseOf(t.log);
    PhaseOf(u.log);
    BeatenStays(u.log, |t.log|);
  }

  // -------------------------------------------------------------- one operation

  datatype ApiError = NotFound | AlreadyExists | Conflict | Unavailable

  // How an operation ended: its write was committed, another writer was faster,
  // or it failed for good.
  datatype Attempt = Committed | Conflicted | Gone(error: ApiError)

  // What the caller learns from the request of process p that ends an operation.
  function Answer(s: Sys, p: nat, o: Outcome): Attempt
    requires p in s.procs
  {
    if o != Done then Gone(Unavailable)
    else
      match s.procs[p]
      case Writing(_, None) => if s.record.Some? then Gone(AlreadyExists) else Committed
      case Writing(_, Some(snap)) =>
        if s.record == None then Gone(NotFound)
        else if s.record.value.version != snap.version then Conflicted
        else Committed
      case _ => Gone(NotFound)
  }

  // The answer tells exactly what happened: a committed write is the next entry of
  // the log, an answered refusal leaves record and log alone, and only a request
  // that failed leaves open which of the two it was.
  lemma AnswerMeans(s: Sys, p: nat, o: Outcome)
    requires Inv(s) && p in s.procs && s.procs[p].Writing?
    ensures var t := Apply(s, Request(p, o));
      && (Answer(s, p, o) == Committed ==> t.log == s.log + [Did(s.procs[p].intent)] && t.record.Some?)
      && (Answer(s, p, o) == Committed <==> o == Done && t.log != s.log)
      && (o == Done && Answer(s, p, o) != Committed ==> t.log == s.log && t.record == s.record)
      && (t.log == s.log <==> t.record == s.record)
  {
    assert PcOk(s, s.procs[p]);
  }

  // Which answer it is, case by case.
  lemma AnswerIff(s: Sys, p: nat, o: Outcome, read: Option<Record>)
    requires p in s.procs && s.procs[p].Writing? && s.procs[p].snapshot == read
    ensures Answer(s, p, o) == Gone(Unavailable) <==> o != Done
    ensures Answer(s, p, o) == Conflicted <==>
      o == Done && read.Some? && s.record.Some? && s.record.value.version != read.value.version
    ensures Answer(s, p, o) == Gone(NotFound) <==> o == Done && read.Some? && s.record == None
    ensures Answer(s, p, o) == Gone(AlreadyExists) <==> o == Done && read == None && s.record.Some?
    ensures Answer(s, p, o) == Committed <==>
      && o == Done
      && if read.Some? then s.record.Some? && s.record.value.version == read.value.version else s.record == None
  {
  }

  // Of two writers that read the same version exactly the first commits; the second
  // is told of the conflict, changes nothing, and has to read again.
  lemma FirstWriterWins(s: Sys, p: nat, q: nat, snap: Record)
    requires Inv(s) && p in s.procs && q in s.procs && p != q && s.record == Some(snap)
    requires s.procs[p].Writing? && s.procs[p].snapshot == Some(snap)
    requires s.procs[q].Writing? && s.procs[q].snapshot == Some(snap)
    ensures var t := Apply(s, Request(q, Done));
      && Answer(s, q, Done) == Committed && t.log == s.log + [Did(s.procs[q].intent)]
      && p in t.procs && Answer(t, p, Done) == Conflicted
      && var u := Apply(t, Request(p, Done)); u.record == t.record && u.log == t.log && u.procs[p] == Idle
  {
  }

  // One operation as a whole: the requests it sent, how they fared, and what other
  // processes did in its gaps.
  datatype Operation =
    | ReadOnly(gap: seq<Event>, read: Outcome)
    | ReadWrite(gap: seq<Event>, between: seq<Event>, write: Outcome)

  ghost predicate ConcernsOthers(e: Event, p: nat)
  {
    match e
    case Call(q, _) => q != p
    case Request(q, _) => q != p
    case Crash(q) => q != p
    case Delete => true
  }

  ghost predicate OthersOnly(events: seq<Event>, p: nat)
  {
    forall i :: 0 <= i < |events| ==> ConcernsOthers(events[i], p)
  }

  function Beginning(p: nat, intent: Intent, gap: seq<Event>): seq<Event>
  {
    [Call(p, intent)] + gap
  }

  // All events of an operation but its last request.
  function Preceding(p: nat, intent: Intent, op: Operation): seq<Event>
  {
    match op
    case ReadOnly(gap, _) => Beginning(p, intent, gap)
    case ReadWrite(gap, between, _) => Beginning(p, intent, gap) + [Request(p, Done)] + between
  }

  function Last(op: Operation): Outcome
  {
    match op
    case ReadOnly(_, o) => o
    case ReadWrite(_, _, o) => o
  }

  function Events(p: nat, intent: Intent, op: Operation): seq<Event>
  {
    Preceding(p, intent, op) + [Request(p, Last(op))]
  }

  // From state s, process p performs this operation and it ends this way. It stops
  // after the read exactly when the read fails or finds no record to edit.
  ghost predicate Performs(s: Sys, p: nat, intent: Intent, op: Operation, a: Attempt)
  {
    var mid := Run(s, Preceding(p, intent, op));
    && p in mid.procs && a == Answer(mid, p, Last(op))
    && OthersOnly(op.gap, p)
    && match op
       case ReadOnly(_, o) =>
         && mid.procs[p] == Reading(intent)
         && (o == Refused || (o == Done && mid.record == None && !intent.Register?))
       case ReadWrite(gap, between, _) =>
         && OthersOnly(between, p)
         && mid.procs[p] == Writing(intent, Run(s, Beginning(p, intent, gap)).record)
  }

  // What an operation has done, from its answer: Committed says that its last
  // request appended exactly this operation to the log, any other answer but a
  // failed request that nothing of it was stored; its read never changes anything.
  lemma OperationMeans(s: Sys, p: nat, intent: Intent, op: Operation, a: Attempt)
    requires Inv(s) && Performs(s, p, intent, op, a)
    ensures var mid, t := Run(s, Preceding(p, intent, op)), Run(s, Events(p, intent, op));
      && (a == Committed <==> Last(op) == Done && t.log == mid.log + [Did(intent)])
      && (a != Committed && a != Gone(Unavailable) ==> t.log == mid.log && t.record == mid.record)
      && (op.ReadOnly? ==> t.log == mid.log && t.record == mid.record)
    ensures var r := Run(s, Beginning(p, intent, op.gap));
      op.ReadWrite? ==> Apply(r, Request(p, Done)).record == r.record && Apply(r, Request(p, Done)).log == r.log
  {
    var mid := Run(s, Preceding(p, intent, op));
    Runs.FoldAppend(Apply, s, Preceding(p, intent, op), Request(p, Last(op)));
    RunKeepsInv(s, Preceding(p, intent, op));
    if op.ReadWrite? {
      AnswerMeans(mid, p, Last(op));
      StartsReading(s, p, intent, op.gap, op.between);
    }
  }

  // Before its first answered read a process is not writing, so the read writes nothing.
  lemma StartsReading(s: Sys, p: nat, intent: Intent, gap: seq<Event>, between: seq<Event>)
    requires OthersOnly(gap, p) && OthersOnly(between, p)
    requires p in Run(s, Beginning(p, intent, gap) + [Request(p, Done)] + between).procs
    requires Run(s, Beginning(p, intent, gap) + [Request(p, Done)] + between).procs[p].Writing?
    ensures var r := Run(s, Beginning(p, intent, gap));
      Apply(r, Request(p, Done)).record == r.record && Apply(r, Request(p, Done)).log == r.log
  {
    var r := Run(s, Beginning(p, intent, gap));
    Runs.FoldAppend(Apply, s, Beginning(p, intent, gap), Request(p, Done));
    Runs.FoldConcat(Apply, s, Beginning(p, intent, gap) + [Request(p, Done)], between);
    OthersSpare(Apply(r, Request(p, Done)), between, p);
  }

  // Steps of others never move a process.
  lemma {:induction false} OthersSpare(s: Sys, events: seq<Event>, p: nat)
    requires OthersOnly(events, p)
    ensures p in s.procs <==> p in Run(s, events).procs
    ensures p in s.procs ==> Run(s, events).procs[p] == s.procs[p]
  {
    if events != [] {
      OthersSpare(s, events[..|events| - 1], p);
      assert ConcernsOthers(events[|events| - 1], p);
    }
  }

  // A list of operations of one process, one after the other.
  function AllEvents(p: nat, intent: Intent, ops: seq<Operation>): seq<Event>
  {
    if ops == [] then [] else AllEvents(p, intent, ops[..|ops| - 1]) + Events(p, intent, ops[|ops| - 1])
  }

  ghost predicate PerformsAt(
    s: Sys, p: nat, intent: Intent, ops: seq<Operation>, answers: seq<Attempt>, i: nat)
    requires i < |ops| == |answers|
  {
    Performs(Run(s, AllEvents(p, intent, ops[..i])), p, intent, ops[i], answers[i])
  }

  ghost predicate AllPerform(s: Sys, p: nat, intent: Intent, ops: seq<Operation>, answers: seq<Attempt>)
  {
    |ops| == |answers| && forall i :: 0 <= i < |ops| ==> PerformsAt(s, p, intent, ops, answers, i)
  }

  // Process p has performed these operations between two states, with these answers.
  ghost predicate HasPerformed(
    s: Sys, t: Sys, p: nat, intent: Intent, ops: seq<Operation>, answers: seq<Attempt>)
  {
    t == Run(s, AllEvents(p, intent, ops)) && AllPerform(s, p, intent, ops, answers)
  }

  lemma NothingPerformed(s: Sys, p: nat, intent: Intent)
    ensures HasPerformed(s, s, p, intent, [], [])
  {
  }

  lemma PerformedOneMore(
    s: Sys, t: Sys, u: Sys, p: nat, intent: Intent, ops: seq<Operation>, answers: seq<Attempt>, op: Operation, a: Attempt)
    requires HasPerformed(s, t, p, intent, ops, answers)
    requires u == Run(t, Events(p, intent, op)) && Performs(t, p, intent, op, a)
    ensures HasPerformed(s, u, p, intent, ops + [op], answers + [a])
  {
    AllPerformAppend(s, p, intent, ops, answers, op, a);
  }

  lemma AllPerformAppend(
    s: Sys, p: nat, intent: Intent, ops: seq<Operation>, answers: seq<Attempt>, op: Operation, a: Attempt)
    requires AllPerform(s, p, intent, ops, answers) && Performs(Run(s, AllEvents(p, intent, ops)), p, intent, op, a)
    ensures AllPerform(s, p, intent, ops + [op], answers + [a])
    ensures Run(s, AllEvents(p, intent, ops + [op])) == Run(Run(s, AllEvents(p, intent, ops)), Events(p, intent, op))
  {
    var all := ops + [op];
    assert all[..|ops|] == ops;
    forall i | 0 <= i < |all| ensures PerformsAt(s, p, intent, all, answers + [a], i) {
      if i < |ops| {
        assert all[..i] == ops[..i] && PerformsAt(s, p, intent, ops, answers, i);
      }
    }
    Runs.FoldConcat(Apply, s, AllEvents(p, intent, ops), Events(p, intent, op));
  }
}
