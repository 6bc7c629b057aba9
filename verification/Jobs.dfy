/** The job table (src/exec/job.c): jobs, the current and the previous one, and the wait events that drive their states. */
module Jobs {

  const TABLE_MAX := 64

  datatype JobState = RUNNING | STOPPED | DONE

  datatype Job = Job(id: nat, pids: seq<int>, statuses: seq<int>, done: seq<bool>, state: JobState, status: int, notified: bool)

  /** What waitpid can report of a child. */
  datatype Event = Exited(code: int) | Signaled(sig: int) | Stopped(sig: int) | Continued

  /** The table in use: jobs in order of creation; 0 stands for no job. */
  datatype Table = Table(jobs: seq<Job>, nextId: nat, current: nat, previous: nat)

  // ---- one job ----

  predicate WfJob(j: Job) {
    j.id > 0 && |j.pids| > 0 && |j.statuses| == |j.pids| && |j.done| == |j.pids|
  }

  predicate AllDone(done: seq<bool>) {
    forall p :: 0 <= p < |done| ==> done[p]
  }

  /** job_check_complete */
  function CheckComplete(j: Job): Job
    requires WfJob(j)
  {
    if AllDone(j.done) then j.(state := DONE, status := j.statuses[|j.pids| - 1]) else j
  }

  function Finish(j: Job, p: nat, status: int): Job
    requires WfJob(j) && p < |j.pids|
  {
    CheckComplete(j.(done := j.done[p := true], statuses := j.statuses[p := status]))
  }

  /** An event of member `p`, seen by job_update or, in the foreground, by job_wait_fg. */
  function OnEvent(j: Job, p: nat, e: Event, foreground: bool): (r: Job)
    requires WfJob(j) && p < |j.pids|
    ensures WfJob(r) && r.id == j.id && r.pids == j.pids
  {
    match e
    case Exited(code) => Finish(j, p, code)
    case Signaled(sig) => Finish(j, p, 128 + sig)
    case Stopped(sig) => j.(state := STOPPED, status := 128 + sig, notified := false)
    case Continued => j.(state := RUNNING, notified := if foreground then j.notified else false)
  }

  /** DONE is reached together with the last exit, and the status is that of the last member. */
  predicate JobOk(j: Job) {
    WfJob(j) && (j.state == DONE <==> AllDone(j.done)) && (j.state == DONE ==> j.status == j.statuses[|j.pids| - 1])
  }

  /** Only members that have not exited yet have events. */
  predicate Live(j: Job, p: nat) {
    WfJob(j) && p < |j.pids| && !j.done[p]
  }

  lemma EventKeeps(j: Job, p: nat, e: Event, foreground: bool)
    requires JobOk(j) && Live(j, p)
    ensures JobOk(OnEvent(j, p, e, foreground))
  {
  }

  datatype Report = Report(p: nat, e: Event, foreground: bool)

  function OnEvents(j: Job, rs: seq<Report>): (r: Job)
    requires WfJob(j)
    ensures WfJob(r) && r.pids == j.pids
    decreases |rs|
  {
    if rs == [] || rs[0].p >= |j.pids| then j else OnEvents(OnEvent(j, rs[0].p, rs[0].e, rs[0].foreground), rs[1..])
  }

  predicate Ends(e: Event) {
    e.Exited? || e.Signaled?
  }

  function EndStatus(e: Event): int
    requires Ends(e)
  {
    if e.Exited? then e.code else 128 + e.sig
  }

  /** No member is heard of after its end. */
  predicate Possible(n: nat, rs: seq<Report>) {
    && (forall i :: 0 <= i < |rs| ==> rs[i].p < n)
    && (forall i, k :: 0 <= i < k < |rs| && rs[i].p == rs[k].p ==> !Ends(rs[i].e))
  }

  ghost predicate EndsIn(rs: seq<Report>, p: nat) {
    exists i :: 0 <= i < |rs| && rs[i].p == p && Ends(rs[i].e)
  }

  /** A job as job_add makes it. */
  predicate Fresh(j: Job) {
    WfJob(j) && j.state == RUNNING && j.status == 0 && forall p :: 0 <= p < |j.done| ==> !j.done[p]
  }

  function Last(rs: seq<Report>): Report
    requires rs != []
  {
    rs[|rs| - 1]
  }

  lemma {:induction false} EventsSplit(j: Job, rs: seq<Report>)
    requires WfJob(j) && rs != [] && forall i :: 0 <= i < |rs| ==> rs[i].p < |j.pids|
    ensures OnEvents(j, rs) == OnEvent(OnEvents(j, rs[..|rs| - 1]), Last(rs).p, Last(rs).e, Last(rs).foreground)
    decreases |rs|
  {
    hide OnEvent;
    if |rs| == 1 {
      assert rs[..0] == [] && rs[1..] == [];
    } else {
      EventsSplit(OnEvent(j, rs[0].p, rs[0].e, rs[0].foreground), rs[1..]);
      assert rs[1..][..|rs| - 2] == rs[..|rs| - 1][1..];
    }
  }

  /** The last event that stopped or continued a member was a stop, with that signal. */
  ghost predicate StoppedBy(rs: seq<Report>, sig: int) {
    exists i :: 0 <= i < |rs| && rs[i].e == Stopped(sig) && forall k :: i < k < |rs| ==> !rs[k].e.Stopped? && !rs[k].e.Continued?
  }

  /** The last event that stopped a member did so with that signal. */
  ghost predicate LastStop(rs: seq<Report>, sig: int) {
    exists i :: 0 <= i < |rs| && rs[i].e == Stopped(sig) && forall k :: i < k < |rs| ==> !rs[k].e.Stopped?
  }

  /**
   A job some member of which has not ended is stopped exactly if the last event that stopped or continued it was a stop,
   and else it runs; its status is that of the last stop, or 0 if there was none.
   */
  ghost predicate Moves(j: Job, rs: seq<Report>) {
    && (j.state == STOPPED <==> exists sig :: StoppedBy(rs, sig))
    && (j.state == RUNNING <==> !exists sig :: StoppedBy(rs, sig))
    && (forall sig :: LastStop(rs, sig) ==> j.status == 128 + sig)
    && ((forall sig :: !LastStop(rs, sig)) ==> j.status == 0)
  }

  /** Who has ended, and with which status. */
  ghost predicate EndsTracked(j: Job, rs: seq<Report>)
    requires WfJob(j)
  {
    && (forall p :: 0 <= p < |j.done| ==> (j.done[p] <==> EndsIn(rs, p)))
    && (forall i :: 0 <= i < |rs| && rs[i].p < |j.pids| && Ends(rs[i].e) ==> j.statuses[rs[i].p] == EndStatus(rs[i].e))
  }

  /** What the events so far say about the job and each of its members. */
  ghost predicate Tracks(j: Job, rs: seq<Report>) {
    WfJob(j) && (AllDone(j.done) || Moves(j, rs)) && EndsTracked(j, rs)
  }

  /** One more event: a stop is the last move from then on, a continuation ends every stop, and an end moves nothing. */
  lemma StoppedOn(before: seq<Report>, r: Report, sig: int)
    ensures StoppedBy(before + [r], sig)
            <==> if r.e.Stopped? then r.e.sig == sig else !r.e.Continued? && StoppedBy(before, sig)
  {
    var rs, n := before + [r], |before|;
    if StoppedBy(rs, sig) {
      var i :| 0 <= i < |rs| && rs[i].e == Stopped(sig) && forall k :: i < k < |rs| ==> !rs[k].e.Stopped? && !rs[k].e.Continued?;
      if i < n {
        assert rs[n] == r;
        forall k | i < k < n ensures !before[k].e.Stopped? && !before[k].e.Continued? { assert rs[k] == before[k]; }
        assert before[i].e == Stopped(sig);
      }
    }
    if !r.e.Stopped? && !r.e.Continued? && StoppedBy(before, sig) {
      var i :| 0 <= i < n && before[i].e == Stopped(sig) && forall k :: i < k < n ==> !before[k].e.Stopped? && !before[k].e.Continued?;
      assert rs[i].e == Stopped(sig);
    }
    if r.e == Stopped(sig) { assert rs[n].e == Stopped(sig); }
  }

  lemma LastStopOn(before: seq<Report>, r: Report, sig: int)
    ensures LastStop(before + [r], sig) <==> if r.e.Stopped? then r.e.sig == sig else LastStop(before, sig)
  {
    var rs, n := before + [r], |before|;
    if LastStop(rs, sig) {
      var i :| 0 <= i < |rs| && rs[i].e == Stopped(sig) && forall k :: i < k < |rs| ==> !rs[k].e.Stopped?;
      if i < n {
        assert rs[n] == r;
        forall k | i < k < n ensures !before[k].e.Stopped? { assert rs[k] == before[k]; }
        assert before[i].e == Stopped(sig);
      }
    }
    if !r.e.Stopped? && LastStop(before, sig) {
      var i :| 0 <= i < n && before[i].e == Stopped(sig) && forall k :: i < k < n ==> !before[k].e.Stopped?;
      assert rs[i].e == Stopped(sig);
    }
    if r.e == Stopped(sig) { assert rs[n].e == Stopped(sig); }
  }

  lemma MoveStep(was: Job, before: seq<Report>, r: Report, rs: seq<Report>)
    requires WfJob(was) && r.p < |was.pids| && !was.done[r.p] && Moves(was, before) && rs == before + [r]
    ensures var now := OnEvent(was, r.p, r.e, r.foreground); AllDone(now.done) || Moves(now, rs)
  {
    var now := OnEvent(was, r.p, r.e, r.foreground);
    forall sig: int
      ensures StoppedBy(rs, sig) <==> if r.e.Stopped? then r.e.sig == sig else !r.e.Continued? && StoppedBy(before, sig)
      ensures LastStop(rs, sig) <==> if r.e.Stopped? then r.e.sig == sig else LastStop(before, sig)
    {
      StoppedOn(before, r, sig);
      LastStopOn(before, r, sig);
    }
    hide StoppedBy, LastStop;
    match r.e {
      case Stopped(sig) => assert StoppedBy(rs, sig) && LastStop(rs, sig);
      case Continued =>
      case _ =>
        if !AllDone(now.done) { assert now.state == was.state && now.status == was.status; }
    }
  }

  lemma TrackStep(was: Job, before: seq<Report>, r: Report, rs: seq<Report>)
    requires Tracks(was, before) && r.p < |was.pids| && rs == before + [r] && !EndsIn(before, r.p)
    ensures Tracks(OnEvent(was, r.p, r.e, r.foreground), rs)
  {
    assert !was.done[r.p];
    hide Moves, OnEvent, EndsTracked;
    MoveStep(was, before, r, rs);
    EndStep(was, before, r, rs);
  }

  lemma EndStep(was: Job, before: seq<Report>, r: Report, rs: seq<Report>)
    requires WfJob(was) && EndsTracked(was, before) && r.p < |was.pids| && rs == before + [r] && !EndsIn(before, r.p)
    ensures EndsTracked(OnEvent(was, r.p, r.e, r.foreground), rs)
  {
    var now := OnEvent(was, r.p, r.e, r.foreground);
    forall p | 0 <= p < |now.done| ensures now.done[p] <==> EndsIn(rs, p) {
      if EndsIn(before, p) {
        var i :| 0 <= i < |before| && before[i].p == p && Ends(before[i].e);
        assert rs[i] == before[i];
      }
      if p == r.p && Ends(r.e) { assert rs[|rs| - 1] == r; }
      if EndsIn(rs, p) {
        var i :| 0 <= i < |rs| && rs[i].p == p && Ends(rs[i].e);
        if i < |before| { assert before[i] == rs[i]; }
      }
    }
    forall i | 0 <= i < |rs| && rs[i].p < |now.pids| && Ends(rs[i].e)
      ensures now.statuses[rs[i].p] == EndStatus(rs[i].e)
    {
      if i < |before| { assert before[i] == rs[i]; }
    }
  }

  lemma {:induction false} EventsTrack(j: Job, rs: seq<Report>)
    requires Fresh(j) && Possible(|j.pids|, rs)
    ensures Tracks(OnEvents(j, rs), rs) && JobOk(OnEvents(j, rs))
    decreases |rs|
  {
    hide OnEvent, Moves;
    if rs == [] {
      NothingTracked(j);
      assert !j.done[0];
    } else {
      var before, r := rs[..|rs| - 1], Last(rs);
      EventsTrack(j, before);
      EventsSplit(j, rs);
      var was := OnEvents(j, before);
      assert !EndsIn(before, r.p);
      EventKeeps(was, r.p, r.e, r.foreground);
      assert rs == before + [r];
      TrackStep(was, before, r, rs);
    }
  }

  /**
   In whatever order the members of a job exit, stop and continue, the job is done exactly when all of them have
   ended, with the status of its last member.
   */
  lemma DoneExactlyWhenAllEnded(j: Job, rs: seq<Report>, i: nat)
    requires Fresh(j) && Possible(|j.pids|, rs)
    ensures var r := OnEvents(j, rs);
            && (r.state == DONE <==> forall p: nat :: p < |j.pids| ==> EndsIn(rs, p))
            && (r.state == DONE && i < |rs| && rs[i].p == |j.pids| - 1 && Ends(rs[i].e) ==> r.status == EndStatus(rs[i].e))
  {
    EventsTrack(j, rs);
  }

  /**
   As long as some member has not ended, the job is stopped exactly if the last event that stopped or continued one of its
   members was a stop, with status 128 plus that signal, and runs otherwise.
   */
  lemma StoppedExactlyIf(j: Job, rs: seq<Report>, p: nat, sig: int)
    requires Fresh(j) && Possible(|j.pids|, rs) && p < |j.pids| && !EndsIn(rs, p)
    ensures var r := OnEvents(j, rs);
            && (r.state == STOPPED <==> exists g :: StoppedBy(rs, g))
            && (r.state == RUNNING <==> !exists g :: StoppedBy(rs, g))
            && (StoppedBy(rs, sig) ==> r.status == 128 + sig)
  {
    EventsTrack(j, rs);
    if StoppedBy(rs, sig) { StopIsLast(rs, sig); }
  }

  lemma StopIsLast(rs: seq<Report>, sig: int)
    requires StoppedBy(rs, sig)
    ensures LastStop(rs, sig)
  {
  }

  // ---- the table ----

  predicate LiveId(jobs: seq<Job>, id: nat) {
    exists i :: 0 <= i < |jobs| && jobs[i].id == id
  }

  /** Ids are positive, unique, ascending, and used up to `nextId`. */
  predicate Ordered(jobs: seq<Job>, nextId: nat) {
    && (forall i :: 0 <= i < |jobs| ==> WfJob(jobs[i]) && jobs[i].id < nextId)
    && (forall i, k :: 0 <= i < k < |jobs| ==> jobs[i].id < jobs[k].id)
  }

  /** Current and previous are 0 or distinct ids of jobs. */
  predicate Marked(jobs: seq<Job>, current: nat, previous: nat) {
    && (current == 0 || LiveId(jobs, current))
    && (previous == 0 || (LiveId(jobs, previous) && previous != current))
  }

  predicate TableOk(t: Table) {
    |t.jobs| <= TABLE_MAX && t.nextId > 0 && Ordered(t.jobs, t.nextId) && Marked(t.jobs, t.current, t.previous)
  }

  function NewJob(id: nat, pids: seq<int>): (j: Job)
    requires id > 0 && |pids| > 0
    ensures Fresh(j) && JobOk(j)
  {
    var j := Job(id, pids, seq(|pids|, i => 0), seq(|pids|, i => false), RUNNING, 0, false);
    assert !j.done[0];
    j
  }

  function Add(t: Table, pids: seq<int>): Table
    requires t.nextId > 0 && |pids| > 0
  {
    if |t.jobs| >= TABLE_MAX then t
    else Table(t.jobs + [NewJob(t.nextId, pids)], t.nextId + 1, t.nextId, t.current)
  }

  function IndexOf(jobs: seq<Job>, id: nat): (i: nat)
    ensures i <= |jobs| && (i < |jobs| ==> jobs[i].id == id)
    ensures forall k :: 0 <= k < i ==> jobs[k].id != id
  {
    if jobs == [] || jobs[0].id == id then 0 else 1 + IndexOf(jobs[1..], id)
  }

  function Remove(t: Table, id: nat): Table {
    var i := IndexOf(t.jobs, id);
    if i == |t.jobs| then t
    else
      var jobs := t.jobs[..i] + t.jobs[i + 1..];
      if t.current == id then Table(jobs, t.nextId, t.previous, 0)
      else Table(jobs, t.nextId, t.current, if t.previous == id then 0 else t.previous)
  }

  predicate Reapable(j: Job) {
    j.state == DONE && j.notified
  }

  /** The jobs that are done and reported, from index `i` on, are removed one by one. */
  function ReapFrom(t: Table, i: nat): Table
    decreases |t.jobs| - i
  {
    if i >= |t.jobs| then t
    else if Reapable(t.jobs[i]) then
      if IndexOf(t.jobs, t.jobs[i].id) < |t.jobs| then ReapFrom(Remove(t, t.jobs[i].id), i) else t
    else ReapFrom(t, i + 1)
  }

  function HasPid(j: Job, pid: int): (p: nat)
    ensures p <= |j.pids| && (p < |j.pids| ==> j.pids[p] == pid)
    ensures forall k :: 0 <= k < p ==> j.pids[k] != pid
  {
    PidIndex(j.pids, pid)
  }

  function PidIndex(pids: seq<int>, pid: int): (p: nat)
    ensures p <= |pids| && (p < |pids| ==> pids[p] == pid)
    ensures forall k :: 0 <= k < p ==> pids[k] != pid
  {
    if pids == [] || pids[0] == pid then 0 else 1 + PidIndex(pids[1..], pid)
  }

  /** Index of the first job with a member `pid`, or the number of jobs. */
  function OwnerOf(jobs: seq<Job>, pid: int): (i: nat)
    ensures i <= |jobs| && (i < |jobs| ==> HasPid(jobs[i], pid) < |jobs[i].pids|)
  {
    if jobs == [] || HasPid(jobs[0], pid) < |jobs[0].pids| then 0 else 1 + OwnerOf(jobs[1..], pid)
  }

  /** One event reported to job_update; a child that is in no job is ignored. */
  function Reported(t: Table, pid: int, e: Event): Table
    requires forall i :: 0 <= i < |t.jobs| ==> WfJob(t.jobs[i])
  {
    var i := OwnerOf(t.jobs, pid);
    if i == |t.jobs| then t
    else t.(jobs := t.jobs[i := OnEvent(t.jobs[i], HasPid(t.jobs[i], pid), e, false)])
  }

  /** One event heard while waiting for the job in the foreground; only its own members count. */
  function HeardBy(t: Table, id: nat, pid: int, e: Event): Table
    requires forall i :: 0 <= i < |t.jobs| ==> WfJob(t.jobs[i])
  {
    var i := IndexOf(t.jobs, id);
    if i == |t.jobs| then t else t.(jobs := t.jobs[i := Heard(t.jobs[i], pid, e)])
  }

  /** The builtins that report a change of state set the flag that lets reaping remove the job. */
  function Notify(t: Table, id: nat): Table {
    var i := IndexOf(t.jobs, id);
    if i == |t.jobs| then t else t.(jobs := t.jobs[i := t.jobs[i].(notified := true)])
  }

  datatype Op =
    | AddOp(pids: seq<int>)
    | RemoveOp(id: nat)
    | ReapOp
    | EventOp(pid: int, e: Event)
    | HearOp(id: nat, pid: int, e: Event)
    | NotifyOp(id: nat)

  predicate WfOp(op: Op) {
    op.AddOp? ==> op.pids != []
  }

  function Perform(t: Table, op: Op): Table
    requires TableOk(t) && WfOp(op)
  {
    match op
    case AddOp(pids) => Add(t, pids)
    case RemoveOp(id) => Remove(t, id)
    case ReapOp => ReapFrom(t, 0)
    case EventOp(pid, e) => Reported(t, pid, e)
    case HearOp(id, pid, e) => HeardBy(t, id, pid, e)
    case NotifyOp(id) => Notify(t, id)
  }

  lemma AddKeeps(t: Table, pids: seq<int>)
    requires TableOk(t) && pids != []
    ensures TableOk(Add(t, pids))
  {
    var r := Add(t, pids);
    if |t.jobs| < TABLE_MAX {
      assert r.jobs[|t.jobs|].id == r.current;
      if t.current != 0 {
        var i :| 0 <= i < |t.jobs| && t.jobs[i].id == t.current;
        assert r.jobs[i] == t.jobs[i];
      }
    }
  }

  /** A new job is the current one, and the one that was current is the previous one. */
  lemma AddMarks(t: Table, pids: seq<int>)
    requires TableOk(t) && pids != [] && |t.jobs| < 64
    ensures var r := Add(t, pids);
            && r.current == t.nextId && !LiveId(t.jobs, r.current) && LiveId(r.jobs, r.current)
            && r.previous == t.current && |r.jobs| == |t.jobs| + 1
  {
    var r := Add(t, pids);
    assert r.jobs[|t.jobs|].id == t.nextId;
  }

  /**
   When the current job goes, the previous one is current and there is no previous one; when the previous one goes there is
   none; when another goes both stay.
   */
  lemma RemoveMarks(t: Table, id: nat)
    requires TableOk(t) && LiveId(t.jobs, id)
    ensures var r := Remove(t, id);
            && !LiveId(r.jobs, id) && r.current != id && r.previous != id
            && (t.current == id ==> r.current == t.previous && r.previous == 0)
            && (t.current != id ==> r.current == t.current && r.previous == (if t.previous == id then 0 else t.previous))
  {
    var k :| 0 <= k < |t.jobs| && t.jobs[k].id == id;
    UniqueIndex(t, k);
    RemoveAt(t, k);
  }

  /** So an add and the removal of the new job make the old current job current again, but forget the old previous one. */
  lemma AddThenRemove(t: Table, pids: seq<int>)
    requires TableOk(t) && pids != [] && |t.jobs| < 64
    ensures var r := Remove(Add(t, pids), t.nextId); r.current == t.current && r.previous == 0 && r.jobs == t.jobs
  {
    hide TableOk, LiveId;
    AddMarks(t, pids);
    AddKeeps(t, pids);
    var a := Add(t, pids);
    assert a.jobs[|t.jobs|].id == t.nextId;
    UniqueIndex(a, |t.jobs|);
    hide IndexOf, NewJob;
    assert a.jobs[..|t.jobs|] + a.jobs[|t.jobs| + 1..] == t.jobs;
  }

  lemma RemoveKeeps(t: Table, id: nat)
    requires TableOk(t)
    ensures TableOk(Remove(t, id))
  {
    var i := IndexOf(t.jobs, id);
    if i < |t.jobs| {
      hide LiveId, Ordered;
      var r := Remove(t, id);
      RemoveOrdered(t.jobs, t.nextId, i);
      StaysLive(t, id, r.jobs, i, t.current);
      StaysLive(t, id, r.jobs, i, t.previous);
    }
  }

  lemma RemoveOrdered(jobs: seq<Job>, nextId: nat, i: nat)
    requires Ordered(jobs, nextId) && i < |jobs|
    ensures Ordered(jobs[..i] + jobs[i + 1..], nextId)
  {
    hide WfJob;
    var r := jobs[..i] + jobs[i + 1..];
    assert forall k :: 0 <= k < i ==> r[k] == jobs[k];
    assert forall k :: i <= k < |r| ==> r[k] == jobs[k + 1];
  }

  lemma StaysLive(t: Table, id: nat, jobs: seq<Job>, i: nat, other: nat)
    requires i < |t.jobs| && t.jobs[i].id == id && jobs == t.jobs[..i] + t.jobs[i + 1..]
    ensures other != id && LiveId(t.jobs, other) ==> LiveId(jobs, other)
  {
    if other != id && LiveId(t.jobs, other) {
      var k :| 0 <= k < |t.jobs| && t.jobs[k].id == other;
      assert jobs[if k < i then k else k - 1] == t.jobs[k];
    }
  }

  /** Replacing a job by one with the same id changes nothing the table cares about. */
  lemma ReplaceKeeps(t: Table, i: nat, j: Job)
    requires TableOk(t) && i < |t.jobs| && WfJob(j) && j.id == t.jobs[i].id
    ensures TableOk(t.(jobs := t.jobs[i := j]))
  {
    var jobs := t.jobs[i := j];
    forall id | LiveId(t.jobs, id) ensures LiveId(jobs, id) {
      var k :| 0 <= k < |t.jobs| && t.jobs[k].id == id;
      assert jobs[k].id == id;
    }
  }

  lemma {:induction false} ReapKeeps(t: Table, i: nat)
    requires TableOk(t)
    ensures TableOk(ReapFrom(t, i))
    decreases |t.jobs| - i
  {
    hide TableOk;
    if i < |t.jobs| {
      if Reapable(t.jobs[i]) {
        RemoveKeeps(t, t.jobs[i].id);
        if IndexOf(t.jobs, t.jobs[i].id) < |t.jobs| { ReapKeeps(Remove(t, t.jobs[i].id), i); }
      } else {
        ReapKeeps(t, i + 1);
      }
    }
  }

  lemma PerformKeeps(t: Table, op: Op)
    requires TableOk(t) && WfOp(op)
    ensures TableOk(Perform(t, op))
  {
    match op {
      case AddOp(pids) => AddKeeps(t, pids);
      case RemoveOp(id) => RemoveKeeps(t, id);
      case ReapOp => ReapKeeps(t, 0);
      case EventOp(pid, e) =>
        var i := OwnerOf(t.jobs, pid);
        if i < |t.jobs| { ReplaceKeeps(t, i, OnEvent(t.jobs[i], HasPid(t.jobs[i], pid), e, false)); }
      case HearOp(id, pid, e) =>
        var i := IndexOf(t.jobs, id);
        if i < |t.jobs| { ReplaceKeeps(t, i, Heard(t.jobs[i], pid, e)); }
      case NotifyOp(id) =>
        var i := IndexOf(t.jobs, id);
        if i < |t.jobs| { ReplaceKeeps(t, i, t.jobs[i].(notified := true)); }
    }
  }

  function PerformAll(t: Table, ops: seq<Op>): Table
    requires TableOk(t) && forall i :: 0 <= i < |ops| ==> WfOp(ops[i])
    decreases |ops|
  {
    if ops == [] then t
    else
      PerformKeeps(t, ops[0]);
      PerformAll(Perform(t, ops[0]), ops[1..])
  }

  function EmptyTable(): (t: Table)
    ensures TableOk(t)
  {
    Table([], 1, 0, 0)
  }

  /** Over every run, ids are unique and ascending, and current and previous are 0 or distinct live ids. */
  lemma {:induction false} TableKept(t: Table, ops: seq<Op>)
    requires TableOk(t) && forall i :: 0 <= i < |ops| ==> WfOp(ops[i])
    ensures TableOk(PerformAll(t, ops))
    decreases |ops|
  {
    hide TableOk, Perform;
    if ops != [] {
      PerformKeeps(t, ops[0]);
      TableKept(Perform(t, ops[0]), ops[1..]);
    }
  }

  predicate JobsOk(t: Table) {
    forall i :: 0 <= i < |t.jobs| ==> JobOk(t.jobs[i])
  }

  /** Whoever the event is taken to be of has not ended yet. */
  predicate PossibleOp(t: Table, op: Op) {
    match op
    case EventOp(pid, _) =>
      var i := OwnerOf(t.jobs, pid);
      i < |t.jobs| ==> Live(t.jobs[i], HasPid(t.jobs[i], pid))
    case HearOp(id, pid, _) =>
      var i := IndexOf(t.jobs, id);
      i < |t.jobs| && HasPid(t.jobs[i], pid) < |t.jobs[i].pids| ==> Live(t.jobs[i], HasPid(t.jobs[i], pid))
    case _ => true
  }

  /** No process is heard of after its end, at any moment of the run. */
  predicate PossibleRun(t: Table, ops: seq<Op>)
    requires TableOk(t) && forall i :: 0 <= i < |ops| ==> WfOp(ops[i])
    decreases |ops|
  {
    ops == [] || (PossibleOp(t, ops[0]) && (PerformKeeps(t, ops[0]); PossibleRun(Perform(t, ops[0]), ops[1..])))
  }

  lemma RemoveOk(t: Table, id: nat)
    requires JobsOk(t)
    ensures JobsOk(Remove(t, id))
  {
    hide JobOk;
    var i := IndexOf(t.jobs, id);
    if i < |t.jobs| {
      var r := t.jobs[..i] + t.jobs[i + 1..];
      forall k | 0 <= k < |r| ensures JobOk(r[k]) {
        assert r[k] == t.jobs[if k < i then k else k + 1];
      }
    }
  }

  lemma {:induction false} ReapOk(t: Table, i: nat)
    requires JobsOk(t)
    ensures JobsOk(ReapFrom(t, i))
    decreases |t.jobs| - i
  {
    hide JobsOk;
    if i < |t.jobs| {
      if Reapable(t.jobs[i]) {
        RemoveOk(t, t.jobs[i].id);
        if IndexOf(t.jobs, t.jobs[i].id) < |t.jobs| { ReapOk(Remove(t, t.jobs[i].id), i); }
      } else {
        ReapOk(t, i + 1);
      }
    }
  }

  lemma PerformOk(t: Table, op: Op)
    requires TableOk(t) && WfOp(op) && JobsOk(t) && PossibleOp(t, op)
    ensures JobsOk(Perform(t, op))
  {
    match op {
      case AddOp(pids) =>
      case RemoveOp(id) => RemoveOk(t, id);
      case ReapOp => ReapOk(t, 0);
      case EventOp(pid, e) =>
        var i := OwnerOf(t.jobs, pid);
        if i < |t.jobs| { EventKeeps(t.jobs[i], HasPid(t.jobs[i], pid), e, false); }
      case HearOp(id, pid, e) =>
        var i := IndexOf(t.jobs, id);
        if i < |t.jobs| && HasPid(t.jobs[i], pid) < |t.jobs[i].pids| {
          EventKeeps(t.jobs[i], HasPid(t.jobs[i], pid), e, true);
        }
      case NotifyOp(id) =>
    }
  }

  /**
   Over every run of adds, removes, reaps and events of live processes, reported or heard while waiting, every job of the
   table is DONE exactly if all its members have ended, with the status of the last one.
   */
  lemma {:induction false} JobsStayOk(t: Table, ops: seq<Op>)
    requires TableOk(t) && (forall i :: 0 <= i < |ops| ==> WfOp(ops[i])) && JobsOk(t) && PossibleRun(t, ops)
    ensures JobsOk(PerformAll(t, ops))
    decreases |ops|
  {
    hide TableOk, Perform, JobsOk, PossibleOp;
    if ops != [] {
      PerformKeeps(t, ops[0]);
      PerformOk(t, ops[0]);
      JobsStayOk(Perform(t, ops[0]), ops[1..]);
    }
  }

  // ---- the events a job of the table has had ----

  /** What the operation reports to the job with that id. */
  function ReachOf(t: Table, op: Op, id: nat): seq<Report> {
    match op
    case EventOp(pid, e) =>
      var i := OwnerOf(t.jobs, pid);
      if i < |t.jobs| && t.jobs[i].id == id then [Report(HasPid(t.jobs[i], pid), e, false)] else []
    case HearOp(job, pid, e) =>
      var i := IndexOf(t.jobs, job);
      if i < |t.jobs| && job == id && HasPid(t.jobs[i], pid) < |t.jobs[i].pids| then [Report(HasPid(t.jobs[i], pid), e, true)]
      else []
    case _ => []
  }

  /** All events of a run that reach the job with that id, in order. */
  function Log(t: Table, ops: seq<Op>, id: nat): seq<Report>
    requires TableOk(t) && forall i :: 0 <= i < |ops| ==> WfOp(ops[i])
    decreases |ops|
  {
    if ops == [] then []
    else
      PerformKeeps(t, ops[0]);
      ReachOf(t, ops[0], id) + Log(Perform(t, ops[0]), ops[1..], id)
  }

  /** Each job's record is what the events before say, and nothing was heard of jobs yet to come. */
  ghost predicate Logged(t: Table, before: nat -> seq<Report>) {
    && (forall i :: 0 <= i < |t.jobs| ==> Tracks(t.jobs[i], before(t.jobs[i].id)))
    && (forall id: nat :: id >= t.nextId ==> before(id) == [])
  }

  lemma RemoveAmong(t: Table, id: nat)
    ensures forall j :: j in Remove(t, id).jobs ==> j in t.jobs
    ensures Remove(t, id).nextId == t.nextId
  {
  }

  lemma {:induction false} ReapAmong(t: Table, i: nat)
    ensures forall j :: j in ReapFrom(t, i).jobs ==> j in t.jobs
    ensures ReapFrom(t, i).nextId == t.nextId
    decreases |t.jobs| - i
  {
    hide Remove;
    if i < |t.jobs| {
      if Reapable(t.jobs[i]) {
        RemoveAmong(t, t.jobs[i].id);
        if IndexOf(t.jobs, t.jobs[i].id) < |t.jobs| {
          RemoveShrinks(t, t.jobs[i].id);
          ReapAmong(Remove(t, t.jobs[i].id), i);
        }
      } else {
        ReapAmong(t, i + 1);
      }
    }
  }

  lemma RemoveShrinks(t: Table, id: nat)
    requires IndexOf(t.jobs, id) < |t.jobs|
    ensures |Remove(t, id).jobs| == |t.jobs| - 1
  {
  }

  lemma AmongLogged(t: Table, r: Table, before: nat -> seq<Report>)
    requires Logged(t, before) && r.nextId == t.nextId && forall j :: j in r.jobs ==> j in t.jobs
    ensures Logged(r, before)
  {
    hide Tracks;
    forall i | 0 <= i < |r.jobs| ensures Tracks(r.jobs[i], before(r.jobs[i].id)) {
      assert r.jobs[i] in r.jobs;
      var k :| 0 <= k < |t.jobs| && t.jobs[k] == r.jobs[i];
      assert Tracks(t.jobs[k], before(t.jobs[k].id));
    }
  }

  lemma AddLogged(t: Table, pids: seq<int>, before: nat -> seq<Report>)
    requires TableOk(t) && pids != [] && Logged(t, before)
    ensures Logged(Add(t, pids), before)
  {
    if |t.jobs| < TABLE_MAX {
      var r := Add(t, pids);
      forall i | 0 <= i < |r.jobs| ensures Tracks(r.jobs[i], before(r.jobs[i].id)) {
        if i < |t.jobs| { assert r.jobs[i] == t.jobs[i]; } else { NothingTracked(NewJob(t.nextId, pids)); }
      }
    }
  }

  lemma NothingTracked(j: Job)
    requires Fresh(j)
    ensures Tracks(j, [])
  {
  }

  /** One event of the job at `i`. */
  lemma EventLogged(t: Table, i: nat, r: Report, before: nat -> seq<Report>, after: nat -> seq<Report>)
    requires TableOk(t) && Logged(t, before) && i < |t.jobs| && Live(t.jobs[i], r.p)
    requires forall id: nat :: after(id) == before(id) + (if id == t.jobs[i].id then [r] else [])
    ensures Logged(t.(jobs := t.jobs[i := OnEvent(t.jobs[i], r.p, r.e, r.foreground)]), after)
  {
    var j := t.jobs[i];
    assert WfJob(j) && r.p < |j.pids|;
    hide OnEvent, Live, WfJob;
    var jobs := t.jobs[i := OnEvent(j, r.p, r.e, r.foreground)];
    forall k | 0 <= k < |jobs| ensures Tracks(jobs[k], after(jobs[k].id)) {
      if k == i {
        assert Tracks(j, before(j.id)) && !EndsIn(before(j.id), r.p) && r.p < |j.pids| by { LiveUnheard(j, r.p, before(j.id)); }
        TrackStep(j, before(j.id), r, before(j.id) + [r]);
      } else {
        assert jobs[k] == t.jobs[k] && t.jobs[k].id != j.id;
        assert after(jobs[k].id) == before(jobs[k].id);
      }
    }
    forall id: nat | id >= t.nextId ensures after(id) == [] {
      assert id != j.id && before(id) == [];
    }
  }

  lemma LiveUnheard(j: Job, p: nat, rs: seq<Report>)
    requires Live(j, p) && Tracks(j, rs)
    ensures !EndsIn(rs, p) && p < |j.pids|
  {
  }

  lemma PerformLogged(t: Table, op: Op, before: nat -> seq<Report>, after: nat -> seq<Report>)
    requires TableOk(t) && WfOp(op) && PossibleOp(t, op) && Logged(t, before)
    requires forall id: nat :: after(id) == before(id) + ReachOf(t, op, id)
    ensures Logged(Perform(t, op), after)
  {
    hide Tracks, Live, OnEvent;
    if op.EventOp? {
      ReportLogged(t, op, before, after);
    } else if op.HearOp? {
      HearLogged(t, op, before, after);
    } else {
      hide Logged, TableOk, Perform;
      QuietLogged(t, op, before);
      SameLog(Perform(t, op), before, after);
    }
  }

  lemma ReportLogged(t: Table, op: Op, before: nat -> seq<Report>, after: nat -> seq<Report>)
    requires TableOk(t) && op.EventOp? && PossibleOp(t, op) && Logged(t, before)
    requires forall id: nat :: after(id) == before(id) + ReachOf(t, op, id)
    ensures Logged(Perform(t, op), after)
  {
    hide Logged, Live, OnEvent;
    var i := OwnerOf(t.jobs, op.pid);
    if i < |t.jobs| {
      EventLogged(t, i, Report(HasPid(t.jobs[i], op.pid), op.e, false), before, after);
    } else {
      SameLog(t, before, after);
    }
  }

  lemma HearLogged(t: Table, op: Op, before: nat -> seq<Report>, after: nat -> seq<Report>)
    requires TableOk(t) && op.HearOp? && PossibleOp(t, op) && Logged(t, before)
    requires forall id: nat :: after(id) == before(id) + ReachOf(t, op, id)
    ensures Logged(Perform(t, op), after)
  {
    hide Logged, Live, OnEvent;
    var i := IndexOf(t.jobs, op.id);
    if i < |t.jobs| && HasPid(t.jobs[i], op.pid) < |t.jobs[i].pids| {
      EventLogged(t, i, Report(HasPid(t.jobs[i], op.pid), op.e, true), before, after);
    } else {
      SameLog(t, before, after);
      if i < |t.jobs| { assert t.jobs[i := t.jobs[i]] == t.jobs; }
    }
  }

  lemma QuietLogged(t: Table, op: Op, before: nat -> seq<Report>)
    requires TableOk(t) && WfOp(op) && !op.EventOp? && !op.HearOp? && Logged(t, before)
    ensures Logged(Perform(t, op), before)
  {
    hide Logged;
    match op {
      case AddOp(pids) => AddLogged(t, pids, before);
      case RemoveOp(id) =>
        RemoveAmong(t, id);
        AmongLogged(t, Remove(t, id), before);
      case ReapOp =>
        ReapAmong(t, 0);
        AmongLogged(t, ReapFrom(t, 0), before);
      case NotifyOp(id) => NotifyLogged(t, id, before);
    }
  }

  lemma SameLog(t: Table, before: nat -> seq<Report>, after: nat -> seq<Report>)
    requires Logged(t, before) && forall id: nat :: after(id) == before(id)
    ensures Logged(t, after)
  {
    hide Tracks;
  }

  lemma NotifyLogged(t: Table, id: nat, before: nat -> seq<Report>)
    requires Logged(t, before)
    ensures Logged(Notify(t, id), before)
  {
    var i := IndexOf(t.jobs, id);
    if i < |t.jobs| { assert Tracks(t.jobs[i], before(t.jobs[i].id)); }
  }

  lemma {:induction false} RunLogged(t: Table, ops: seq<Op>, before: nat -> seq<Report>, after: nat -> seq<Report>)
    requires TableOk(t) && (forall i :: 0 <= i < |ops| ==> WfOp(ops[i])) && PossibleRun(t, ops) && Logged(t, before)
    requires forall id: nat :: after(id) == before(id) + Log(t, ops, id)
    ensures Logged(PerformAll(t, ops), after)
    decreases |ops|
  {
    hide TableOk, Perform, PossibleOp, Logged, ReachOf;
    if ops == [] {
      SameLog(t, before, after);
    } else {
      PerformKeeps(t, ops[0]);
      var mid := (id: nat) => before(id) + ReachOf(t, ops[0], id);
      PerformLogged(t, ops[0], before, mid);
      RunLogged(Perform(t, ops[0]), ops[1..], mid, after);
    }
  }

  /**
   Over every run from the empty table, every job that is still in it is DONE exactly if the run reported the end of each
   of its members, with the status of the last one's end; and before that it is stopped exactly if the last stop or
   continuation reported of it was a stop, with the status of that signal.
   */
  lemma TableTracksEvents(ops: seq<Op>, i: nat, k: nat, sig: int)
    requires (forall n :: 0 <= n < |ops| ==> WfOp(ops[n])) && PossibleRun(EmptyTable(), ops)
    requires i < |PerformAll(EmptyTable(), ops).jobs|
    ensures var j := PerformAll(EmptyTable(), ops).jobs[i];
            var rs := Log(EmptyTable(), ops, j.id);
            && (j.state == DONE <==> forall p: nat :: p < |j.pids| ==> EndsIn(rs, p))
            && (j.state == DONE && k < |rs| && rs[k].p == |j.pids| - 1 && Ends(rs[k].e) ==> j.status == EndStatus(rs[k].e))
            && (j.state != DONE ==> (j.state == STOPPED <==> exists g :: StoppedBy(rs, g)))
            && (j.state != DONE && StoppedBy(rs, sig) ==> j.status == 128 + sig)
  {
    hide Log, PerformAll, PossibleRun;
    var t := EmptyTable();
    JobsStayOk(t, ops);
    RunLogged(t, ops, id => [], (id: nat) => Log(t, ops, id));
    var j := PerformAll(t, ops).jobs[i];
    var rs := Log(t, ops, j.id);
    assert JobOk(j) && Tracks(j, rs);
    if StoppedBy(rs, sig) { StopIsLast(rs, sig); }
  }

  /** A reported stop or continuation has still to be told to the user, even if the job was reported before. */
  lemma MoveIsNews(t: Table, pid: int, e: Event, i: nat)
    requires TableOk(t) && i == OwnerOf(t.jobs, pid) < |t.jobs| && (e.Stopped? || e.Continued?)
    ensures var r := Reported(t, pid, e);
            && !r.jobs[i].notified && !Reapable(r.jobs[i]) && r.jobs[i].done == t.jobs[i].done
            && forall k :: 0 <= k < |t.jobs| && k != i ==> r.jobs[k] == t.jobs[k]
  {
  }

  datatype Found = Job_(j: Job) | Null

  function FindById(jobs: seq<Job>, id: nat): Found {
    var i := IndexOf(jobs, id);
    if i < |jobs| then Job_(jobs[i]) else Null
  }

  /** job_current */
  function Current(t: Table): Found {
    if t.current > 0 then FindById(t.jobs, t.current)
    else if t.jobs != [] then Job_(t.jobs[|t.jobs| - 1])
    else Null
  }

  /** There is a current job exactly when there is a job: the one marked, or else the one added last. */
  lemma CurrentExists(t: Table)
    requires TableOk(t)
    ensures Current(t).Null? <==> t.jobs == []
    ensures t.current > 0 ==> Current(t).Job_? && Current(t).j.id == t.current
    ensures t.current == 0 && t.jobs != [] ==> Current(t).j in t.jobs && forall k :: 0 <= k < |t.jobs| ==> t.jobs[k].id <= Current(t).j.id
  {
  }

  /** After reaping no job is left that is done and reported, and no other job is gone. */
  lemma {:induction false} ReapRemoves(t: Table, i: nat)
    requires TableOk(t) && i <= |t.jobs| && forall k :: 0 <= k < i ==> t.jobs[k].state != DONE || !t.jobs[k].notified
    ensures forall k :: 0 <= k < |ReapFrom(t, i).jobs| ==>
                          ReapFrom(t, i).jobs[k].state != DONE || !ReapFrom(t, i).jobs[k].notified
    ensures forall k :: 0 <= k < |t.jobs| && (t.jobs[k].state != DONE || !t.jobs[k].notified) ==>
                          t.jobs[k] in ReapFrom(t, i).jobs
    decreases |t.jobs| - i
  {
    hide TableOk, Remove;
    if i < |t.jobs| {
      if Reapable(t.jobs[i]) {
        var id := t.jobs[i].id;
        RemoveKeeps(t, id);
        UniqueIndex(t, i);
        var r := Remove(t, id);
        RemoveAt(t, i);
        ReapRemoves(r, i);
        forall k | 0 <= k < |t.jobs| && (t.jobs[k].state != DONE || !t.jobs[k].notified)
          ensures t.jobs[k] in ReapFrom(t, i).jobs
        {
          assert t.jobs[k] == r.jobs[if k < i then k else k - 1];
        }
      } else {
        ReapRemoves(t, i + 1);
      }
    }
  }

  lemma RemoveAt(t: Table, i: nat)
    requires TableOk(t) && i < |t.jobs|
    ensures var r := Remove(t, t.jobs[i].id);
            && |r.jobs| == |t.jobs| - 1
            && (forall k :: 0 <= k < i ==> r.jobs[k] == t.jobs[k])
            && (forall k :: i < k < |t.jobs| ==> r.jobs[k - 1] == t.jobs[k])
  {
    hide TableOk, IndexOf;
    UniqueIndex(t, i);
    var r := Remove(t, t.jobs[i].id);
    assert r.jobs == t.jobs[..i] + t.jobs[i + 1..];
  }

  lemma UniqueIndex(t: Table, i: nat)
    requires TableOk(t) && i < |t.jobs|
    ensures IndexOf(t.jobs, t.jobs[i].id) == i
  {
    var k := IndexOf(t.jobs, t.jobs[i].id);
    assert k <= i;
  }

  /**
   An event is taken to be of the member it is of exactly if no job earlier in the table has a member with that process
   number, and no earlier member of the same job; whether those have ended plays no part.
   */
  lemma {:induction false} ReachesExactlyIf(jobs: seq<Job>, i: nat, p: nat, pid: int)
    requires i < |jobs| && p < |jobs[i].pids| && jobs[i].pids[p] == pid
    ensures OwnerOf(jobs, pid) == i && HasPid(jobs[i], pid) == p
            <==> (forall k :: 0 <= k < i ==> pid !in jobs[k].pids) && pid !in jobs[i].pids[..p]
    decreases |jobs|
  {
    var h := HasPid(jobs[0], pid);
    assert h < |jobs[0].pids| <==> pid in jobs[0].pids;
    if i > 0 {
      assert forall k :: 0 <= k < |jobs[1..]| ==> jobs[1..][k] == jobs[k + 1];
      ReachesExactlyIf(jobs[1..], i - 1, p, pid);
      assert (forall k :: 0 <= k < i ==> pid !in jobs[k].pids)
             <==> pid !in jobs[0].pids && forall k :: 0 <= k < i - 1 ==> pid !in jobs[1..][k].pids by {
        if pid !in jobs[0].pids && forall k :: 0 <= k < i - 1 ==> pid !in jobs[1..][k].pids {
          forall k | 0 <= k < i ensures pid !in jobs[k].pids {
            if k > 0 { assert jobs[k] == jobs[1..][k - 1]; }
          }
        }
      }
    } else {
      PidFirst(jobs[0].pids, p, pid);
    }
  }

  lemma PidFirst(pids: seq<int>, p: nat, pid: int)
    requires p < |pids| && pids[p] == pid
    ensures PidIndex(pids, pid) == p <==> pid !in pids[..p]
  {
    var h := PidIndex(pids, pid);
    if h < p { assert pids[..p][h] == pid; }
  }

  // ---- waiting in the foreground ----

  function Heard(j: Job, pid: int, e: Event): (r: Job)
    requires WfJob(j)
    ensures WfJob(r) && r.id == j.id && r.pids == j.pids
  {
    var p := HasPid(j, pid);
    if p < |j.pids| then OnEvent(j, p, e, true) else j
  }

  function HeardAll(j: Job, rs: seq<(int, Event)>): (r: Job)
    requires WfJob(j)
    ensures WfJob(r) && r.id == j.id && r.pids == j.pids
    decreases |rs|
  {
    if rs == [] then j else HeardAll(Heard(j, rs[0].0, rs[0].1), rs[1..])
  }

  lemma {:induction false} HeardSnoc(j: Job, rs: seq<(int, Event)>, r: (int, Event))
    requires WfJob(j)
    ensures HeardAll(j, rs + [r]) == Heard(HeardAll(j, rs), r.0, r.1)
    decreases |rs|
  {
    hide Heard;
    if rs == [] {
      assert (rs + [r])[1..] == [];
    } else {
      assert (rs + [r])[1..] == rs[1..] + [r];
      HeardSnoc(Heard(j, rs[0].0, rs[0].1), rs[1..], r);
    }
  }

  /** One of the reports says that a member was stopped. */
  predicate StopHeard(j: Job, rs: seq<(int, Event)>) {
    exists i :: 0 <= i < |rs| && rs[i].0 in j.pids && rs[i].1.Stopped?
  }

  /** Member `p` had ended before, or one of the reports says so. */
  predicate EndHeard(j: Job, rs: seq<(int, Event)>, p: nat)
    requires WfJob(j) && p < |j.pids|
  {
    j.done[p] || exists i :: 0 <= i < |rs| && PidIndex(j.pids, rs[i].0) == p && Ends(rs[i].1)
  }

  /** What ends the wait: a stop of a member, or the end of the last member that had not ended. */
  predicate WaitOver(j: Job, rs: seq<(int, Event)>)
    requires WfJob(j)
  {
    StopHeard(j, rs) || forall p :: 0 <= p < |j.pids| ==> EndHeard(j, rs, p)
  }

  /** As long as nothing has ended the wait the job runs and its record says who has ended. */
  ghost predicate Waiting(j: Job, rs: seq<(int, Event)>, now: Job)
    requires WfJob(j)
  {
    && WfJob(now) && now.pids == j.pids && now.state == RUNNING
    && forall p :: 0 <= p < |j.pids| ==> (now.done[p] <==> EndHeard(j, rs, p))
  }

  /** What hearing one event makes of a job that runs and has not ended. */
  lemma HeardOnce(j: Job, r: (int, Event))
    requires WfJob(j) && j.state == RUNNING && !AllDone(j.done)
    ensures var p, next := PidIndex(j.pids, r.0), Heard(j, r.0, r.1);
            && WfJob(next) && next.pids == j.pids
            && next.done == (if p < |j.pids| && Ends(r.1) then j.done[p := true] else j.done)
            && (if p < |j.pids| && r.1.Stopped? then next.state == STOPPED && next.status == 128 + r.1.sig
                else if AllDone(next.done) then next.state == DONE && next.status == next.statuses[|j.pids| - 1]
                else next.state == RUNNING)
  {
  }

  lemma WaitStep(j: Job, rs: seq<(int, Event)>, now: Job, r: (int, Event))
    requires WfJob(j) && Waiting(j, rs, now) && !WaitOver(j, rs)
    ensures var next := Heard(now, r.0, r.1);
            if WaitOver(j, rs + [r]) then
              if r.0 in j.pids && r.1.Stopped? then next.state == STOPPED && next.status == 128 + r.1.sig
              else next.state == DONE && next.status == next.statuses[|j.pids| - 1]
            else Waiting(j, rs + [r], next)
  {
    var next, more := Heard(now, r.0, r.1), rs + [r];
    assert !AllDone(now.done);
    HeardOnce(now, r);
    StopsOn(j, rs, r);
    assert r.0 in j.pids <==> PidIndex(j.pids, r.0) < |j.pids|;
    hide StopHeard, EndHeard, Heard, PidIndex;
    forall q | 0 <= q < |j.pids| ensures next.done[q] <==> EndHeard(j, more, q) { EndsOn(j, rs, r, q); }
    assert AllDone(next.done) <==> forall q :: 0 <= q < |j.pids| ==> EndHeard(j, more, q);
  }

  lemma WaitStarts(j: Job)
    requires JobOk(j) && j.state == RUNNING
    ensures Waiting(j, [], j) && !WaitOver(j, [])
  {
    assert !AllDone(j.done);
    var p :| 0 <= p < |j.done| && !j.done[p];
    assert !EndHeard(j, [], p);
  }

  /**
   `n` is the number of reports up to the first one that ends the wait, or all of them if none does; a stop leaves the
   job stopped with the status of its signal, the last end leaves it done with the status of its last member.
   */
  ghost predicate FirstOver(j: Job, rs: seq<(int, Event)>, n: nat, now: Job)
    requires WfJob(j)
  {
    && n <= |rs| && WfJob(now) && now.pids == j.pids
    && (forall u :: 0 <= u < n ==> !WaitOver(j, rs[..u]))
    && (WaitOver(j, rs[..n]) || n == |rs|)
    && (WaitOver(j, rs[..n]) ==>
          && n > 0
          && if rs[n - 1].0 in j.pids && rs[n - 1].1.Stopped? then now.state == STOPPED && now.status == 128 + rs[n - 1].1.sig
             else now.state == DONE && now.status == now.statuses[|j.pids| - 1])
  }

  /** The job runs as long as nothing ends the wait, and no longer. */
  lemma {:induction false} WaitEnds(j: Job, rs: seq<(int, Event)>, n: nat)
    requires JobOk(j) && j.state == RUNNING && n <= |rs|
    requires forall u :: 0 <= u < n ==> HeardAll(j, rs[..u]).state == RUNNING
    ensures var now := HeardAll(j, rs[..n]);
            && (if WaitOver(j, rs[..n]) then now.state != RUNNING else Waiting(j, rs[..n], now))
            && (WaitOver(j, rs[..n]) || n == |rs| ==> FirstOver(j, rs, n, now))
            && forall u :: 0 <= u < n ==> !WaitOver(j, rs[..u])
    decreases n
  {
    hide WaitOver, Waiting, Heard;
    if n == 0 {
      WaitStarts(j);
      assert rs[..0] == [];
    } else {
      WaitEnds(j, rs, n - 1);
      assert rs[..n] == rs[..n - 1] + [rs[n - 1]];
      HeardSnoc(j, rs[..n - 1], rs[n - 1]);
      WaitStep(j, rs[..n - 1], HeardAll(j, rs[..n - 1]), rs[n - 1]);
    }
  }

  lemma WaitTold(j: Job, rs: seq<(int, Event)>, n: nat)
    requires WfJob(j) && n <= |rs| && forall u :: 0 <= u < n ==> HeardAll(j, rs[..u]).state == RUNNING
    requires HeardAll(j, rs[..n]).state != RUNNING || n == |rs|
    ensures j.state != RUNNING ==> n == 0
    ensures JobOk(j) && j.state == RUNNING ==> FirstOver(j, rs, n, HeardAll(j, rs[..n]))
  {
    hide WaitOver, FirstOver, Heard;
    if n > 0 { assert rs[..0] == [] && HeardAll(j, rs[..0]) == j; }
    if JobOk(j) && j.state == RUNNING {
      WaitEnds(j, rs, n);
      if !WaitOver(j, rs[..n]) { StillRuns(j, rs[..n]); }
    }
  }

  lemma StillRuns(j: Job, rs: seq<(int, Event)>)
    requires WfJob(j) && Waiting(j, rs, HeardAll(j, rs))
    ensures HeardAll(j, rs).state == RUNNING
  {
  }

  lemma StopsOn(j: Job, rs: seq<(int, Event)>, r: (int, Event))
    ensures StopHeard(j, rs + [r]) <==> StopHeard(j, rs) || (r.0 in j.pids && r.1.Stopped?)
  {
    var more := rs + [r];
    assert more[|rs|] == r && forall i :: 0 <= i < |rs| ==> more[i] == rs[i];
  }

  lemma EndsOn(j: Job, rs: seq<(int, Event)>, r: (int, Event), p: nat)
    requires WfJob(j) && p < |j.pids|
    ensures EndHeard(j, rs + [r], p) <==> EndHeard(j, rs, p) || (PidIndex(j.pids, r.0) == p && Ends(r.1))
  {
    var more := rs + [r];
    assert more[|rs|] == r && forall i :: 0 <= i < |rs| ==> more[i] == rs[i];
  }

  // ---- the table updated in place ----

  class JobTable {
    const jobs: array<Job>
    var count: nat
    var nextId: nat
    var current: nat
    var previous: nat

    ghost predicate Valid()
      reads this, jobs
    {
      jobs.Length == TABLE_MAX && count <= TABLE_MAX && TableOk(T())
    }

    ghost function T(): Table
      requires count <= jobs.Length
      reads this, jobs
    {
      Table(jobs[..count], nextId, current, previous)
    }

    constructor ()
      ensures Valid() && T() == EmptyTable() && fresh(jobs)
    {
      jobs := new Job[TABLE_MAX](_ => Job(0, [], [], [], RUNNING, 0, false));
      count, nextId, current, previous := 0, 1, 0, 0;
    }

    /** job_add; 0 stands for the refusal of a full table. */
    method AddJob(pids: seq<int>) returns (id: nat)
      requires Valid() && pids != []
      modifies this, jobs
      ensures Valid() && T() == Add(old(T()), pids) && id == (if old(count) < 64 then old(nextId) else 0)
    {
      hide TableOk, NewJob;
      assert nextId > 0 by { IdsPositive(T()); }
      AddKeeps(T(), pids);
      if count >= TABLE_MAX { return 0; }
      id := nextId;
      nextId := nextId + 1;
      jobs[count] := NewJob(id, pids);
      count := count + 1;
      previous := current;
      current := id;
      assert jobs[..count] == old(jobs[..count]) + [NewJob(id, pids)];
    }

    method Find(id: nat) returns (i: nat)
      requires Valid()
      ensures i == IndexOf(jobs[..count], id)
    {
      hide TableOk;
      i := 0;
      while i < count && jobs[i].id != id
        invariant i <= count && IndexOf(jobs[..count], id) == i + IndexOf(jobs[i..count], id)
      {
        assert jobs[i..count][1..] == jobs[i + 1..count];
        i := i + 1;
      }
      assert i < count ==> jobs[i..count][0] == jobs[i];
    }

    method RemoveJob(id: nat)
      requires Valid()
      modifies this, jobs
      ensures Valid() && T() == Remove(old(T()), id)
    {
      hide TableOk, IndexOf;
      RemoveKeeps(T(), id);
      var i := Find(id);
      if i == count { return; }
      assert jobs[..count][..i] == jobs[..i] && jobs[..count][i + 1..] == jobs[i + 1..count];
      if current == id {
        current := previous;
        previous := 0;
      } else if previous == id {
        previous := 0;
      }
      ShiftDown(i);
      count := count - 1;
    }

    /** Move the jobs behind index `i` down by one. */
    method ShiftDown(i: nat)
      requires i < count <= jobs.Length
      modifies jobs
      ensures jobs[..count - 1] == old(jobs[..i]) + old(jobs[i + 1..count])
    {
      var k := i;
      while k + 1 < count
        invariant i <= k < count
        invariant jobs[..k] == old(jobs[..i]) + old(jobs[i + 1..k + 1])
        invariant jobs[k + 1..count] == old(jobs[k + 1..count])
      {
        assert jobs[k + 1] == jobs[k + 1..count][0] == old(jobs[k + 1]);
        jobs[k] := jobs[k + 1];
        k := k + 1;
        assert jobs[..k] == jobs[..k - 1] + [old(jobs[k])];
        assert old(jobs[i + 1..k + 1]) == old(jobs[i + 1..k]) + [old(jobs[k])];
      }
    }

    method ReapDone()
      requires Valid()
      modifies this, jobs
      ensures Valid() && T() == ReapFrom(old(T()), 0)
    {
      hide TableOk, Remove, Reapable;
      var i := 0;
      while i < count
        invariant Valid() && ReapFrom(T(), i) == ReapFrom(old(T()), 0)
        decreases count - i
      {
        assert jobs[..count][i] == jobs[i];
        if jobs[i].state == DONE && jobs[i].notified {
          assert Reapable(jobs[i]) by { Reaps(jobs[i]); }
          UniqueIndex(T(), i);
          RemoveAt(T(), i);
          RemoveJob(jobs[i].id);
        } else {
          Reaps(jobs[i]);
          i := i + 1;
        }
      }
    }

    /** One report of waitpid, as job_update takes it in. */
    method Update(pid: int, e: Event) returns (changed: bool)
      requires Valid()
      modifies jobs
      ensures Valid() && T() == Reported(old(T()), pid, e)
      ensures changed == (OwnerOf(old(jobs[..count]), pid) < count)
    {
      hide TableOk, OnEvent;
      PerformKeeps(T(), EventOp(pid, e));
      WfJobs(T());
      var i, p := 0, 0;
      while i < count
        invariant i <= count && OwnerOf(jobs[..count], pid) == i + OwnerOf(jobs[i..count], pid)
      {
        assert jobs[i..count][1..] == jobs[i + 1..count] && jobs[i..count][0] == jobs[i];
        p := PidIndex(jobs[i].pids, pid);
        if p < |jobs[i].pids| { break; }
        i := i + 1;
      }
      if i == count { return false; }
      assert jobs[..count][i] == jobs[i];
      assert jobs[i..count][0] == jobs[i];
      ghost var s := jobs[..count];
      jobs[i] := OnEvent(jobs[i], p, e, false);
      assert jobs[..count] == s[i := OnEvent(s[i], p, e, false)];
      return true;
    }

    /**
     job_wait_fg: take in what waitpid reports of the job's process group until the job stops running or there is
     nothing left to wait for.
     */
    method WaitFg(id: nat, reports: seq<(int, Event)>) returns (status: int, used: nat)
      requires Valid()
      modifies jobs
      ensures Valid() && used <= |reports|
      ensures var i := IndexOf(old(jobs[..count]), id);
              if i == old(count) then status == 127 && T() == old(T())
              else
                var j := HeardAll(old(jobs[..count])[i], reports[..used]);
                && T() == old(T()).(jobs := old(jobs[..count])[i := j]) && status == j.status
                && (j.state != RUNNING || used == |reports|)
                && forall u :: 0 <= u < used ==> HeardAll(old(jobs[..count])[i], reports[..u]).state == RUNNING
      ensures var i := IndexOf(old(jobs[..count]), id);
              i < old(count) ==>
                var was, now := old(jobs[..count])[i], jobs[i];
                && (was.state != RUNNING ==> used == 0 && status == was.status)
                && (JobOk(was) && was.state == RUNNING ==> FirstOver(was, reports, used, now) && status == now.status)
    {
      hide TableOk, OnEvent;
      WfJobs(T());
      var i := Find(id);
      used := 0;
      if i == count { return 127, 0; }
      ghost var s, t := jobs[..count], T();
      var j := jobs[i];
      assert j == s[i];
      while j.state == RUNNING && used < |reports|
        invariant used <= |reports| && jobs[..count] == s && WfJob(j) && j.id == s[i].id && j == HeardAll(s[i], reports[..used])
        invariant forall u :: 0 <= u < used ==> HeardAll(s[i], reports[..u]).state == RUNNING
      {
        HeardSnoc(s[i], reports[..used], reports[used]);
        assert reports[..used + 1] == reports[..used] + [reports[used]];
        var p := PidIndex(j.pids, reports[used].0);
        if p < |j.pids| { j := OnEvent(j, p, reports[used].1, true); }
        used := used + 1;
      }
      ReplaceKeeps(t, i, j);
      jobs[i] := j;
      assert jobs[..count] == s[i := j];
      status := j.status;
      WaitTold(s[i], reports, used);
    }

    method CurrentJob() returns (r: Found)
      requires Valid()
      ensures r == Current(T())
    {
      hide TableOk;
      if current > 0 {
        var i := Find(current);
        return if i < count then Job_(jobs[i]) else Null;
      }
      return if count > 0 then Job_(jobs[count - 1]) else Null;
    }
  }

  lemma IdsPositive(t: Table)
    requires TableOk(t)
    ensures t.nextId > 0
  {
  }

  lemma WfJobs(t: Table)
    requires TableOk(t)
    ensures forall i :: 0 <= i < |t.jobs| ==> WfJob(t.jobs[i])
  {
  }

  lemma Reaps(j: Job)
    ensures Reapable(j) <==> j.state == DONE && j.notified
  {
  }
}
