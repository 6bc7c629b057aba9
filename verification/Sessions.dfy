/**
 The session protocol (src/serve/serve.c, src/serve/child.c): the parent writes a length and a command to one pipe, the
 child runs it and answers with one byte on another. Both sides move in any order; reads and writes may be short; the
 parent may time out and the child may die at any moment. Commands leave both pipes alone.
 */
module Sessions {
  import opened Bytes

  type command = seq<byte>

  const MAX_CMD := 1024 * 1024

  /** `Sending` and `Waiting` are inside session_op_eval; a closed session is never used again. */
  datatype Parent = Idle | Sending(cmd: command, rest: seq<byte>) | Waiting(cmd: command) | Closed

  /** In `Head` and `Body` the child is in read_exact with what it has so far; `Idle` is Head([]). */
  datatype Child = Head(got: seq<byte>) | Body(need: nat, got: seq<byte>) | Running(cmd: command) | Reporting(status: int) | Dead

  datatype Ran = Ran(cmd: command, status: int)

  datatype Answer = Answer(cmd: command, code: nat)

  /** The two pipes, and what has happened so far: the commands run by the child and the answers given by evals. */
  datatype Session = Session(parent: Parent, child: Child, toChild: seq<byte>, control: seq<byte>,
                             ran: seq<Ran>, answers: seq<Answer>)

  datatype Event =
    | Begin(cmd: command)
    | Write(n: nat)
    | WriteFails
    | Poll
    | Timeout
    | Destroy
    | Read(n: nat)
    | Finish(status: int)
    | Report
    | Die

  function Wire(cmd: command): seq<byte> {
    Le32(|cmd|) + cmd
  }

  function Start(): Session {
    Session(Idle, Head([]), [], [], [], [])
  }

  /** What the child does with a complete header: too large a command ends it, an empty one is run at once. */
  function AfterHead(got: seq<byte>): Child
    requires |got| == 4
  {
    if U32(got) > MAX_CMD then Dead
    else if U32(got) == 0 then Running([])
    else Body(U32(got), [])
  }

  function ChildRead(s: Session, n: nat): Session
    requires n <= |s.toChild|
  {
    var took, left := s.toChild[..n], s.toChild[n..];
    match s.child
    case Head(got) =>
      if |got| + n > 4 then s
      else
        var all := got + took;
        s.(toChild := left, child := if |all| == 4 then AfterHead(all) else Head(all))
    case Body(need, got) =>
      if |got| + n > need then s
      else
        var all := got + took;
        s.(toChild := left, child := if |all| == need then Running(all) else Body(need, all))
    case _ => s
  }

  /** session_close: the pipes are closed and the child is killed and waited for. */
  function Shut(s: Session): Session {
    s.(parent := Closed, child := Dead)
  }

  /** An event that cannot happen in the given state changes nothing. */
  function Next(s: Session, e: Event): Session {
    match e
    case Begin(cmd) => if s.parent.Idle? then s.(parent := Sending(cmd, Wire(cmd))) else s
    case Write(n) =>
      if s.parent.Sending? && 0 < n <= |s.parent.rest| && s.child != Dead then
        var rest := s.parent.rest[n..];
        s.(toChild := s.toChild + s.parent.rest[..n],
        parent := if rest == [] then Waiting(s.parent.cmd) else Sending(s.parent.cmd, rest))
      else s
    case WriteFails => if s.parent.Sending? then Shut(s) else s
    case Poll =>
      if !s.parent.Waiting? then s
      else if s.control != [] then
        s.(parent := Idle, control := s.control[1..], answers := s.answers + [Answer(s.parent.cmd, s.control[0])])
      else if s.child == Dead then Shut(s)
      else s
    case Timeout => if s.parent.Waiting? then Shut(s) else s
    case Destroy => if s.parent.Idle? then Shut(s) else s
    case Read(n) => if 0 < n <= |s.toChild| then ChildRead(s, n) else s
    case Finish(status) =>
      if s.child.Running? then s.(child := Reporting(status), ran := s.ran + [Ran(s.child.cmd, status)]) else s
    case Report =>
      if s.child.Reporting? then s.(child := Head([]), control := s.control + [s.child.status % 0x100]) else s
    case Die => s.(child := Dead)
  }

  function Run(s: Session, es: seq<Event>): Session
    decreases |es|
  {
    if es == [] then s else Run(Next(s, es[0]), es[1..])
  }

  // ---- what holds in every interleaving ----

  /** The answers are the low bytes of the statuses of the commands run, one by one and in order. */
  predicate Answered(s: Session) {
    && |s.answers| <= |s.ran| <= |s.answers| + 1
    && forall i :: 0 <= i < |s.answers| ==> s.answers[i] == Answer(s.ran[i].cmd, s.ran[i].status % 0x100)
  }

  /** Between operations nothing is under way: both pipes are empty and the child, if it lives, waits for a header. */
  predicate Quiet(s: Session) {
    s.toChild == [] && s.control == [] && (s.child == Head([]) || s.child == Dead) && |s.ran| == |s.answers|
  }

  /** Bytes of the current command that the child has taken. */
  function Taken(c: Child): seq<byte>
    requires c.Head? || c.Body?
  {
    match c
    case Head(got) => got
    case Body(need, got) => Le32(need) + got
  }

  predicate Reading(c: Child) {
    (c.Head? && |c.got| < 4) || (c.Body? && 0 < c.need <= MAX_CMD && |c.got| < c.need)
  }

  /** The command whose answer is awaited is the one the child ran last. */
  predicate Last(s: Session, cmd: command) {
    |s.ran| == |s.answers| + 1 && s.ran[|s.ran| - 1].cmd == cmd
  }

  function Code(s: Session): nat
    requires s.ran != []
  {
    s.ran[|s.ran| - 1].status % 0x100
  }

  /** An exchange under way: `rest` is still to be written. */
  predicate Under(s: Session, cmd: command, rest: seq<byte>) {
    && |rest| <= |Wire(cmd)| && rest == Wire(cmd)[|Wire(cmd)| - |rest|..]
    && match s.child
       case Dead => s.control == [] || (rest == [] && Last(s, cmd) && s.control == [Code(s)] && s.toChild == [])
       case Running(c) => c == cmd && rest == [] && s.toChild == [] && s.control == [] && |s.ran| == |s.answers|
       case Reporting(st) =>
         rest == [] && s.toChild == [] && s.control == [] && Last(s, cmd) && st == s.ran[|s.ran| - 1].status
       case _ =>
         if Last(s, cmd) then
           rest == [] && s.child == Head([]) && s.toChild == [] && s.control == [Code(s)]
         else
           |s.ran| == |s.answers| && s.control == [] && Reading(s.child)
           && Taken(s.child) + s.toChild + rest == Wire(cmd)
  }

  predicate Inv(s: Session) {
    && Answered(s)
    && match s.parent
       case Idle => Quiet(s)
       case Sending(cmd, rest) => rest != [] && |cmd| < TWO32 && Under(s, cmd, rest)
       case Waiting(cmd) => |cmd| < TWO32 && Under(s, cmd, [])
       case Closed => s.child == Dead
  }

  /** A command whose length fits the header. */
  predicate Sendable(e: Event) {
    e.Begin? ==> |e.cmd| < TWO32
  }

  lemma HeadComplete(s: Session, cmd: command, rest: seq<byte>, got: seq<byte>)
    requires |got| == 4 && |cmd| < TWO32 && got + s.toChild + rest == Wire(cmd)
    requires s.control == [] && |s.ran| == |s.answers|
    requires |rest| <= |Wire(cmd)| && rest == Wire(cmd)[|Wire(cmd)| - |rest|..]
    ensures Under(s.(child := AfterHead(got)), cmd, rest)
  {
    hide Le32, U32;
    assert got + (s.toChild + rest) == got + s.toChild + rest;
    HeaderIs(got, s.toChild + rest, cmd);
    hide Wire;
    var t := s.(child := AfterHead(got));
    if |cmd| == 0 {
      assert s.toChild == [] && rest == [] && cmd == [];
    } else if |cmd| <= MAX_CMD {
      assert Taken(t.child) == got by { assert got + [] == got; }
    }
  }

  /** A complete header in front of the rest is that of the command. */
  lemma HeaderIs(head: seq<byte>, more: seq<byte>, cmd: command)
    requires |head| == 4 && head + more == Wire(cmd) && |cmd| < TWO32
    ensures U32(head) == |cmd| && head == Le32(|cmd|) && more == cmd && |Wire(cmd)| == 4 + |cmd|
  {
    hide Le32, U32;
    assert head == (head + more)[..4] && more == (head + more)[4..];
    Le32RoundTrip(|cmd|);
  }

  lemma BodyComplete(s: Session, cmd: command, rest: seq<byte>, got: seq<byte>)
    requires |cmd| < TWO32 && Le32(|got|) + got + s.toChild + rest == Wire(cmd) && |got| < TWO32
    ensures got == cmd && s.toChild == [] && rest == []
  {
    hide Le32, U32;
    var all := Le32(|got|) + got + s.toChild + rest;
    assert Le32(|got|) == all[..4] == Le32(|cmd|);
    Le32RoundTrip(|cmd|);
    Le32RoundTrip(|got|);
    assert all[4..] == got + s.toChild + rest == cmd;
  }

  lemma ReadKeeps(s: Session, n: nat, cmd: command, rest: seq<byte>)
    requires |cmd| < TWO32 && Under(s, cmd, rest) && !Last(s, cmd) && (s.child.Head? || s.child.Body?) && 0 < n <= |s.toChild|
    ensures Under(ChildRead(s, n), cmd, rest)
  {
    hide Le32, U32;
    if s.child.Head? { ReadHead(s, n, cmd, rest); } else { ReadBody(s, n, cmd, rest); }
  }

  lemma Moved(head: seq<byte>, took: seq<byte>, left: seq<byte>, rest: seq<byte>, all: seq<byte>)
    requires all == took + left
    ensures (head + took) + left + rest == head + all + rest
  {
  }

  lemma ReadHead(s: Session, n: nat, cmd: command, rest: seq<byte>)
    requires |cmd| < TWO32 && Under(s, cmd, rest) && !Last(s, cmd) && s.child.Head? && 0 < n <= |s.toChild|
    ensures Under(ChildRead(s, n), cmd, rest)
  {
    hide Le32, U32, Wire, AfterHead;
    var took, left, got := s.toChild[..n], s.toChild[n..], s.child.got;
    assert took + left == s.toChild;
    if |got| + n <= 4 {
      Moved(got, took, left, rest, s.toChild);
      if |got + took| == 4 { HeadComplete(s.(toChild := left), cmd, rest, got + took); }
    }
  }

  lemma ReadBody(s: Session, n: nat, cmd: command, rest: seq<byte>)
    requires |cmd| < TWO32 && Under(s, cmd, rest) && !Last(s, cmd) && s.child.Body? && 0 < n <= |s.toChild|
    ensures Under(ChildRead(s, n), cmd, rest)
  {
    hide Le32, U32, Wire;
    var took, left, need, got := s.toChild[..n], s.toChild[n..], s.child.need, s.child.got;
    assert took + left == s.toChild;
    if |got| + n <= need {
      Moved(Le32(need) + got, took, left, rest, s.toChild);
      assert Le32(need) + (got + took) == (Le32(need) + got) + took;
      if |got + took| == need { BodyComplete(s.(toChild := left), cmd, rest, got + took); }
    }
  }

  lemma WriteKeeps(s: Session, n: nat, cmd: command, rest: seq<byte>)
    requires |cmd| < TWO32 && Under(s, cmd, rest) && 0 < n <= |rest| && s.child != Dead
    ensures Under(s.(toChild := s.toChild + rest[..n]), cmd, rest[n..])
  {
    if !Last(s, cmd) && (s.child.Head? || s.child.Body?) {
      assert Taken(s.child) + (s.toChild + rest[..n]) + rest[n..] == Taken(s.child) + s.toChild + rest;
    }
  }

  lemma NextKeeps(s: Session, e: Event)
    requires Inv(s) && Sendable(e)
    ensures Inv(Next(s, e))
  {
    hide Wire, AfterHead, Le32, U32;
    match e {
      case Begin(cmd) =>
        if s.parent.Idle? { WireStarts(s, cmd); }
      case Write(n) => WriteNext(s, n);
      case Read(n) => ReadNext(s, n);
      case _ => OtherNext(s, e);
    }
  }

  lemma WriteNext(s: Session, n: nat)
    requires Inv(s)
    ensures Inv(Next(s, Write(n)))
  {
    hide Wire, Under, Le32, U32;
    if s.parent.Sending? && 0 < n <= |s.parent.rest| && s.child != Dead {
      WriteKeeps(s, n, s.parent.cmd, s.parent.rest);
      SameUnder(s.(toChild := s.toChild + s.parent.rest[..n]), Next(s, Write(n)));
    }
  }

  /** The parent's own state plays no part in what is under way. */
  lemma SameUnder(s: Session, t: Session)
    requires t == s.(parent := t.parent)
    ensures forall cmd, rest :: Under(s, cmd, rest) ==> Under(t, cmd, rest)
  {
    hide Wire, Le32, U32;
  }

  lemma ReadNext(s: Session, n: nat)
    requires Inv(s)
    ensures Inv(Next(s, Read(n)))
  {
    hide Wire, Le32, U32, AfterHead;
    if 0 < n <= |s.toChild| && (s.child.Head? || s.child.Body?) {
      ReadCounts(s, n);
      match s.parent
      case Sending(cmd, rest) => ReadKeeps(s, n, cmd, rest);
      case Waiting(cmd) => ReadKeeps(s, n, cmd, []);
      case _ =>
    }
  }

  lemma OtherNext(s: Session, e: Event)
    requires Inv(s) && !e.Begin? && !e.Write? && !e.Read?
    ensures Inv(Next(s, e))
  {
    hide Wire, Le32, U32;
  }

  lemma ReadCounts(s: Session, n: nat)
    requires n <= |s.toChild|
    ensures var t := ChildRead(s, n);
            t.parent == s.parent && t.ran == s.ran && t.answers == s.answers && t.control == s.control
  {
  }

  lemma WireStarts(s: Session, cmd: command)
    requires Quiet(s) && |cmd| < TWO32
    ensures Wire(cmd) != [] && Under(s, cmd, Wire(cmd))
  {
    assert Wire(cmd)[0..] == Wire(cmd);
    assert [] + [] + Wire(cmd) == Wire(cmd);
  }

  /**
   Every interleaving of parent, child, timeouts and death keeps the protocol: an answer is the low byte of the status
   of the very command that was sent, and a session that is still open between operations is quiet.
   */
  lemma {:induction false} ProtocolSafe(s: Session, es: seq<Event>)
    requires Inv(s) && forall i :: 0 <= i < |es| ==> Sendable(es[i])
    ensures var t := Run(s, es); Inv(t) && Answered(t) && (t.parent.Idle? ==> Quiet(t))
    decreases |es|
  {
    hide Next, Answered, Quiet;
    if es != [] {
      NextKeeps(s, es[0]);
      ProtocolSafe(Next(s, es[0]), es[1..]);
    } else {
      IdleQuiet(s);
    }
  }

  lemma IdleQuiet(s: Session)
    requires Inv(s)
    ensures Answered(s) && (s.parent.Idle? ==> Quiet(s))
  {
  }

  lemma StartOk()
    ensures Inv(Start())
  {
  }

  /** An exchange that fails closes the session: the parent is idle again only with one more answer. */
  lemma IdleMeansAnswered(s: Session, e: Event)
    requires Inv(s) && !s.parent.Idle? && Next(s, e).parent.Idle?
    ensures s.parent.Waiting? && |Next(s, e).answers| == |s.answers| + 1
    ensures var a := Next(s, e).answers[|s.answers|]; a.cmd == s.parent.cmd && Last(s, a.cmd) && a.code == Code(s)
  {
  }

  /** A closed session stays closed. */
  lemma {:induction false} ClosedStays(s: Session, es: seq<Event>)
    requires s.parent.Closed?
    ensures Run(s, es).parent.Closed? && Run(s, es).answers == s.answers
    decreases |es|
  {
    if es != [] { ClosedStays(Next(s, es[0]), es[1..]); }
  }

  // ---- progress ----

  /** Neither side fails, nor gives up, and commands are of a size the child accepts. */
  predicate Good(e: Event) {
    !e.Die? && !e.Timeout? && !e.WriteFails? && !e.Destroy? && (e.Begin? ==> |e.cmd| <= 0x10_0000)
  }

  predicate Busy(s: Session) {
    s.parent.Sending? || s.parent.Waiting?
  }

  predicate Healthy(s: Session) {
    Inv(s) && s.child != Dead && !s.parent.Closed? && (Busy(s) ==> |s.parent.cmd| <= 0x10_0000)
  }

  /** How far the child is from its answer, besides what it has to read. */
  function Stage(s: Session): nat {
    if s.control != [] then 1 else if s.child.Reporting? then 2 else if s.child.Running? then 3 else 4
  }

  /** Bytes to be written count twice, as they are then to be read. */
  function Work(s: Session): nat {
    match s.parent
    case Sending(_, rest) => 2 * |rest| + |s.toChild| + Stage(s)
    case Waiting(_) => |s.toChild| + Stage(s)
    case _ => 0
  }

  /** A header that is complete is that of the command, which is not too large. */
  lemma ReadLives(s: Session, n: nat, cmd: command, rest: seq<byte>)
    requires Under(s, cmd, rest) && !Last(s, cmd) && (s.child.Head? || s.child.Body?) && 0 < n <= |s.toChild| && |cmd| <= MAX_CMD
    ensures var t := ChildRead(s, n); t.child != Dead && (t == s || |t.toChild| == |s.toChild| - n)
  {
    hide Le32, U32, Wire;
    if s.child.Head? && |s.child.got| + n == 4 {
      var took := s.toChild[..n];
      assert took + s.toChild[n..] == s.toChild;
      Moved(s.child.got, took, s.toChild[n..], rest, s.toChild);
      HeaderIs(s.child.got + took, s.toChild[n..] + rest, cmd);
    }
  }

  /** The state after an event is the state before, or nearer to the answer, or answered. */
  predicate Works(s: Session, t: Session) {
    Busy(s) && t != s ==>
      if Busy(t) then Work(t) < Work(s) && t.parent.cmd == s.parent.cmd && t.answers == s.answers
      else t.parent.Idle? && |t.answers| == |s.answers| + 1 && t.answers[|s.answers|].cmd == s.parent.cmd
  }

  /** An event either changes nothing, or brings the exchange nearer to its answer, or is its answer. */
  lemma StepWorks(s: Session, e: Event)
    requires Healthy(s) && Good(e)
    ensures Healthy(Next(s, e)) && Works(s, Next(s, e))
  {
    NextKeeps(s, e);
    hide Inv, Under, Wire, Work, AfterHead, Le32, U32, ChildRead;
    match e {
      case Read(n) => ReadWorks(s, n);
      case Write(n) => WriteWorks(s, n);
      case Begin(_) =>
      case _ => OtherWorks(s, e);
    }
  }

  lemma WriteWorks(s: Session, n: nat)
    requires Busy(s) || s.parent.Idle?
    ensures Works(s, Next(s, Write(n)))
  {
    hide Wire;
    if s.parent.Sending? && 0 < n <= |s.parent.rest| && s.child != Dead {
      var t := Next(s, Write(n));
      assert |s.parent.rest[n..]| == |s.parent.rest| - n && |t.toChild| == |s.toChild| + n;
      assert Stage(t) == Stage(s);
    }
  }

  lemma OtherWorks(s: Session, e: Event)
    requires Healthy(s) && Good(e) && !e.Begin? && !e.Write? && !e.Read?
    ensures var t := Next(s, e); t.child != Dead && !t.parent.Closed? && Works(s, t)
    ensures var t := Next(s, e); Busy(t) ==> Busy(s) && t.parent == s.parent
  {
    hide Wire, Le32, U32, Answered;
  }

  lemma ReadWorks(s: Session, n: nat)
    requires Healthy(s)
    ensures var t := Next(s, Read(n)); t.child != Dead && t.parent == s.parent && Works(s, t)
  {
    hide Wire, AfterHead, Le32, U32, Answered;
    if 0 < n <= |s.toChild| && (s.child.Head? || s.child.Body?) {
      ReadCounts(s, n);
      match s.parent {
        case Sending(cmd, rest) => ReadLives(s, n, cmd, rest);
        case Waiting(cmd) => ReadLives(s, n, cmd, []);
        case _ =>
      }
    }
  }

  /** While an exchange is under way some event is possible; `status` is what the command will end with. */
  function Possible(s: Session, status: int): Event {
    if s.parent.Sending? then Write(|s.parent.rest|)
    else if s.control != [] then Poll
    else if s.child.Running? then Finish(status)
    else if s.child.Reporting? then Report
    else Read(1)
  }

  /** A child that is still reading has not been given the whole command. */
  lemma Incomplete(c: Child, cmd: command)
    requires (c.Head? || c.Body?) && Reading(c) && |cmd| <= MAX_CMD
    ensures Taken(c) != Wire(cmd)
  {
    hide Le32, U32;
    if c.Body? && Taken(c) == Wire(cmd) {
      assert Le32(c.need) == Taken(c)[..4] == Le32(|cmd|);
      Le32RoundTrip(c.need);
      Le32RoundTrip(|cmd|);
    }
  }

  lemma PossibleChanges(s: Session, status: int)
    requires Healthy(s) && Busy(s)
    ensures Good(Possible(s, status)) && Next(s, Possible(s, status)) != s
  {
    hide Le32, U32;
    if s.parent.Waiting? && s.control == [] && (s.child.Head? || s.child.Body?) {
      assert Taken(s.child) + s.toChild + [] == Taken(s.child) + s.toChild;
      if s.toChild == [] { Incomplete(s.child, s.parent.cmd); }
    }
  }

  /** Every exchange under way can be brought to its answer. */
  lemma {:induction false} CanAnswer(s: Session, status: int) returns (es: seq<Event>)
    requires Healthy(s) && Busy(s)
    ensures (forall i :: 0 <= i < |es| ==> Good(es[i])) && |es| <= Work(s)
    ensures var t := Run(s, es);
            Healthy(t) && t.parent.Idle? && |t.answers| == |s.answers| + 1 && t.answers[|s.answers|].cmd == s.parent.cmd
    decreases Work(s)
  {
    hide Next, Healthy, Busy, Work, Possible, Good;
    PossibleChanges(s, status);
    var e := Possible(s, status);
    StepWorks(s, e);
    var t := Next(s, e);
    if Busy(t) {
      var more := CanAnswer(t, status);
      es := [e] + more;
      assert es[1..] == more;
    } else {
      es := [e];
      assert es[1..] == [];
      WorkLeft(s);
      assert Run(t, []) == t;
    }
    assert Run(s, es) == Run(t, es[1..]);
  }

  lemma WorkLeft(s: Session)
    requires Busy(s)
    ensures Work(s) > 0
  {
  }

  /**
   As long as neither side fails or gives up, whatever the order and the sizes of reads and writes, the session stays
   healthy, and an exchange that is under way can still be brought to an answer to its command.
   */
  lemma {:induction false} AlwaysAnswerable(s: Session, es: seq<Event>, status: int) returns (more: seq<Event>)
    requires Healthy(s) && forall i :: 0 <= i < |es| ==> Good(es[i])
    ensures var t := Run(s, es);
            && Healthy(t) && (forall i :: 0 <= i < |more| ==> Good(more[i])) && |more| <= Work(t)
            && Run(t, more).parent.Idle?
            && (Busy(t) ==> var u := Run(t, more);
                            |u.answers| == |t.answers| + 1 && u.answers[|t.answers|].cmd == t.parent.cmd)
    decreases |es|
  {
    hide Next, Work, Good, Inv;
    if es != [] {
      StepWorks(s, es[0]);
      more := AlwaysAnswerable(Next(s, es[0]), es[1..], status);
    } else if Busy(s) {
      more := CanAnswer(s, status);
    } else {
      more := [];
      assert Run(s, []) == s;
    }
  }

  /** The child has run, runs and reads no command of more than 2^20 bytes. */
  predicate Bounded(s: Session) {
    && (forall i :: 0 <= i < |s.ran| ==> |s.ran[i].cmd| <= 0x10_0000)
    && (s.child.Running? ==> |s.child.cmd| <= 0x10_0000)
    && (s.child.Body? ==> s.child.need <= 0x10_0000)
  }

  lemma NextBounded(s: Session, e: Event)
    requires Bounded(s)
    ensures Bounded(Next(s, e))
  {
    hide Le32, U32;
  }

  /** Whatever arrives in the pipe and in which pieces, a longer command is never run. */
  lemma {:induction false} LongNeverRuns(s: Session, es: seq<Event>)
    requires Bounded(s)
    ensures Bounded(Run(s, es))
    ensures Bounded(Start())
    decreases |es|
  {
    hide Next;
    if es != [] {
      NextBounded(s, es[0]);
      LongNeverRuns(Next(s, es[0]), es[1..]);
    }
  }
}
