/** The parent's table of sessions (src/serve/serve.c): a fixed array of slots, and ids that are never used twice. */
module SessionTable {
  import opened Sessions

  const MAX_SESSIONS := 16

  /** A slot is inactive or holds a session and its id. */
  datatype Slot = Free | Active(id: nat, s: Session)

  predicate SlotsOk(slots: seq<Slot>, nextId: nat) {
    && nextId > 0
    && (forall i :: 0 <= i < |slots| && slots[i].Active? ==> 0 < slots[i].id < nextId && Inv(slots[i].s) && !slots[i].s.parent.Closed?)
    && (forall i, j :: 0 <= i < j < |slots| && slots[i].Active? && slots[j].Active? ==> slots[i].id != slots[j].id)
  }

  /** Between operations every active session is idle, and so quiet. */
  predicate Resting(slots: seq<Slot>) {
    forall i :: 0 <= i < |slots| && slots[i].Active? ==> slots[i].s.parent.Idle?
  }

  function FindSlot(slots: seq<Slot>, id: nat): (i: nat)
    ensures i <= |slots| && (i < |slots| ==> slots[i].Active? && slots[i].id == id)
    ensures forall j :: 0 <= j < i ==> !(slots[j].Active? && slots[j].id == id)
  {
    if slots == [] || (slots[0].Active? && slots[0].id == id) then 0 else 1 + FindSlot(slots[1..], id)
  }

  function FreeSlot(slots: seq<Slot>): (i: nat)
    ensures i <= |slots| && (i < |slots| ==> slots[i].Free?)
    ensures forall j :: 0 <= j < i ==> slots[j].Active?
  {
    if slots == [] || slots[0].Free? then 0 else 1 + FreeSlot(slots[1..])
  }

  /** A closed session gives its slot back. */
  function Kept(id: nat, s: Session): Slot {
    if s.parent.Closed? then Free else Active(id, s)
  }

  lemma KeptOk(slots: seq<Slot>, nextId: nat, i: nat, s: Session)
    requires SlotsOk(slots, nextId) && i < |slots| && slots[i].Active? && Inv(s)
    ensures SlotsOk(slots[i := Kept(slots[i].id, s)], nextId)
    ensures Resting(slots) && (s.parent.Idle? || s.parent.Closed?) ==> Resting(slots[i := Kept(slots[i].id, s)])
  {
    hide Inv;
  }

  lemma CreatedOk(slots: seq<Slot>, nextId: nat, i: nat)
    requires SlotsOk(slots, nextId) && i < |slots| && slots[i].Free?
    ensures SlotsOk(slots[i := Active(nextId, Start())], nextId + 1)
    ensures Resting(slots) ==> Resting(slots[i := Active(nextId, Start())])
  {
    StartOk();
    hide Inv;
  }

  /** The outcome of an eval: an error, or the exit status reported by the child. */
  datatype Outcome = NotFound | Failed | Exited(code: nat)

  class Server {
    const slots: array<Slot>
    var nextId: nat

    ghost predicate Valid()
      reads this, slots
    {
      slots.Length == MAX_SESSIONS && SlotsOk(slots[..], nextId) && Resting(slots[..])
    }

    constructor ()
      ensures Valid() && nextId == 1 && fresh(slots) && slots[..] == seq(MAX_SESSIONS, i => Free)
    {
      slots := new Slot[MAX_SESSIONS](_ => Free);
      nextId := 1;
    }

    method FindSession(id: nat) returns (i: nat)
      requires Valid()
      ensures i == FindSlot(slots[..], id)
    {
      i := 0;
      while i < slots.Length && !(slots[i].Active? && slots[i].id == id)
        invariant i <= slots.Length && FindSlot(slots[..], id) == i + FindSlot(slots[i..], id)
      {
        assert slots[i..][1..] == slots[i + 1..];
        i := i + 1;
      }
    }

    method AllocSession() returns (i: nat)
      requires Valid()
      ensures i == FreeSlot(slots[..])
    {
      i := 0;
      while i < slots.Length && slots[i].Active?
        invariant i <= slots.Length && FreeSlot(slots[..]) == i + FreeSlot(slots[i..])
      {
        assert slots[i..][1..] == slots[i + 1..];
        i := i + 1;
      }
    }

    /** session_op_create; `forked` says whether pipes and process could be made. 0 stands for an error. */
    method Create(forked: bool) returns (id: nat)
      requires Valid()
      modifies this, slots
      ensures Valid() && (id != 0 <==> forked && FreeSlot(old(slots[..])) < MAX_SESSIONS)
      ensures if id == 0 then nextId == old(nextId) && slots[..] == old(slots[..])
              else id == old(nextId) && nextId == id + 1
                   && slots[..] == old(slots[..])[FreeSlot(old(slots[..])) := Active(id, Start())]
    {
      hide SlotsOk, Resting;
      assert nextId > 0 by { IdsStart(slots[..], nextId); }
      var i := AllocSession();
      if i == slots.Length || !forked { return 0; }
      CreatedOk(slots[..], nextId, i);
      ghost var before := slots[..];
      assert before[i] == slots[i];
      id := nextId;
      slots[i] := Active(id, Start());
      nextId := id + 1;
      assert slots[..] == before[i := Active(id, Start())];
    }

    /**
     session_op_eval, with whatever the two sides, the clock and the process table do in the meantime as `es`; it
     returns when the parent is done. Success means the low byte of the status of this very command.
     */
    method Eval(id: nat, cmd: command, es: seq<Event>) returns (r: Outcome)
      requires Valid() && Sendable(Begin(cmd)) && forall k :: 0 <= k < |es| ==> Sendable(es[k])
      requires forall k :: 0 <= k < |es| ==> !es[k].Begin? && !es[k].Destroy?
      modifies slots
      ensures Valid()
      ensures var i := FindSlot(old(slots[..]), id);
              && (r.NotFound? <==> i == MAX_SESSIONS)
              && (r.NotFound? ==> slots[..] == old(slots[..]))
              && (r.Failed? ==> slots[..] == old(slots[..])[i := Free])
              && (r.Exited? ==>
                    && slots[i].Active? && slots[i].id == id
                    && slots[..] == old(slots[..])[i := slots[i]]
                    && var was, now := old(slots[..])[i].s, slots[i].s;
                       && |now.answers| == |was.answers| + 1 && now.answers[..|was.answers|] == was.answers
                       && now.answers[|was.answers|] == Answer(cmd, r.code)
                       && now.ran[|was.answers|].cmd == cmd && r.code == now.ran[|was.answers|].status % 0x100)
    {
      hide SlotsOk, Resting, Inv, Next;
      var i := FindSession(id);
      if i == slots.Length { return NotFound; }
      ghost var before := slots[..];
      assert before[i] == slots[i];
      SlotFacts(before, nextId, i);
      var was := slots[i].s;
      var s := Next(was, Begin(cmd));
      NextKeeps(was, Begin(cmd));
      BeginExchange(was, cmd);
      var k := 0;
      while k < |es| && (s.parent.Sending? || s.parent.Waiting?)
        invariant k <= |es| && Inv(s) && slots[..] == before
        invariant Exchange(was, cmd, s)
        decreases |es| - k
      {
        NextKeeps(s, es[k]);
        ExchangeStep(was, cmd, s, es[k]);
        s := Next(s, es[k]);
        k := k + 1;
      }
      if s.parent.Sending? || s.parent.Waiting? {
        s := Shut(s);
        ShutOk(s);
      }
      KeptOk(before, nextId, i, s);
      if s.parent.Idle? { ExchangeEnd(was, cmd, s); }
      slots[i] := Kept(id, s);
      assert slots[..] == before[i := Kept(id, s)];
      if s.parent.Closed? { return Failed; }
      return Exited(s.answers[|was.answers|].code);
    }

    /** session_op_destroy */
    method DestroySession(id: nat) returns (ok: bool)
      requires Valid()
      modifies slots
      ensures Valid() && ok == (FindSlot(old(slots[..]), id) < MAX_SESSIONS)
      ensures slots[..] == if ok then old(slots[..])[FindSlot(old(slots[..]), id) := Free] else old(slots[..])
      ensures FindSlot(slots[..], id) == MAX_SESSIONS
    {
      hide SlotsOk, Resting, Inv;
      var i := FindSession(id);
      if i == slots.Length { return false; }
      ghost var before := slots[..];
      assert before[i] == slots[i];
      SlotFacts(before, nextId, i);
      var s := Shut(slots[i].s);
      NextKeeps(slots[i].s, Destroy);
      KeptOk(before, nextId, i, s);
      slots[i] := Free;
      assert slots[..] == before[i := Free];
      FreedGone(before, nextId, i);
      return true;
    }
  }

  lemma IdsStart(slots: seq<Slot>, nextId: nat)
    requires SlotsOk(slots, nextId)
    ensures nextId > 0
  {
  }

  lemma SlotFacts(slots: seq<Slot>, nextId: nat, i: nat)
    requires SlotsOk(slots, nextId) && Resting(slots) && i < |slots| && slots[i].Active?
    ensures Inv(slots[i].s) && slots[i].s.parent.Idle?
  {
  }

  lemma FreedGone(slots: seq<Slot>, nextId: nat, i: nat)
    requires SlotsOk(slots, nextId) && i < |slots| && slots[i].Active?
    ensures FindSlot(slots[i := Free], slots[i].id) == |slots|
  {
    var t := slots[i := Free];
    assert forall j :: 0 <= j < |t| && j != i ==> t[j] == slots[j];
  }

  lemma ShutOk(s: Session)
    requires s.parent.Closed? && s.child == Dead && Answered(s)
    ensures Inv(s)
  {
  }

  /** During an eval of `cmd` that began in `was`: no answer yet, or its own. */
  predicate Exchange(was: Session, cmd: command, s: Session) {
    && Answered(s)
    && match s.parent
       case Idle =>
         |s.answers| == |was.answers| + 1 && s.answers[..|was.answers|] == was.answers
         && s.answers[|was.answers|].cmd == cmd
       case Sending(c, _) => c == cmd && s.answers == was.answers
       case Waiting(c) => c == cmd && s.answers == was.answers
       case Closed => true
  }

  lemma BeginExchange(was: Session, cmd: command)
    requires Inv(was) && was.parent.Idle?
    ensures Exchange(was, cmd, Next(was, Begin(cmd)))
  {
  }

  lemma ExchangeStep(was: Session, cmd: command, s: Session, e: Event)
    requires Inv(s) && Exchange(was, cmd, s) && (s.parent.Sending? || s.parent.Waiting?) && Inv(Next(s, e))
    ensures Exchange(was, cmd, Next(s, e))
  {
    hide Under, Quiet, Wire, ChildRead;
    if e.Read? && 0 < e.n <= |s.toChild| { ReadCounts(s, e.n); }
  }

  lemma ExchangeEnd(was: Session, cmd: command, s: Session)
    requires Exchange(was, cmd, s) && s.parent.Idle?
    ensures |s.answers| == |was.answers| + 1 && s.answers[..|was.answers|] == was.answers
    ensures s.answers[|was.answers|].cmd == cmd == s.ran[|was.answers|].cmd
    ensures s.answers[|was.answers|].code == s.ran[|was.answers|].status % 0x100
  {
  }
}
