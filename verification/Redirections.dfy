/**
 Redirections and their undoing (src/vm/vm.c, REDIR_*): the descriptor table of the process, the frames in which the
 machine notes what it saved, and the instructions that work on both.
 */
module Redirections {

  /** An open file description; only its identity matters here. */
  type File(==,!new)

  type Fds = map<nat, File>

  /** `saved` is negative when there was nothing to save. */
  datatype Entry = Entry(original: nat, saved: int)

  type Frame = seq<Entry>

  const FRAME_MAX := 16
  const FRAMES_MAX := 64

  // ---- the system calls ----

  function From(t: Fds, n: nat): set<nat> {
    set k | k in t.Keys && k >= n
  }

  /** The lowest descriptor from `n` on that is free. */
  function LowestFrom(t: Fds, n: nat): (r: nat)
    ensures r !in t && r >= n && forall k: nat :: n <= k < r ==> k in t
    decreases |From(t, n)|
  {
    if n in t then
      assert From(t, n) == From(t, n + 1) + {n};
      LowestFrom(t, n + 1)
    else n
  }

  function Lowest(t: Fds): (r: nat)
    ensures r !in t && forall k: nat :: k < r ==> k in t
  {
    LowestFrom(t, 0)
  }

  function Close(t: Fds, fd: int): Fds {
    if fd >= 0 && fd in t then t - {fd} else t
  }

  /** dup2 fails, and changes nothing, if `from` is not open. */
  function Dup2(t: Fds, from: int, to: nat): Fds {
    if from >= 0 && from in t then t[to := t[from]] else t
  }

  /** dup: the lowest free descriptor becomes a copy, or -1 if `fd` is not open. */
  function DupResult(t: Fds, fd: nat): int {
    if fd in t then Lowest(t) else -1
  }

  function Dup(t: Fds, fd: nat): Fds {
    if fd in t then t[Lowest(t) := t[fd]] else t
  }

  // ---- one redirection ----

  datatype Opened = File_(f: File) | Fails

  datatype Redir =
    | OpenOp(fd: nat, file: Opened)
    | DupOp(fd: nat, target: int)
    | CloseOp(fd: nat)
    | HereOp(fd: nat, file: Opened)

  /** Table and innermost frame. */
  datatype State = State(t: Fds, frame: Frame)

  /** Save `fd` if the frame has room. OPEN and DUP note nothing for a closed descriptor; CLOSE and HERE note that it was closed. */
  function Save(s: State, fd: nat, always: bool): State {
    if |s.frame| >= FRAME_MAX then s
    else
      var saved := DupResult(s.t, fd);
      State(Dup(s.t, fd), if saved >= 0 || always then s.frame + [Entry(fd, saved)] else s.frame)
  }

  function Do(s: State, r: Redir): State {
    match r
    case OpenOp(fd, Fails) => s
    case OpenOp(fd, File_(f)) =>
      var newFd := Lowest(s.t);
      var s1 := Save(s.(t := s.t[newFd := f]), fd, false);
      var t1 := Dup2(s1.t, newFd, fd);
      s1.(t := if newFd != fd then Close(t1, newFd) else t1)
    case DupOp(fd, target) =>
      var s1 := Save(s, fd, false);
      s1.(t := Dup2(s1.t, target, fd))
    case CloseOp(fd) =>
      var s1 := Save(s, fd, true);
      s1.(t := Close(s1.t, fd))
    case HereOp(fd, Fails) => s
    case HereOp(fd, File_(f)) =>
      var tmp := Lowest(s.t);
      var s1 := Save(s.(t := s.t[tmp := f]), fd, true);
      s1.(t := Close(Dup2(s1.t, tmp, fd), tmp))
  }

  function Undo(t: Fds, e: Entry): Fds {
    if e.saved >= 0 then Close(Dup2(t, e.saved, e.original), e.saved) else Close(t, e.original)
  }

  /** REDIR_RESTORE undoes the entries of the frame from the last to the first. */
  function Restore(t: Fds, frame: Frame): Fds
    decreases |frame|
  {
    if frame == [] then t else Restore(Undo(t, frame[|frame| - 1]), frame[..|frame| - 1])
  }

  /** When a redirection can be undone; a test a caller could make before it. */
  predicate Undoable(t: Fds, r: Redir) {
    match r
    case OpenOp(fd, file) => file.Fails? || fd in t
    case DupOp(fd, target) => fd in t || target < 0 || target !in t
    case CloseOp(_) => true
    case HereOp(fd, file) => file.Fails? || fd in t || fd != Lowest(t)
  }

  /** Undo the entry that a redirection added to `frame`, if it added one. */
  function UndoLast(s: State, frame: Frame): Fds {
    if |s.frame| > |frame| then Undo(s.t, s.frame[|s.frame| - 1]) else s.t
  }

  ghost predicate Extends(frame: Frame, more: Frame) {
    |frame| <= |more| <= |frame| + 1 && more[..|frame|] == frame
  }

  lemma OpenUndone(s: State, fd: nat, f: File)
    requires |s.frame| < FRAME_MAX
    ensures var d := Do(s, OpenOp(fd, File_(f))); Extends(s.frame, d.frame) && (fd in s.t <==> UndoLast(d, s.frame) == s.t)
  {
    var newFd := Lowest(s.t);
    var d := Do(s, OpenOp(fd, File_(f)));
    var u := UndoLast(d, s.frame);
    if fd in s.t {
      var saved := Lowest(s.t[newFd := f]);
      assert saved !in s.t && saved != newFd;
      assert u == s.t;
    } else {
      assert fd in u;
    }
  }

  lemma DupUndone(s: State, fd: nat, target: int)
    requires |s.frame| < FRAME_MAX
    ensures var d := Do(s, DupOp(fd, target));
            Extends(s.frame, d.frame) && (fd in s.t || target < 0 || target !in s.t <==> UndoLast(d, s.frame) == s.t)
  {
    var d := Do(s, DupOp(fd, target));
    var u := UndoLast(d, s.frame);
    if fd in s.t {
      assert u == s.t;
    }
  }

  lemma CloseUndone(s: State, fd: nat)
    requires |s.frame| < FRAME_MAX
    ensures var d := Do(s, CloseOp(fd)); Extends(s.frame, d.frame) && UndoLast(d, s.frame) == s.t
  {
    var d := Do(s, CloseOp(fd));
    assert UndoLast(d, s.frame) == s.t;
  }

  lemma HereUndone(s: State, fd: nat, f: File)
    requires |s.frame| < FRAME_MAX
    ensures var d := Do(s, HereOp(fd, File_(f)));
            Extends(s.frame, d.frame) && (fd in s.t || fd != Lowest(s.t) <==> UndoLast(d, s.frame) == s.t)
  {
    var tmp := Lowest(s.t);
    var d := Do(s, HereOp(fd, File_(f)));
    var u := UndoLast(d, s.frame);
    if fd in s.t {
      var saved := Lowest(s.t[tmp := f]);
      assert saved !in s.t && saved != tmp;
      assert u == s.t;
    } else if fd != tmp {
      assert u == s.t;
    } else {
      assert fd in u;
    }
  }

  /** A redirection in a frame with room is undone exactly if it is undoable, also when a copy reuses a number. */
  lemma StepUndone(s: State, r: Redir)
    requires |s.frame| < FRAME_MAX
    ensures Extends(s.frame, Do(s, r).frame)
    ensures Undoable(s.t, r) <==> UndoLast(Do(s, r), s.frame) == s.t
  {
    hide Lowest, Save, Undo, UndoLast, Extends;
    match r {
      case OpenOp(fd, File_(f)) => OpenUndone(s, fd, f);
      case DupOp(fd, target) => DupUndone(s, fd, target);
      case CloseOp(fd) => CloseUndone(s, fd);
      case HereOp(fd, File_(f)) => HereUndone(s, fd, f);
      case OpenOp(_, Fails) => Unchanged(s);
      case HereOp(_, Fails) => Unchanged(s);
    }
  }

  lemma Unchanged(s: State)
    ensures Extends(s.frame, s.frame) && UndoLast(s, s.frame) == s.t
  {
  }

  // ---- the redirections of one command ----

  function DoAll(s: State, rs: seq<Redir>): State
    decreases |rs|
  {
    if rs == [] then s else DoAll(Do(s, rs[0]), rs[1..])
  }

  /** Each redirection is undoable at its own moment. */
  predicate AllUndoable(s: State, rs: seq<Redir>)
    decreases |rs|
  {
    rs == [] || (Undoable(s.t, rs[0]) && AllUndoable(Do(s, rs[0]), rs[1..]))
  }

  /** Undo only what was added to `frame`. */
  function RestoreTo(t: Fds, more: Frame, n: nat): Fds
    decreases |more|
  {
    if |more| <= n then t else RestoreTo(Undo(t, more[|more| - 1]), more[..|more| - 1], n)
  }

  lemma {:induction false} RestoreSplit(t: Fds, more: Frame, n: nat, k: nat)
    requires n <= k <= |more|
    ensures RestoreTo(t, more, n) == RestoreTo(RestoreTo(t, more, k), more[..k], n)
    decreases |more|
  {
    if |more| == k {
      assert more[..k] == more;
    } else {
      var last := |more| - 1;
      RestoreSplit(Undo(t, more[last]), more[..last], n, k);
      assert more[..last][..k] == more[..k];
    }
  }

  lemma {:induction false} RestoreAll(t: Fds, more: Frame)
    ensures RestoreTo(t, more, 0) == Restore(t, more)
    decreases |more|
  {
    if more != [] { RestoreAll(Undo(t, more[|more| - 1]), more[..|more| - 1]); }
  }

  lemma {:induction false} DoAllUndone(s: State, rs: seq<Redir>)
    requires |s.frame| + |rs| <= FRAME_MAX && AllUndoable(s, rs)
    ensures var d := DoAll(s, rs);
            |s.frame| <= |d.frame| && d.frame[..|s.frame|] == s.frame && RestoreTo(d.t, d.frame, |s.frame|) == s.t
    decreases |rs|
  {
    hide Do, Undoable, Undo;
    if rs != [] {
      var s1 := Do(s, rs[0]);
      StepUndone(s, rs[0]);
      DoAllUndone(s1, rs[1..]);
      var d := DoAll(s, rs);
      RestoreSplit(d.t, d.frame, |s.frame|, |s1.frame|);
      assert d.frame[..|s1.frame|] == s1.frame;
      assert d.frame[..|s1.frame|][..|s.frame|] == d.frame[..|s.frame|];
      OneEntry(s, s1);
    }
  }

  lemma OneEntry(s: State, s1: State)
    requires Extends(s.frame, s1.frame)
    ensures RestoreTo(s1.t, s1.frame, |s.frame|) == UndoLast(s1, s.frame)
  {
  }

  /** Every list of at most 16 redirections that are undoable in turn leaves the table as it was. */
  lemma RedirectionsUndone(t: Fds, rs: seq<Redir>)
    requires |rs| <= 16 && AllUndoable(State(t, []), rs)
    ensures var d := DoAll(State(t, []), rs); Restore(d.t, d.frame) == t
  {
    DoAllUndone(State(t, []), rs);
    var d := DoAll(State(t, []), rs);
    RestoreAll(d.t, d.frame);
  }

  // ---- what one redirection does to the table ----

  /** The number at which the redirection that led from `s` to `d` noted a copy. */
  predicate Noted(s: State, d: State, k: nat) {
    |d.frame| > |s.frame| && d.frame[|d.frame| - 1].saved == k
  }

  /** Nothing but `fd` has changed, and nothing but `fd` and a noted copy is new. */
  ghost predicate OthersKept(s: State, d: State, fd: nat) {
    && (forall k :: k in s.t && k != fd ==> k in d.t && d.t[k] == s.t[k])
    && (forall k :: k in d.t && k !in s.t ==> k == fd || Noted(s, d, k))
  }

  predicate LowestFree(t: Fds, fd: nat) {
    fd !in t && forall k: nat :: k < fd ==> k in t
  }

  /** OPEN makes the descriptor the file; a failed one changes nothing. */
  lemma OpenDoes(s: State, fd: nat, file: Opened)
    ensures var d := Do(s, OpenOp(fd, file));
            if file.File_? then fd in d.t && d.t[fd] == file.f && OthersKept(s, d, fd) else d == s
  {
  }

  /** DUP makes the descriptor what its target was; with a closed target it stays what it was. */
  lemma DupDoes(s: State, fd: nat, target: int)
    ensures var d := Do(s, DupOp(fd, target));
            && OthersKept(s, d, fd)
            && (if target >= 0 && target in s.t then fd in d.t && d.t[fd] == s.t[target]
                else (fd in d.t <==> fd in s.t) && (fd in s.t ==> d.t[fd] == s.t[fd]))
  {
  }

  /** CLOSE frees the descriptor. */
  lemma CloseDoes(s: State, fd: nat)
    ensures var d := Do(s, CloseOp(fd)); fd !in d.t && OthersKept(s, d, fd)
  {
  }

  /** HERE makes the descriptor the file, but if it is the lowest free one, where the file was opened, it closes it again. */
  lemma HereDoes(s: State, fd: nat, file: Opened)
    ensures var d := Do(s, HereOp(fd, file));
            if file.Fails? then d == s
            else OthersKept(s, d, fd) && (if LowestFree(s.t, fd) then fd !in d.t else fd in d.t && d.t[fd] == file.f)
  {
    assert LowestFree(s.t, fd) <==> fd == Lowest(s.t);
  }

  // ---- what a list of redirections does ----

  /** What a redirection is meant to do to the descriptors of the command, which knows nothing of copies. */
  function Meant(u: Fds, r: Redir): Fds {
    match r
    case OpenOp(fd, file) => if file.File_? then u[fd := file.f] else u
    case DupOp(fd, target) => if target >= 0 && target in u then u[fd := u[target]] else u
    case CloseOp(fd) => u - {fd}
    case HereOp(fd, file) => if file.File_? then u[fd := file.f] else u
  }

  function MeantAll(u: Fds, rs: seq<Redir>): Fds
    decreases |rs|
  {
    if rs == [] then u else MeantAll(Meant(u, rs[0]), rs[1..])
  }

  /** The redirection does not take a copy for a descriptor of the command, and is no HERE of the lowest free one. */
  predicate Straight(s: State, u: Fds, r: Redir) {
    match r
    case DupOp(_, target) => target >= 0 && target in s.t ==> target in u
    case HereOp(fd, file) => file.File_? ==> !LowestFree(s.t, fd)
    case _ => true
  }

  predicate AllStraight(s: State, u: Fds, rs: seq<Redir>)
    decreases |rs|
  {
    rs == [] || (Straight(s, u, rs[0]) && AllStraight(Do(s, rs[0]), Meant(u, rs[0]), rs[1..]))
  }

  /** The table holds the command's descriptors `u`, and besides them only copies in the frame. */
  ghost predicate Shows(s: State, u: Fds) {
    && (forall k :: k in u ==> k in s.t && s.t[k] == u[k])
    && (forall k :: k in s.t && k !in u ==> IsCopy(s.frame, k))
  }

  ghost predicate IsCopy(frame: Frame, k: nat) {
    exists i :: 0 <= i < |frame| && frame[i].saved == k
  }

  lemma FrameGrows(s: State, r: Redir)
    ensures Extends(s.frame, Do(s, r).frame)
  {
    hide Lowest;
  }

  lemma CopiesKept(s: State, d: State)
    requires Extends(s.frame, d.frame)
    ensures forall k: nat :: IsCopy(s.frame, k) ==> IsCopy(d.frame, k)
    ensures forall k: nat :: Noted(s, d, k) ==> IsCopy(d.frame, k)
  {
    forall k: nat | IsCopy(s.frame, k) ensures IsCopy(d.frame, k) {
      var i :| 0 <= i < |s.frame| && s.frame[i].saved == k;
      assert d.frame[..|s.frame|][i] == d.frame[i];
    }
  }

  /** The command's descriptors after one redirection: exactly the one it names has changed, as meant. */
  lemma StepShows(s: State, u: Fds, r: Redir)
    requires Shows(s, u) && Straight(s, u, r)
    ensures Shows(Do(s, r), Meant(u, r))
  {
    var d := Do(s, r);
    FrameGrows(s, r);
    CopiesKept(s, d);
    hide Do, Extends, IsCopy, Noted, LowestFree;
    match r {
      case OpenOp(fd, file) => OpenDoes(s, fd, file);
      case DupOp(fd, target) => DupDoes(s, fd, target);
      case CloseOp(fd) => CloseDoes(s, fd);
      case HereOp(fd, file) => HereDoes(s, fd, file);
    }
  }

  /**
   A whole list of redirections, however many: the command runs with exactly the descriptors the list means, and besides
   them only with the copies noted in its frame, provided no redirection takes a copy for a descriptor of the command.
   */
  lemma {:induction false} ListDoes(s: State, u: Fds, rs: seq<Redir>)
    requires Shows(s, u) && AllStraight(s, u, rs)
    ensures Shows(DoAll(s, rs), MeantAll(u, rs))
    decreases |rs|
  {
    hide Shows, Straight, Do, Meant;
    if rs != [] {
      StepShows(s, u, rs[0]);
      ListDoes(Do(s, rs[0]), Meant(u, rs[0]), rs[1..]);
    }
  }

  /** Every DUP has a target that is open before the list or opened in it, every HERE is for an open descriptor. */
  predicate AllKnown(u: Fds, rs: seq<Redir>)
    decreases |rs|
  {
    rs == []
    || (AllKnown(Meant(u, rs[0]), rs[1..])
        && match rs[0]
           case DupOp(_, target) => target >= 0 && target in u
           case HereOp(fd, file) => file.File_? ==> fd in u
           case _ => true)
  }

  /** Such a list is straight whatever copies are made, so it does what it means. */
  lemma {:induction false} KnownIsStraight(s: State, u: Fds, rs: seq<Redir>)
    requires Shows(s, u) && AllKnown(u, rs)
    ensures AllStraight(s, u, rs)
    decreases |rs|
  {
    hide Do, Meant;
    if rs != [] {
      assert Straight(s, u, rs[0]);
      StepShows(s, u, rs[0]);
      hide Shows;
      KnownIsStraight(Do(s, rs[0]), Meant(u, rs[0]), rs[1..]);
    }
  }

  /** `> out 2>&1` ends with both descriptors the file; `2>&1 > out` leaves the second with what the first was. */
  lemma OutAndErr(t: Fds, f: File)
    ensures var d := DoAll(State(t, []), [OpenOp(1, File_(f)), DupOp(2, 1)]).t;
            1 in d && 2 in d && d[1] == d[2] == f
    ensures 1 in t ==>
              var d := DoAll(State(t, []), [DupOp(2, 1), OpenOp(1, File_(f))]).t;
              1 in d && 2 in d && d[1] == f && d[2] == t[1]
  {
    hide Do, DoAll, AllKnown;
    var a, b := OpenOp(1, File_(f)), DupOp(2, 1);
    TwoMeant(t, a, b);
    TwoMeant(t, b, a);
    KnownOnce(t, a);
    KnownOnce(Meant(t, a), b);
    TwoKnown(t, a, b);
    if 1 in t {
      KnownOnce(t, b);
      KnownOnce(Meant(t, b), a);
      TwoKnown(t, b, a);
    }
  }

  lemma TwoMeant(t: Fds, a: Redir, b: Redir)
    ensures MeantAll(t, [a, b]) == Meant(Meant(t, a), b)
  {
    assert [a, b][1..] == [b] && [b][1..] == [];
    assert MeantAll(Meant(t, a), [b]) == MeantAll(Meant(Meant(t, a), b), []);
    assert MeantAll(t, [a, b]) == MeantAll(Meant(t, a), [b]);
  }

  lemma KnownTwice(t: Fds, a: Redir, b: Redir)
    requires AllKnown(t, [a]) && AllKnown(Meant(t, a), [b])
    ensures AllKnown(t, [a, b])
  {
    assert [a, b][1..] == [b] && [b][1..] == [] && [a][1..] == [];
  }

  lemma KnownOnce(t: Fds, a: Redir)
    requires a.OpenOp? || (a.DupOp? && a.target >= 0 && a.target in t)
    ensures AllKnown(t, [a])
  {
    assert [a][1..] == [];
  }

  lemma TwoKnown(t: Fds, a: Redir, b: Redir)
    requires AllKnown(t, [a]) && AllKnown(Meant(t, a), [b])
    ensures Shows(DoAll(State(t, []), [a, b]), MeantAll(t, [a, b]))
  {
    KnownTwice(t, a, b);
    hide Do, DoAll, AllKnown, MeantAll;
    KnownIsStraight(State(t, []), t, [a, b]);
    ListDoes(State(t, []), t, [a, b]);
  }

  /** A frame has room for 16 copies: what one more OPEN replaces is lost. */
  lemma NoRoomNoCopy(s: State, fd: nat, f: File)
    requires fd in s.t && s.t[fd] != f
    ensures |s.frame| >= 16 <==> UndoLast(Do(s, OpenOp(fd, File_(f))), s.frame) != s.t
  {
    var d := Do(s, OpenOp(fd, File_(f)));
    if |s.frame| < 16 {
      OpenUndone(s, fd, f);
    } else {
      assert d.frame == s.frame && d.t[fd] == f;
    }
  }

  // ---- frames ----

  datatype Instr = SaveI | OpI(r: Redir) | RestoreI

  datatype Cfg = Cfg(t: Fds, frames: seq<Frame>) | Halted

  function Top(c: Cfg): State
    requires c.Cfg? && c.frames != []
  {
    State(c.t, c.frames[|c.frames| - 1])
  }

  function WithTop(c: Cfg, s: State): Cfg
    requires c.Cfg? && c.frames != []
  {
    Cfg(s.t, c.frames[|c.frames| - 1 := s.frame])
  }

  function Step(c: Cfg, i: Instr): Cfg {
    if c.Halted? then c
    else
      match i
      case SaveI => if |c.frames| >= FRAMES_MAX then Halted else Cfg(c.t, c.frames + [[]])
      case OpI(r) => if c.frames == [] then Cfg(DoFree(c.t, r), []) else WithTop(c, Do(Top(c), r))
      case RestoreI =>
        if c.frames == [] then c
        else Cfg(Restore(c.t, c.frames[|c.frames| - 1]), c.frames[..|c.frames| - 1])
  }

  /** Outside every frame nothing is saved. */
  function DoFree(t: Fds, r: Redir): Fds {
    Do(State(t, Full()), r).t
  }

  function Full(): Frame {
    seq(FRAME_MAX, i => Entry(0, -1))
  }

  // ---- the instructions as the machine runs them ----

  class Descriptors {
    var t: Fds
    var frames: seq<Frame>

    ghost function C(): Cfg
      reads this
    {
      Cfg(t, frames)
    }

    method RedirSave() returns (ok: bool)
      modifies this
      ensures if ok then C() == Step(old(C()), SaveI) else Step(old(C()), SaveI) == Halted
      ensures ok <==> |old(frames)| < 64
    {
      ok := |frames| < FRAMES_MAX;
      if ok { frames := frames + [[]]; }
    }

    /** Put `fd` aside if there is a frame and it has room. */
    method SaveFd(fd: nat, always: bool)
      modifies this
      ensures old(frames) == [] ==> frames == [] && t == old(t)
      ensures old(frames) != [] ==> frames != [] && C() == WithTop(old(C()), Save(Top(old(C())), fd, always))
    {
      if frames == [] { return; }
      var last := |frames| - 1;
      var frame := frames[last];
      if |frame| < FRAME_MAX {
        var saved := DupResult(t, fd);
        t := Dup(t, fd);
        if saved >= 0 || always { frame := frame + [Entry(fd, saved)]; }
      }
      frames := frames[last := frame];
    }

    method RedirOpen(fd: nat, file: Opened) returns (ok: bool)
      modifies this
      ensures C() == Step(old(C()), OpI(OpenOp(fd, file))) && ok == file.File_?
      ensures ok ==> fd in t && t[fd] == file.f
    {
      hide Lowest;
      if file.Fails? {
        if frames != [] { SameTop(C()); }
        return false;
      }
      var newFd := Lowest(t);
      t := t[newFd := file.f];
      SaveFd(fd, false);
      t := Dup2(t, newFd, fd);
      if newFd != fd { t := Close(t, newFd); }
      return true;
    }

    method RedirDup(fd: nat, target: int)
      modifies this
      ensures C() == Step(old(C()), OpI(DupOp(fd, target)))
      ensures target >= 0 && target in old(t) ==> fd in t && t[fd] == old(t)[target]
    {
      SaveFd(fd, false);
      t := Dup2(t, target, fd);
    }

    method RedirClose(fd: nat)
      modifies this
      ensures C() == Step(old(C()), OpI(CloseOp(fd))) && fd !in t
    {
      SaveFd(fd, true);
      t := Close(t, fd);
    }

    method RedirHere(fd: nat, file: Opened) returns (ok: bool)
      modifies this
      ensures C() == Step(old(C()), OpI(HereOp(fd, file))) && ok == file.File_?
      ensures ok ==> if LowestFree(old(t), fd) then fd !in t else fd in t && t[fd] == file.f
    {
      hide Lowest;
      if file.Fails? {
        if frames != [] { SameTop(C()); }
        return false;
      }
      var tmp := Lowest(t);
      t := t[tmp := file.f];
      SaveFd(fd, true);
      t := Dup2(t, tmp, fd);
      t := Close(t, tmp);
      return true;
    }

    method RedirRestore()
      modifies this
      ensures C() == Step(old(C()), RestoreI)
    {
      hide Undo;
      if frames == [] { return; }
      var frame := frames[|frames| - 1];
      frames := frames[..|frames| - 1];
      var i := |frame|;
      assert frame[..i] == frame;
      while i > 0
        invariant i <= |frame| && Restore(t, frame[..i]) == Restore(old(t), frame)
        modifies this`t
      {
        i := i - 1;
        assert frame[..i + 1][..i] == frame[..i];
        t := Undo(t, frame[i]);
      }
    }
  }

  lemma SameTop(c: Cfg)
    requires c.Cfg? && c.frames != []
    ensures WithTop(c, Top(c)) == c
  {
    assert c.frames[|c.frames| - 1 := c.frames[|c.frames| - 1]] == c.frames;
  }
}
