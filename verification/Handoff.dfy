/**
 Handing an open request to the window that runs on a state directory, or
 starting one (crates/adapters/src/handoff.rs). Any number of invocations and
 windows take steps in any order; every process may die at any time. The writer
 lock says which process is the window, the launch lock which invocation may
 start one. The socket file is only a hint: it may be stale, and an invocation
 that saw the writer lock free removes whatever file is there.
 */
module Handoff {
  import opened Wrappers

  type Pid = nat
  type Token = nat

  /** Who runs `send`: an invocation's first try, its try under the launch lock, or a starting window. */
  datatype Caller = First | Second | Starter

  datatype Stage =
    | Sending(c: Caller)                  // about to connect
    | Probing(c: Caller)                  // no listener; about to ask for the writer lock
    | Unlinking(c: Caller)                // saw the writer lock free
    | Connected(c: Caller, to: Pid)
    | Asked(c: Caller, to: Pid)           // has written its one frame
    | Waiting(c: Caller)                  // got no answer; waits for the writer lock
    | NeedLock
    | MayLaunch
    | Launching                           // waits for the new window to listen
    | Opening
    | Reopening
    | Opened
    | Listening
    | Closing
    | Done

  predicate HoldsWriter(s: Stage) {
    s.Opened? || s.Listening? || s.Closing?
  }

  predicate HoldsLaunch(s: Stage) {
    s.MayLaunch? || s.Launching?
      || ((s.Sending? || s.Probing? || s.Unlinking? || s.Connected? || s.Asked? || s.Waiting?) && s.c == Second)
  }

  /** `launches` and `acked` count what the process did. */
  datatype Proc = Proc(stage: Stage, token: Option<Token>, launches: nat, acked: bool)

  /** A token that left its owner, in a frame or with a launch. */
  datatype Leave = Leave(owner: Pid, token: Token, framed: bool)

  /**
   `confirmed` holds the windows that successful launches saw listening, `leaves` the tokens that
   left, `used` the tokens ever given to a process; these only record.
   */
  datatype World = World(
    procs: map<Pid, Proc>,
    writer: Option<Pid>,
    launcher: Option<Pid>,
    socket: Option<Pid>,
    confirmed: set<Pid>,
    leaves: seq<Leave>,
    used: set<Token>)

  datatype Action =
    | Invoke(p: Pid, token: Option<Token>)
    | StartWindow(p: Pid, token: Option<Token>)  // a window started directly
    | Connect(p: Pid)
    | Probe(p: Pid)
    | Unlink(p: Pid)
    | Write(p: Pid, fits: bool)
    | Accept(p: Pid)                             // the window acknowledges
    | Silent(p: Pid)                             // the window closes without an answer
    | SeeFree(p: Pid)
    | TakeLock(p: Pid)
    | Launch(p: Pid, child: Pid)
    | SeeWindow(p: Pid)
    | Open(p: Pid)
    | OpenFails(p: Pid)
    | Bind(p: Pid)
    | StopListening(p: Pid)
    | Release(p: Pid)
    | Die(p: Pid)                                // also a refusal, a timeout or an error: the process ends

  const Start := World(map[], None, None, None, {}, [], {})

  function At(w: World, p: Pid, s: Stage): World
    requires p in w.procs
  {
    w.(procs := w.procs[p := w.procs[p].(stage := s)])
  }

  /** The locks of a process that ends are released; its socket file stays. */
  function Ended(w: World, p: Pid): World
    requires p in w.procs
  {
    At(w, p, Done).(
      writer := if w.writer == Some(p) then None else w.writer,
      launcher := if w.launcher == Some(p) then None else w.launcher)
  }

  function NotRunning(w: World, p: Pid, c: Caller): World
    requires p in w.procs
  {
    At(w, p, match c case First => NeedLock case Second => MayLaunch case Starter => Reopening)
  }

  /** The process whose listener the socket file leads to. */
  function Listener(w: World): Option<Pid> {
    if w.socket.Some? && w.socket.value in w.procs && w.procs[w.socket.value].stage.Listening? then w.socket else None
  }

  function Spawned(w: World, p: Pid, stage: Stage, token: Option<Token>): World {
    w.(procs := w.procs[p := Proc(stage, token, 0, false)],
       used := if token.Some? then w.used + {token.value} else w.used)
  }

  function Next(w: World, a: Action): World {
    if a.Invoke? || a.StartWindow? then
      if a.p !in w.procs && (a.token.Some? ==> a.token.value !in w.used)
      then Spawned(w, a.p, if a.Invoke? then Sending(First) else Opening, a.token) else w
    else if a.p !in w.procs then w
    else Act(w, a, w.procs[a.p].stage)
  }

  function Act(w: World, a: Action, stage: Stage): World
    requires a.p in w.procs && stage == w.procs[a.p].stage && !a.Invoke? && !a.StartWindow?
  {
    var p := a.p;
    match (a, stage)
    case (Connect(_), Sending(c)) =>
      if Listener(w).Some? then At(w, p, Connected(c, Listener(w).value)) else At(w, p, Probing(c))
    case (Probe(_), Probing(c)) => At(w, p, if w.writer.None? then Unlinking(c) else Sending(c))
    case (Unlink(_), Unlinking(c)) => NotRunning(w, p, c).(socket := None)
    case (Write(_, fits), Connected(c, to)) =>
      // The token is consumed before the frame is built; an oversized one is dropped.
      var proc := w.procs[p];
      w.(procs := w.procs[p := proc.(stage := Asked(c, to), token := None)],
         leaves := if fits && proc.token.Some? then w.leaves + [Leave(p, proc.token.value, true)] else w.leaves)
    case (Accept(_), Asked(c, to)) =>
      if to in w.procs && (w.procs[to].stage.Listening? || w.procs[to].stage.Closing?)
      then var v := Ended(w, p); v.(procs := v.procs[p := v.procs[p].(acked := true)])
      else w
    case (Silent(_), Asked(c, to)) => if c == Starter then Ended(w, p) else At(w, p, Waiting(c))
    case (SeeFree(_), Waiting(c)) => if w.writer.None? then NotRunning(w, p, c) else w
    case (TakeLock(_), NeedLock) => if w.launcher.None? then At(w, p, Sending(Second)).(launcher := Some(p)) else w
    case (Launch(_, child), MayLaunch) =>
      if child in w.procs then w
      else
        var proc := w.procs[p];
        w.(procs := w.procs[p := proc.(stage := Launching, token := None, launches := proc.launches + 1)]
                           [child := Proc(Opening, proc.token, 0, false)],
           leaves := if proc.token.Some? then w.leaves + [Leave(p, proc.token.value, false)] else w.leaves)
    case (SeeWindow(_), Launching) =>
      if Listener(w).Some? then Ended(w, p).(confirmed := w.confirmed + {Listener(w).value}) else w
    case (Open(_), Opening) => if w.writer.None? then At(w, p, Opened).(writer := Some(p)) else w
    case (Open(_), Reopening) => if w.writer.None? then At(w, p, Opened).(writer := Some(p)) else w
    // The lock may also be busy for the instant of another invocation's probe.
    case (OpenFails(_), Opening) => At(w, p, Sending(Starter))
    case (OpenFails(_), Reopening) => Ended(w, p)
    case (Bind(_), Opened) => At(w, p, Listening).(socket := Some(p))
    case (StopListening(_), Listening) => At(w, p, Closing).(socket := None)
    case (Release(_), Closing) => Ended(w, p)
    case (Die(_), _) => Ended(w, p)
    case _ => w
  }

  function Run(w: World, actions: seq<Action>): World {
    if actions == [] then w else Next(Run(w, actions[..|actions| - 1]), actions[|actions| - 1])
  }

  // ----- the invariants -----

  /** A lock is held by exactly the process whose stage says so. */
  ghost predicate WriterInv(w: World) {
    && (forall p :: p in w.procs ==> (HoldsWriter(w.procs[p].stage) <==> w.writer == Some(p)))
    && (w.writer.Some? ==> w.writer.value in w.procs)
  }

  ghost predicate LauncherInv(w: World) {
    && (forall p :: p in w.procs ==> (HoldsLaunch(w.procs[p].stage) <==> w.launcher == Some(p)))
    && (w.launcher.Some? ==> w.launcher.value in w.procs)
  }

  /** A process about to launch has seen the lock free, and since then nothing was confirmed. */
  predicate SawFree(s: Stage) {
    s.MayLaunch? || (s.Unlinking? && s.c == Second)
  }

  ghost predicate AllEnded(w: World) {
    forall v :: v in w.confirmed ==> v in w.procs && w.procs[v].stage.Done?
  }

  ghost predicate LaunchInv(w: World) {
    && (forall v :: v in w.confirmed ==> v in w.procs && (HoldsWriter(w.procs[v].stage) || w.procs[v].stage.Done?))
    && (forall p :: p in w.procs && SawFree(w.procs[p].stage) ==> AllEnded(w))
  }

  ghost predicate CountInv(proc: Proc) {
    && proc.launches <= 1
    && (proc.launches > 0 ==> (proc.stage.Launching? || proc.stage.Done?) && !proc.acked)
    && (proc.acked ==> proc.stage.Done?)
  }

  ghost predicate CountsInv(w: World) {
    forall p :: p in w.procs ==> CountInv(w.procs[p])
  }

  ghost predicate TokensInv(w: World) {
    && (forall p :: p in w.procs && w.procs[p].token.Some? ==> w.procs[p].token.value in w.used)
    && (forall p, q :: p in w.procs && q in w.procs && p != q && w.procs[p].token.Some? ==>
      w.procs[p].token != w.procs[q].token)
    && (forall i :: 0 <= i < |w.leaves| ==> LeaveInv(w, w.leaves[i]))
    && (forall i, j :: 0 <= i < j < |w.leaves| ==> w.leaves[i].owner != w.leaves[j].owner)
    && (forall i, j :: 0 <= i < j < |w.leaves| && w.leaves[i].framed ==> w.leaves[j].token != w.leaves[i].token)
  }

  /** Who let a token go has none any more, and a token in a frame is nobody's. */
  ghost predicate LeaveInv(w: World, l: Leave) {
    && l.owner in w.procs && w.procs[l.owner].token.None? && l.token in w.used
    && (l.framed ==> forall p :: p in w.procs ==> w.procs[p].token != Some(l.token))
  }

  ghost predicate Inv(w: World) {
    WriterInv(w) && LauncherInv(w) && LaunchInv(w) && CountsInv(w) && TokensInv(w)
  }

  ghost predicate LocksInv(w: World) {
    WriterInv(w) && LauncherInv(w) && LaunchInv(w)
  }

  lemma {:induction false} StartKeepsLocks(w: World, a: Action)
    requires LocksInv(w) && (a.Invoke? || a.StartWindow?)
    ensures LocksInv(Next(w, a))
  {}

  /** A step of one process that touches no lock and confirms nothing. */
  lemma {:induction false} MoveKeepsLocks(w: World, p: Pid, proc: Proc)
    requires LocksInv(w) && p in w.procs
    requires HoldsWriter(proc.stage) == HoldsWriter(w.procs[p].stage)
    requires HoldsLaunch(proc.stage) == HoldsLaunch(w.procs[p].stage)
    requires SawFree(proc.stage) ==> SawFree(w.procs[p].stage) || AllEnded(w)
    requires w.procs[p].stage.Done? ==> proc.stage.Done?
    ensures LocksInv(w.(procs := w.procs[p := proc]))
  {}

  lemma {:induction false} EndKeepsLocks(w: World, p: Pid)
    requires LocksInv(w) && p in w.procs
    ensures LocksInv(Ended(w, p))
  {}

  /** Where the writer lock is free, every confirmed window has ended. */
  lemma {:induction false} FreeMeansEnded(w: World)
    requires WriterInv(w) && LaunchInv(w) && w.writer.None?
    ensures AllEnded(w)
  {}

  lemma {:induction false} SendKeepsLocks(w: World, a: Action)
    requires LocksInv(w) && (a.Connect? || a.Probe? || a.Unlink?)
    ensures LocksInv(Next(w, a))
  {
    if a.p in w.procs && Next(w, a) != w {
      if w.writer.None? {
        FreeMeansEnded(w);
      }
      MoveKeepsLocks(w, a.p, Next(w, a).procs[a.p]);
    }
  }

  lemma {:induction false} ExchangeKeepsLocks(w: World, a: Action)
    requires LocksInv(w) && (a.Write? || a.Accept? || a.Silent? || a.SeeFree?)
    ensures LocksInv(Next(w, a))
  {
    if a.p in w.procs && Next(w, a) != w {
      if a.Accept? || (a.Silent? && w.procs[a.p].stage.c.Starter?) {
        EndKeepsLocks(w, a.p);
        if a.Accept? {
          MoveKeepsLocks(Ended(w, a.p), a.p, Next(w, a).procs[a.p]);
        }
      } else {
        if w.writer.None? {
          FreeMeansEnded(w);
        }
        MoveKeepsLocks(w, a.p, Next(w, a).procs[a.p]);
      }
    }
  }

  lemma {:induction false} LaunchKeepsLocks(w: World, a: Action)
    requires LocksInv(w) && (a.TakeLock? || a.Launch?)
    ensures LocksInv(Next(w, a))
  {}

  lemma {:induction false} SeeKeepsLocks(w: World, p: Pid)
    requires LocksInv(w)
    ensures LocksInv(Next(w, SeeWindow(p)))
  {
    if p in w.procs && w.procs[p].stage.Launching? && Listener(w).Some? {
      EndKeepsLocks(w, p);
    }
  }

  lemma {:induction false} TakeWriterKeepsLocks(w: World, p: Pid)
    requires LocksInv(w) && p in w.procs && w.writer.None? && (w.procs[p].stage.Opening? || w.procs[p].stage.Reopening?)
    ensures LocksInv(At(w, p, Opened).(writer := Some(p)))
  {}

  lemma {:induction false} OpenKeepsLocks(w: World, a: Action)
    requires LocksInv(w) && (a.Open? || a.OpenFails?)
    ensures LocksInv(Next(w, a))
  {
    if a.p in w.procs && Next(w, a) != w {
      if a.Open? {
        TakeWriterKeepsLocks(w, a.p);
      } else if w.procs[a.p].stage.Opening? {
        MoveKeepsLocks(w, a.p, Next(w, a).procs[a.p]);
      } else {
        EndKeepsLocks(w, a.p);
      }
    }
  }

  lemma {:induction false} WindowKeepsLocks(w: World, a: Action)
    requires LocksInv(w) && (a.Bind? || a.StopListening? || a.Release? || a.Die?)
    ensures LocksInv(Next(w, a))
  {
    if a.p in w.procs && Next(w, a) != w {
      if a.Release? || a.Die? {
        EndKeepsLocks(w, a.p);
      } else {
        MoveKeepsLocks(w, a.p, Next(w, a).procs[a.p]);
      }
    }
  }

  lemma {:induction false} NextKeepsLocks(w: World, a: Action)
    requires LocksInv(w)
    ensures LocksInv(Next(w, a))
  {
    match a {
      case Invoke(_, _) => StartKeepsLocks(w, a);
      case StartWindow(_, _) => StartKeepsLocks(w, a);
      case Connect(_) => SendKeepsLocks(w, a);
      case Probe(_) => SendKeepsLocks(w, a);
      case Unlink(_) => SendKeepsLocks(w, a);
      case Write(_, _) => ExchangeKeepsLocks(w, a);
      case Accept(_) => ExchangeKeepsLocks(w, a);
      case Silent(_) => ExchangeKeepsLocks(w, a);
      case SeeFree(_) => ExchangeKeepsLocks(w, a);
      case TakeLock(_) => LaunchKeepsLocks(w, a);
      case Launch(_, _) => LaunchKeepsLocks(w, a);
      case SeeWindow(p) => SeeKeepsLocks(w, p);
      case Open(_) => OpenKeepsLocks(w, a);
      case OpenFails(_) => OpenKeepsLocks(w, a);
      case _ => WindowKeepsLocks(w, a);
    }
  }

  lemma {:induction false} NextKeepsCounts(w: World, a: Action)
    requires CountsInv(w)
    ensures CountsInv(Next(w, a))
  {}

  /** Most actions move a process without touching any token. */
  lemma {:induction false} QuietKeepsTokens(w: World, v: World)
    requires TokensInv(w) && v.procs.Keys == w.procs.Keys && v.leaves == w.leaves && v.used == w.used
    requires forall p :: p in w.procs ==> v.procs[p].token == w.procs[p].token
    ensures TokensInv(v)
  {
    forall i | 0 <= i < |v.leaves| ensures LeaveInv(v, v.leaves[i]) {
      assert LeaveInv(w, w.leaves[i]);
    }
  }

  lemma {:induction false} ActIsQuiet(w: World, a: Action)
    requires !a.Invoke? && !a.StartWindow? && !a.Write? && !a.Launch?
    ensures var v := Next(w, a);
      && v.procs.Keys == w.procs.Keys && v.leaves == w.leaves && v.used == w.used
      && forall p :: p in w.procs ==> v.procs[p].token == w.procs[p].token
  {}

  lemma {:induction false} SpawnKeepsTokens(w: World, p: Pid, stage: Stage, token: Option<Token>)
    requires TokensInv(w) && p !in w.procs && (token.Some? ==> token.value !in w.used)
    ensures TokensInv(Spawned(w, p, stage, token))
  {
    var v := Spawned(w, p, stage, token);
    forall i | 0 <= i < |v.leaves| ensures LeaveInv(v, v.leaves[i]) {
      assert LeaveInv(w, w.leaves[i]);
    }
  }

  /** `p` gives up its token, which leaves in a frame, leaves to `child`, or is dropped. */
  lemma {:induction false} LeaveKeepsTokens(w: World, v: World, p: Pid, l: Leave)
    requires TokensInv(w) && p in w.procs && w.procs[p].token == Some(l.token) && l.owner == p
    requires p in v.procs && v.procs[p].token.None? && v.leaves == w.leaves + [l] && v.used == w.used
    requires w.procs.Keys <= v.procs.Keys
    requires forall q :: q in w.procs && q != p ==> v.procs[q].token == w.procs[q].token
    requires if l.framed then v.procs.Keys == w.procs.Keys
      else exists child ::
        child !in w.procs && v.procs.Keys == w.procs.Keys + {child} && v.procs[child].token == Some(l.token)
    ensures TokensInv(v)
  {
    forall i | 0 <= i < |w.leaves|
      ensures LeaveInv(v, w.leaves[i]) && w.leaves[i].owner != p
        && (w.leaves[i].framed ==> w.leaves[i].token != l.token)
    {
      assert LeaveInv(w, w.leaves[i]);
    }
    assert LeaveInv(v, l);
  }

  lemma {:induction false} DropKeepsTokens(w: World, v: World, p: Pid)
    requires TokensInv(w) && p in w.procs && v.leaves == w.leaves && v.used == w.used
    requires v.procs.Keys == w.procs.Keys && v.procs[p].token.None?
    requires forall q :: q in w.procs && q != p ==> v.procs[q].token == w.procs[q].token
    ensures TokensInv(v)
  {
    forall i | 0 <= i < |v.leaves| ensures LeaveInv(v, v.leaves[i]) {
      assert LeaveInv(w, w.leaves[i]);
    }
  }

  lemma {:induction false} NoTokenChildKeepsTokens(w: World, v: World, p: Pid, child: Pid)
    requires TokensInv(w) && p in w.procs && w.procs[p].token.None? && child !in w.procs
    requires v.leaves == w.leaves && v.used == w.used
    requires v.procs.Keys == w.procs.Keys + {child} && v.procs[child].token.None?
    requires forall q :: q in w.procs ==> v.procs[q].token == w.procs[q].token
    ensures TokensInv(v)
  {
    forall i | 0 <= i < |v.leaves| ensures LeaveInv(v, v.leaves[i]) {
      assert LeaveInv(w, w.leaves[i]);
    }
  }

  lemma {:induction false} WriteKeepsTokens(w: World, p: Pid, fits: bool)
    requires TokensInv(w) && p in w.procs && w.procs[p].stage.Connected?
    ensures TokensInv(Next(w, Write(p, fits)))
  {
    var v := Next(w, Write(p, fits));
    if fits && w.procs[p].token.Some? {
      LeaveKeepsTokens(w, v, p, Leave(p, w.procs[p].token.value, true));
    } else {
      DropKeepsTokens(w, v, p);
    }
  }

  lemma {:induction false} LaunchKeepsTokens(w: World, p: Pid, child: Pid)
    requires TokensInv(w) && p in w.procs && w.procs[p].stage.MayLaunch? && child !in w.procs
    ensures TokensInv(Next(w, Launch(p, child)))
  {
    var v := Next(w, Launch(p, child));
    if w.procs[p].token.Some? {
      LeaveKeepsTokens(w, v, p, Leave(p, w.procs[p].token.value, false));
    } else {
      NoTokenChildKeepsTokens(w, v, p, child);
    }
  }

  lemma {:induction false} NextKeepsTokens(w: World, a: Action)
    requires TokensInv(w)
    ensures TokensInv(Next(w, a))
  {
    if Next(w, a) != w {
      match a {
        case Invoke(p, token) => SpawnKeepsTokens(w, p, Sending(First), token);
        case StartWindow(p, token) => SpawnKeepsTokens(w, p, Opening, token);
        case Write(p, fits) => WriteKeepsTokens(w, p, fits);
        case Launch(p, child) => LaunchKeepsTokens(w, p, child);
        case _ =>
          ActIsQuiet(w, a);
          QuietKeepsTokens(w, Next(w, a));
      }
    }
  }

  lemma {:induction false} RunIsValid(actions: seq<Action>)
    ensures Inv(Run(Start, actions))
  {
    if actions != [] {
      var w, a := Run(Start, actions[..|actions| - 1]), actions[|actions| - 1];
      RunIsValid(actions[..|actions| - 1]);
      NextKeepsLocks(w, a);
      NextKeepsCounts(w, a);
      NextKeepsTokens(w, a);
    }
  }

  // ----- what every run promises -----

  /** Only one process is the window, and only one may start one. */
  lemma {:induction false} OneWindowOneLauncher(actions: seq<Action>, p: Pid, q: Pid)
    requires var w := Run(Start, actions); p in w.procs && q in w.procs
    ensures var w := Run(Start, actions);
      && (HoldsWriter(w.procs[p].stage) && HoldsWriter(w.procs[q].stage) ==> p == q)
      && (HoldsLaunch(w.procs[p].stage) && HoldsLaunch(w.procs[q].stage) ==> p == q)
  {
    RunIsValid(actions);
  }

  /** When a window is launched, every window that an earlier launch saw listening has let go of the state. */
  lemma {:induction false} LaunchAfterRelease(actions: seq<Action>, p: Pid, child: Pid)
    requires var w := Run(Start, actions); Next(w, Launch(p, child)) != w
    ensures var w := Run(Start, actions);
      forall v :: v in w.confirmed ==> v in w.procs && w.procs[v].stage.Done? && w.writer != Some(v)
  {
    RunIsValid(actions);
    var w := Run(Start, actions);
    assert SawFree(w.procs[p].stage);
  }

  /** Each invocation launches at most once, and never when its request was acknowledged. */
  lemma {:induction false} LaunchesAtMostOnce(actions: seq<Action>, p: Pid)
    requires p in Run(Start, actions).procs
    ensures var proc := Run(Start, actions).procs[p];
      proc.launches <= 1 && !(proc.launches == 1 && proc.acked)
  {
    RunIsValid(actions);
    assert CountInv(Run(Start, actions).procs[p]);
  }

  /** A request is acknowledged by the process that holds the writer lock at that moment. */
  lemma {:induction false} AcknowledgedByWindow(actions: seq<Action>, p: Pid)
    requires var w := Run(Start, actions);
      p in w.procs && w.procs[p].stage.Asked? && Next(w, Accept(p)) != w
    ensures var w := Run(Start, actions); w.writer == Some(w.procs[p].stage.to)
  {
    RunIsValid(actions);
  }

  /** A token leaves each owner at most once; once it is in a frame nobody holds it or sends it again. */
  lemma {:induction false} TokenLeavesOnce(actions: seq<Action>)
    ensures var w := Run(Start, actions);
      && (forall i, j :: 0 <= i < j < |w.leaves| ==> w.leaves[i].owner != w.leaves[j].owner)
      && (forall i :: 0 <= i < |w.leaves| ==> w.leaves[i].owner in w.procs && w.procs[w.leaves[i].owner].token.None?)
      && (forall i, j :: 0 <= i < j < |w.leaves| && w.leaves[i].framed ==> w.leaves[j].token != w.leaves[i].token)
      && (forall i, p :: 0 <= i < |w.leaves| && w.leaves[i].framed && p in w.procs ==>
        w.procs[p].token != Some(w.leaves[i].token))
      && (forall p, q :: p in w.procs && q in w.procs && p != q && w.procs[p].token.Some? ==>
        w.procs[p].token != w.procs[q].token)
  {
    RunIsValid(actions);
    var w := Run(Start, actions);
    forall i | 0 <= i < |w.leaves|
      ensures w.leaves[i].owner in w.procs && w.procs[w.leaves[i].owner].token.None?
      ensures w.leaves[i].framed ==> forall p :: p in w.procs ==> w.procs[p].token != Some(w.leaves[i].token)
    {
      assert LeaveInv(w, w.leaves[i]);
    }
  }

  // ----- what an invocation comes to when nothing gets in its way -----

  lemma {:induction false} RunThen(w: World, actions: seq<Action>, a: Action)
    ensures Run(w, actions + [a]) == Next(Run(w, actions), a)
  {
    assert (actions + [a])[..|actions|] == actions;
  }

  lemma {:induction false} RunOn(w: World, first: seq<Action>, second: seq<Action>)
    ensures Run(w, first + second) == Run(Run(w, first), second)
  {
    if second == [] {
      assert first + second == first;
    } else {
      var n := |second| - 1;
      RunOn(w, first, second[..n]);
      RunThen(w, first + second[..n], second[n]);
      assert first + second == first + second[..n] + [second[n]];
    }
  }

  lemma {:induction false} RunThree(w: World, a: Action, b: Action, c: Action)
    ensures Run(w, [a, b, c]) == Next(Next(Next(w, a), b), c)
  {
    RunThen(w, [], a);
    RunThen(w, [a], b);
    RunThen(w, [a, b], c);
    assert [] + [a] == [a] && [a] + [b] == [a, b] && [a, b] + [c] == [a, b, c];
  }

  /** What lets go of the token: a frame it fits into, or a launch. */
  function Left(w: World, p: Pid, framed: bool): seq<Leave>
    requires p in w.procs
  {
    if w.procs[p].token.Some? then w.leaves + [Leave(p, w.procs[p].token.value, framed)] else w.leaves
  }

  /** A window that listens takes the request; the token goes along if it fits, and is gone in any case. */
  lemma {:induction false} RequestIsTaken(w: World, p: Pid, window: Pid, c: Caller, fits: bool)
    requires p in w.procs && w.procs[p].stage == Sending(c)
    requires window in w.procs && w.procs[window].stage == Listening && w.socket == Some(window)
    requires w.writer == Some(window)
    ensures Run(w, [Connect(p), Write(p, fits), Accept(p)]) ==
      w.(procs := w.procs[p := Proc(Done, None, w.procs[p].launches, true)],
         launcher := if w.launcher == Some(p) then None else w.launcher,
         leaves := if fits then Left(w, p, true) else w.leaves)
  {
    RunThree(w, Connect(p), Write(p, fits), Accept(p));
    assert Next(w, Connect(p)) == At(w, p, Connected(c, window));
    FrameIsWritten(w, p, window, c, fits);
    WindowAccepts(w, p, window, c, fits);
  }

  /** The frame is written, and the token spent. */
  function Written(w: World, p: Pid, window: Pid, c: Caller, fits: bool): World
    requires p in w.procs
  {
    w.(procs := w.procs[p := Proc(Asked(c, window), None, w.procs[p].launches, w.procs[p].acked)],
       leaves := if fits then Left(w, p, true) else w.leaves)
  }

  lemma {:induction false} FrameIsWritten(w: World, p: Pid, window: Pid, c: Caller, fits: bool)
    requires p in w.procs
    ensures Next(At(w, p, Connected(c, window)), Write(p, fits)) == Written(w, p, window, c, fits)
  {
  }

  lemma {:induction false} WindowAccepts(w: World, p: Pid, window: Pid, c: Caller, fits: bool)
    requires p in w.procs && window in w.procs && window != p && w.procs[window].stage == Listening
    requires w.writer == Some(window)
    ensures Next(Written(w, p, window, c, fits), Accept(p)) ==
      w.(procs := w.procs[p := Proc(Done, None, w.procs[p].launches, true)],
         launcher := if w.launcher == Some(p) then None else w.launcher,
         leaves := if fits then Left(w, p, true) else w.leaves)
  {
  }

  /** Without a window the next thing is asked for, and a socket file left behind is removed. */
  lemma {:induction false} NobodyListens(w: World, p: Pid, c: Caller)
    requires p in w.procs && w.procs[p].stage == Sending(c) && Listener(w).None? && w.writer.None?
    ensures Run(w, [Connect(p), Probe(p), Unlink(p)]) == NotRunning(w, p, c).(socket := None)
  {
    RunThree(w, Connect(p), Probe(p), Unlink(p));
    assert Next(w, Connect(p)) == At(w, p, Probing(c));
    assert Next(At(w, p, Probing(c)), Probe(p)) == At(w, p, Unlinking(c));
  }

  /** `p` has let go of its token and waits for the window it started. */
  function Launched(w: World, p: Pid, child: Pid, window: Stage): World
    requires p in w.procs
  {
    var proc := w.procs[p];
    w.(procs := w.procs[p := Proc(Launching, None, proc.launches + 1, proc.acked)]
                       [child := Proc(window, proc.token, 0, false)],
       leaves := Left(w, p, false))
  }

  function AfterLaunch(w: World, p: Pid, child: Pid): World
    requires p in w.procs
  {
    var proc := w.procs[p];
    w.(procs := w.procs[p := Proc(Done, None, proc.launches + 1, proc.acked)]
                       [child := Proc(Listening, proc.token, 0, false)],
       writer := Some(child), launcher := None, socket := Some(child),
       confirmed := w.confirmed + {child}, leaves := Left(w, p, false))
  }

  lemma {:induction false} LaunchStarts(w: World, p: Pid, child: Pid)
    requires p in w.procs && w.procs[p].stage == MayLaunch && child !in w.procs
    ensures Next(w, Launch(p, child)) == Launched(w, p, child, Opening)
  {
  }

  lemma {:induction false} ChildOpens(w: World, p: Pid, child: Pid)
    requires p in w.procs && child !in w.procs && w.writer.None?
    ensures Next(Launched(w, p, child, Opening), Open(child)) ==
      Launched(w, p, child, Opened).(writer := Some(child))
  {
  }

  lemma {:induction false} ChildListens(w: World, p: Pid, child: Pid)
    requires p in w.procs && child !in w.procs
    ensures Next(Launched(w, p, child, Opened).(writer := Some(child)), Bind(child)) ==
      Launched(w, p, child, Listening).(writer := Some(child), socket := Some(child))
  {
  }

  lemma {:induction false} WindowIsSeen(w: World, p: Pid, child: Pid)
    requires p in w.procs && child !in w.procs && w.launcher == Some(p)
    ensures Next(Launched(w, p, child, Listening).(writer := Some(child), socket := Some(child)), SeeWindow(p)) ==
      AfterLaunch(w, p, child)
  {
    var v := Launched(w, p, child, Listening).(writer := Some(child), socket := Some(child));
    assert Listener(v) == Some(child) && v.writer != Some(p);
  }

  /** Under the launch lock a window is started that has the token, listens, and holds the writer lock. */
  lemma {:induction false} WindowIsLaunched(w: World, p: Pid, child: Pid)
    requires p in w.procs && w.procs[p].stage == MayLaunch && child !in w.procs
    requires w.writer.None? && w.launcher == Some(p)
    ensures Run(w, [Launch(p, child), Open(child), Bind(child)] + [SeeWindow(p)]) == AfterLaunch(w, p, child)
  {
    LaunchStarts(w, p, child);
    ChildOpens(w, p, child);
    ChildListens(w, p, child);
    WindowIsSeen(w, p, child);
    RunThree(w, Launch(p, child), Open(child), Bind(child));
    RunThen(w, [Launch(p, child), Open(child), Bind(child)], SeeWindow(p));
  }

  function Try(p: Pid): seq<Action> {
    [Connect(p), Probe(p), Unlink(p)]
  }

  function LaunchRun(p: Pid, child: Pid): seq<Action> {
    (Try(p) + [TakeLock(p)]) + (Try(p) + ([Launch(p, child), Open(child), Bind(child)] + [SeeWindow(p)]))
  }

  /** `p` may launch: it holds the launch lock and has seen that there is no window. */
  function Ready(w: World, p: Pid, stage: Stage): World
    requires p in w.procs
  {
    At(w, p, stage).(launcher := Some(p), socket := None)
  }

  lemma {:induction false} LockIsTaken(w: World, p: Pid)
    requires p in w.procs && w.procs[p].stage == Sending(First)
    requires Listener(w).None? && w.writer.None? && w.launcher.None?
    ensures Run(w, Try(p) + [TakeLock(p)]) == Ready(w, p, Sending(Second))
  {
    NobodyListens(w, p, First);
    RunThen(w, Try(p), TakeLock(p));
  }

  lemma {:induction false} SecondTry(w: World, p: Pid)
    requires p in w.procs && w.writer.None?
    ensures Run(Ready(w, p, Sending(Second)), Try(p)) == Ready(w, p, MayLaunch)
  {
    NobodyListens(Ready(w, p, Sending(Second)), p, Second);
  }

  lemma {:induction false} ReadyIsForgotten(w: World, p: Pid, child: Pid)
    requires p in w.procs && child !in w.procs
    ensures AfterLaunch(Ready(w, p, MayLaunch), p, child) == AfterLaunch(w, p, child)
  {
    assert Left(Ready(w, p, MayLaunch), p, false) == Left(w, p, false);
    var proc := w.procs[p];
    assert w.procs[p := proc.(stage := MayLaunch)][p := Proc(Done, None, proc.launches + 1, proc.acked)] ==
      w.procs[p := Proc(Done, None, proc.launches + 1, proc.acked)];
  }

  /** So an invocation that finds no window and both locks free starts one, whatever socket file was left. */
  lemma {:induction false} LaunchSucceeds(w: World, p: Pid, child: Pid)
    requires p in w.procs && w.procs[p].stage == Sending(First) && child !in w.procs
    requires Listener(w).None? && w.writer.None? && w.launcher.None?
    ensures Run(w, LaunchRun(p, child)) == AfterLaunch(w, p, child)
  {
    var rest := [Launch(p, child), Open(child), Bind(child)] + [SeeWindow(p)];
    var ready := Ready(w, p, MayLaunch);
    RunOn(w, Try(p) + [TakeLock(p)], Try(p) + rest);
    LockIsTaken(w, p);
    RunOn(Ready(w, p, Sending(Second)), Try(p), rest);
    SecondTry(w, p);
    WindowIsLaunched(ready, p, child);
    ReadyIsForgotten(w, p, child);
  }

  /** An invocation begins by asking for a window, a window started directly by opening the state. */
  lemma {:induction false} ProcessBegins(w: World, p: Pid, token: Option<Token>)
    requires p !in w.procs && (token.Some? ==> token.value !in w.used)
    ensures Next(w, Invoke(p, token)) == Spawned(w, p, Sending(First), token)
    ensures Next(w, StartWindow(p, token)) == Spawned(w, p, Opening, token)
    ensures forall stage :: Spawned(w, p, stage, token).procs == w.procs[p := Proc(stage, token, 0, false)]
  {
  }

  /** A window on its way from `w`: its stage, and whether it has the writer lock and the socket. */
  function Window(
      w: World, p: Pid, token: Option<Token>, stage: Stage, writer: Option<Pid>, socket: Option<Pid>): World {
    Spawned(w, p, stage, token).(writer := writer, socket := socket)
  }

  lemma {:induction false} WindowOpens(w: World, p: Pid, token: Option<Token>)
    requires p !in w.procs && (token.Some? ==> token.value !in w.used) && w.writer.None?
    ensures Run(w, [StartWindow(p, token), Open(p), Bind(p)]) == Window(w, p, token, Listening, Some(p), Some(p))
  {
    RunThree(w, StartWindow(p, token), Open(p), Bind(p));
    assert Next(w, StartWindow(p, token)) == Window(w, p, token, Opening, None, w.socket);
    OpensIfFree(w, p, token);
    BindsSocket(w, p, token);
  }

  lemma {:induction false} OpensIfFree(w: World, p: Pid, token: Option<Token>)
    ensures Next(Window(w, p, token, Opening, None, w.socket), Open(p)) ==
      Window(w, p, token, Opened, Some(p), w.socket)
  {
  }

  lemma {:induction false} BindsSocket(w: World, p: Pid, token: Option<Token>)
    ensures Next(Window(w, p, token, Opened, Some(p), w.socket), Bind(p)) ==
      Window(w, p, token, Listening, Some(p), Some(p))
  {
  }

  lemma {:induction false} WindowStops(w: World, p: Pid, token: Option<Token>)
    ensures Next(Window(w, p, token, Listening, Some(p), Some(p)), StopListening(p)) ==
      Window(w, p, token, Closing, Some(p), None)
  {
  }

  lemma {:induction false} WindowCloses(w: World, p: Pid, token: Option<Token>)
    requires w.launcher != Some(p)
    ensures Next(Window(w, p, token, Closing, Some(p), None), Release(p)) == Window(w, p, token, Done, None, None)
  {
  }

  /** Such a window listens if the writer lock is free; when it closes, lock and socket file are gone. */
  lemma {:induction false} WindowOpensAndCloses(w: World, p: Pid, token: Option<Token>)
    requires p !in w.procs && (token.Some? ==> token.value !in w.used) && w.writer.None? && w.launcher != Some(p)
    ensures var v := Run(w, [StartWindow(p, token), Open(p), Bind(p)]);
      && Listener(v) == Some(p) && v.writer == Some(p)
      && v.procs == w.procs[p := Proc(Listening, token, 0, false)]
      && var u := Next(Next(v, StopListening(p)), Release(p));
        && u.writer == None && u.socket == None && u.launcher == w.launcher
        && u.procs == w.procs[p := Proc(Done, token, 0, false)]
  {
    WindowOpens(w, p, token);
    WindowStops(w, p, token);
    WindowCloses(w, p, token);
  }
}
