/**
 The backup lock: the gateway dumps under it exclusively, a guarded cycle writes under it shared, and the
 daemon gives it up for the length of a chat call.
 */
module BackupLock {
  import opened Tables

  /** Where the cycle stands. Waiting and Reconnected are the blocking waits on the old and on a fresh session. */
  datatype Phase = Idle | Working | Chatting | Waiting | Reconnecting | Reconnected | Failed

  /** `shared` counts the lock per live session; `conn` is what the holder believes its session to be. */
  datatype World = World(shared: map<int, nat>, nextSession: int, dumping: bool, conn: Option<int>, phase: Phase)

  datatype Event =
    // the gateway
    | BeginDump | EndDump
    // the daemon's cycle
    | TryStart | GuardedWrite | EndCycle
    // the chat window
    | Unlock | UnlockFails | SessionDies
    | BeginReacquire | Granted | LockFails | Reconnect | ReconnectFails | GrantedAfresh | LockFailsAfresh

  predicate Free(w: World) {
    forall s :: s in w.shared ==> w.shared[s] == 0
  }

  predicate Live(w: World) {
    w.conn.Some? && w.conn.value in w.shared
  }

  /**
   A dump begins only over a free lock, a shared lock is granted only while nobody dumps, sessions die only inside a
   chat window.
   */
  predicate Enabled(w: World, e: Event) {
    match e
    case BeginDump => !w.dumping && Free(w)
    case EndDump => w.dumping
    case TryStart => w.phase == Idle
    case GuardedWrite => w.phase == Working
    case EndCycle => w.phase == Working || w.phase == Failed
    case Unlock => w.phase == Working && Live(w) && w.shared[w.conn.value] > 0
    case UnlockFails => w.phase == Working
    case SessionDies => w.phase in {Chatting, Waiting, Reconnected} && Live(w)
    case BeginReacquire => w.phase == Chatting
    case Granted => w.phase == Waiting && Live(w) && !w.dumping
    case LockFails => w.phase == Waiting
    case Reconnect => w.phase == Reconnecting
    case ReconnectFails => w.phase == Reconnecting
    case GrantedAfresh => w.phase == Reconnected && Live(w) && !w.dumping
    case LockFailsAfresh => w.phase == Reconnected
  }

  function CloseSession(w: World): World {
    if w.conn.Some? then w.(shared := w.shared - {w.conn.value}, conn := None) else w
  }

  function Next(w: World, e: Event): World
    requires Enabled(w, e)
  {
    match e
    case BeginDump => w.(dumping := true)
    case EndDump => w.(dumping := false)
    // pg_try_advisory_lock_shared: a running dump means no cycle
    case TryStart =>
      if w.dumping then w
      else w.(shared := w.shared[w.nextSession := 1], conn := Some(w.nextSession), nextSession := w.nextSession + 1,
        phase := Working)
    case GuardedWrite => w
    case EndCycle => CloseSession(w).(phase := Idle)
    case Unlock => w.(shared := w.shared[w.conn.value := w.shared[w.conn.value] - 1], phase := Chatting)
    case UnlockFails => CloseSession(w).(phase := Chatting)
    case SessionDies => w.(shared := w.shared - {w.conn.value})
    case BeginReacquire => w.(phase := if w.conn.Some? then Waiting else Reconnecting)
    case Granted => w.(shared := w.shared[w.conn.value := w.shared[w.conn.value] + 1], phase := Working)
    case LockFails => CloseSession(w).(phase := Reconnecting)
    case Reconnect =>
      w.(shared := w.shared[w.nextSession := 0], conn := Some(w.nextSession), nextSession := w.nextSession + 1,
        phase := Reconnected)
    case ReconnectFails => w.(phase := Failed)
    case GrantedAfresh => w.(shared := w.shared[w.conn.value := w.shared[w.conn.value] + 1], phase := Working)
    case LockFailsAfresh => CloseSession(w).(phase := Failed)
  }

  /** While it works, the cycle's own live session holds the lock once; while the gateway dumps, nobody does. */
  predicate Sound(w: World) {
    (w.phase == Working ==> Live(w) && w.shared[w.conn.value] == 1)
    && (w.phase != Working ==> Free(w))
    && (w.dumping ==> Free(w))
    && (w.phase in {Idle, Failed, Reconnecting} ==> w.conn.None?)
    && forall s :: s in w.shared ==> w.conn == Some(s) && s < w.nextSession
  }

  lemma FreeSession(w: World)
    ensures Free(w) && Live(w) ==> w.shared[w.conn.value] == 0
  {
    if Free(w) && Live(w) {
      var s := w.conn.value;
      assert s in w.shared;
    }
  }

  lemma EventKeepsSound(w: World, e: Event)
    requires Sound(w) && Enabled(w, e)
    ensures Sound(Next(w, e))
  {
    FreeSession(w);
  }

  const START: World := World(map[], 0, false, None, Idle)

  predicate IsRun(trace: seq<World>, events: seq<Event>) {
    |trace| == |events| + 1 && trace[0] == START
    && forall k :: 0 <= k < |events| ==> Enabled(trace[k], events[k]) && trace[k + 1] == Next(trace[k], events[k])
  }

  lemma {:induction false} RunsAreSound(trace: seq<World>, events: seq<Event>, k: nat)
    requires IsRun(trace, events) && k < |trace|
    ensures Sound(trace[k])
  {
    if k > 0 {
      RunsAreSound(trace, events, k - 1);
      EventKeepsSound(trace[k - 1], events[k - 1]);
    }
  }

  /** No interleaving lets a guarded write happen while the gateway dumps. */
  lemma NoWriteDuringDump(trace: seq<World>, events: seq<Event>, k: nat)
    requires IsRun(trace, events) && k < |events| && events[k] == GuardedWrite
    ensures !trace[k].dumping
  {
    RunsAreSound(trace, events, k);
    WorkingMeansNoDump(trace[k]);
  }

  /** The gateway may begin a dump at every moment but while another runs or the cycle is at work. */
  lemma DumpMayBegin(trace: seq<World>, events: seq<Event>, k: nat)
    requires IsRun(trace, events) && k < |trace|
    ensures Enabled(trace[k], BeginDump) <==> !trace[k].dumping && trace[k].phase != Working
  {
    RunsAreSound(trace, events, k);
    FreeSession(trace[k]);
  }

  // ---------- the holder ----------

  function Run(w: World, events: seq<Event>): Option<World> {
    if events == [] then Some(w)
    else match Run(w, events[..|events| - 1])
      case None => None
      case Some(at) => if Enabled(at, events[|events| - 1]) then Some(Next(at, events[|events| - 1])) else None
  }

  lemma RunMore(w: World, events: seq<Event>, e: Event)
    requires Run(w, events).Some? && Enabled(Run(w, events).value, e)
    ensures Run(w, events + [e]) == Some(Next(Run(w, events).value, e))
  {
    assert (events + [e])[..|events|] == events;
  }

  /** What the server does to one blocking lock request. */
  datatype Answer = Grants | Raises

  /**
   What happens to the lock in one chat window: whether the unlock raises, whether the session dies, what the
   gateway does (true begins a dump, false ends it), and how the three steps of the reacquire go.
   */
  datatype Chat = Chat(
    unlockRaises: bool, dies: bool, gateway: seq<bool>, first: Answer, connects: bool, second: Answer)

  /** LockReacquireFailed: neither the old session nor a new one gets the lock back. */
  predicate ChatLost(chat: Chat) {
    (chat.unlockRaises || chat.dies || chat.first.Raises?) && (!chat.connects || chat.second.Raises?)
  }

  /** Whoever works holds the lock, so no dump runs. */
  lemma WorkingMeansNoDump(w: World)
    requires Sound(w) && w.phase == Working
    ensures !w.dumping
  {
    FreeSession(w);
  }

  class Holder {
    var w: World
    ghost var log: seq<Event>
    ghost const before: World

    ghost predicate Valid()
      reads this
    {
      Sound(w) && Run(before, log) == Some(w)
    }

    constructor (w: World)
      requires Sound(w)
      ensures Valid() && this.w == w && log == []
    {
      this.w, this.log, this.before := w, [], w;
    }

    /** One event of the protocol. */
    method Do(e: Event)
      requires Valid() && Enabled(w, e)
      modifies this
      ensures Valid() && w == Next(old(w), e) && log == old(log) + [e]
    {
      EventKeepsSound(w, e);
      RunMore(before, log, e);
      w := Next(w, e);
      log := log + [e];
    }

    /** release_lock: a failing unlock closes the connection, which releases as well. */
    method ReleaseLock(raises: bool)
      requires Valid() && w.phase == Working
      modifies this
      ensures Valid() && w.phase == Chatting && Free(w)
      ensures w.conn == if raises then None else old(w).conn
      ensures !raises ==> Live(w)
    {
      if !raises { Do(Unlock); } else { Do(UnlockFails); }
    }

    /** The blocking request: it is granted once no dump runs. */
    method AwaitLock(answer: Answer) returns (granted: bool)
      requires Valid() && w.phase in {Waiting, Reconnected}
      requires answer.Grants? ==> Live(w)
      modifies this
      ensures Valid()
      ensures granted == answer.Grants?
      ensures granted ==> w.phase == Working && w.conn == old(w).conn && !w.dumping
      ensures !granted ==> w.phase == if old(w).phase == Waiting then Reconnecting else Failed
    {
      granted := answer.Grants?;
      if granted {
        if w.dumping { Do(EndDump); }
        if w.phase == Waiting { Do(Granted); } else { Do(GrantedAfresh); }
      } else if w.phase == Waiting {
        Do(LockFails);
      } else {
        Do(LockFailsAfresh);
      }
    }

    /** reacquire_lock_blocking: the old connection, else a new one, else LockReacquireFailed. */
    method ReacquireLockBlocking(first: Answer, connects: bool, second: Answer) returns (failed: bool)
      requires Valid() && w.phase == Chatting
      requires first.Grants? ==> Live(w) || w.conn.None?
      modifies this
      ensures Valid()
      ensures failed ==> w.phase == Failed && w.conn.None? && Free(w)
      ensures !failed ==> w.phase == Working && Live(w) && w.shared[w.conn.value] == 1 && !w.dumping
      ensures failed <==> (old(w).conn.None? || first.Raises?) && (!connects || second.Raises?)
    {
      failed := false;
      Do(BeginReacquire);
      if w.conn.Some? {
        var granted := AwaitLock(first);
        if granted { return; }
      }
      if !connects {
        Do(ReconnectFails);
        failed := true;
        return;
      }
      Do(Reconnect);
      var granted := AwaitLock(second);
      failed := !granted;
    }

    /** The gateway's steps while the window is open, those it can take. */
    method Elapse(gateway: seq<bool>)
      requires Valid() && w.phase == Chatting
      modifies this
      ensures Valid() && w.(dumping := old(w).dumping) == old(w)
    {
      for i := 0 to |gateway|
        invariant Valid() && w.(dumping := old(w).dumping) == old(w)
      {
        if gateway[i] && Enabled(w, BeginDump) { Do(BeginDump); }
        else if !gateway[i] && Enabled(w, EndDump) { Do(EndDump); }
      }
    }

    /** release_for_chat, around one request: the lock is given up, and taken back whatever the request did. */
    method ChatWindow(chat: Chat) returns (failed: bool)
      requires Valid() && w.phase == Working
      modifies this
      ensures Valid() && failed == ChatLost(chat)
      ensures failed ==> w.phase == Failed && w.conn.None? && Free(w)
      ensures !failed ==> w.phase == Working && !w.dumping
    {
      ReleaseLock(chat.unlockRaises);
      var dies := chat.dies && Live(w);
      if dies { Do(SessionDies); }
      Elapse(chat.gateway);
      failed := ReacquireLockBlocking(if dies then Raises else chat.first, chat.connects, chat.second);
    }

    /** _try_backup_shared_lock: a running dump means no cycle. */
    method TryStartCycle() returns (started: bool)
      requires Valid() && w.phase == Idle
      modifies this
      ensures Valid() && started == !old(w).dumping
      ensures w.phase == if started then Working else Idle
    {
      started := !w.dumping;
      Do(TryStart);
    }

    /** close, at the end of the cycle, lock or no lock. */
    method Close()
      requires Valid() && w.phase in {Working, Failed}
      modifies this
      ensures Valid() && w.phase == Idle && w.conn.None? && Free(w)
    {
      Do(EndCycle);
    }
  }
}
