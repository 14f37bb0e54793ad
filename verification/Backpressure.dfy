/**
 * The two loops of one session and the bounded queues between them: the receiving loop serves both
 * directions, so what holds it up holds up the acknowledgments of the other direction too.
 */
module Backpressure {
  import opened SenderModel

  const QUEUE_SIZE: nat := 20

  /** What the receiving loop puts into a queue on behalf of the frame it has read. */
  datatype Send = ToSender(n: int) | ToControl | ToReader

  /**
   * `acks` are the acknowledgments on their way to the sending loop, `control` and `data` how many
   * messages wait to be written and to be read, and `pending` what the receiving loop still has to queue
   * before it reads another frame.
   */
  datatype Traffic = Traffic(sender: History, acks: seq<int>, control: nat, data: nat, pending: seq<Send>)

  datatype Move =
    | Frame(sends: seq<Send>)
    | Enqueue
    | TakeAck
    | WriteControl
    | Outgoing(event: Event)
    | Read

  /** The queue the next send is for has room. */
  predicate HasRoom(t: Traffic)
    requires t.pending != []
  {
    match t.pending[0]
    case ToSender(_) => |t.acks| < QUEUE_SIZE
    case ToControl => t.control < QUEUE_SIZE
    case ToReader => t.data < QUEUE_SIZE
  }

  predicate Can(t: Traffic, m: Move) {
    match m
    case Frame(_) => t.pending == []
    case Enqueue => t.pending != [] && HasRoom(t)
    case TakeAck => t.sender.live && t.acks != []
    case WriteControl => t.sender.live && t.control > 0
    case Outgoing(e) => Enabled(t.sender, e) && !e.AckReceived?
    case Read => t.data > 0
  }

  function Enqueued(t: Traffic): Traffic
    requires t.pending != []
  {
    var u := t.(pending := t.pending[1..]);
    match t.pending[0]
    case ToSender(n) => u.(acks := t.acks + [n])
    case ToControl => u.(control := t.control + 1)
    case ToReader => u.(data := t.data + 1)
  }

  function After(t: Traffic, m: Move): Traffic
    requires Can(t, m)
  {
    match m
    case Frame(sends) => t.(pending := sends)
    case Enqueue => Enqueued(t)
    case TakeAck => t.(sender := Next(t.sender, AckReceived(t.acks[0])), acks := t.acks[1..])
    case WriteControl => t.(control := t.control - 1)
    case Outgoing(e) => t.(sender := Next(t.sender, e))
    case Read => t.(data := t.data - 1)
  }

  predicate CanRun(t: Traffic, ms: seq<Move>)
    decreases |ms|
  {
    ms == [] || (Can(t, ms[0]) && CanRun(After(t, ms[0]), ms[1..]))
  }

  function Run(t: Traffic, ms: seq<Move>): Traffic
    requires CanRun(t, ms)
    decreases |ms|
  {
    if ms == [] then t else Run(After(t, ms[0]), ms[1..])
  }

  /** The local reader takes nothing. */
  predicate Unread(ms: seq<Move>) {
    forall m :: m in ms ==> !m.Read?
  }

  /** How many deliveries the receiving loop has still to make before its next frame. */
  function Deliveries(sends: seq<Send>): nat {
    if sends == [] then 0 else (if sends[0].ToReader? then 1 else 0) + Deliveries(sends[1..])
  }

  /** The deliveries to make and the messages waiting do not fit into the queue. */
  predicate Blocked(t: Traffic) {
    t.data + Deliveries(t.pending) > QUEUE_SIZE
  }

  /** The receiving loop can come to its next frame without the local reader. */
  ghost predicate CanGoOn(t: Traffic) {
    exists ms :: CanRun(t, ms) && Unread(ms) && Run(t, ms).pending == []
  }

  lemma GoOnAfter(t: Traffic, m: Move)
    requires Can(t, m) && !m.Read? && CanGoOn(After(t, m))
    ensures CanGoOn(t)
  {
    var ms :| CanRun(After(t, m), ms) && Unread(ms) && Run(After(t, m), ms).pending == [];
    assert ([m] + ms)[1..] == ms;
    assert CanRun(t, [m] + ms) && Unread([m] + ms) && Run(t, [m] + ms) == Run(After(t, m), ms);
  }

  /** While the sending loop runs it makes room in its own two queues. */
  lemma {:induction false} UnblockedGoesOn(t: Traffic)
    requires t.sender.live && !Blocked(t)
    ensures CanGoOn(t)
    decreases |t.pending|, if t.pending == [] || HasRoom(t) then 0
                           else if t.pending[0].ToSender? then |t.acks| else t.control
  {
    if t.pending == [] {
      assert CanRun(t, []) && Unread([]) && Run(t, []) == t;
    } else {
      var m := if HasRoom(t) then Enqueue else if t.pending[0].ToSender? then TakeAck else WriteControl;
      UnblockedGoesOn(After(t, m));
      GoOnAfter(t, m);
    }
  }

  lemma {:induction false} BlockedStays(t: Traffic, ms: seq<Move>)
    requires Blocked(t) && t.data <= QUEUE_SIZE && CanRun(t, ms) && Unread(ms)
    ensures Blocked(Run(t, ms)) && Run(t, ms).data <= QUEUE_SIZE
    decreases |ms|
  {
    if ms == [] {
    } else {
      BlockedStays(After(t, ms[0]), ms[1..]);
    }
  }

  /**
   * The two loops never hold each other up: as long as the sending loop runs, the receiving loop comes to
   * its next frame exactly when its deliveries fit into the queue that the local reader empties.
   */
  lemma GoesOnIff(t: Traffic)
    requires t.sender.live && t.data <= 20
    ensures CanGoOn(t) <==> t.data + Deliveries(t.pending) <= 20
  {
    if Blocked(t) {
      forall ms | CanRun(t, ms) && Unread(ms) ensures Run(t, ms).pending != [] {
        BlockedStays(t, ms);
      }
    } else {
      UnblockedGoesOn(t);
    }
  }

  // ---- What comes through ----------------------------------------------------------------

  /** The sending loop can still hear of the acknowledgment of `k` without the local reader. */
  ghost predicate CanHear(t: Traffic, k: int) {
    exists ms :: CanRun(t, ms) && Unread(ms) && Run(t, ms).sender.live && k !in Run(t, ms).sender.state.unacked
  }

  lemma HearAfter(t: Traffic, m: Move, k: int)
    requires Can(t, m) && !m.Read? && CanHear(After(t, m), k)
    ensures CanHear(t, k)
  {
    var n := After(t, m);
    var ms :| CanRun(n, ms) && Unread(ms) && Run(n, ms).sender.live && k !in Run(n, ms).sender.state.unacked;
    assert ([m] + ms)[1..] == ms;
    assert CanRun(t, [m] + ms) && Unread([m] + ms) && Run(t, [m] + ms) == Run(n, ms);
  }

  /** An acknowledgment that the receiving loop has read reaches the packet it is for, unless the loop is blocked. */
  lemma {:induction false} AcknowledgmentComesThrough(t: Traffic, k: int)
    requires t.sender.live && !Blocked(t) && (k in t.acks || ToSender(k) in t.pending)
    ensures CanHear(t, k)
    decreases |t.pending|, |t.acks| + t.control
  {
    var m := if k in t.acks then TakeAck
             else if HasRoom(t) then Enqueue else if t.pending[0].ToSender? then TakeAck else WriteControl;
    var n := After(t, m);
    if m.TakeAck? && t.acks[0] == k {
      assert CanRun(n, []) && Unread([]) && Run(n, []) == n;
    } else {
      AcknowledgmentComesThrough(n, k);
    }
    HearAfter(t, m, k);
  }

  // ---- The price of a reader that stalls -------------------------------------------------

  /** No acknowledgment of `k` has come past the receiving loop, and `k` is in flight since `first`. */
  predicate Unheard(t: Traffic, k: int, first: int) {
    && k !in t.acks && ToSender(k) !in t.pending
    && (t.sender.live ==> k in t.sender.state.unacked && t.sender.state.unacked[k].first == first)
    && (k in t.sender.state.unacked ==> k < t.sender.state.next)
  }

  lemma UnheardStep(t: Traffic, k: int, first: int, m: Move)
    requires Blocked(t) && t.data <= QUEUE_SIZE && Unheard(t, k, first) && Can(t, m) && !m.Read?
    ensures Unheard(After(t, m), k, first)
  {
  }

  /**
   * While the receiving loop is blocked on its reader, whatever arrives in the meantime: a packet whose
   * acknowledgment has not come past it stays in flight, and the first resend pass more than a minute
   * after the packet was first sent ends the other direction.
   */
  lemma {:induction false} StallEndsSender(t: Traffic, ms: seq<Move>, k: int, first: int)
    requires Blocked(t) && t.data <= QUEUE_SIZE && Unheard(t, k, first) && CanRun(t, ms) && Unread(ms)
    ensures var u := Run(t, ms);
            && Unheard(u, k, first)
            && forall now, before ::
                 Can(u, Outgoing(Ticked(now, before))) && now - first > RESEND_TIMEOUT ==>
                   !After(u, Outgoing(Ticked(now, before))).sender.live
    decreases |ms|
  {
    if ms == [] {
      assert t.sender.live ==> forall now :: now - first > RESEND_TIMEOUT ==> Expired(t.sender.state.unacked[k], now);
    } else {
      UnheardStep(t, k, first, ms[0]);
      BlockedStays(t, [ms[0]]);
      StallEndsSender(After(t, ms[0]), ms[1..], k, first);
    }
  }
}
