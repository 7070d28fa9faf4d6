/** The life of a session on the cable, from console to console.

    The session itself belongs to the protocol library: Node has its three states, and
    Possible says which events it can report in each.  Around it the source latches a timeout
    that shows while a frame is being handled, and reports it on the next poll.

    The functions here say what the main loop does when nobody comes between. */
module SerialSession {
  import opened SerialQueues

  datatype Node = NodeIdle | AwaitingHello | Active

  datatype Event = Nothing | TimedOut | HelloAccepted | HelloRejected | SessionClosed | Request

  datatype Owner = Console | Negotiating | Protocolled

  /** The library's contract: events by state, and the state after them. */
  predicate Possible(n: Node, e: Event) {
    match e
    case Nothing => true
    case Request => true
    case TimedOut => !n.NodeIdle?
    case HelloAccepted => n.AwaitingHello?
    case HelloRejected => n.AwaitingHello?
    case SessionClosed => n.Active?
  }

  function After(n: Node, e: Event): Node
    requires Possible(n, e)
  {
    match e
    case Nothing => n
    case Request => n
    case HelloAccepted => Active
    case _ => NodeIdle
  }

  // ----- the queues, as one value -----

  type Queues = q: seq<seq<Frame>> | |q| == CLASS_COUNT witness [[], [], [], []]

  type Output = seq<(nat, Frame)>

  const EMPTY_QUEUES: Queues := [[], [], [], []]

  predicate Queueable(o: Output) { forall i | 0 <= i < |o| :: o[i].0 < CLASS_COUNT }

  function Queued(q: Queues, c: nat, f: Frame): Queues
    requires c < CLASS_COUNT
  {
    q[c := Offered(q[c], c, f).items]
  }

  function QueuedAll(q: Queues, o: Output): Queues
    requires Queueable(o)
  {
    if o == [] then q else Queued(QueuedAll(q, o[..|o| - 1]), o[|o| - 1].0, o[|o| - 1].1)
  }

  /** The first n[c] frames of every class are gone. */
  function Drained(q: Queues, n: seq<nat>): Queues
    requires |n| == CLASS_COUNT
  {
    seq(CLASS_COUNT, c requires 0 <= c < CLASS_COUNT => if n[c] <= |q[c]| then q[c][n[c]..] else [])
  }

  // ----- the multiplexer -----

  /** A frame from the desktop: what the library makes of it, the reply it has ready (if it
      ends the session), and what its handler queues. */
  datatype Rx = Rx(event: Event, reply: Frame, queued: Output)

  /** The multiplexer, as far as sessions go.  `busy` says that there may be a frame on the
      wire, part of a received block or a half-typed terminal line; the rest is a history: `wired` are
      the frames begun on the wire since the session was entered, `begun` counts the sessions
      and `cleanups` the times the cleanup of one has run. */
  datatype Mux =
    Mux(node: Node, latched: bool, busy: bool, queues: Queues, wired: seq<Frame>, begun: nat, cleanups: nat)

  const START := Mux(NodeIdle, false, false, EMPTY_QUEUES, [], 0, 0)

  /** Session::state. */
  function OwnerOf(m: Mux): Owner {
    if m.latched then Protocolled
    else match m.node
      case NodeIdle => Console
      case AwaitingHello => Negotiating
      case Active => Protocolled
  }

  function Cleaned(m: Mux): Mux {
    m.(busy := false, queues := EMPTY_QUEUES, cleanups := m.cleanups + 1)
  }

  /** tryEnterFromConsoleLine and enterFromCommand: only from the console.  The queues are left
      as they are. */
  function Entered(m: Mux): Mux {
    if OwnerOf(m) != Console then m else m.(node := AwaitingHello, latched := false, wired := [], begun := m.begun + 1)
  }

  predicate EndsSession(e: Event) { e == HelloRejected || e == SessionClosed }

  /** What dispatchFrame does with the session and the queues, up to the cleanup. */
  function Moved(m: Mux, rx: Rx): Mux
    requires Possible(m.node, rx.event) && Queueable(rx.queued)
  {
    var n := m.(node := After(m.node, rx.event), busy := true);
    match rx.event
    case TimedOut => n.(latched := true)
    case HelloAccepted => n.(queues := QueuedAll(m.queues, rx.queued))
    case Request => n.(queues := QueuedAll(m.queues, rx.queued))
    case _ => n
  }

  /** dispatchFrame. */
  function Dispatched(m: Mux, rx: Rx): Mux
    requires Possible(m.node, rx.event) && Queueable(rx.queued)
  {
    if EndsSession(rx.event) then Cleaned(Moved(m, rx)) else Moved(m, rx)
  }

  /** Every event is one the library can report when its frame is handled. */
  predicate Feasible(m: Mux, rx: seq<Rx>)
    decreases |rx|
  {
    rx == []
    || (Possible(m.node, rx[0].event) && Queueable(rx[0].queued)
        && (EndsSession(rx[0].event) || Feasible(Dispatched(m, rx[0]), rx[1..])))
  }

  /** pumpRx over the frames of one tick: it stops as soon as the console has the port. */
  function Pumped(m: Mux, rx: seq<Rx>): Mux
    requires Feasible(m, rx)
    decreases |rx|
  {
    if rx == [] then m
    else if EndsSession(rx[0].event) then Dispatched(m, rx[0])
    else Pumped(Dispatched(m, rx[0]), rx[1..])
  }

  /** Whether pollTimeout reports a timeout, and the session after it. */
  function Polled(m: Mux, expired: bool): (Mux, bool) {
    if m.latched then (m.(latched := false), true)
    else if expired && !m.node.NodeIdle? then (m.(node := NodeIdle), true)
    else (m, false)
  }

  /** The end of a tick: what the hub itself has to say is queued, and n[c] frames of every
      class leave, class by class. */
  function Sent(m: Mux, own: Output, n: seq<nat>): Mux
    requires Queueable(own) && |n| == CLASS_COUNT
  {
    if OwnerOf(m) != Protocolled then m
    else
      var q := QueuedAll(m.queues, own);
      m.(queues := Drained(q, n), wired := m.wired + Firsts(q, n, CLASS_COUNT))
  }

  /** tick. */
  function Ticked(m: Mux, rx: seq<Rx>, expired: bool, own: Output, n: seq<nat>): Mux
    requires Feasible(m.(busy := true), rx) && Queueable(own) && |n| == CLASS_COUNT
  {
    if OwnerOf(m) == Console then m
    else
      var p := Pumped(m.(busy := true), rx);
      if OwnerOf(p) == Console then p
      else
        var (q, timedOut) := Polled(p, expired);
        if timedOut then Cleaned(q) else Sent(q, own, n)
  }

  /** onTransportLost: the session is dropped, and cleaned up after only if the library says
      that it had one. */
  function Lost(m: Mux): Mux {
    var n := m.(latched := false, node := NodeIdle);
    if m.node.NodeIdle? then n else Cleaned(n)
  }

  /** A latched timeout: the library has let go of the session already. */
  predicate Latch(m: Mux) { m.latched ==> m.node.NodeIdle? }

  /** Why the latch must not survive the tick that sets it: a lost transport that met it would
      end the session without cleaning up after it. */
  lemma LatchedLossIsSwallowed(m: Mux)
    requires Latch(m) && m.latched
    ensures OwnerOf(m) != Console && OwnerOf(Lost(m)) == Console
    ensures Lost(m).cleanups == m.cleanups && Lost(m).begun == m.begun
  {
  }
}
