/** One upload end to end: a page that sends only against credit, an ordered lane, and the node.

The node looks a frame's request up, then works on it under other locks, so removal of the
request may fall in between. A removed or timed-out request leaves a tombstone that absorbs the
frames the page was still entitled to send.
 */
module Upload {
  import opened Limits
  import opened Sums
  import opened ByteStrings
  import opened RequestBody
  import opened BodyLifecycle

  datatype UpMsg = ReqBody(payload: Bytes) | ReqEnd | CancelMsg

  /** Where `streamRequestBody` is: waiting for a credit, reading, about to send, about to end, or finished. */
  datatype Phase = Idle | Taken | Ready(payload: Bytes) | Ending | Finished

  /** `open` is the presence of the `uploads` entry; `rest` is what the source has yet to yield. */
  datatype Sender = Sender(credits: int, open: bool, failed: bool, phase: Phase, sourceEnded: bool, rest: Bytes)

  /** A message the node has taken off the lane; `found` says that the lookup returned the request.
      `Raced` is a body frame refused because the body had ended or been closed. */
  datatype Hand = Nothing | Held(msg: UpMsg, found: bool) | Raced(payload: Bytes, closed: bool)

  /** This request's entry in the table that `Tombstones` models. */
  datatype Tombstone = NoTombstone | Tombstone(remaining: int)

  /** `live` is membership in the request table, `greeted` that the initial sixteen credits were sent. */
  datatype Node = Node(body: Body, live: bool, greeted: bool, hand: Hand, tombstone: Tombstone, violations: nat)

  /** `wasted` counts credits that can no longer become frames, `refused` frames the node did not accept.
      `expired` records that a tombstone timed out or was evicted, `cut` that the handler closed the body of a
      request that was still live and unfinished. */
  datatype Sys = Sys(source: Bytes, sender: Sender, up: seq<UpMsg>, node: Node, down: seq<int>,
                     wasted: int, refused: int, endSeen: bool, expired: bool, cut: bool)

  function Init(source: Bytes): Sys {
    Sys(source, Sender(0, true, false, Idle, false, source), [],
        Node(FRESH, true, false, Nothing, NoTombstone, 0), [], 0, 0, false, false, false)
  }

  // ---------------------------------------------------------------------------
  // Handlers
  // ---------------------------------------------------------------------------

  /** `grantUploadCredit`. */
  function GrantSender(p: Sender, n: int): Sender {
    if !p.open then p
    else if n > MAX_REQUEST_CREDITS || p.credits > MAX_REQUEST_CREDITS - n then
      p.(failed := true, open := false, phase := Finished)
    else p.(credits := p.credits + n)
  }

  /** The payload `readUploadPayload` assembles next: a full frame, or all that is left. */
  function NextPayload(rest: Bytes): Bytes {
    if |rest| >= MAX_PAYLOAD_BYTES then rest[..MAX_PAYLOAD_BYTES] else rest
  }

  function ReadSender(p: Sender): Sender {
    var payload := NextPayload(p.rest);
    p.(sourceEnded := |p.rest| < MAX_PAYLOAD_BYTES, rest := p.rest[|payload|..],
       phase := if payload == [] then Ending else Ready(payload))
  }

  /** `rememberRejectedBodyLocked` for this request. */
  const FULL_TOMBSTONE := Tombstone(TRAILING_FRAMES)

  /** `discardRejectedRequestBody` for a body frame. */
  predicate Absorbs(t: Tombstone) { t.Tombstone? && t.remaining > 0 }

  function Absorb(t: Tombstone): Tombstone
    requires t.Tombstone?
  {
    t.(remaining := t.remaining - 1)
  }

  /** `cancelRequestStateWithTrailing`, the part under the session lock. */
  function Remove(n: Node, allowTrailing: bool): Node {
    if !n.live then n else n.(live := false, tombstone := if allowTrailing then FULL_TOMBSTONE else n.tombstone)
  }

  datatype Step =
    | PageGrant | PageTake | PageRead | PageSend | PageEnd | PageCancel | PageAbandon
    | NodeGreet
    | NodeLookup
    | NodeHandle(allow: bool)
    | NodeRemove(allow: bool)
    | NodeTimeout
    | NodeForget
    | NodeBody(step: BodyLifecycle.Step)

  /** Steps of the body that need no message: consumers, and the cleanup that follows a removal.
      A handler may close its body at any time. */
  predicate Internal(n: Node, step: BodyLifecycle.Step) {
    match step
    case Frame(_) => false
    case EndFrame => false
    case Stop => !n.live
    case Cancel => !n.live
    case _ => true
  }

  predicate Can(s: Sys, step: Step) {
    match step
    case PageGrant => s.down != []
    case PageTake => s.sender.phase.Idle? && s.sender.credits > 0
    case PageRead => s.sender.phase.Taken?
    case PageSend => s.sender.phase.Ready?
    case PageEnd => s.sender.phase.Ending?
    case PageCancel => true
    case PageAbandon => true
    case NodeGreet => !s.node.greeted
    case NodeLookup => s.node.hand.Nothing? && s.up != []
    case NodeHandle(allow) => !s.node.hand.Nothing? && (!s.node.body.bodyEnded ==> allow)
    case NodeRemove(allow) => !s.node.body.bodyEnded ==> allow
    case NodeTimeout => !s.node.body.bodyEnded
    case NodeForget => s.node.tombstone.Tombstone?
    case NodeBody(inner) => BodyLifecycle.Can(s.node.body, inner) && Internal(s.node, inner)
  }

  /** `OnMessage` on the frame in hand. `allow` is `hasUnfinishedRequestBody`, read before the removal it steers. */
  function Handle(s: Sys, allow: bool): Sys
    requires !s.node.hand.Nothing?
  {
    var n := s.node.(hand := Nothing);
    match s.node.hand
    case Raced(_, closed) =>
      if Absorbs(n.tombstone) then s.(node := n.(tombstone := Absorb(n.tombstone)), refused := s.refused + 1)
      else s.(node := Remove(n.(violations := n.violations + 1), closed), refused := s.refused + 1)
    case Held(ReqBody(payload), found) =>
      if !found then
        if Absorbs(n.tombstone) then s.(node := n.(tombstone := Absorb(n.tombstone)), refused := s.refused + 1)
        else s.(node := n.(violations := n.violations + 1), refused := s.refused + 1)
      else
        (match Offer(n.body, payload)
         case Accepted(b) => s.(node := n.(body := b))
         case Rejected(e) =>
           if e == BodyEnded || e == RingRefused(Closed) || e == RingRefused(Ended)
           then s.(node := n.(hand := Raced(payload, e == RingRefused(Closed))))
           else s.(node := Remove(n.(violations := n.violations + 1), e != CreditExhausted), refused := s.refused + 1))
    case Held(ReqEnd, found) =>
      if found then s.(node := n.(body := EndBody(n.body)), endSeen := true)
      else if n.tombstone.Tombstone? then s.(node := n.(tombstone := NoTombstone), endSeen := true)
      else s.(node := n.(violations := n.violations + 1), endSeen := true)
    case Held(CancelMsg, found) =>
      if found then s.(node := Remove(n, allow), endSeen := true)
      else s.(node := n.(tombstone := NoTombstone), endSeen := true)
  }

  function Do(s: Sys, step: Step): Sys
    requires Can(s, step)
  {
    match step
    case PageGrant =>
      s.(sender := GrantSender(s.sender, s.down[0]), down := s.down[1..],
         wasted := s.wasted + if s.sender.open then 0 else s.down[0])
    case PageTake => s.(sender := s.sender.(credits := s.sender.credits - 1, phase := Taken))
    case PageRead =>
      s.(sender := ReadSender(s.sender), wasted := s.wasted + if NextPayload(s.sender.rest) == [] then 1 else 0)
    case PageSend =>
      s.(sender := s.sender.(phase := if s.sender.sourceEnded then Ending else Idle),
         up := s.up + [ReqBody(s.sender.phase.payload)])
    case PageEnd => s.(sender := s.sender.(open := false, phase := Finished), up := s.up + [ReqEnd])
    case PageCancel => Quit(s).(up := s.up + [CancelMsg])
    case PageAbandon => Quit(s)
    case NodeGreet => s.(node := s.node.(greeted := true), down := s.down + [MAX_REQUEST_CREDITS])
    case NodeLookup => s.(node := s.node.(hand := Held(s.up[0], s.node.live)), up := s.up[1..])
    case NodeHandle(allow) => Handle(s, allow)
    case NodeRemove(allow) => s.(node := Remove(s.node, allow))
    case NodeTimeout =>
      s.(node := s.node.(body := s.node.body.(bodyEnded := true),
                         tombstone := if s.node.live then FULL_TOMBSTONE else s.node.tombstone))
    case NodeForget => s.(node := s.node.(tombstone := NoTombstone), expired := true)
    case NodeBody(inner) =>
      var b := BodyLifecycle.Do(s.node.body, inner);
      var grant := if inner.Report? then ChunkConsumed(s.node.body).1 else 0;
      s.(node := s.node.(body := b), down := s.down + if grant == 0 then [] else [grant],
         cut := s.cut || (inner.CloseBegin? && s.node.live && !s.node.body.bodyEnded))
  }

  /** The page gives up: a credit it had taken, and the payload read with it, are gone. */
  function Quit(s: Sys): Sys {
    s.(sender := s.sender.(open := false, phase := Finished), wasted := s.wasted + Taking(s.sender))
  }

  /** Credits taken but not yet turned into a frame on the lane. */
  function Taking(p: Sender): int { if p.phase.Taken? || p.phase.Ready? then 1 else 0 }

  predicate Linked(states: seq<Sys>, steps: seq<Step>, i: nat)
    requires |states| == |steps| + 1 && i < |steps|
  {
    Can(states[i], steps[i]) && states[i + 1] == Do(states[i], steps[i])
  }

  ghost predicate IsRun(source: Bytes, states: seq<Sys>, steps: seq<Step>) {
    && |states| == |steps| + 1
    && states[0] == Init(source)
    && forall i :: 0 <= i < |steps| ==> Linked(states, steps, i)
  }

  // ---------------------------------------------------------------------------
  // The invariant
  // ---------------------------------------------------------------------------

  /** The frames of a lane, in order. */
  function Payloads(msgs: seq<UpMsg>): seq<Bytes> {
    if msgs == [] then []
    else if msgs[0].ReqBody? then [msgs[0].payload] + Payloads(msgs[1..])
    else Payloads(msgs[1..])
  }

  function InHand(h: Hand): seq<UpMsg> {
    match h
    case Nothing => []
    case Held(msg, _) => [msg]
    case Raced(payload, _) => [ReqBody(payload)]
  }

  /** What the node has yet to work through: the message in hand, then the lane. */
  function Inbox(s: Sys): seq<UpMsg> { InHand(s.node.hand) + s.up }

  /** Every credit the node counts as available is with the page, in flight as a grant or a frame, or spoken for. */
  ghost predicate Conserved(s: Sys) {
    && s.sender.credits + Taking(s.sender) + |Payloads(Inbox(s))| + Sum(s.down)
       + (if s.node.greeted then 0 else MAX_REQUEST_CREDITS) + s.wasted + s.refused
       == s.node.body.available
    && 0 <= s.sender.credits && 0 <= s.wasted && 0 <= s.refused
    && (forall i :: 0 <= i < |s.down| ==> s.down[i] >= 1)
    && (s.wasted > 0 ==> s.sender.phase.Ending? || s.sender.phase.Finished?)
  }

  /** Frames, then at most one `ReqEnd`, then only cancellations. */
  ghost predicate Ordered(s: Sys) {
    var msgs := Inbox(s);
    && (forall i, j :: 0 <= i < j < |msgs| ==> msgs[j].CancelMsg? || msgs[i].ReqBody?)
    && (!s.sender.phase.Finished? ==> !s.endSeen && forall i :: 0 <= i < |msgs| ==> msgs[i].ReqBody?)
    && (s.endSeen ==> forall i :: 0 <= i < |msgs| ==> msgs[i].CancelMsg?)
  }

  ghost predicate SenderOk(p: Sender) {
    && !p.failed
    && (p.open <==> !p.phase.Finished?)
    && (p.sourceEnded ==> p.rest == [])
    && (p.phase.Ending? ==> p.sourceEnded)
    && (p.phase.Ready? ==> p.phase.payload != [] && |p.phase.payload| <= MAX_PAYLOAD_BYTES)
  }

  /** The tombstone stands whenever frames may still come for a request that accepts none, and it is large enough. */
  ghost predicate Entombed(s: Sys) {
    var n := s.node;
    && (n.tombstone.Tombstone? ==> n.tombstone.remaining >= TRAILING_FRAMES - s.refused)
    && (n.tombstone.Tombstone? ==> !n.live || n.body.bodyEnded)
    && ((!n.live || n.body.bodyEnded) && !s.endSeen && !s.expired ==> n.tombstone.Tombstone?)
    && (n.hand.Held? && !n.hand.found ==> !n.live)
    && (n.hand.Raced? ==> n.body.bodyEnded || (n.body.ring.closed && n.hand.closed))
    && (n.body.ring.closed && !s.cut ==> !n.live || n.body.bodyEnded)
  }

  /** After a frame was dropped no later frame can be accepted. */
  predicate Sealed(s: Sys) {
    s.node.body.bodyEnded || (!s.node.live && !(s.node.hand.Held? && s.node.hand.found))
  }

  /** Bytes on their way to the ring. */
  function InFlight(s: Sys): Bytes { Flatten(Payloads(Inbox(s))) }

  function Unsent(p: Sender): Bytes { (if p.phase.Ready? then p.phase.payload else []) + p.rest }

  ghost predicate Flowing(s: Sys) {
    var b := s.node.body;
    && b.accepted <= s.source
    && (s.refused > 0 ==> Sealed(s))
    && (s.refused == 0 ==> b.accepted + InFlight(s) <= s.source)
    && (s.refused == 0 && !s.sender.phase.Finished? ==> b.accepted + InFlight(s) + Unsent(s.sender) == s.source)
    && (s.refused == 0 && (exists i :: 0 <= i < |Inbox(s)| && Inbox(s)[i].ReqEnd?) ==>
          b.accepted + InFlight(s) == s.source)
    && (b.ring.ended ==> b.accepted == s.source)
  }

  /** Nothing excuses a violation: the body fits, no tombstone was forgotten, no live body was cut off. */
  predicate Untroubled(s: Sys) {
    |s.source| <= MAX_REQUEST_BODY_BYTES && !s.expired && !s.cut
  }

  ghost predicate Inv(s: Sys) {
    && BodyInv(s.node.body)
    && SenderOk(s.sender)
    && Conserved(s)
    && Ordered(s)
    && Entombed(s)
    && Flowing(s)
    && (Untroubled(s) ==> s.node.violations == 0)
  }

  lemma InitInv(source: Bytes)
    ensures Inv(Init(source))
  {
    FreshInv();
  }

  lemma {:induction false} PayloadsConcat(a: seq<UpMsg>, b: seq<UpMsg>)
    ensures Payloads(a + b) == Payloads(a) + Payloads(b)
    decreases |a|
  {
    if a == [] {
      assert a + b == b;
    } else {
      PayloadsConcat(a[1..], b);
      assert (a + b)[1..] == a[1..] + b;
    }
  }

  /** Credits in the page's hands or on their way never exceed the node's window. */
  lemma OutstandingWithinWindow(s: Sys)
    requires Inv(s)
    ensures s.sender.credits + Taking(s.sender) + |Payloads(Inbox(s))| + Sum(s.down) + s.refused <= MAX_REQUEST_CREDITS
    ensures Sum(s.down) >= |s.down|
  {
    SumAtLeast(s.down);
  }

  // ---------------------------------------------------------------------------
  // Page steps
  // ---------------------------------------------------------------------------

  /** A step of the page that puts nothing on the lane. */
  lemma PageLocalKeepsInv(s: Sys, s': Sys)
    requires Inv(s)
    requires s' == s.(sender := s'.sender, down := s'.down, wasted := s'.wasted)
    requires SenderOk(s'.sender) && Conserved(s')
    requires !s'.sender.phase.Finished? ==> !s.sender.phase.Finished? && Unsent(s'.sender) == Unsent(s.sender)
    ensures Inv(s')
  {
    assert Inbox(s') == Inbox(s);
  }

  lemma GrantKeepsInv(s: Sys)
    requires Inv(s) && Can(s, PageGrant)
    ensures Inv(Do(s, PageGrant))
  {
    OutstandingWithinWindow(s);
    SumAtLeast(s.down[1..]);
    PageLocalKeepsInv(s, Do(s, PageGrant));
  }

  lemma TakeKeepsInv(s: Sys)
    requires Inv(s) && Can(s, PageTake)
    ensures Inv(Do(s, PageTake))
  {
    PageLocalKeepsInv(s, Do(s, PageTake));
  }

  lemma ReadKeepsInv(s: Sys)
    requires Inv(s) && Can(s, PageRead)
    ensures Inv(Do(s, PageRead))
  {
    var payload := NextPayload(s.sender.rest);
    assert payload + s.sender.rest[|payload|..] == s.sender.rest;
    PageLocalKeepsInv(s, Do(s, PageRead));
  }

  lemma AbandonKeepsInv(s: Sys)
    requires Inv(s)
    ensures Inv(Quit(s))
  {
    PageLocalKeepsInv(s, Quit(s));
  }

  lemma PushOrdered(s: Sys, s': Sys, m: UpMsg)
    requires Ordered(s)
    requires Inbox(s') == Inbox(s) + [m] && s'.endSeen == s.endSeen
    requires m.CancelMsg? || !s.sender.phase.Finished?
    requires !m.ReqBody? ==> s'.sender.phase.Finished?
    requires !s'.sender.phase.Finished? ==> !s.sender.phase.Finished?
    ensures Ordered(s')
  {
  }

  /** A message at the back of the lane adds its own frame, if it is one, to what is in flight. */
  lemma PushPayloads(s: Sys, s': Sys, m: UpMsg)
    requires s' == s.(sender := s'.sender, up := s.up + [m])
    ensures Inbox(s') == Inbox(s) + [m]
    ensures |Payloads(Inbox(s'))| == |Payloads(Inbox(s))| + if m.ReqBody? then 1 else 0
    ensures InFlight(s') == InFlight(s) + if m.ReqBody? then m.payload else []
  {
    assert Inbox(s') == Inbox(s) + [m];
    PayloadsConcat(Inbox(s), [m]);
    FlattenConcat(Payloads(Inbox(s)), Payloads([m]));
    if m.ReqBody? {
      assert Payloads([m]) == [m.payload];
      assert Flatten([m.payload]) == m.payload;
    }
  }

  /** The page puts one message at the back of the lane. */
  lemma PushKeepsInv(s: Sys, s': Sys, m: UpMsg)
    requires Inv(s)
    requires s' == s.(sender := s'.sender, up := s.up + [m])
    requires SenderOk(s'.sender) && s'.sender.credits == s.sender.credits
    requires m.CancelMsg? || !s.sender.phase.Finished?
    requires !m.ReqBody? ==> s'.sender.phase.Finished?
    requires Taking(s'.sender) + (if m.ReqBody? then 1 else 0) == Taking(s.sender)
    requires m.ReqBody? ==> m.payload + Unsent(s'.sender) == Unsent(s.sender)
    requires m.ReqEnd? ==> Unsent(s.sender) == []
    ensures Inv(s')
  {
    PushPayloads(s, s', m);
    PushOrdered(s, s', m);
    if m.ReqBody? {
      PushFlows(s, s', m.payload);
    } else {
      PushEndFlows(s, s', m);
    }
  }

  lemma PushedPrefix(front: Bytes, payload: Bytes, unsent: Bytes, source: Bytes)
    requires front + (payload + unsent) == source
    ensures front + payload <= source && front + payload + unsent == source
  {
    assert front + payload + unsent == front + (payload + unsent);
  }

  lemma PushFlows(s: Sys, s': Sys, payload: Bytes)
    requires Flowing(s) && !s.sender.phase.Finished?
    requires s' == s.(sender := s'.sender, up := s.up + [ReqBody(payload)])
    requires forall i :: 0 <= i < |Inbox(s)| ==> Inbox(s)[i].ReqBody?
    requires Inbox(s') == Inbox(s) + [ReqBody(payload)]
    requires InFlight(s') == InFlight(s) + payload && payload + Unsent(s'.sender) == Unsent(s.sender)
    ensures Flowing(s')
  {
    var front := s.node.body.accepted + InFlight(s);
    if s.refused == 0 {
      assert s'.node.body.accepted + InFlight(s') == front + payload;
      PushedPrefix(front, payload, Unsent(s'.sender), s.source);
    }
  }

  lemma PushEndFlows(s: Sys, s': Sys, m: UpMsg)
    requires Flowing(s) && !m.ReqBody?
    requires s' == s.(sender := s'.sender, up := s.up + [m]) && s'.sender.phase.Finished?
    requires Inbox(s') == Inbox(s) + [m] && InFlight(s') == InFlight(s)
    requires m.ReqEnd? ==> !s.sender.phase.Finished? && Unsent(s.sender) == []
    ensures Flowing(s')
  {
    if s.refused == 0 && m.ReqEnd? {
      assert s.node.body.accepted + InFlight(s) + [] == s.node.body.accepted + InFlight(s);
    }
    if exists i :: 0 <= i < |Inbox(s')| && Inbox(s')[i].ReqEnd? {
      var i :| 0 <= i < |Inbox(s')| && Inbox(s')[i].ReqEnd?;
      assert m.ReqEnd? || Inbox(s)[i].ReqEnd?;
    }
  }

  lemma SendsKeepInv(s: Sys, step: Step)
    requires Inv(s) && Can(s, step) && (step.PageSend? || step.PageEnd? || step.PageCancel?)
    ensures Inv(Do(s, step))
  {
    match step
    case PageSend => PushKeepsInv(s, Do(s, step), ReqBody(s.sender.phase.payload));
    case PageEnd => PushKeepsInv(s, Do(s, step), ReqEnd);
    case PageCancel =>
      AbandonKeepsInv(s);
      PushKeepsInv(Quit(s), Do(s, step), CancelMsg);
  }

  // ---------------------------------------------------------------------------
  // Node steps
  // ---------------------------------------------------------------------------

  /** A step of the node that leaves the inbox, the ring's contents and the page alone. */
  lemma NodeLocalKeepsInv(s: Sys, s': Sys)
    requires Inv(s)
    requires s' == s.(node := s'.node, down := s'.down, expired := s'.expired, cut := s'.cut)
    requires Inbox(s') == Inbox(s)
    requires BodyInv(s'.node.body) && Conserved(s') && Entombed(s')
    requires s'.node.violations == s.node.violations
    requires s'.node.body.accepted == s.node.body.accepted && s'.node.body.ring.ended == s.node.body.ring.ended
    requires s.refused > 0 ==> Sealed(s')
    requires Untroubled(s') ==> Untroubled(s)
    ensures Inv(s')
  {
  }

  lemma GreetKeepsInv(s: Sys)
    requires Inv(s) && Can(s, NodeGreet)
    ensures Inv(Do(s, NodeGreet))
  {
    SumConcat(s.down, [MAX_REQUEST_CREDITS]);
    NodeLocalKeepsInv(s, Do(s, NodeGreet));
  }

  lemma LookupKeepsInv(s: Sys)
    requires Inv(s) && Can(s, NodeLookup)
    ensures Inv(Do(s, NodeLookup))
  {
    var s' := Do(s, NodeLookup);
    assert Inbox(s') == Inbox(s);
  }

  /** A removal leaves a tombstone unless the body had ended, and then either nothing follows or one stands already. */
  lemma RemoveKeepsInv(s: Sys, s': Sys, allow: bool)
    requires Inv(s) && (!s.node.body.bodyEnded ==> allow)
    requires s' == s.(node := Remove(s.node, allow))
    ensures Inv(s')
  {
    assert Inbox(s') == Inbox(s);
    if s.node.live {
      assert Entombed(s');
    }
    NodeLocalKeepsInv(s, s');
  }

  lemma TimeoutKeepsInv(s: Sys)
    requires Inv(s) && Can(s, NodeTimeout)
    ensures Inv(Do(s, NodeTimeout))
  {
    NodeLocalKeepsInv(s, Do(s, NodeTimeout));
  }

  lemma ForgetKeepsInv(s: Sys)
    requires Inv(s) && Can(s, NodeForget)
    ensures Inv(Do(s, NodeForget))
  {
    NodeLocalKeepsInv(s, Do(s, NodeForget));
  }

  /** What an internal step may change: it can end or close the body and send a grant, but accepts nothing. */
  ghost predicate Unaccepting(b: Body, b': Body, grant: int) {
    && b'.accepted == b.accepted && b'.ring.ended == b.ring.ended
    && (b.bodyEnded ==> b'.bodyEnded) && (b.ring.closed ==> b'.ring.closed)
    && grant >= 0 && b'.available == b.available + grant
  }

  function Granted(b: Body, inner: BodyLifecycle.Step): int {
    if inner.Report? then ChunkConsumed(b).1 else 0
  }

  lemma InternalIsUnaccepting(n: Node, inner: BodyLifecycle.Step)
    requires BodyInv(n.body) && BodyLifecycle.Can(n.body, inner) && Internal(n, inner)
    ensures var b' := BodyLifecycle.Do(n.body, inner);
            && Unaccepting(n.body, b', Granted(n.body, inner))
            && (b'.bodyEnded && !n.body.bodyEnded ==> !n.live)
            && (b'.ring.closed && !n.body.ring.closed ==> inner.CloseBegin?)
  {
  }

  lemma BodyChangeKeepsInv(s: Sys, s': Sys, grant: int)
    requires Inv(s)
    requires s' == s.(node := s.node.(body := s'.node.body), down := s'.down, cut := s'.cut)
    requires BodyInv(s'.node.body) && Unaccepting(s.node.body, s'.node.body, grant)
    requires s'.down == s.down + if grant == 0 then [] else [grant]
    requires s'.node.body.bodyEnded && !s.node.body.bodyEnded ==> !s.node.live
    requires s.cut ==> s'.cut
    requires s'.node.body.ring.closed && !s.node.body.ring.closed && !s'.cut ==> !s.node.live || s.node.body.bodyEnded
    ensures Inv(s')
  {
    assert Inbox(s') == Inbox(s);
    if grant == 0 {
      assert s'.down == s.down;
    } else {
      SumConcat(s.down, [grant]);
    }
    NodeLocalKeepsInv(s, s');
  }

  /** Consumers, closers and cleanup. */
  lemma InternalKeepsInv(s: Sys, inner: BodyLifecycle.Step)
    requires Inv(s) && Can(s, NodeBody(inner))
    ensures Inv(Do(s, NodeBody(inner)))
  {
    StepKeepsBodyInv(s.node.body, inner);
    InternalIsUnaccepting(s.node, inner);
    BodyChangeKeepsInv(s, Do(s, NodeBody(inner)), Granted(s.node.body, inner));
  }

  // ---------------------------------------------------------------------------
  // The frame in hand
  // ---------------------------------------------------------------------------

  /** Everything in flight, with the message in hand split off. */
  lemma HandSplits(s: Sys)
    requires !s.node.hand.Nothing?
    ensures var m := InHand(s.node.hand)[0];
            && Inbox(s) == [m] + s.up
            && |Payloads(Inbox(s))| == |Payloads(s.up)| + (if m.ReqBody? then 1 else 0)
            && InFlight(s) == (if m.ReqBody? then m.payload else []) + Flatten(Payloads(s.up))
  {
    var m := InHand(s.node.hand)[0];
    assert InHand(s.node.hand) == [m];
    assert ([m] + s.up)[1..] == s.up;
  }

  /** Once the hand is empty the inbox is the lane, and it keeps its order. */
  lemma HandledOrdered(s: Sys, s': Sys)
    requires Ordered(s) && !s.node.hand.Nothing?
    requires s'.node.hand.Nothing? && s'.up == s.up && s'.sender == s.sender
    requires s'.endSeen == (s.endSeen || !InHand(s.node.hand)[0].ReqBody?)
    ensures Ordered(s') && Inbox(s') == s.up
  {
    HandSplits(s);
    assert Inbox(s') == s.up;
    assert forall i :: 0 <= i < |s.up| ==> s.up[i] == Inbox(s)[i + 1];
  }

  /** Accepting the frame in hand moves its bytes from in flight to accepted. */
  lemma AcceptFlows(s: Sys, s': Sys, payload: Bytes)
    requires Flowing(s) && s.refused == 0 && s.node.hand == Held(ReqBody(payload), true)
    requires s' == s.(node := s.node.(hand := Nothing, body := s'.node.body))
    requires s'.node.body.accepted == s.node.body.accepted + payload
    requires s'.node.body.ring.ended == s.node.body.ring.ended == false
    ensures Flowing(s')
  {
    HandSplits(s);
    assert Inbox(s') == s.up;
    var accepted, behind := s.node.body.accepted, Flatten(Payloads(s.up));
    assert accepted + (payload + behind) == accepted + payload + behind;
    EndStays(s, s');
  }

  /** What acceptance changes in the body. */
  ghost predicate Accepting(b: Body, b': Body, payload: Bytes) {
    && !b.bodyEnded && !b'.bodyEnded && !b.ring.closed && !b'.ring.closed && !b'.ring.ended && !b.ring.ended
    && b'.available == b.available - 1
    && b'.accepted == b.accepted + payload
  }

  lemma OfferAccepts(b: Body, payload: Bytes)
    requires BodyInv(b) && Offer(b, payload).Accepted?
    ensures BodyInv(Offer(b, payload).body) && Accepting(b, Offer(b, payload).body, payload)
  {
    StepKeepsBodyInv(b, Frame(payload));
  }

  lemma AcceptKeepsInv(s: Sys, s': Sys, payload: Bytes)
    requires Inv(s) && s.node.hand == Held(ReqBody(payload), true)
    requires s' == s.(node := s.node.(hand := Nothing, body := s'.node.body))
    requires BodyInv(s'.node.body) && Accepting(s.node.body, s'.node.body, payload)
    ensures Inv(s')
  {
    AcceptConserves(s, s', payload);
    HandledOrdered(s, s');
    AcceptFlows(s, s', payload);
  }

  lemma AcceptConserves(s: Sys, s': Sys, payload: Bytes)
    requires Conserved(s) && s.node.hand == Held(ReqBody(payload), true)
    requires s' == s.(node := s.node.(hand := Nothing, body := s'.node.body))
    requires s'.node.body.available == s.node.body.available - 1
    ensures Conserved(s')
  {
    HandSplits(s);
    assert Inbox(s') == s.up;
  }

  /** A `ReqEnd` still waiting behind the hand was already waiting before. */
  lemma EndStays(s: Sys, s': Sys)
    requires !s.node.hand.Nothing? && Inbox(s) == [InHand(s.node.hand)[0]] + s.up && Inbox(s') == s.up
    ensures (exists i :: 0 <= i < |Inbox(s')| && Inbox(s')[i].ReqEnd?)
        ==> exists i :: 0 <= i < |Inbox(s)| && Inbox(s)[i].ReqEnd?
  {
    if exists i :: 0 <= i < |Inbox(s')| && Inbox(s')[i].ReqEnd? {
      var i :| 0 <= i < |Inbox(s')| && Inbox(s')[i].ReqEnd?;
      assert Inbox(s)[i + 1].ReqEnd?;
    }
  }

  /** A refused frame leaves the hand; the request accepts nothing more. */
  lemma RefuseKeepsInv(s: Sys, s': Sys)
    requires Inv(s) && !s.node.hand.Nothing? && InHand(s.node.hand)[0].ReqBody?
    requires s' == s.(node := s'.node, refused := s.refused + 1)
    requires s'.node == s.node.(hand := Nothing, live := s'.node.live, tombstone := s'.node.tombstone,
                                violations := s'.node.violations)
    requires Entombed(s') && Sealed(s')
    requires Untroubled(s) ==> s'.node.violations == s.node.violations
    ensures Inv(s')
  {
    HandSplits(s);
    HandledOrdered(s, s');
  }

  /** Frames for a request that was removed or has ended find room in its tombstone. */
  lemma TombstoneHasRoom(s: Sys)
    requires Inv(s) && !s.node.hand.Nothing? && InHand(s.node.hand)[0].ReqBody?
    requires !s.node.live || s.node.body.bodyEnded
    ensures s.expired || Absorbs(s.node.tombstone)
  {
    HandSplits(s);
    OutstandingWithinWindow(s);
    assert Inbox(s)[0].ReqBody? && !s.endSeen;
  }

  lemma RacedKeepsInv(s: Sys, allow: bool)
    requires Inv(s) && s.node.hand.Raced?
    ensures Inv(Handle(s, allow))
  {
    if !s.node.live || s.node.body.bodyEnded {
      TombstoneHasRoom(s);
    }
    RefuseKeepsInv(s, Handle(s, allow));
  }

  lemma UnknownBodyKeepsInv(s: Sys, allow: bool)
    requires Inv(s) && s.node.hand.Held? && s.node.hand.msg.ReqBody? && !s.node.hand.found
    ensures Inv(Handle(s, allow))
  {
    TombstoneHasRoom(s);
    RefuseKeepsInv(s, Handle(s, allow));
  }

  /** A credit-abiding page never meets the credit check or a full queue, and a body that fits is never too large. */
  lemma OnlyTooLargeIsRejectedOutright(s: Sys, payload: Bytes)
    requires Inv(s) && s.node.hand == Held(ReqBody(payload), true)
    ensures var o := Offer(s.node.body, payload);
            o.Rejected? ==>
              || o.error == BodyEnded || o.error == TooLarge
              || o.error == RingRefused(Closed) || o.error == RingRefused(Ended)
    ensures Offer(s.node.body, payload) == Rejected(TooLarge) ==> |s.source| > MAX_REQUEST_BODY_BYTES
  {
    HandSplits(s);
    SumAtLeast(s.down);
    QueueNeverFull(s.node.body, payload);
    var accepted, behind := s.node.body.accepted, Flatten(Payloads(s.up));
    if s.refused == 0 {
      assert |accepted + (payload + behind)| <= |s.source|;
    }
  }

  lemma TooLargeKeepsInv(s: Sys, allow: bool)
    requires Inv(s) && s.node.hand.Held? && s.node.hand.msg.ReqBody? && s.node.hand.found
    requires Offer(s.node.body, s.node.hand.msg.payload) == Rejected(TooLarge)
    ensures Inv(Handle(s, allow))
  {
    OnlyTooLargeIsRejectedOutright(s, s.node.hand.msg.payload);
    RefuseKeepsInv(s, Handle(s, allow));
  }

  /** A refusal that may be a race keeps the frame in hand for the tombstone to decide. */
  lemma RacingKeepsInv(s: Sys, allow: bool)
    requires Inv(s) && s.node.hand.Held? && s.node.hand.msg.ReqBody? && s.node.hand.found
    requires Offer(s.node.body, s.node.hand.msg.payload).Rejected?
    requires Offer(s.node.body, s.node.hand.msg.payload).error != TooLarge
    ensures Inv(Handle(s, allow))
  {
    var payload := s.node.hand.msg.payload;
    OnlyTooLargeIsRejectedOutright(s, payload);
    var closed := Offer(s.node.body, payload).error == RingRefused(Closed);
    var s' := s.(node := s.node.(hand := Raced(payload, closed)));
    assert Handle(s, allow) == s';
    assert Inbox(s') == Inbox(s);
    NodeLocalKeepsInv(s, s');
  }

  lemma KnownBodyKeepsInv(s: Sys, allow: bool)
    requires Inv(s) && s.node.hand.Held? && s.node.hand.msg.ReqBody? && s.node.hand.found
    ensures Inv(Handle(s, allow))
  {
    var payload := s.node.hand.msg.payload;
    if Offer(s.node.body, payload).Accepted? {
      OfferAccepts(s.node.body, payload);
      AcceptKeepsInv(s, Handle(s, allow), payload);
    } else if Offer(s.node.body, payload).error == TooLarge {
      TooLargeKeepsInv(s, allow);
    } else {
      RacingKeepsInv(s, allow);
    }
  }

  /** `ReqEnd` for a live request: every byte of the source has been accepted, unless a close has dropped some. */
  lemma EndFlows(s: Sys, s': Sys)
    requires Flowing(s) && Ordered(s) && BodyInv(s.node.body) && s.node.hand == Held(ReqEnd, true) && s.refused >= 0
    requires s' == s.(node := s.node.(hand := Nothing, body := EndBody(s.node.body)), endSeen := true)
    ensures Flowing(s')
  {
    HandSplits(s);
    NothingBehindEnd(s);
    assert Inbox(s') == s.up;
    assert Inbox(s)[0].ReqEnd?;
    assert s.node.body.accepted + [] == s.node.body.accepted;
  }

  lemma EndKeepsInv(s: Sys, allow: bool)
    requires Inv(s) && s.node.hand == Held(ReqEnd, true)
    ensures Inv(Handle(s, allow))
  {
    var s' := s.(node := s.node.(hand := Nothing, body := EndBody(s.node.body)), endSeen := true);
    assert Handle(s, allow) == s';
    assert BodyInv(s'.node.body) by {
      StepKeepsBodyInv(s.node.body, EndFrame);
    }
    EndFlows(s, s');
    EndCounts(s, s');
  }

  lemma EndCounts(s: Sys, s': Sys)
    requires Conserved(s) && Ordered(s) && Entombed(s) && s.node.hand == Held(ReqEnd, true) && !s.sender.failed
    requires s' == s.(node := s.node.(hand := Nothing, body := s'.node.body), endSeen := true)
    requires s'.node.body.available == s.node.body.available && s'.node.body.bodyEnded
    requires s'.node.body.ring.closed == s.node.body.ring.closed
    ensures Conserved(s') && Ordered(s') && Entombed(s')
  {
    HandSplits(s);
    HandledOrdered(s, s');
  }

  /** Only cancellations follow an end, so nothing is in flight behind it. */
  lemma NothingBehindEnd(s: Sys)
    requires Ordered(s) && s.node.hand.Held? && !s.node.hand.msg.ReqBody?
    ensures Payloads(s.up) == [] && InFlight(s) == []
    ensures forall i :: 0 <= i < |s.up| ==> s.up[i].CancelMsg?
  {
    HandSplits(s);
    forall i | 0 <= i < |s.up|
      ensures s.up[i].CancelMsg?
    {
      assert s.up[i] == Inbox(s)[i + 1];
      assert Inbox(s)[0] == s.node.hand.msg;
    }
    CancelsCarryNothing(s.up);
  }

  lemma {:induction false} CancelsCarryNothing(msgs: seq<UpMsg>)
    requires forall i :: 0 <= i < |msgs| ==> msgs[i].CancelMsg?
    ensures Payloads(msgs) == []
    decreases |msgs|
  {
    if msgs != [] {
      CancelsCarryNothing(msgs[1..]);
    }
  }

  lemma ControlFlows(s: Sys, s': Sys)
    requires Flowing(s) && Ordered(s) && s.node.hand.Held? && !s.node.hand.msg.ReqBody?
    requires Inbox(s') == s.up && s'.node.body == s.node.body && s'.sender == s.sender
    requires s'.source == s.source && s'.refused == s.refused
    requires s.refused > 0 ==> Sealed(s')
    ensures Flowing(s')
  {
    HandSplits(s);
    NothingBehindEnd(s);
    EndStays(s, s');
  }

  /** An end or cancellation that changes only the table and the tombstone. */
  lemma ControlKeepsInv(s: Sys, s': Sys)
    requires Inv(s) && s.node.hand.Held? && !s.node.hand.msg.ReqBody?
    requires s' == s.(node := s'.node, endSeen := true)
    requires s'.node == s.node.(hand := Nothing, live := s'.node.live, tombstone := s'.node.tombstone,
                                violations := s'.node.violations)
    requires Entombed(s') && (s.refused > 0 ==> Sealed(s'))
    requires Untroubled(s) ==> s'.node.violations == s.node.violations
    ensures Inv(s')
  {
    HandSplits(s);
    HandledOrdered(s, s');
    ControlFlows(s, s');
  }

  lemma UnknownEndKeepsInv(s: Sys, allow: bool)
    requires Inv(s) && s.node.hand == Held(ReqEnd, false)
    ensures Inv(Handle(s, allow))
  {
    HandSplits(s);
    assert Inbox(s)[0].ReqEnd?;
    ControlKeepsInv(s, Handle(s, allow));
  }

  lemma CancelKeepsInv(s: Sys, allow: bool)
    requires Inv(s) && s.node.hand.Held? && s.node.hand.msg.CancelMsg? && (!s.node.body.bodyEnded ==> allow)
    ensures Inv(Handle(s, allow))
  {
    ControlKeepsInv(s, Handle(s, allow));
  }

  lemma HandleKeepsInv(s: Sys, allow: bool)
    requires Inv(s) && Can(s, NodeHandle(allow))
    ensures Inv(Handle(s, allow))
  {
    match s.node.hand
    case Raced(_, _) => RacedKeepsInv(s, allow);
    case Held(ReqBody(_), found) =>
      if found {
        KnownBodyKeepsInv(s, allow);
      } else {
        UnknownBodyKeepsInv(s, allow);
      }
    case Held(ReqEnd, found) =>
      if found {
        EndKeepsInv(s, allow);
      } else {
        UnknownEndKeepsInv(s, allow);
      }
    case Held(CancelMsg, _) => CancelKeepsInv(s, allow);
  }

  lemma StepKeepsInv(s: Sys, step: Step)
    requires Inv(s) && Can(s, step)
    ensures Inv(Do(s, step))
  {
    match step
    case PageGrant => GrantKeepsInv(s);
    case PageTake => TakeKeepsInv(s);
    case PageRead => ReadKeepsInv(s);
    case PageSend => SendsKeepInv(s, step);
    case PageEnd => SendsKeepInv(s, step);
    case PageCancel => SendsKeepInv(s, step);
    case PageAbandon => AbandonKeepsInv(s);
    case NodeGreet => GreetKeepsInv(s);
    case NodeLookup => LookupKeepsInv(s);
    case NodeHandle(allow) => HandleKeepsInv(s, allow);
    case NodeRemove(allow) => RemoveKeepsInv(s, Do(s, step), allow);
    case NodeTimeout => TimeoutKeepsInv(s);
    case NodeForget => ForgetKeepsInv(s);
    case NodeBody(inner) => InternalKeepsInv(s, inner);
  }

  lemma StepKeepsSource(s: Sys, step: Step)
    requires Can(s, step)
    ensures Do(s, step).source == s.source
  {
  }

  lemma RunStepKeepsInv(source: Bytes, states: seq<Sys>, steps: seq<Step>, k: nat)
    requires IsRun(source, states, steps) && k < |steps|
    requires Inv(states[k]) && states[k].source == source
    ensures Inv(states[k + 1]) && states[k + 1].source == source
  {
    assert Linked(states, steps, k);
    StepKeepsInv(states[k], steps[k]);
    StepKeepsSource(states[k], steps[k]);
  }

  lemma {:induction false} RunInv(source: Bytes, states: seq<Sys>, steps: seq<Step>, k: nat)
    requires IsRun(source, states, steps) && k < |states|
    ensures Inv(states[k]) && states[k].source == source
    decreases k
  {
    if k == 0 {
      InitInv(source);
    } else {
      RunInv(source, states, steps, k - 1);
      RunStepKeepsInv(source, states, steps, k - 1);
    }
  }

  // ---------------------------------------------------------------------------
  // Results over every run
  // ---------------------------------------------------------------------------

  /** The page's window check never fires, the node's sixteen credits are conserved while the upload moves, and a
      body that fits, is not cut off and keeps its tombstone costs the peer no protocol violation. */
  lemma CreditAbidingUploads(source: Bytes, states: seq<Sys>, steps: seq<Step>, k: nat)
    requires IsRun(source, states, steps) && k < |states|
    ensures !states[k].sender.failed
    ensures Moving(states[k].node.body) ==> Committed(states[k].node.body) == MAX_REQUEST_CREDITS
    ensures Untroubled(states[k]) ==> states[k].node.violations == 0
  {
    RunInv(source, states, steps, k);
  }

  /** What the handler has read, and what it is owed or lost to a close behind that, is a prefix of the source. */
  lemma HandlerReadsPrefixOfSource(source: Bytes, states: seq<Sys>, steps: seq<Step>, k: nat)
    requires IsRun(source, states, steps) && k < |states|
    ensures states[k].node.body.delivered <= source
    ensures var b := states[k].node.body;
            b.delivered + Rest(b.ring) + b.dropped <= source
  {
    RunInv(source, states, steps, k);
    var b := states[k].node.body;
    assert b.delivered <= b.delivered + Rest(b.ring) + b.dropped;
  }

  /** End of file means the whole source exactly when no close threw bytes away, closed or not. */
  lemma EofIsCompleteExactlyWhen(source: Bytes, states: seq<Sys>, steps: seq<Step>, k: nat)
    requires IsRun(source, states, steps) && k < |states| && BodyLifecycle.Can(states[k].node.body, SeeEof)
    ensures var b := states[k].node.body;
            b.delivered + b.dropped == source && (b.delivered == source <==> b.dropped == [])
    ensures !states[k].node.body.ring.closed ==> states[k].node.body.delivered == source
  {
    RunInv(source, states, steps, k);
    var b := states[k].node.body;
    assert Rest(b.ring) == [];
    assert b.delivered + [] + b.dropped == b.delivered + b.dropped;
    if b.dropped == [] {
      assert b.delivered + [] == b.delivered;
    }
  }

  /** A page out of credit with nothing in flight is backed by unread frames, and reading any one of them grants. */
  lemma BlockedUploadCanProceed(source: Bytes, states: seq<Sys>, steps: seq<Step>, k: nat)
    requires IsRun(source, states, steps) && k < |states|
    requires var s := states[k];
             s.sender.phase.Idle? && s.sender.credits == 0 && Inbox(s) == [] && s.down == [] && s.node.greeted
             && s.refused == 0 && Moving(s.node.body)
    ensures Retained(states[k].node.body.ring) + (if states[k].node.body.owner == Reporting then 1 else 0) >= 13
    ensures ChunkConsumed(states[k].node.body).1 >= 1
  {
    RunInv(source, states, steps, k);
    BlockedUploadIsBackedByFrames(states[k].node.body);
  }

  /** Whatever races the removal, each later frame of a removed or ended request is absorbed without a violation. */
  lemma TombstoneAbsorbsTrailingFrames(source: Bytes, states: seq<Sys>, steps: seq<Step>, k: nat, allow: bool)
    requires IsRun(source, states, steps) && k < |states|
    requires var s := states[k];
             !s.node.hand.Nothing? && InHand(s.node.hand)[0].ReqBody? && (s.node.hand.Raced? || !s.node.hand.found)
             && (!s.node.live || s.node.body.bodyEnded) && !s.expired
    ensures var s' := Handle(states[k], allow);
            && s'.node.violations == states[k].node.violations
            && s'.node.body == states[k].node.body && s'.node.hand.Nothing?
  {
    RunInv(source, states, steps, k);
    TombstoneHasRoom(states[k]);
  }

  /** Short of a forgotten tombstone, a violation is charged for exactly two frames: one that exceeds the body limit,
      and one that finds the body of a live, unfinished request closed by its handler. */
  lemma ViolationExactlyWhen(source: Bytes, states: seq<Sys>, steps: seq<Step>, k: nat, allow: bool)
    requires IsRun(source, states, steps) && k < |states|
    requires Can(states[k], NodeHandle(allow)) && !states[k].expired
    ensures var n := states[k].node;
            Handle(states[k], allow).node.violations > n.violations
            <==> (n.hand.Held? && n.hand.msg.ReqBody? && n.hand.found
                  && Offer(n.body, n.hand.msg.payload) == Rejected(TooLarge))
                 || (n.hand.Raced? && n.live && !n.body.bodyEnded)
  {
    RunInv(source, states, steps, k);
    var s := states[k];
    HandSplits(s);
    assert Inbox(s)[0] == InHand(s.node.hand)[0];
    if InHand(s.node.hand)[0].ReqBody? && (!s.node.live || s.node.body.bodyEnded) {
      TombstoneHasRoom(s);
    }
    if s.node.hand.Held? && s.node.hand.msg.ReqBody? && s.node.hand.found {
      OnlyTooLargeIsRejectedOutright(s, s.node.hand.msg.payload);
    }
  }

  ghost predicate Reaches(source: Bytes, s: Sys) {
    exists states: seq<Sys>, steps: seq<Step> :: IsRun(source, states, steps) && states[|states| - 1] == s
  }

  lemma ReachesInit(source: Bytes)
    ensures Reaches(source, Init(source))
  {
    assert IsRun(source, [Init(source)], []);
  }

  lemma ReachesNext(source: Bytes, s: Sys, step: Step)
    requires Reaches(source, s) && Can(s, step)
    ensures Reaches(source, Do(s, step))
  {
    var states: seq<Sys>, steps: seq<Step> :| IsRun(source, states, steps) && states[|states| - 1] == s;
    var states', steps' := states + [Do(s, step)], steps + [step];
    forall i | 0 <= i < |steps'|
      ensures Linked(states', steps', i)
    {
      if i < |steps| {
        assert Linked(states, steps, i);
        assert states'[i] == states[i] && states'[i + 1] == states[i + 1] && steps'[i] == steps[i];
      }
    }
    assert IsRun(source, states', steps') && states'[|states'| - 1] == Do(s, step);
  }

  /** One frame on the lane, sent against the initial grant. */
  lemma OneFrameSent(source: Bytes) returns (s: Sys)
    requires 1 <= |source| < MAX_PAYLOAD_BYTES
    ensures Reaches(source, s)
    ensures s.up == [ReqBody(source)] && s.node == Node(FRESH, true, true, Nothing, NoTombstone, 0) && !s.expired
    ensures s.sender.phase == Ending
  {
    ReachesInit(source);
    s := Init(source);
    ReachesNext(source, s, NodeGreet);
    s := Do(s, NodeGreet);
    ReachesNext(source, s, PageGrant);
    s := Do(s, PageGrant);
    ReachesNext(source, s, PageTake);
    s := Do(s, PageTake);
    ReachesNext(source, s, PageRead);
    s := Do(s, PageRead);
    assert s.sender.phase == Ready(source);
    ReachesNext(source, s, PageSend);
    s := Do(s, PageSend);
  }

  /** A body closed after its end was seen reports end of file although nothing of it was read. */
  lemma EofAfterCloseIsShort(source: Bytes)
    requires 1 <= |source| < MAX_PAYLOAD_BYTES
    ensures exists s :: Reaches(source, s) && BodyLifecycle.Can(s.node.body, SeeEof)
                        && s.node.body.delivered == [] && s.node.body.dropped == source
  {
    var s := WholeBodyQueued(source);
    ReachesNext(source, s, NodeBody(CloseBegin));
    s := Do(s, NodeBody(CloseBegin));
    ReachesNext(source, s, NodeBody(Lock));
    s := Do(s, NodeBody(Lock));
    assert Flatten([source]) == source;
  }

  /** The one frame and the end behind it have both been accepted. */
  lemma WholeBodyQueued(source: Bytes) returns (s: Sys)
    requires 1 <= |source| < MAX_PAYLOAD_BYTES
    ensures Reaches(source, s)
    ensures s.node.live && s.node.hand.Nothing? && s.node.body.owner == Nobody
    ensures s.node.body.ring == Ring([source], NoChunk, false, true)
    ensures s.node.body.delivered == [] && s.node.body.dropped == []
  {
    s := OneFrameSent(source);
    ReachesNext(source, s, PageEnd);
    s := Do(s, PageEnd);
    s := NodeAccepts(source, s);
    ReachesNext(source, s, NodeLookup);
    s := Do(s, NodeLookup);
    ReachesNext(source, s, NodeHandle(true));
    s := Do(s, NodeHandle(true));
  }

  lemma NodeAccepts(source: Bytes, before: Sys) returns (s: Sys)
    requires 1 <= |source| < MAX_PAYLOAD_BYTES && Reaches(source, before)
    requires before.up == [ReqBody(source), ReqEnd]
    requires before.node == Node(FRESH, true, true, Nothing, NoTombstone, 0)
    ensures Reaches(source, s) && s.up == [ReqEnd]
    ensures s.node.live && s.node.hand.Nothing?
    ensures Offer(FRESH, source).Accepted? && s.node.body == Offer(FRESH, source).body
  {
    ReachesNext(source, before, NodeLookup);
    s := Do(before, NodeLookup);
    ReachesNext(source, s, NodeHandle(true));
    s := Do(s, NodeHandle(true));
  }

  /** A handler that closes its body early makes the next credited frame of a compliant page a violation. */
  lemma CutBodyIsCharged(source: Bytes)
    requires 1 <= |source| < MAX_PAYLOAD_BYTES
    ensures exists s :: Reaches(source, s) && s.node.violations == 1 && !s.expired
  {
    var s := OneFrameSent(source);
    ReachesNext(source, s, NodeBody(CloseBegin));
    s := Do(s, NodeBody(CloseBegin));
    ReachesNext(source, s, NodeLookup);
    s := Do(s, NodeLookup);
    assert Offer(s.node.body, source) == Rejected(RingRefused(Closed));
    ReachesNext(source, s, NodeHandle(true));
    s := Do(s, NodeHandle(true));
    ReachesNext(source, s, NodeHandle(true));
    assert Do(s, NodeHandle(true)).node.violations == 1;
  }
}
