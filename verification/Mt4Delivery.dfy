/**
  The Core-side client's sequence counters (adapters/mt4/client.py) against the
  bridge, under a network that loses, duplicates, delays and reorders frames.
 */
module Mt4Delivery {
  import opened Mt4Protocol
  import opened Mt4Gate
  import opened Mt4Venue
  import opened Mt4Conservation
  import opened Mt4Identity
  import opened Mt4Bridge
  import opened Mt4Safety

  type Counters = map<string, nat>

  function Max(a: nat, b: nat): nat {
    if a >= b then a else b
  }

  /** `resync_sequences`: adopt the bridge's counters where they are ahead. */
  function Resynced(client: Counters, mapping: Counters): Counters {
    map s | s in client.Keys + mapping.Keys ::
      if s in mapping then Max(LastOf(client, s), mapping[s]) else LastOf(client, s)
  }

  class ExecutionClient {
    var sequences: Counters

    constructor ()
      ensures sequences == map[]
    {
      sequences := map[];
    }

    method NextSequence(strategy: string) returns (n: nat)
      modifies this
      ensures n == old(LastOf(sequences, strategy)) + 1
      ensures sequences == old(sequences)[strategy := n]
    {
      sequences := sequences[strategy := LastOf(sequences, strategy) + 1];
      n := sequences[strategy];
    }

    /** The loop over the reconciliation payload, in whatever order it is visited. */
    method Resync(mapping: Counters)
      modifies this
      ensures sequences == Resynced(old(sequences), mapping)
    {
      var left := mapping.Keys;
      while left != {}
        invariant left <= mapping.Keys
        invariant sequences == Resynced(old(sequences), mapping - left)
      {
        var s :| s in left;
        sequences := sequences[s := Max(LastOf(sequences, s), mapping[s])];
        left := left - {s};
        assert (mapping - left).Keys == mapping.Keys - left;
      }
      assert mapping - left == mapping;
    }
  }

  /** Resynchronising never lowers a counter, and stays when it has nothing to learn. */
  lemma ResyncNeverLowers(client: Counters, mapping: Counters)
    ensures forall s: string :: LastOf(Resynced(client, mapping), s) ==
                                Max(LastOf(client, s), LastOf(mapping, s))
  {
  }

  // ----- a client incarnation, the network and the bridge --------------------------------

  /**
    Everything one incarnation of the client ever issued, in order, and the
    counters in every answer the bridge gave to a reconcile.
   */
  datatype Link = Link(client: Counters, issued: seq<Command>, answers: seq<Counters>, world: World)

  datatype LinkStep =
    | Issue(messageId: Uuid, timestamp: Time, body: Body)
    | Deliver(index: nat, now: Time)
    | Junk(frame: Frame, now: Time)
    | Ambient(step: Step)
    | Resync(answer: nat)

  /** A frame the bridge turns away before its gate. */
  predicate Damaged(f: Frame) {
    !Intact(f)
  }

  /** The counters do not run ahead of the bridge. */
  ghost predicate Truthful(mapping: Counters, g: Gate) {
    forall s: string :: LastOf(mapping, s) <= LastOf(g.last, s)
  }

  ghost predicate Possible(cfg: Config, l: Link, s: LinkStep) {
    match s
    case Issue(_, _, _) => true
    case Deliver(index, _) => index < |l.issued|
    case Junk(frame, _) => Damaged(frame)
    case Ambient(step) => !step.Receive? && Allowed(cfg, step)
    case Resync(answer) => answer < |l.answers|
  }

  /** The command builders: the next number of the strategy's namespace, then the frame. */
  function Built(client: Counters, messageId: Uuid, timestamp: Time, body: Body): Command {
    Command(messageId, timestamp, LastOf(client, body.strategyId) + 1, body)
  }

  /** What the bridge tells about its counters in answer to a reconcile. */
  function Answer(cfg: Config, hash: Body -> string, b: Bridge, c: Command, now: Time): seq<Counters>
    requires Ready(cfg, b.venue)
  {
    if !WellFormed(c) || c.body.messageType != ReconciliationRequest then []
    else
      var h := HandleCommand(cfg, hash, b, c, now);
      if h.Replied? && h.reply.ReconciliationResponse? then [h.reply.lastSequences] else []
  }

  /** A reconcile is answered with the counters of the gate. */
  lemma AnswersAreTheCounters(cfg: Config, hash: Body -> string, b: Bridge, c: Command, now: Time)
    requires Ready(cfg, b.venue)
    ensures Answer(cfg, hash, b, c, now) ==
            if WellFormed(c) && c.body.messageType == ReconciliationRequest then [b.gate.last] else []
  {
  }

  ghost function LinkAfter(cfg: Config, hash: Body -> string, l: Link, s: LinkStep): (l': Link)
    requires Ready(cfg, l.world.bridge.venue) && Possible(cfg, l, s)
    ensures Ready(cfg, l'.world.bridge.venue)
  {
    match s
    case Issue(messageId, timestamp, body) =>
      var c := Built(l.client, messageId, timestamp, body);
      l.(client := l.client[body.strategyId := c.sequence], issued := l.issued + [c])
    case Deliver(index, now) =>
      l.(world := After(cfg, hash, l.world, Receive(CommandFrame(l.issued[index], true), now)),
         answers := l.answers + Answer(cfg, hash, l.world.bridge, l.issued[index], now))
    case Junk(frame, now) => l.(world := After(cfg, hash, l.world, Receive(frame, now)))
    case Ambient(step) => l.(world := After(cfg, hash, l.world, step))
    case Resync(answer) => l.(client := Resynced(l.client, l.answers[answer]))
  }

  function BySequence(cs: seq<Command>, strategy: string): seq<Command> {
    if cs == [] then []
    else
      var c := cs[|cs| - 1];
      BySequence(cs[..|cs| - 1], strategy) + (if c.body.strategyId == strategy then [c] else [])
  }

  function Commands(xs: seq<Executed>): seq<Command> {
    seq(|xs|, i requires 0 <= i < |xs| => xs[i].command)
  }

  ghost predicate CountsUp(cs: seq<Command>) {
    forall k | 0 <= k < |cs| :: cs[k].sequence == k + 1
  }

  /** The client numbers each namespace 1, 2, 3, ... */
  ghost predicate Numbered(l: Link, strategy: string) {
    var issued := BySequence(l.issued, strategy);
    && |issued| == LastOf(l.client, strategy)
    && CountsUp(issued)
  }

  /** What the bridge executed for a strategy is a prefix of what was issued for it. */
  ghost predicate InOrder(l: Link, strategy: string) {
    var issued := BySequence(l.issued, strategy);
    var last := LastOf(l.world.bridge.gate.last, strategy);
    && last <= |issued|
    && BySequence(Commands(l.world.executed), strategy) == issued[..last]
  }

  ghost predicate Orderly(cfg: Config, hash: Body -> string, l: Link) {
    && Safe(cfg, hash, l.world)
    && Told(l)
    && forall s: string :: Numbered(l, s) && InOrder(l, s)
  }

  /** Answers, however late they are used, do not run ahead of the bridge. */
  ghost predicate Told(l: Link) {
    forall i | 0 <= i < |l.answers| :: Truthful(l.answers[i], l.world.bridge.gate)
  }

  lemma AppendCommand(cs: seq<Command>, c: Command, strategy: string)
    ensures BySequence(cs + [c], strategy) ==
            if c.body.strategyId == strategy then BySequence(cs, strategy) + [c] else BySequence(cs, strategy)
  {
    assert (cs + [c])[..|cs|] == cs;
  }

  lemma CountsUpToo(before: seq<Command>, c: Command)
    requires CountsUp(before + [c])
    ensures CountsUp(before) && c.sequence == |before| + 1
  {
    var own := before + [c];
    assert own[|before|] == c;
    forall k | 0 <= k < |before| ensures before[k].sequence == k + 1 {
      assert own[k].sequence == k + 1;
    }
  }

  /** An issued command sits in its namespace at the place its number says. */
  lemma {:induction false} FoundByNumber(cs: seq<Command>, i: nat)
    requires i < |cs| && CountsUp(BySequence(cs, cs[i].body.strategyId))
    ensures var own := BySequence(cs, cs[i].body.strategyId);
            1 <= cs[i].sequence <= |own| && own[cs[i].sequence - 1] == cs[i]
  {
    hide BySequence, CountsUp;
    var s, n := cs[i].body.strategyId, |cs| - 1;
    assert cs == cs[..n] + [cs[n]];
    AppendCommand(cs[..n], cs[n], s);
    if cs[n].body.strategyId == s {
      CountsUpToo(BySequence(cs[..n], s), cs[n]);
    }
    if i < n {
      assert cs[..n][i] == cs[i];
      FoundByNumber(cs[..n], i);
    }
  }

  /** A command that reaches the venue extends its strategy's prefix by exactly itself. */
  lemma ExecutionExtendsPrefix(cfg: Config, hash: Body -> string, w: World, c: Command, now: Time)
    requires Safe(cfg, hash, w) && WellFormed(c)
    ensures var w' := AfterCommand(cfg, hash, w, c, now);
            if Executes(w.bridge, c, hash, now) && c.body.messageType != ReconciliationRequest then
              && c.sequence == LastOf(w.bridge.gate.last, c.body.strategyId) + 1
              && w'.bridge.gate.last == w.bridge.gate.last[c.body.strategyId := c.sequence]
              && Commands(w'.executed) == Commands(w.executed) + [c]
            else
              w' == w
  {
    hide Conserved, Identified, PositionsMatch, Settled, OneOrderPerIntent, SubmitsOnce, VenueCall,
         VenueJournal, Verdict, Dispatch;
    if !Executes(w.bridge, c, hash, now) {
      InertKeepsWorld(cfg, hash, w, c, now);
    } else if c.body.messageType == ReconciliationRequest {
      ReconcileIsReadOnly(cfg, hash, w, c, now);
    } else {
      ExecutedIsRecorded(cfg, hash, w.bridge, c, now);
      AcceptedExactly(w.bridge.gate, c, hash, now);
      RecordAfterAccept(w.bridge.gate, c, Dispatch(cfg, w.bridge, c, now).1, hash, now);
    }
  }

  /** The command with the next number extends the prefix, in its own namespace only. */
  lemma NextExtendsPrefix(issued: seq<Command>, done: seq<Command>, last: Counters, c: Command, s: string)
    requires c.sequence == LastOf(last, c.body.strategyId) + 1
    requires c.sequence <= |BySequence(issued, c.body.strategyId)|
    requires BySequence(issued, c.body.strategyId)[c.sequence - 1] == c
    requires LastOf(last, s) <= |BySequence(issued, s)|
    requires BySequence(done, s) == BySequence(issued, s)[..LastOf(last, s)]
    ensures var last' := last[c.body.strategyId := c.sequence];
            && LastOf(last', s) <= |BySequence(issued, s)|
            && BySequence(done + [c], s) == BySequence(issued, s)[..LastOf(last', s)]
  {
    hide BySequence;
    AppendCommand(done, c, s);
  }

  lemma DeliveryKeepsOrder(cfg: Config, hash: Body -> string, l: Link, i: nat, now: Time, s: string)
    requires Orderly(cfg, hash, l) && i < |l.issued| && Ready(cfg, l.world.bridge.venue)
    ensures InOrder(LinkAfter(cfg, hash, l, Deliver(i, now)), s)
  {
    hide Safe, AfterCommand, Executes, BySequence, Commands;
    var c := l.issued[i];
    assert Numbered(l, c.body.strategyId) && InOrder(l, c.body.strategyId);
    FoundByNumber(l.issued, i);
    assert InOrder(l, s);
    if WellFormed(c) {
      ExecutionExtendsPrefix(cfg, hash, l.world, c, now);
      if Executes(l.world.bridge, c, hash, now) && c.body.messageType != ReconciliationRequest {
        NextExtendsPrefix(l.issued, Commands(l.world.executed), l.world.bridge.gate.last, c, s);
      }
    }
  }

  lemma AmbientKeepsGate(cfg: Config, hash: Body -> string, w: World, step: Step)
    requires Ready(cfg, w.bridge.venue) && Allowed(cfg, step)
    requires step.Receive? ==> Damaged(step.frame)
    ensures var w' := After(cfg, hash, w, step);
            w'.bridge.gate == w.bridge.gate && w'.executed == w.executed
  {
  }

  lemma IssueKeepsOrder(l: Link, c: Command, s: string)
    requires Numbered(l, s) && InOrder(l, s)
    requires c.sequence == LastOf(l.client, c.body.strategyId) + 1
    ensures var l' := l.(client := l.client[c.body.strategyId := c.sequence], issued := l.issued + [c]);
            Numbered(l', s) && InOrder(l', s)
  {
    hide BySequence, Commands;
    AppendCommand(l.issued, c, s);
  }

  lemma ResyncKeepsOrder(l: Link, mapping: Counters, s: string)
    requires Numbered(l, s) && InOrder(l, s) && Truthful(mapping, l.world.bridge.gate)
    ensures var l' := l.(client := Resynced(l.client, mapping));
            Numbered(l', s) && InOrder(l', s)
  {
    hide BySequence, Commands;
    ResyncNeverLowers(l.client, mapping);
  }

  lemma SameGateKeepsOrder(l: Link, w: World, s: string)
    requires Numbered(l, s) && InOrder(l, s)
    requires w.bridge.gate == l.world.bridge.gate && w.executed == l.world.executed
    ensures Numbered(l.(world := w), s) && InOrder(l.(world := w), s)
  {
    hide BySequence, Commands;
  }

  lemma StepKeepsOrder(cfg: Config, hash: Body -> string, l: Link, step: LinkStep, s: string)
    requires Orderly(cfg, hash, l) && Possible(cfg, l, step) && Ready(cfg, l.world.bridge.venue)
    ensures var l' := LinkAfter(cfg, hash, l, step);
            Numbered(l', s) && InOrder(l', s)
  {
    hide Safe, After, Intact, Numbered, InOrder;
    assert Numbered(l, s) && InOrder(l, s);
    match step {
      case Issue(messageId, timestamp, body) =>
        IssueKeepsOrder(l, Built(l.client, messageId, timestamp, body), s);
      case Deliver(i, now) =>
        DeliveryKeepsOrder(cfg, hash, l, i, now, s);
        DeliveryKeepsNumbers(cfg, hash, l, i, now, s);
      case Junk(f, now) =>
        AmbientKeepsGate(cfg, hash, l.world, Receive(f, now));
        SameGateKeepsOrder(l, After(cfg, hash, l.world, Receive(f, now)), s);
      case Ambient(a) =>
        AmbientKeepsGate(cfg, hash, l.world, a);
        SameGateKeepsOrder(l, After(cfg, hash, l.world, a), s);
      case Resync(answer) => ResyncKeepsOrder(l, l.answers[answer], s);
    }
  }

  lemma DeliveryKeepsNumbers(cfg: Config, hash: Body -> string, l: Link, i: nat, now: Time, s: string)
    requires Ready(cfg, l.world.bridge.venue) && i < |l.issued| && Numbered(l, s)
    ensures Numbered(LinkAfter(cfg, hash, l, Deliver(i, now)), s)
  {
    hide After, BySequence;
  }

  lemma StepKeepsWorldSafe(cfg: Config, hash: Body -> string, l: Link, step: LinkStep)
    requires Safe(cfg, hash, l.world) && Possible(cfg, l, step) && Ready(cfg, l.world.bridge.venue)
    ensures Safe(cfg, hash, LinkAfter(cfg, hash, l, step).world)
  {
    hide Safe, After;
    match step {
      case Deliver(i, now) => StepKeepsSafe(cfg, hash, l.world, Receive(CommandFrame(l.issued[i], true), now));
      case Junk(f, now) => StepKeepsSafe(cfg, hash, l.world, Receive(f, now));
      case Ambient(a) => StepKeepsSafe(cfg, hash, l.world, a);
      case _ =>
    }
  }

  /** The counters of the bridge only grow, so answers stay true. */
  lemma StepKeepsTold(cfg: Config, hash: Body -> string, l: Link, step: LinkStep)
    requires Safe(cfg, hash, l.world) && Told(l) && Possible(cfg, l, step) && Ready(cfg, l.world.bridge.venue)
    ensures Told(LinkAfter(cfg, hash, l, step))
  {
    hide Safe, After, Intact, Answer, AfterCommand, Executes;
    match step {
      case Deliver(i, now) =>
        AnswersAreTheCounters(cfg, hash, l.world.bridge, l.issued[i], now);
        DeliveryOnlyCounts(cfg, hash, l.world, l.issued[i], now);
      case Junk(f, now) => AmbientKeepsGate(cfg, hash, l.world, Receive(f, now));
      case Ambient(a) => AmbientKeepsGate(cfg, hash, l.world, a);
      case _ =>
    }
  }

  lemma DeliveryOnlyCounts(cfg: Config, hash: Body -> string, w: World, c: Command, now: Time)
    requires Safe(cfg, hash, w) && Ready(cfg, w.bridge.venue)
    ensures var w' := After(cfg, hash, w, Receive(CommandFrame(c, true), now));
            forall s: string :: LastOf(w.bridge.gate.last, s) <= LastOf(w'.bridge.gate.last, s)
  {
    hide Safe, AfterCommand, Executes;
    if WellFormed(c) { ExecutionExtendsPrefix(cfg, hash, w, c, now); }
  }

  lemma StepIsOrderly(cfg: Config, hash: Body -> string, l: Link, step: LinkStep)
    requires Orderly(cfg, hash, l) && Possible(cfg, l, step)
    ensures Ready(cfg, l.world.bridge.venue)
    ensures Orderly(cfg, hash, LinkAfter(cfg, hash, l, step))
  {
    hide Safe, Told, Numbered, InOrder, LinkAfter, Possible;
    SafeIsReady(cfg, hash, l.world);
    StepKeepsWorldSafe(cfg, hash, l, step);
    StepKeepsTold(cfg, hash, l, step);
    forall s: string
      ensures Numbered(LinkAfter(cfg, hash, l, step), s) && InOrder(LinkAfter(cfg, hash, l, step), s)
    {
      StepKeepsOrder(cfg, hash, l, step, s);
    }
  }

  ghost predicate LinkRun(cfg: Config, hash: Body -> string, l: Link, steps: seq<LinkStep>, l': Link)
    decreases |steps|
  {
    if steps == [] then l' == l
    else
      && Ready(cfg, l.world.bridge.venue)
      && Possible(cfg, l, steps[0])
      && LinkRun(cfg, hash, LinkAfter(cfg, hash, l, steps[0]), steps[1..], l')
  }

  lemma {:induction false} RunIsOrderly(cfg: Config, hash: Body -> string, l: Link, steps: seq<LinkStep>, l': Link)
    requires Orderly(cfg, hash, l) && LinkRun(cfg, hash, l, steps, l')
    ensures Orderly(cfg, hash, l')
    decreases |steps|
  {
    hide Orderly, LinkAfter, Possible;
    if steps != [] {
      StepIsOrderly(cfg, hash, l, steps[0]);
      RunIsOrderly(cfg, hash, LinkAfter(cfg, hash, l, steps[0]), steps[1..], l');
    }
  }

  function Connected(cfg: Config, quotes: map<string, Quote>): Link {
    Link(map[], [], [], Boot(cfg, quotes))
  }

  /**
    In-order prefix delivery: whatever the network does, the commands the bridge
    executed for a strategy carry the numbers 1..n and are, frame for frame, the
    first n commands this client incarnation issued for it.
   */
  lemma ExecutedIsAPrefixOfIssued(cfg: Config, hash: Body -> string, quotes: map<string, Quote>,
                                  steps: seq<LinkStep>, l: Link, strategy: string)
    requires ValidConfig(cfg) && GoodQuotes(cfg, quotes)
    requires LinkRun(cfg, hash, Connected(cfg, quotes), steps, l)
    ensures var done := BySequence(Commands(l.world.executed), strategy);
            && done <= BySequence(l.issued, strategy)
            && |done| == LastOf(l.world.bridge.gate.last, strategy) <= LastOf(l.client, strategy)
            && forall k | 0 <= k < |done| :: done[k].sequence == k + 1
  {
    hide LinkRun, Safe;
    BootIsSafe(cfg, hash, quotes);
    var start := Connected(cfg, quotes);
    assert Commands(start.world.executed) == [];
    assert forall s: string :: Numbered(start, s) && InOrder(start, s);
    RunIsOrderly(cfg, hash, start, steps, l);
    assert Numbered(l, strategy) && InOrder(l, strategy);
  }

  // ----- lock step: every command sent is delivered once, at once -------------------------

  datatype Exchange =
    | Send(messageId: Uuid, timestamp: Time, body: Body, now: Time)
    | Between(step: Step)
    | Adopt(answer: nat)

  ghost predicate ExchangeAllowed(cfg: Config, e: Exchange) {
    e.Between? ==> !e.step.Receive? && Allowed(cfg, e.step)
  }

  /** The command runs at the venue and takes its number. */
  predicate Taken(b: Bridge, c: Command, hash: Body -> string, now: Time) {
    WellFormed(c) && Executes(b, c, hash, now) && c.body.messageType != ReconciliationRequest
  }

  ghost function Exchanged(cfg: Config, hash: Body -> string, l: Link, e: Exchange): (l': Link)
    requires Ready(cfg, l.world.bridge.venue) && ExchangeAllowed(cfg, e)
    ensures Ready(cfg, l'.world.bridge.venue)
  {
    match e
    case Send(messageId, timestamp, body, now) =>
      LinkAfter(cfg, hash, LinkAfter(cfg, hash, l, Issue(messageId, timestamp, body)),
                Deliver(|l.issued|, now))
    case Between(step) => LinkAfter(cfg, hash, l, Ambient(step))
    case Adopt(answer) => if answer < |l.answers| then LinkAfter(cfg, hash, l, Resync(answer)) else l
  }

  ghost function Conversation(cfg: Config, hash: Body -> string, l: Link, es: seq<Exchange>): Link
    requires Ready(cfg, l.world.bridge.venue) && forall e <- es :: ExchangeAllowed(cfg, e)
    decreases |es|
  {
    if es == [] then l else Conversation(cfg, hash, Exchanged(cfg, hash, l, es[0]), es[1..])
  }

  /** How many commands of the strategy were refused, replayed or only queried. */
  ghost function Untaken(cfg: Config, hash: Body -> string, l: Link, es: seq<Exchange>, s: string): nat
    requires Ready(cfg, l.world.bridge.venue) && forall e <- es :: ExchangeAllowed(cfg, e)
    decreases |es|
  {
    if es == [] then 0
    else
      Untaken(cfg, hash, Exchanged(cfg, hash, l, es[0]), es[1..], s) +
      if es[0].Send? && es[0].body.strategyId == s
         && !Taken(l.world.bridge, Built(l.client, es[0].messageId, es[0].timestamp, es[0].body), hash, es[0].now)
      then 1 else 0
  }

  ghost function Gap(l: Link, s: string): int {
    LastOf(l.client, s) - LastOf(l.world.bridge.gate.last, s)
  }

  /** A command is taken only from a client exactly in step; otherwise the gap grows by one. */
  lemma SendMovesGap(cfg: Config, hash: Body -> string, l: Link, e: Exchange, s: string)
    requires Safe(cfg, hash, l.world) && e.Send? && Ready(cfg, l.world.bridge.venue)
    ensures var l' := Exchanged(cfg, hash, l, e);
            var taken := Taken(l.world.bridge, Built(l.client, e.messageId, e.timestamp, e.body), hash, e.now);
            && Safe(cfg, hash, l'.world)
            && Gap(l', s) == Gap(l, s) + (if e.body.strategyId == s && !taken then 1 else 0)
            && (taken ==> Gap(l, e.body.strategyId) == 0)
            && (LastOf(l'.world.bridge.gate.last, s) != LastOf(l.world.bridge.gate.last, s) ==>
                  taken && e.body.strategyId == s)
  {
    hide Safe, AfterCommand, Executes;
    var c := Built(l.client, e.messageId, e.timestamp, e.body);
    StepKeepsSafe(cfg, hash, l.world, Receive(CommandFrame(c, true), e.now));
    if WellFormed(c) {
      ExecutionExtendsPrefix(cfg, hash, l.world, c, e.now);
    }
  }

  lemma OtherMovesGap(cfg: Config, hash: Body -> string, l: Link, e: Exchange, s: string)
    requires Safe(cfg, hash, l.world) && Told(l) && !e.Send? && Ready(cfg, l.world.bridge.venue)
    requires ExchangeAllowed(cfg, e) && Gap(l, s) >= 0
    ensures var l' := Exchanged(cfg, hash, l, e);
            && Safe(cfg, hash, l'.world)
            && Gap(l', s) == Gap(l, s)
            && LastOf(l'.world.bridge.gate.last, s) == LastOf(l.world.bridge.gate.last, s)
  {
    hide Safe, After;
    if e.Between? {
      StepKeepsSafe(cfg, hash, l.world, e.step);
      AmbientKeepsGate(cfg, hash, l.world, e.step);
    } else if e.answer < |l.answers| {
      ResyncNeverLowers(l.client, l.answers[e.answer]);
    }
  }

  lemma ExchangeKeepsTold(cfg: Config, hash: Body -> string, l: Link, e: Exchange)
    requires Safe(cfg, hash, l.world) && Told(l) && Ready(cfg, l.world.bridge.venue) && ExchangeAllowed(cfg, e)
    ensures Told(Exchanged(cfg, hash, l, e))
  {
    hide Safe, After, Answer;
    match e {
      case Send(messageId, timestamp, body, now) =>
        var sent := LinkAfter(cfg, hash, l, Issue(messageId, timestamp, body));
        StepKeepsTold(cfg, hash, sent, Deliver(|l.issued|, now));
      case Between(step) => StepKeepsTold(cfg, hash, l, Ambient(step));
      case Adopt(answer) =>
        if answer < |l.answers| { StepKeepsTold(cfg, hash, l, Resync(answer)); }
    }
  }

  lemma ExchangeMovesGap(cfg: Config, hash: Body -> string, l: Link, e: Exchange, s: string)
    requires Safe(cfg, hash, l.world) && Told(l) && Ready(cfg, l.world.bridge.venue)
    requires ExchangeAllowed(cfg, e) && Gap(l, s) >= 0
    ensures var l' := Exchanged(cfg, hash, l, e);
            var taken := e.Send? && Taken(l.world.bridge, Built(l.client, e.messageId, e.timestamp, e.body), hash, e.now);
            && Safe(cfg, hash, l'.world) && Told(l')
            && Gap(l', s) == Gap(l, s) + (if e.Send? && e.body.strategyId == s && !taken then 1 else 0)
            && (LastOf(l'.world.bridge.gate.last, s) != LastOf(l.world.bridge.gate.last, s) ==> Gap(l, s) == 0)
  {
    hide Safe, Told, Exchanged, Gap, Taken;
    ExchangeKeepsTold(cfg, hash, l, e);
    if e.Send? {
      SendMovesGap(cfg, hash, l, e, s);
    } else {
      OtherMovesGap(cfg, hash, l, e, s);
    }
  }

  /**
    Counter drift: over any conversation on a lossless channel, the client is
    ahead of the bridge by exactly the commands the bridge did not take.
   */
  lemma {:induction false} GapCountsUntaken(cfg: Config, hash: Body -> string, l: Link, es: seq<Exchange>, s: string)
    requires Safe(cfg, hash, l.world) && Told(l) && Ready(cfg, l.world.bridge.venue) && Gap(l, s) >= 0
    requires forall e <- es :: ExchangeAllowed(cfg, e)
    ensures Gap(Conversation(cfg, hash, l, es), s) == Gap(l, s) + Untaken(cfg, hash, l, es, s)
    decreases |es|
  {
    hide Safe, Told, Exchanged, Gap, Taken;
    if es != [] {
      ExchangeMovesGap(cfg, hash, l, es[0], s);
      GapCountsUntaken(cfg, hash, Exchanged(cfg, hash, l, es[0]), es[1..], s);
    }
  }

  /**
    A gap never closes: once one command of a strategy was not taken, the bridge
    takes no further command of that strategy from this client, no matter how
    often the client reconciles and resynchronises.
   */
  lemma {:induction false} GapIsForever(cfg: Config, hash: Body -> string, l: Link, es: seq<Exchange>, s: string)
    requires Safe(cfg, hash, l.world) && Told(l) && Ready(cfg, l.world.bridge.venue) && Gap(l, s) > 0
    requires forall e <- es :: ExchangeAllowed(cfg, e)
    ensures var l' := Conversation(cfg, hash, l, es);
            && Gap(l', s) >= Gap(l, s)
            && LastOf(l'.world.bridge.gate.last, s) == LastOf(l.world.bridge.gate.last, s)
    decreases |es|
  {
    hide Safe, Told, Exchanged, Gap, Taken;
    if es != [] {
      ExchangeMovesGap(cfg, hash, l, es[0], s);
      GapIsForever(cfg, hash, Exchanged(cfg, hash, l, es[0]), es[1..], s);
    }
  }

  /** A restarted client on a bridge in any state: reconcile, have it delivered, resync from the answer. */
  ghost function Restarted(cfg: Config, hash: Body -> string, w: World, messageId: Uuid, timestamp: Time,
                           body: Body, now: Time): Link
    requires Ready(cfg, w.bridge.venue)
    requires body.messageType == ReconciliationRequest && WellFormed(Built(map[], messageId, timestamp, body))
  {
    var issued := LinkAfter(cfg, hash, Link(map[], [], [], w), Issue(messageId, timestamp, body));
    AnswersAreTheCounters(cfg, hash, w.bridge, issued.issued[0], now);
    LinkAfter(cfg, hash, LinkAfter(cfg, hash, issued, Deliver(0, now)), Resync(0))
  }

  /**
    After restart, reconcile and resync the client is in step everywhere except
    in the namespace it reconciled in, and there exactly when the bridge had
    already taken a command of that namespace. The bridge is as it was.
   */
  lemma RestartIsInStep(cfg: Config, hash: Body -> string, w: World, messageId: Uuid, timestamp: Time,
                        body: Body, now: Time, s: string)
    requires Safe(cfg, hash, w) && Ready(cfg, w.bridge.venue)
    requires body.messageType == ReconciliationRequest && WellFormed(Built(map[], messageId, timestamp, body))
    ensures var l := Restarted(cfg, hash, w, messageId, timestamp, body, now);
            && l.world == w && Gap(l, s) >= 0
            && (Gap(l, s) == 0 <==> s != body.strategyId || LastOf(w.bridge.gate.last, s) >= 1)
  {
    hide Safe, AfterCommand, Answer;
    var c := Built(map[], messageId, timestamp, body);
    AnswersAreTheCounters(cfg, hash, w.bridge, c, now);
    ExecutionExtendsPrefix(cfg, hash, w, c, now);
    ResyncNeverLowers(map[body.strategyId := 1], w.bridge.gate.last);
    var l := Restarted(cfg, hash, w, messageId, timestamp, body, now);
    assert l.client == Resynced(map[body.strategyId := 1], w.bridge.gate.last);
  }
}
