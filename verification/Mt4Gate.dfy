/**
  The command gate: expiry, then duplicate detection, then strict per-strategy
  sequencing (adapters/mt4/guards.py, adapters/mt4/ledger.py).

  `Gate` is the value the specification speaks about; `IntentLedger`,
  `SequenceTracker` and `CommandGate` are the mutable objects, each proved to
  move that value exactly as the functions here say.
 */
module Mt4Gate {
  import opened Options
  import opened Mt4Protocol

  type Key = (Uuid, MessageType)

  datatype IntentRecord = IntentRecord(
    orderIntentId: Uuid,
    fingerprint: string,
    commandType: MessageType,
    sequence: nat,
    strategyId: string,
    symbol: Option<string>,
    originalReply: Option<Reply>)

  datatype Gate = Gate(records: map<Key, IntentRecord>, last: map<string, nat>)

  datatype GateOutcome = GateOutcome(
    accepted: bool,
    error: Option<ErrorCode>,
    replay: Option<Reply>,
    expectedSequence: Option<nat>)

  const EmptyGate := Gate(map[], map[])

  function LastOf(last: map<string, nat>, strategy: string): nat {
    if strategy in last then last[strategy] else 0
  }

  function KeyOf(c: Command): Key
    requires c.body.orderIntentId.Some?
  {
    (c.body.orderIntentId.value, c.body.messageType)
  }

  predicate Expired(c: Command, now: Time) {
    c.body.expiresAt.Some? && c.body.expiresAt.value <= now
  }

  /** The verdict of `CommandGate.evaluate`, check by check in the frozen order. */
  function Verdict(g: Gate, c: Command, hash: Body -> string, now: Time): GateOutcome {
    var expected := Some(LastOf(g.last, c.body.strategyId) + 1);
    var sequenced :=
      if c.sequence == LastOf(g.last, c.body.strategyId) + 1 then
        GateOutcome(true, None, None, None)
      else
        GateOutcome(false, Some(SequenceViolation), None, expected);
    if c.body.messageType == ReconciliationRequest then
      GateOutcome(true, None, None, None)
    else if Expired(c, now) then
      GateOutcome(false, Some(CommandExpired), None, expected)
    else if c.body.orderIntentId.None? || KeyOf(c) !in g.records then
      sequenced
    else if g.records[KeyOf(c)].fingerprint == hash(c.body) then
      GateOutcome(false, None, g.records[KeyOf(c)].originalReply, expected)
    else if c.body.messageType == ModifyOrder then
      sequenced
    else
      GateOutcome(false, Some(IntentConflict), None, expected)
  }

  function BuildRecord(c: Command, hash: Body -> string): IntentRecord
    requires c.body.orderIntentId.Some?
  {
    IntentRecord(c.body.orderIntentId.value, hash(c.body), c.body.messageType, c.sequence,
                 c.body.strategyId, c.body.symbol, None)
  }

  /** `CommandGate.record`; `None` is the ValueError of the ledger or the tracker. */
  function Recorded(g: Gate, c: Command, reply: Reply, hash: Body -> string): Option<Gate> {
    if c.body.messageType == ReconciliationRequest then
      Some(g)
    else if c.body.orderIntentId.Some? && KeyOf(c) in g.records && c.body.messageType != ModifyOrder then
      None
    else if c.sequence != LastOf(g.last, c.body.strategyId) + 1 then
      None
    else
      var records :=
        if c.body.orderIntentId.Some? then
          g.records[KeyOf(c) := BuildRecord(c, hash).(originalReply := Some(reply))]
        else
          g.records;
      Some(Gate(records, g.last[c.body.strategyId := c.sequence]))
  }

  // ----- what the gate promises ------------------------------------------------

  /** Every remembered intent carries the reply it would replay. */
  ghost predicate Remembers(g: Gate) {
    forall k <- g.records :: g.records[k].originalReply.Some?
  }

  /** The command is new to the ledger, or is an amendment with new content. */
  ghost predicate Novel(g: Gate, c: Command, hash: Body -> string) {
    c.body.orderIntentId.Some? && KeyOf(c) in g.records ==>
      c.body.messageType == ModifyOrder && g.records[KeyOf(c)].fingerprint != hash(c.body)
  }

  /**
    Both directions of the accept verdict, and the dichotomy the emulator relies
    on: it never looks at `accepted`, only at `replay` and `error`, so a refusal
    that carried neither would be executed.
   */
  lemma AcceptedExactly(g: Gate, c: Command, hash: Body -> string, now: Time)
    requires Remembers(g)
    ensures var o := Verdict(g, c, hash, now);
            && (o.accepted <==>
                  || c.body.messageType == ReconciliationRequest
                  || (!Expired(c, now) && Novel(g, c, hash)
                      && c.sequence == LastOf(g.last, c.body.strategyId) + 1))
            && (o.accepted <==> o.replay.None? && o.error.None?)
            && (o.replay.None? || o.error.None?)
  {
    if c.body.orderIntentId.Some? && KeyOf(c) in g.records {
      assert g.records[KeyOf(c)].originalReply.Some?;
    }
  }

  /** Without `Remembers`, a refused duplicate reaches the venue. */
  lemma ForgottenReplyIsExecuted(c: Command, hash: Body -> string, now: Time)
    requires c.body.messageType == SubmitOrder && c.body.orderIntentId.Some? && !Expired(c, now)
    ensures exists g: Gate ::
              var o := Verdict(g, c, hash, now);
              !o.accepted && o.replay.None? && o.error.None?
  {
    var g := Gate(map[KeyOf(c) := BuildRecord(c, hash)], map[]);
    assert !Verdict(g, c, hash, now).accepted;
  }

  /** `record` never raises after an accepting `evaluate`, and keeps what it must. */
  lemma RecordAfterAccept(g: Gate, c: Command, reply: Reply, hash: Body -> string, now: Time)
    requires Remembers(g)
    requires Verdict(g, c, hash, now).accepted
    ensures Recorded(g, c, reply, hash).Some?
    ensures var g' := Recorded(g, c, reply, hash).value;
            && Remembers(g')
            && g.records.Keys <= g'.records.Keys
            && (forall s: string :: LastOf(g.last, s) <= LastOf(g'.last, s))
            && (forall k <- g.records :: k.1 != ModifyOrder ==> g'.records[k] == g.records[k])
            && (c.body.messageType == ReconciliationRequest ==> g' == g)
            && (c.body.messageType != ReconciliationRequest ==>
                  LastOf(g'.last, c.body.strategyId) == c.sequence)
            && (forall s: string :: s != c.body.strategyId ==> LastOf(g'.last, s) == LastOf(g.last, s))
  {
    AcceptedExactly(g, c, hash, now);
  }

  // ----- the mutable objects ---------------------------------------------------

  class IntentLedger {
    var records: map<Key, IntentRecord>

    constructor ()
      ensures records == map[]
    {
      records := map[];
    }

    method Lookup(intent: Uuid, commandType: MessageType) returns (r: Option<IntentRecord>)
      ensures r.Some? <==> (intent, commandType) in records
      ensures r.Some? ==> r.value == records[(intent, commandType)]
    {
      if (intent, commandType) in records {
        r := Some(records[(intent, commandType)]);
      } else {
        r := None;
      }
    }

    /** `raised` is the ValueError of an immutable record being registered twice. */
    method Record(record: IntentRecord, allowReplace: bool) returns (raised: bool)
      modifies this
      ensures raised <==> (record.orderIntentId, record.commandType) in old(records) && !allowReplace
      ensures records == if raised then old(records)
                         else old(records)[(record.orderIntentId, record.commandType) := record]
    {
      var key := (record.orderIntentId, record.commandType);
      if key in records && !allowReplace {
        return true;
      }
      records := records[key := record];
      raised := false;
    }

    method AttachReply(intent: Uuid, commandType: MessageType, reply: Reply) returns (raised: bool)
      modifies this
      ensures raised <==> (intent, commandType) !in old(records)
      ensures records == if raised then old(records)
                         else old(records)[(intent, commandType) :=
                                old(records)[(intent, commandType)].(originalReply := Some(reply))]
    {
      var key := (intent, commandType);
      if key !in records {
        return true;
      }
      records := records[key := records[key].(originalReply := Some(reply))];
      raised := false;
    }
  }

  class SequenceTracker {
    var last: map<string, nat>

    constructor ()
      ensures last == map[]
    {
      last := map[];
    }

    function Expected(strategy: string): (n: nat)
      reads this
    {
      LastOf(last, strategy) + 1
    }

    method Accept(strategy: string, sequence: nat) returns (raised: bool)
      modifies this
      ensures raised <==> sequence != old(LastOf(last, strategy)) + 1
      ensures last == if raised then old(last) else old(last)[strategy := sequence]
    {
      if sequence != Expected(strategy) {
        return true;
      }
      last := last[strategy := sequence];
      raised := false;
    }
  }

  class CommandGate {
    const hash: Body -> string
    const ledger: IntentLedger
    const sequences: SequenceTracker

    constructor (hash: Body -> string)
      ensures this.hash == hash && fresh(ledger) && fresh(sequences)
      ensures State() == EmptyGate
    {
      this.hash := hash;
      this.ledger := new IntentLedger();
      this.sequences := new SequenceTracker();
    }

    ghost function State(): Gate
      reads ledger, sequences
    {
      Gate(ledger.records, sequences.last)
    }

    method Evaluate(c: Command, now: Time) returns (o: GateOutcome)
      ensures o == Verdict(State(), c, hash, now)
    {
      if c.body.messageType == ReconciliationRequest {
        return GateOutcome(true, None, None, None);
      }
      var expected := sequences.Expected(c.body.strategyId);
      if c.body.expiresAt.Some? && c.body.expiresAt.value <= now {
        return GateOutcome(false, Some(CommandExpired), None, Some(expected));
      }
      if c.body.orderIntentId.Some? {
        var record := ledger.Lookup(c.body.orderIntentId.value, c.body.messageType);
        if record.Some? {
          if record.value.fingerprint == hash(c.body) {
            return GateOutcome(false, None, record.value.originalReply, Some(expected));
          }
          if c.body.messageType != ModifyOrder {
            return GateOutcome(false, Some(IntentConflict), None, Some(expected));
          }
        }
      }
      if c.sequence != expected {
        return GateOutcome(false, Some(SequenceViolation), None, Some(expected));
      }
      o := GateOutcome(true, None, None, None);
    }

    /**
      The three mutations of `record`. A known intent raises before anything is
      written, a wrong sequence number after the ledger has been.
     */
    method Record(c: Command, reply: Reply) returns (raised: bool)
      modifies ledger, sequences
      ensures raised <==> Recorded(old(State()), c, reply, hash).None?
      ensures !raised ==> Some(State()) == Recorded(old(State()), c, reply, hash)
      ensures raised ==>
                && sequences.last == old(sequences.last)
                && ledger.records ==
                   if c.body.orderIntentId.None? || (KeyOf(c) in old(ledger.records) && c.body.messageType != ModifyOrder)
                   then old(ledger.records)
                   else old(ledger.records)[KeyOf(c) := BuildRecord(c, hash).(originalReply := Some(reply))]
    {
      if c.body.messageType == ReconciliationRequest {
        return false;
      }
      if c.body.orderIntentId.Some? {
        raised := ledger.Record(BuildRecord(c, hash), c.body.messageType == ModifyOrder);
        if raised { return; }
        raised := ledger.AttachReply(c.body.orderIntentId.value, c.body.messageType, reply);
        assert ledger.records ==
               old(ledger.records)[KeyOf(c) := BuildRecord(c, hash).(originalReply := Some(reply))];
      }
      raised := sequences.Accept(c.body.strategyId, c.sequence);
    }
  }
}
