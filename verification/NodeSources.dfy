/** The node's ledger of source commands: bounded, never evicting, and idempotent. */
module NodeSources {

  datatype Source = Alpha | Beta | UnknownSource
  datatype Action = PauseSource | ResumeSource | UnknownAction

  /** A command as it arrives; `wellFormed` stands for the checks of its JSON shape. */
  datatype Command = Command(wellFormed: bool, idValid: bool, requestId: nat, epoch: nat, source: Source, action: Action)

  datatype Reply = Acknowledged | ContractInvalid | RequestIdInvalid | EpochChanged | Unsupported | Conflict | Capacity

  datatype Ledger = Ledger(epoch: nat, alphaPaused: bool, betaPaused: bool, commands: map<nat, Command>)

  const MAX_COMMANDS := 256

  /** Why a command is refused before the ledger is looked at. */
  function Refusal(l: Ledger, c: Command): (r: Reply)
  {
    if !c.wellFormed then ContractInvalid
    else if !c.idValid then RequestIdInvalid
    else if c.epoch != l.epoch then EpochChanged
    else if c.source.UnknownSource? || c.action.UnknownAction? then Unsupported
    else Acknowledged
  }

  function ReplyTo(l: Ledger, c: Command): Reply {
    if !Refusal(l, c).Acknowledged? then Refusal(l, c)
    else if c.requestId in l.commands then (if l.commands[c.requestId] == c then Acknowledged else Conflict)
    else if |l.commands| >= MAX_COMMANDS then Capacity
    else Acknowledged
  }

  function Applied(l: Ledger, c: Command): Ledger {
    if !ReplyTo(l, c).Acknowledged? || c.requestId in l.commands then l
    else
      var paused := c.action.PauseSource?;
      Ledger(l.epoch, if c.source.Alpha? then paused else l.alphaPaused, if c.source.Alpha? then l.betaPaused else paused,
             l.commands[c.requestId := c])
  }

  class Sources {
    var ledger: Ledger

    constructor (epoch: nat)
      ensures ledger == Ledger(epoch, false, false, map[])
    {
      ledger := Ledger(epoch, false, false, map[]);
    }

    /** `apply`. */
    method Apply(c: Command) returns (r: Reply)
      modifies this
      ensures r == ReplyTo(old(ledger), c) && ledger == Applied(old(ledger), c)
    {
      if !c.wellFormed {
        return ContractInvalid;
      }
      if !c.idValid {
        return RequestIdInvalid;
      }
      if c.epoch != ledger.epoch {
        return EpochChanged;
      }
      if c.source.UnknownSource? || c.action.UnknownAction? {
        return Unsupported;
      }
      if c.requestId in ledger.commands {
        if ledger.commands[c.requestId] != c {
          return Conflict;
        }
      } else {
        if |ledger.commands| >= MAX_COMMANDS {
          return Capacity;
        }
        var paused := c.action.PauseSource?;
        if c.source.Alpha? {
          ledger := ledger.(alphaPaused := paused);
        } else {
          ledger := ledger.(betaPaused := paused);
        }
        ledger := ledger.(commands := ledger.commands[c.requestId := c]);
      }
      return Acknowledged;
    }
  }

  function Deliver(l: Ledger, cs: seq<Command>): Ledger
    decreases |cs|
  {
    if cs == [] then l else Deliver(Applied(l, cs[0]), cs[1..])
  }

  lemma {:induction false} DeliverConcat(l: Ledger, a: seq<Command>, b: seq<Command>)
    ensures Deliver(l, a + b) == Deliver(Deliver(l, a), b)
    decreases |a|
  {
    hide Applied;
    if a == [] {
      assert a + b == b;
    } else {
      DeliverConcat(Applied(l, a[0]), a[1..], b);
      assert (a + b)[0] == a[0] && (a + b)[1..] == a[1..] + b;
    }
  }

  /** Nothing that was ever recorded is evicted or changed, and the ledger stays bounded. */
  lemma {:induction false} LedgerOnlyGrows(l: Ledger, cs: seq<Command>)
    requires |l.commands| <= MAX_COMMANDS
    ensures |Deliver(l, cs).commands| <= MAX_COMMANDS && Deliver(l, cs).epoch == l.epoch
    ensures forall k :: k in l.commands ==> k in Deliver(l, cs).commands && Deliver(l, cs).commands[k] == l.commands[k]
    decreases |cs|
  {
    if cs != [] {
      var n := Applied(l, cs[0]);
      if n != l {
        assert n.commands.Keys == l.commands.Keys + {cs[0].requestId};
      }
      LedgerOnlyGrows(n, cs[1..]);
    }
  }

  /** A command acknowledged among `before` can be delivered again at any later
      point: it is acknowledged again, and the node ends in the same state as if it had
      not been delivered. */
  lemma RedeliveryIsHarmless(l: Ledger, before: seq<Command>, c: Command, between: seq<Command>, after: seq<Command>)
    requires |l.commands| <= MAX_COMMANDS
    requires ReplyTo(Deliver(l, before), c).Acknowledged?
    ensures var once := before + [c] + between;
            && ReplyTo(Deliver(l, once), c) == Acknowledged
            && Deliver(l, once + [c] + after) == Deliver(l, once + after)
  {
    var once := before + [c] + between;
    var a, s := Deliver(l, before), Deliver(l, once);
    DeliverConcat(l, before + [c], between);
    DeliverConcat(l, before, [c]);
    assert Deliver(a, [c]) == Applied(a, c);
    LedgerOnlyGrows(l, before);
    LedgerOnlyGrows(l, before + [c]);
    LedgerOnlyGrows(Applied(a, c), between);
    assert Applied(s, c) == s;
    DeliverConcat(l, once + [c], after);
    DeliverConcat(l, once, [c]);
    assert Deliver(s, [c]) == s;
    DeliverConcat(l, once, after);
  }

  /** A different command under a recorded identifier is refused and changes nothing. */
  lemma ReusedIdentifierConflicts(l: Ledger, c: Command, d: Command, cs: seq<Command>)
    requires |l.commands| <= MAX_COMMANDS
    requires ReplyTo(l, c).Acknowledged? && c.requestId == d.requestId && c != d && Refusal(l, d).Acknowledged?
    ensures var s := Deliver(Applied(l, c), cs); ReplyTo(s, d) == Conflict && Applied(s, d) == s
  {
    assert |Applied(l, c).commands| <= MAX_COMMANDS by { LedgerOnlyGrows(l, [c]); assert Deliver(l, [c]) == Applied(l, c); }
    LedgerOnlyGrows(Applied(l, c), cs);
  }
}
