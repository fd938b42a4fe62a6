/** The lease that says who may write to a terminal. */
module WriterLease {

  const SECONDS := 15

  class Lease {
    var owner: string
    var token: string
    var until: nat
    /** Every token handed out so far; tokens are random and not repeated. */
    var issued: set<string>

    ghost predicate Valid()
      reads this
    {
      "" !in issued && (token != "" ==> token in issued) && (token == "" ==> until == 0)
    }

    constructor ()
      ensures Valid() && token == "" && issued == {}
    {
      owner, token, until, issued := "", "", 0, {};
    }

    /** Whether the pair may write at this time. */
    predicate Holds(o: string, t: string, now: nat)
      reads this
    {
      now < until && o == owner && t == token
    }

    /** A token that was handed out and is of no use any more. */
    ghost predicate Spent(t: string, now: nat)
      reads this
    {
      t in issued && (t != token || now >= until)
    }

    method Acquire(o: string, takeover: bool, now: nat, random: string) returns (ok: bool)
      requires Valid() && random != "" && random !in issued
      modifies this
      ensures Valid()
      ensures ok <==> 1 <= |o| <= 128 && (takeover || now >= old(until))
      ensures !ok ==> unchanged(this)
      ensures ok ==> Holds(o, random, now) && until == now + SECONDS && issued == old(issued) + {random}
      ensures forall t :: old(Spent(t, now)) ==> Spent(t, now)
      ensures ok ==> forall t :: t in old(issued) ==> Spent(t, now)
    {
      if o == "" || |o| > 128 {
        return false;
      }
      if now < until && !takeover {
        return false;
      }
      owner, token, until := o, random, now + SECONDS;
      issued := issued + {random};
      ok := true;
    }

    method Renew(o: string, t: string, now: nat) returns (ok: bool)
      requires Valid()
      modifies this`until
      ensures Valid()
      ensures ok <==> old(Holds(o, t, now))
      ensures until == if ok then now + SECONDS else old(until)
      ensures forall s :: old(Spent(s, now)) ==> Spent(s, now)
    {
      ok := Holds(o, t, now);
      if ok {
        until := now + SECONDS;
      }
    }

    method Revoke()
      requires Valid()
      modifies this`owner, this`token, this`until
      ensures Valid() && token == ""
      ensures forall t, now :: t in issued ==> Spent(t, now)
    {
      owner, token, until := "", "", 0;
    }

    /** However the lease is used later, a token that expired, was taken over or was revoked is
        never accepted again, for writing or for renewal. */
    method Lifetime(t: string, start: nat, steps: nat) returns (now: nat)
      requires Valid() && Spent(t, start)
      modifies this
      ensures Valid() && now >= start && Spent(t, now)
      ensures forall o :: !Holds(o, t, now)
    {
      now := start;
      for i := 0 to steps
        invariant Valid() && now >= start && Spent(t, now)
      {
        var passed: nat :| true;
        now := now + passed;
        var choice: nat :| true;
        var o: string :| true;
        if choice == 0 {
          var random: string :| true;
          var takeover: bool := *;
          if random != "" && random !in issued {
            var _ := Acquire(o, takeover, now, random);
          }
        } else if choice == 1 {
          var s: string :| true;
          var ok := Renew(o, s, now);
          assert s == t ==> !ok;
        } else {
          Revoke();
        }
      }
    }
  }
}
