/** Setup's hold on the slots: every lock it needs, or none. */
module FcQuiesce {
  import opened FcProgram

  /** What asking for a slot's lock answers. */
  datatype Answer = Taken | Held | Failed

  /** A slot as setup finds it: whether its interface is there, whether a VMM has one of its TAPs, and its lock. */
  datatype Slot = Slot(made: bool, attached: bool, lock: Answer)

  datatype Outcome = Quiet | Busy(slots: seq<nat>) | Error

  /** Setup must hold this slot. */
  predicate Wanted(host: seq<Slot>, n: nat, i: nat)
    requires i < |host|
  {
    host[i].made || i < n
  }

  /** Setup asks for this slot's lock. */
  predicate Asks(host: seq<Slot>, n: nat, i: nat)
    requires i < |host|
  {
    Wanted(host, n, i) && !(host[i].made && host[i].attached)
  }

  predicate InUse(host: seq<Slot>, n: nat, i: nat)
    requires i < |host|
  {
    Wanted(host, n, i) && ((host[i].made && host[i].attached) || host[i].lock == Held)
  }

  predicate LockFails(host: seq<Slot>, n: nat, i: nat)
    requires i < |host|
  {
    Asks(host, n, i) && host[i].lock == Failed
  }

  /** The slots below i that are in use, in order. */
  function AllInUse(host: seq<Slot>, n: nat, i: nat): seq<nat>
    requires i <= |host|
  {
    if i == 0 then [] else AllInUse(host, n, i - 1) + if InUse(host, n, i - 1) then [i - 1] else []
  }

  /** The locks this process holds. */
  class Locks {
    var mine: set<nat>

    constructor ()
      ensures mine == {}
    {
      mine := {};
    }

    method Ask(host: seq<Slot>, i: nat) returns (a: Answer)
      requires i < |host|
      modifies this
      ensures a == host[i].lock && mine == if a == Taken then old(mine) + {i} else old(mine)
    {
      a := host[i].lock;
      if a == Taken {
        mine := mine + {i};
      }
    }

    /** release: give back every lock taken, in order. */
    method Release(unlocks: seq<nat>)
      modifies this
      ensures mine == old(mine) - set i | i in unlocks
    {
      var k := 0;
      while k < |unlocks|
        invariant 0 <= k <= |unlocks|
        invariant mine == old(mine) - set i | i in unlocks[..k]
      {
        assert unlocks[..k + 1] == unlocks[..k] + [unlocks[k]];
        mine := mine - {unlocks[k]};
        k := k + 1;
      }
      assert unlocks[..k] == unlocks;
    }

    /** quiesceSlots. */
    method Quiesce(host: seq<Slot>, n: nat) returns (out: Outcome)
      requires |host| == MAX_SLOTS && mine == {}
      modifies this
      ensures out == Error <==> exists i :: 0 <= i < |host| && LockFails(host, n, i)
      ensures out.Busy? ==> out.slots == AllInUse(host, n, |host|) && out.slots != []
      ensures out == Quiet ==> AllInUse(host, n, |host|) == []
      ensures mine == if out == Quiet then set i | 0 <= i < |host| && Wanted(host, n, i) else {}
    {
      var unlocks: seq<nat>, busy: seq<nat> := [], [];
      var i := 0;
      while i < |host|
        invariant 0 <= i <= |host|
        invariant forall j :: 0 <= j < i ==> !LockFails(host, n, j)
        invariant busy == AllInUse(host, n, i)
        invariant mine == (set j | j in unlocks)
        invariant mine == set j | 0 <= j < i && Wanted(host, n, j) && !InUse(host, n, j)
      {
        if !host[i].made && i >= n {
          // not setup's slot
        } else if host[i].made && host[i].attached {
          busy := busy + [i];
        } else {
          var a := Ask(host, i);
          if a == Failed {
            assert LockFails(host, n, i);
            Release(unlocks);
            return Error;
          }
          if a == Held {
            busy := busy + [i];
          } else {
            unlocks := unlocks + [i];
          }
        }
        i := i + 1;
      }
      InUseIsListed(host, n, i);
      if |busy| > 0 {
        Release(unlocks);
        return Busy(busy);
      }
      out := Quiet;
    }
  }

  /** The list names exactly the slots in use. */
  lemma {:induction false} InUseIsListed(host: seq<Slot>, n: nat, k: nat)
    requires k <= |host|
    ensures forall i :: i in AllInUse(host, n, k) <==> 0 <= i < k && InUse(host, n, i)
  {
    if k > 0 {
      InUseIsListed(host, n, k - 1);
    }
  }
}
