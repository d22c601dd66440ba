/** The AIMD congestion controller. */
module Congestion {
  import opened Prelude

  /** x * y / z never exceeds x when y <= z. */
  lemma ScaleDown(x: nat, y: nat, z: nat)
    requires 0 < z && y <= z
    ensures x * y / z <= x
  {
    assert x * y <= x * z;
    assert x * z / z == x;
  }

  class AimdController {
    var cwnd: int
    var ssthresh: int
    var mss: int
    var fastRecovery: bool

    /** The window never closes: the sender can always have one byte in flight. */
    ghost predicate Valid()
      reads this
    {
      && 1 <= mss <= 0xFFFF
      && 1 <= cwnd <= U32_MAX
      && 2 <= ssthresh <= U32_MAX
    }

    constructor (mss: int)
      requires 1 <= mss <= 0xFFFF
      ensures Valid() && cwnd == 2 * mss && ssthresh == U32_MAX && this.mss == mss && !fastRecovery
    {
      this.mss := mss;
      cwnd := mss * 2;
      ssthresh := U32_MAX;
      fastRecovery := false;
    }

    method OnAck(acknowledgedPayload: nat)
      requires Valid()
      modifies this`cwnd
      ensures Valid()
      ensures acknowledgedPayload == 0 || fastRecovery ==> cwnd == old(cwnd)
      ensures acknowledgedPayload > 0 && !fastRecovery ==>
                cwnd == Min(U32_MAX, old(cwnd) + if old(cwnd) < ssthresh then Min(acknowledgedPayload, mss)
                                                 else Max(1, mss * mss / old(cwnd)))
      ensures acknowledgedPayload > 0 && !fastRecovery ==> cwnd > old(cwnd) || cwnd == U32_MAX
      ensures old(cwnd) < ssthresh ==> cwnd <= old(cwnd) + Min(acknowledgedPayload, mss)
      ensures old(cwnd) >= mss ==> old(cwnd) <= cwnd <= old(cwnd) + mss
    {
      if acknowledgedPayload == 0 || fastRecovery {
        return;
      }
      if cwnd < ssthresh {
        cwnd := Min(U32_MAX, cwnd + Min(acknowledgedPayload, mss));
      } else {
        if cwnd >= mss {
          ScaleDown(mss, mss, cwnd);
        }
        cwnd := Min(U32_MAX, cwnd + Max(1, mss * mss / cwnd));
      }
    }

    method OnFastRecoveryEntry(flight: nat)
      requires Valid() && flight <= U32_MAX
      modifies this`cwnd, this`ssthresh, this`fastRecovery
      ensures Valid() && fastRecovery
      ensures ssthresh == Max(flight / 2, 2 * mss) && cwnd == Min(U32_MAX, ssthresh + 3 * mss)
    {
      ssthresh := Max(flight / 2, mss * 2);
      cwnd := Min(U32_MAX, ssthresh + mss * 3);
      fastRecovery := true;
    }

    method OnDupAck()
      requires Valid()
      modifies this`cwnd
      ensures Valid()
      ensures cwnd == if fastRecovery then Min(U32_MAX, old(cwnd) + mss) else old(cwnd)
    {
      if fastRecovery {
        cwnd := Min(U32_MAX, cwnd + mss);
      }
    }

    method OnFastRecoveryExit()
      requires Valid()
      modifies this`cwnd, this`fastRecovery
      ensures Valid() && cwnd == ssthresh && !fastRecovery
    {
      cwnd := ssthresh;
      fastRecovery := false;
    }

    method OnRto()
      requires Valid()
      modifies this`cwnd, this`fastRecovery
      ensures Valid() && cwnd == mss && !fastRecovery
    {
      cwnd := mss;
      fastRecovery := false;
    }

    method OnEcnCe()
      requires Valid()
      modifies this`cwnd, this`ssthresh
      ensures Valid() && cwnd == ssthresh == Max(old(cwnd) / 2, 2 * mss)
    {
      ssthresh := Max(cwnd / 2, mss * 2);
      cwnd := ssthresh;
    }

    method UpdateMss(newMss: int, pristine: bool)
      requires Valid() && 0 <= newMss <= 0xFFFF
      modifies this`cwnd, this`mss
      ensures Valid()
      ensures mss == if newMss == 0 then old(mss) else newMss
      ensures newMss != 0 && newMss != old(mss) && pristine ==> cwnd == 2 * mss
      ensures !pristine && newMss >= old(mss) ==> cwnd == old(cwnd)
      ensures !pristine && 0 < newMss < old(mss) ==> cwnd == Max(mss, old(cwnd) * mss / old(mss))
      ensures !pristine && 0 < newMss < old(mss) ==> mss <= cwnd <= Max(old(cwnd), mss)
    {
      if newMss == 0 || newMss == mss {
        return;
      }
      var oldMss := mss;
      mss := newMss;
      if pristine {
        cwnd := mss * 2;
      } else if mss < oldMss {
        ScaleDown(cwnd, mss, oldMss);
        cwnd := Max(mss, cwnd * mss / oldMss);
      }
    }

    method Reset()
      requires Valid()
      modifies this`cwnd, this`ssthresh, this`fastRecovery
      ensures Valid() && cwnd == 2 * mss && ssthresh == U32_MAX && !fastRecovery
    {
      cwnd := mss * 2;
      ssthresh := U32_MAX;
      fastRecovery := false;
    }
  }
}
