/**
  The per-site concurrency limiter (`proxy/site_concurrency.go`). Slots are heap objects handed to
  callers; the ghost set of all slots ties the counters to the slots that are still held.
*/
module SiteConcurrency {
  import opened Seqs

  class SiteSlot {
    const siteID: int
    const limiter: SiteConcurrencyLimiter
    var held: bool

    constructor (siteID: int, limiter: SiteConcurrencyLimiter, held: bool)
      ensures this.siteID == siteID && this.limiter == limiter && this.held == held
    {
      this.siteID, this.limiter, this.held := siteID, limiter, held;
    }

    /** Frees the slot once; later calls change nothing. */
    method Release()
      requires limiter.Valid() && this in limiter.slots
      modifies this`held, limiter`sites
      ensures limiter.Valid()
      ensures !held
      ensures limiter.Active(siteID) == old(limiter.Active(siteID)) - (if old(held) then 1 else 0)
      ensures forall id :: id != siteID ==> limiter.Active(id) == old(limiter.Active(id))
    {
      if !held {
        held := false;
        return;
      }
      limiter.HeldSlotIsCounted(this);
      ghost var before := limiter.HeldFor(siteID);
      if siteID in limiter.sites {
        if limiter.sites[siteID] > 0 {
          limiter.sites := limiter.sites[siteID := limiter.sites[siteID] - 1];
        }
        if limiter.sites[siteID] == 0 {
          limiter.sites := limiter.sites - {siteID};
        }
      }
      held := false;
      assert limiter.HeldFor(siteID) == before - {this};
      forall id | id != siteID ensures limiter.HeldFor(id) == old(limiter.HeldFor(id)) {}
    }
  }

  class SiteConcurrencyLimiter {
    var sites: map<int, int>
    ghost var slots: set<SiteSlot>

    constructor ()
      ensures Valid() && slots == {} && forall id :: Active(id) == 0
    {
      sites, slots := map[], {};
    }

    /** The slots of one site that were acquired and not yet released. */
    ghost function HeldFor(id: int): set<SiteSlot>
      reads this, slots
    {
      set s | s in slots && s.held && s.siteID == id
    }

    /** Absent means zero, zero means absent, and every counter counts exactly the held slots. */
    ghost predicate Valid()
      reads this, slots
    {
      && (forall s :: s in slots ==> s.limiter == this)
      && (forall id :: id in sites ==> sites[id] > 0)
      && (forall id :: Active(id) == |HeldFor(id)|)
    }

    function Active(id: int): int
      reads this
    {
      if id in sites then sites[id] else 0
    }

    method ActiveCount(siteID: int) returns (n: int)
      requires Valid()
      ensures siteID > 0 ==> n == |HeldFor(siteID)|
      ensures siteID <= 0 ==> n == 0
    {
      if siteID <= 0 {
        return 0;
      }
      n := if siteID in sites then sites[siteID] else 0;
    }

    lemma HeldSlotIsCounted(s: SiteSlot)
      requires Valid() && s in slots && s.held
      ensures Active(s.siteID) >= 1 && s in HeldFor(s.siteID)
    {
      SubsetSize({s}, HeldFor(s.siteID));
    }

    /** A slot that counts nothing. */
    method Untracked(siteID: int) returns (slot: SiteSlot)
      requires Valid()
      modifies this`slots
      ensures Valid()
      ensures fresh(slot) && slots == old(slots) + {slot} && slot.siteID == siteID && slot.limiter == this && !slot.held
    {
      slot := new SiteSlot(siteID, this, false);
      slots := slots + {slot};
      forall id ensures HeldFor(id) == old(HeldFor(id)) {}
    }

    /** A counted slot, one more for its site. */
    method Tracked(siteID: int) returns (slot: SiteSlot)
      requires Valid()
      modifies this
      ensures Valid()
      ensures fresh(slot) && slots == old(slots) + {slot} && slot.siteID == siteID && slot.limiter == this && slot.held
      ensures Active(siteID) == old(Active(siteID)) + 1
      ensures forall id :: id != siteID ==> Active(id) == old(Active(id))
    {
      sites := sites[siteID := (if siteID in sites then sites[siteID] else 0) + 1];
      slot := new SiteSlot(siteID, this, true);
      slots := slots + {slot};
      assert HeldFor(siteID) == old(HeldFor(siteID)) + {slot};
      forall id | id != siteID ensures HeldFor(id) == old(HeldFor(id)) {}
    }

    /** Null stands for a refusal; a non-positive limit or site hands out a slot that counts nothing. */
    method TryAcquire(siteID: int, maxConcurrency: int) returns (slot: SiteSlot?, ok: bool)
      requires Valid()
      modifies this
      ensures Valid()
      ensures ok <==> siteID <= 0 || maxConcurrency <= 0 || old(Active(siteID)) < maxConcurrency
      ensures ok <==> slot != null
      ensures ok ==> fresh(slot) && slots == old(slots) + {slot} && slot.siteID == siteID && slot.limiter == this
      ensures ok ==> (slot.held <==> siteID > 0 && maxConcurrency > 0)
      ensures ok ==> Active(siteID) == old(Active(siteID)) + (if slot.held then 1 else 0)
      ensures ok && slot.held ==> Active(siteID) <= maxConcurrency
      ensures !ok ==> slots == old(slots) && Active(siteID) == old(Active(siteID))
      ensures forall id :: id != siteID ==> Active(id) == old(Active(id))
    {
      if siteID <= 0 || maxConcurrency <= 0 {
        slot := Untracked(siteID);
        return slot, true;
      }
      var active := if siteID in sites then sites[siteID] else 0;
      if active >= maxConcurrency {
        return null, false;
      }
      slot := Tracked(siteID);
      ok := true;
    }
  }
}
