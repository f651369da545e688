/** Looking up and changing accounting periods (accounting-periods.service.ts). */
module AccountingPeriods {
  import opened Schema

  predicate Covers(p: Period, tenant: nat, date: int) {
    p.tenant == tenant && p.start <= date <= p.end
  }

  /** The first period that covers a date. */
  function FindFirst(periods: seq<Period>, tenant: nat, date: int): (id: Option<nat>)
    ensures id.Some? ==> id.value < |periods| && Covers(periods[id.value], tenant, date)
                         && forall i :: 0 <= i < id.value ==> !Covers(periods[i], tenant, date)
    ensures id.None? ==> forall i :: 0 <= i < |periods| ==> !Covers(periods[i], tenant, date)
  {
    if periods == [] then None
    else
      var earlier := FindFirst(periods[..|periods| - 1], tenant, date);
      if earlier.Some? then earlier
      else if Covers(periods[|periods| - 1], tenant, date) then Some(|periods| - 1)
      else None
  }

  /** `findActivePeriodByDate`: a closed period takes no postings. */
  function FindActive(periods: seq<Period>, tenant: nat, date: int): Result<nat> {
    match FindFirst(periods, tenant, date)
    case None => Err(NoPeriod)
    case Some(id) => if periods[id].status == Closed then Err(PeriodClosed) else Ok(id)
  }

  /** A period can be moved between all three states, including out of `Closed`. */
  method UpdateStatus(db: Database, tenant: nat, id: nat, status: PeriodStatus) returns (r: Result<()>)
    modifies db`periods
    ensures if id >= |old(db.periods)| || old(db.periods)[id].tenant != tenant
            then r == Err(NoPeriodRow) && db.periods == old(db.periods)
            else r == Ok(()) && db.periods == old(db.periods)[id := old(db.periods)[id].(status := status)]
  {
    if id >= |db.periods| || db.periods[id].tenant != tenant {
      return Err(NoPeriodRow);
    }
    db.periods := db.periods[id := db.periods[id].(status := status)];
    r := Ok(());
  }

  /** A change of status never changes which period a date belongs to, and decides whether postings are taken on
      exactly the dates that belong to the period. */
  lemma StatusDecides(periods: seq<Period>, id: nat, status: PeriodStatus, tenant: nat, date: int)
    requires id < |periods|
    ensures var changed := periods[id := periods[id].(status := status)];
            && FindFirst(changed, tenant, date) == FindFirst(periods, tenant, date)
            && FindActive(changed, tenant, date)
               == if FindFirst(periods, tenant, date) != Some(id) then FindActive(periods, tenant, date)
                  else if status == Closed then Err(PeriodClosed)
                  else Ok(id)
  {
    hide FindFirst;
    SameFirst(periods, periods[id := periods[id].(status := status)], tenant, date);
  }

  lemma {:induction false} SameFirst(periods: seq<Period>, changed: seq<Period>, tenant: nat, date: int)
    requires |periods| == |changed|
    requires forall i :: 0 <= i < |periods| ==> changed[i] == periods[i].(status := changed[i].status)
    ensures FindFirst(changed, tenant, date) == FindFirst(periods, tenant, date)
  {
    if periods != [] { SameFirst(periods[..|periods| - 1], changed[..|changed| - 1], tenant, date); }
  }
}
