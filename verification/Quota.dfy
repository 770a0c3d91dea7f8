/** Runtime policies and usage quotas, as the guard consults them. */
module Quota {
  import opened Common
  import Text

  datatype Action = Read | Write

  function ActionText(a: Action): string { if a == Read then "read" else "write" }

  datatype Policy = Allow | Deny | ReadOnly | Limited | Trial | GracePeriod | Expired | Suspended | Internal | Preview

  predicate PolicyPermits(p: Policy, a: Action) {
    match p
    case Allow => true
    case Limited => true
    case Trial => true
    case GracePeriod => true
    case Internal => true
    case Preview => true
    case ReadOnly => a == Read
    case Deny => false
    case Expired => false
    case Suspended => false
  }

  datatype QuotaState = Within | Warning | SoftExceeded | HardExceeded | Throttled

  datatype Verdict = Verdict(resource: string, state: QuotaState, used: int, limit: int, ratio: real)

  predicate QuotaBlocks(s: QuotaState) { s == HardExceeded || s == Throttled }

  /** A limit; negative is unlimited, `soft` only advises, `warnAt` is the warning fraction. */
  datatype Limit = Limit(limit: int, warnAt: Option<real>, soft: bool)

  const DEFAULT_WARNING_THRESHOLD: real := 0.8

  function WarnAt(l: Limit): real { if l.warnAt.Some? then l.warnAt.value else DEFAULT_WARNING_THRESHOLD }

  function CounterKey(tenant: string, resource: string): string { tenant + ":" + resource }

  /** Colon-free tenants have counters of their own. */
  lemma CountersAreDistinct(t1: string, r1: string, t2: string, r2: string)
    requires ':' !in t1 && ':' !in t2
    ensures CounterKey(t1, r1) == CounterKey(t2, r2) <==> t1 == t2 && r1 == r2
  {
    if CounterKey(t1, r1) == CounterKey(t2, r2) { Text.FirstSeparatorIsUnique(t1, r1, t2, r2, ':'); }
  }

  class InMemoryUsageQuota {
    var limits: map<string, Limit>
    var used: map<string, int>
    var throttled: set<string>

    constructor ()
      ensures limits == map[] && used == map[] && throttled == {}
    {
      limits, used, throttled := map[], map[], {};
    }

    method SetLimit(tenant: string, resource: string, limit: Limit)
      modifies this`limits
      ensures limits == old(limits)[CounterKey(tenant, resource) := limit]
    {
      limits := limits[CounterKey(tenant, resource) := limit];
    }

    method SetUsed(tenant: string, resource: string, amount: int)
      modifies this`used
      ensures used == old(used)[CounterKey(tenant, resource) := amount]
    {
      used := used[CounterKey(tenant, resource) := amount];
    }

    method Throttle(tenant: string, resource: string, on: bool)
      modifies this`throttled
      ensures throttled == if on then old(throttled) + {CounterKey(tenant, resource)}
              else old(throttled) - {CounterKey(tenant, resource)}
    {
      throttled := if on then throttled + {CounterKey(tenant, resource)}
        else throttled - {CounterKey(tenant, resource)};
    }

    /** The use this action would bring the counter to. */
    function After(k: string, amount: int): int
      reads this
    {
      (if k in used then used[k] else 0) + amount
    }

    /** A hard limit that this action would break. */
    predicate Breaks(k: string, amount: int)
      reads this
    {
      k in limits && 0 <= limits[k].limit < After(k, amount) && !limits[k].soft
    }

    /**
     * The action is blocked exactly when its counter is throttled or a hard limit would be broken; soft limits
     * and warnings never block, and below the warning fraction the verdict is healthy.
     */
    method Check(tenant: string, resource: string, amount: int) returns (v: Verdict)
      ensures v.resource == resource && v.used == After(CounterKey(tenant, resource), amount)
      ensures QuotaBlocks(v.state) <==>
              CounterKey(tenant, resource) in throttled
              || Breaks(CounterKey(tenant, resource), amount)
      ensures v.state == Throttled <==> CounterKey(tenant, resource) in throttled
      ensures v.state == SoftExceeded <==>
        CounterKey(tenant, resource) !in throttled && CounterKey(tenant, resource) in limits
          && 0 <= limits[CounterKey(tenant, resource)].limit < v.used && limits[CounterKey(tenant, resource)].soft
      ensures v.limit >= 0 ==>
              CounterKey(tenant, resource) in limits
              && v.limit == limits[CounterKey(tenant, resource)].limit
      ensures v.state == Within ==> v.limit < 0 || v.ratio < WarnAt(limits[CounterKey(tenant, resource)])
      ensures v.state == Warning ==> v.limit >= 0 && v.ratio >= WarnAt(limits[CounterKey(tenant, resource)])
      ensures v.limit > 0 && v.state != Throttled ==> v.ratio * v.limit as real == v.used as real
      ensures v.limit > 0 && v.state in {Within, Warning} ==> v.ratio <= 1.0
    {
      var k := CounterKey(tenant, resource);
      var total := After(k, amount);
      var limit := if k in limits then limits[k].limit else -1;
      if k in throttled {
        return Verdict(resource, Throttled, total, limit, 0.0);
      }
      if limit < 0 {
        return Verdict(resource, Within, total, -1, 0.0);
      }
      var ratio := if limit == 0 then 1.0 else total as real / limit as real;
      var state := Within;
      if total > limit {
        state := if limits[k].soft then SoftExceeded else HardExceeded;
      } else if ratio >= WarnAt(limits[k]) {
        state := Warning;
      }
      return Verdict(resource, state, total, limit, ratio);
    }
  }
}
