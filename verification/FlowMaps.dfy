/** How a hash of pointers together with the timers of the entries reads as the flow map of FlowSpec. */
module FlowMaps {
  import opened NatTypes
  import F = FlowSpec

  /** The flow map `t` is what `table`, the armed `timers` and the allocation count hold. */
  ghost predicate Shows(table: map<FlowKey, nat>, timers: map<nat, nat>, allocs: nat, t: F.Table<FlowKey>) {
    && t.created == allocs
    && t.flows.Keys == table.Keys
    && (forall k :: k in table ==> table[k] in timers && t.flows[k] == F.Flow(k.src, table[k], timers[table[k]]))
  }

  /** Two states that show the same flow map hold the same keys, serial numbers and deadlines. */
  lemma ShowsSame(table: map<FlowKey, nat>, timers: map<nat, nat>, allocs: nat,
                  table': map<FlowKey, nat>, timers': map<nat, nat>, allocs': nat, t: F.Table<FlowKey>)
    requires Shows(table, timers, allocs, t) && Shows(table', timers', allocs', t)
    ensures allocs == allocs' && table == table'
    ensures forall k :: k in table ==> timers[table[k]] == timers'[table[k]]
  {
    forall k | k in table ensures table[k] == table'[k] {
      assert t.flows[k].serial == table[k];
    }
  }

  lemma ShowsOpen(table: map<FlowKey, nat>, timers: map<nat, nat>, allocs: nat, t: F.Table<FlowKey>,
                  key: FlowKey, deadline: nat)
    requires Shows(table, timers, allocs, t) && key !in table
    requires forall k :: k in table ==> table[k] < allocs
    ensures Shows(table[key := allocs], timers[allocs := deadline], allocs + 1,
                  F.Table(t.flows[key := F.Flow(key.src, allocs, deadline)], allocs + 1))
  {
  }

  lemma ShowsTouch(table: map<FlowKey, nat>, timers: map<nat, nat>, allocs: nat, t: F.Table<FlowKey>,
                   key: FlowKey, deadline: nat)
    requires Shows(table, timers, allocs, t) && key in table
    requires forall k :: k in table && table[k] == table[key] ==> k == key
    ensures Shows(table, timers[table[key] := deadline], allocs, F.Touched(t, key, deadline))
  {
  }

  lemma ShowsExpire(table: map<FlowKey, nat>, timers: map<nat, nat>, allocs: nat, t: F.Table<FlowKey>,
                    gone: set<FlowKey>, due: set<nat>, at: nat, life: nat)
    requires Shows(table, timers, allocs, t)
    requires forall k :: k in table ==> (k in gone <==> timers[table[k]] <= at)
    requires forall id :: id in due ==> id in timers && timers[id] <= at
    ensures Shows(table - gone, timers - due, allocs, F.Step(t, F.Expire(at), life))
  {
  }
}
