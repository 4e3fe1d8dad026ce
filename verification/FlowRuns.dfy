/** What the flow table keeps over every run of packets and expiry rounds. */
module FlowRuns {
  import opened PacketParser
  import opened FlowTable

  datatype Op =
    | Seen(p: Packet, now: Time, path: nat, ok: bool, inspected: Inspection)
    | Sweeping(c: Config, now: Time)

  ghost predicate Step(maxFlows: nat, op: Op, before: map<Key, Flow>, after: map<Key, Flow>) {
    match op
    case Seen(p, now, path, ok, inspected) =>
      exists kept :: ObserveStep(before, maxFlows, p, now, path, ok, inspected, kept, after)
    case Sweeping(c, now) =>
      after == Surviving(before, c, now)
  }

  ghost predicate StepAt(maxFlows: nat, ops: seq<Op>, tables: seq<map<Key, Flow>>, j: nat)
    requires j < |ops| && |tables| == |ops| + 1
  {
    Step(maxFlows, ops[j], tables[j], tables[j + 1])
  }

  ghost predicate IsRun(maxFlows: nat, ops: seq<Op>, tables: seq<map<Key, Flow>>) {
    |tables| == |ops| + 1 && tables[0] == map[] &&
    forall j :: 0 <= j < |ops| ==> StepAt(maxFlows, ops, tables, j)
  }

  lemma RunStep(maxFlows: nat, ops: seq<Op>, tables: seq<map<Key, Flow>>, j: nat)
    requires IsRun(maxFlows, ops, tables) && j < |ops|
    ensures Step(maxFlows, ops[j], tables[j], tables[j + 1])
  {
    assert StepAt(maxFlows, ops, tables, j);
  }

  // ----- the table never outgrows its limit

  ghost predicate Dated(m: map<Key, Flow>) {
    forall k :: k in m ==> m[k].lastMs < NO_TIME
  }

  lemma RemoveOne(m: map<Key, Flow>, k: Key)
    requires k in m
    ensures |m - {k}| == |m| - 1
  {
    var rest := m - {k};
    assert m.Keys == rest.Keys + {k};
    assert |m.Keys| == |m| && |rest.Keys| == |rest|;
  }

  lemma PutOne(m: map<Key, Flow>, k: Key, f: Flow)
    ensures |m[k := f]| == |m| + if k in m then 0 else 1
  {
    var more := m[k := f];
    assert more.Keys == m.Keys + {k};
    assert |m.Keys| == |m| && |more.Keys| == |more|;
  }

  lemma NoLarger(m: map<Key, Flow>, n: map<Key, Flow>)
    requires m.Keys <= n.Keys
    ensures |m| <= |n|
  {
    assert n.Keys == m.Keys + (n.Keys - m.Keys);
    assert |m.Keys| == |m| && |n.Keys| == |n|;
  }

  /** Making room leaves fewer than `maxFlows` records, if there was something to evict. */
  lemma AdmittedSize(before: map<Key, Flow>, maxFlows: nat, kept: map<Key, Flow>)
    requires Admitted(before, maxFlows, kept) && Dated(before) && |before| <= (if maxFlows > 0 then maxFlows else 1)
    ensures Dated(kept) && |kept| <= |before| && |kept| + 1 <= if maxFlows > 0 then maxFlows else 1
  {
    if |before| >= maxFlows && Evictable(before) {
      var victim :| LeastRecent(before, victim) && kept == before - {victim};
      RemoveOne(before, victim);
    } else if before != map[] {
      var k :| k in before;
      assert before[k].lastMs < NO_TIME;
    }
  }

  lemma StepKeepsSize(maxFlows: nat, op: Op, before: map<Key, Flow>, after: map<Key, Flow>)
    requires Step(maxFlows, op, before, after) && op.now < NO_TIME
    requires Dated(before) && |before| <= if maxFlows > 0 then maxFlows else 1
    ensures Dated(after) && |after| <= if maxFlows > 0 then maxFlows else 1
  {
    match op
    case Seen(p, now, path, ok, inspected) =>
      var kept :| ObserveStep(before, maxFlows, p, now, path, ok, inspected, kept, after);
      if p.key in before {
        PutOne(before, p.key, Touched(before[p.key], p, now, inspected));
      } else {
        AdmittedSize(before, maxFlows, kept);
        PutOne(kept, p.key, Touched(NewFlow(p, now, path), p, now, inspected));
      }
    case Sweeping(c, now) =>
      NoLarger(after, before);
  }

  /** Over every run whose clock stays below the all-ones value, the table holds at most `maxFlows` records, or one if
      `maxFlows` is zero. */
  lemma {:induction false} SizeIsBounded(maxFlows: nat, ops: seq<Op>, tables: seq<map<Key, Flow>>, j: nat)
    requires IsRun(maxFlows, ops, tables) && j <= |ops| && forall i :: 0 <= i < |ops| ==> ops[i].now < NO_TIME
    ensures Dated(tables[j]) && |tables[j]| <= if maxFlows > 0 then maxFlows else 1
  {
    if j > 0 {
      SizeIsBounded(maxFlows, ops, tables, j - 1);
      RunStep(maxFlows, ops, tables, j - 1);
      StepKeepsSize(maxFlows, ops[j - 1], tables[j - 1], tables[j]);
    }
  }

  // ----- who is evicted

  /** Keys of the packets seen among the first `j` events at clock `since` or later. */
  function Recent(ops: seq<Op>, j: nat, since: nat): set<Key>
    requires j <= |ops|
  {
    set i | 0 <= i < j && ops[i].Seen? && ops[i].now >= since :: ops[i].p.key
  }

  /** Every record is stamped by a packet of its own flow. */
  ghost predicate Stamped(ops: seq<Op>, j: nat, m: map<Key, Flow>)
    requires j <= |ops|
  {
    forall k :: k in m ==> k in Recent(ops, j, m[k].lastMs)
  }

  lemma RecentGrows(ops: seq<Op>, j: nat, since: nat)
    requires j < |ops|
    ensures Recent(ops, j, since) <= Recent(ops, j + 1, since)
    ensures ops[j].Seen? && ops[j].now >= since ==> ops[j].p.key in Recent(ops, j + 1, since)
  {
  }

  lemma StepKeepsStamps(maxFlows: nat, ops: seq<Op>, j: nat, before: map<Key, Flow>, after: map<Key, Flow>)
    requires j < |ops| && Step(maxFlows, ops[j], before, after) && Stamped(ops, j, before)
    ensures Stamped(ops, j + 1, after)
  {
    forall k | k in after
      ensures k in Recent(ops, j + 1, after[k].lastMs)
    {
      RecentGrows(ops, j, after[k].lastMs);
      var op := ops[j];
      if op.Seen? {
        var kept :| ObserveStep(before, maxFlows, op.p, op.now, op.path, op.ok, op.inspected, kept, after);
        if k != op.p.key {
          assert k in before && after[k] == before[k];
        }
      }
    }
  }

  lemma {:induction false} RunIsStamped(maxFlows: nat, ops: seq<Op>, tables: seq<map<Key, Flow>>, j: nat)
    requires IsRun(maxFlows, ops, tables) && j <= |ops|
    ensures Stamped(ops, j, tables[j])
  {
    if j > 0 {
      var i := j - 1;
      RunIsStamped(maxFlows, ops, tables, i);
      RunStep(maxFlows, ops, tables, i);
      StepKeepsStamps(maxFlows, ops, i, tables[i], tables[j]);
    }
  }

  /** A packet can push out another flow's record only after packets of at least `maxFlows` different flows, the victim
      included, were seen at or after the victim's last packet. */
  lemma EvictionNeedsAFullTable(maxFlows: nat, ops: seq<Op>, tables: seq<map<Key, Flow>>, j: nat, k: Key)
    requires IsRun(maxFlows, ops, tables) && j < |ops| && ops[j].Seen?
    requires k in tables[j] && k !in tables[j + 1]
    ensures k != ops[j].p.key && k in Recent(ops, j, tables[j][k].lastMs)
    ensures |Recent(ops, j, tables[j][k].lastMs)| >= maxFlows
  {
    var op, m, since := ops[j], tables[j], tables[j][k].lastMs;
    assert StepAt(maxFlows, ops, tables, j);
    var kept :| ObserveStep(m, maxFlows, op.p, op.now, op.path, op.ok, op.inspected, kept, tables[j + 1]);
    assert op.p.key !in m && Admitted(m, maxFlows, kept) && k !in kept;
    var victim :| LeastRecent(m, victim) && kept == m - {victim};
    RunIsStamped(maxFlows, ops, tables, j);
    RecentCovers(ops, j, m, since);
  }

  lemma RecentIsAntitone(ops: seq<Op>, j: nat, early: nat, late: nat)
    requires j <= |ops| && early <= late
    ensures Recent(ops, j, late) <= Recent(ops, j, early)
  {
  }

  lemma RecentCovers(ops: seq<Op>, j: nat, m: map<Key, Flow>, since: nat)
    requires j <= |ops| && Stamped(ops, j, m) && forall k :: k in m ==> since <= m[k].lastMs
    ensures m.Keys <= Recent(ops, j, since) && |m| <= |Recent(ops, j, since)|
  {
    forall x | x in m
      ensures x in Recent(ops, j, since)
    {
      RecentIsAntitone(ops, j, since, m[x].lastMs);
    }
    var recent := Recent(ops, j, since);
    assert recent == m.Keys + (recent - m.Keys);
    assert |m.Keys| == |m|;
  }

  // ----- expiry under a clock that never runs back

  ghost predicate ClockNeverRunsBack(ops: seq<Op>) {
    forall i, j :: 0 <= i < j < |ops| ==> ops[i].now <= ops[j].now
  }

  ghost predicate StampsBy(m: map<Key, Flow>, now: nat) {
    forall k :: k in m ==> m[k].firstMs <= m[k].lastMs <= now
  }

  lemma StepKeepsOrder(maxFlows: nat, op: Op, before: map<Key, Flow>, after: map<Key, Flow>)
    requires Step(maxFlows, op, before, after) && StampsBy(before, op.now)
    ensures StampsBy(after, op.now)
  {
    if op.Seen? {
      var kept :| ObserveStep(before, maxFlows, op.p, op.now, op.path, op.ok, op.inspected, kept, after);
    }
  }

  lemma {:induction false} RunIsOrdered(maxFlows: nat, ops: seq<Op>, tables: seq<map<Key, Flow>>, j: nat, now: nat)
    requires IsRun(maxFlows, ops, tables) && j <= |ops| && ClockNeverRunsBack(ops)
    requires forall i :: 0 <= i < j ==> ops[i].now <= now
    ensures StampsBy(tables[j], now)
  {
    if j > 0 {
      var i := j - 1;
      RunIsOrdered(maxFlows, ops, tables, i, ops[i].now);
      RunStep(maxFlows, ops, tables, i);
      StepKeepsOrder(maxFlows, ops[i], tables[i], tables[j]);
    }
  }

  /** Under such a clock the 64-bit subtraction never wraps: expiry removes a record exactly when it has really been
      idle for its timeout or has really lived for the limit. */
  lemma ExpiryIsExact(maxFlows: nat, ops: seq<Op>, tables: seq<map<Key, Flow>>, j: nat, k: Key)
    requires IsRun(maxFlows, ops, tables) && j < |ops| && ClockNeverRunsBack(ops) && ops[j].Sweeping? && k in tables[j]
    ensures var f, c, now := tables[j][k], ops[j].c, ops[j].now;
            k !in tables[j + 1] <==> f.lastMs + TimeoutMs(f, c) <= now || f.firstMs + c.maxLifetime * 1000 <= now
  {
    assert StepAt(maxFlows, ops, tables, j);
    RunIsOrdered(maxFlows, ops, tables, j, ops[j].now);
  }

  /** For one record and any clock: the unsigned difference tells whether the record has idled for its timeout exactly
      when the clock has not run back behind its last packet, or so far back that the wrapped difference stays below the
      timeout. */
  lemma IdleIsExactExceptWrapped(f: Flow, c: Config, now: Time)
    ensures (Idle(f, c, now) <==> f.lastMs + TimeoutMs(f, c) <= now) <==>
            now >= f.lastMs || Elapsed(now, f.lastMs) < TimeoutMs(f, c)
  {
  }
}
