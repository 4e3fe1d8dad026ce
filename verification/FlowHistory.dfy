/** A flow record as a function of its own packets, and what that says about its expiry. */
module FlowHistory {
  import opened PacketParser
  import opened FlowTable
  import opened FlowRuns

  /** The packets that the record of `k` has seen since it was created, oldest first. */
  function History(ops: seq<Op>, tables: seq<map<Key, Flow>>, j: nat, k: Key): (h: seq<Op>)
    requires j <= |ops| && |tables| == |ops| + 1
    ensures forall i :: 0 <= i < |h| ==> h[i].Seen? && h[i].p.key == k
  {
    if j == 0 || k !in tables[j] then []
    else
      var op := ops[j - 1];
      if !(op.Seen? && op.p.key == k) then History(ops, tables, j - 1, k)
      else if k in tables[j - 1] then History(ops, tables, j - 1, k) + [op]
      else [op]
  }

  /** The record after these packets. */
  function Fold(h: seq<Op>): Flow
    requires h != [] && forall i :: 0 <= i < |h| ==> h[i].Seen?
  {
    var last := h[|h| - 1];
    Touched(if |h| == 1 then NewFlow(last.p, last.now, last.path) else Fold(h[..|h| - 1]), last.p, last.now,
      last.inspected)
  }

  lemma RecordStep(maxFlows: nat, op: Op, before: map<Key, Flow>, after: map<Key, Flow>, k: Key)
    requires Step(maxFlows, op, before, after) && k in after
    ensures op.Seen? && op.p.key == k ==>
              after[k] == Touched(if k in before then before[k] else NewFlow(op.p, op.now, op.path), op.p, op.now,
                op.inspected)
    ensures !(op.Seen? && op.p.key == k) ==> k in before && after[k] == before[k]
  {
    if op.Seen? {
      var kept :| ObserveStep(before, maxFlows, op.p, op.now, op.path, op.ok, op.inspected, kept, after);
    }
  }

  /** In every run each record is the fold of its own packets. */
  lemma {:induction false} RecordIsItsHistory(maxFlows: nat, ops: seq<Op>, tables: seq<map<Key, Flow>>, j: nat, k: Key)
    requires IsRun(maxFlows, ops, tables) && j <= |ops| && k in tables[j]
    ensures History(ops, tables, j, k) != [] && tables[j][k] == Fold(History(ops, tables, j, k))
  {
    if j > 0 {
      var op := ops[j - 1];
      RunStep(maxFlows, ops, tables, j - 1);
      RecordStep(maxFlows, op, tables[j - 1], tables[j], k);
      if k in tables[j - 1] {
        RecordIsItsHistory(maxFlows, ops, tables, j - 1, k);
        var init := History(ops, tables, j - 1, k);
        assert (init + [op])[..|init| + 1 - 1] == init;
      }
    }
  }

  // ----- what the record says about its packets

  ghost predicate Ends(p: Packet) { p.fin || p.rst }

  ghost predicate Opens(p: Packet) { p.syn && p.ack }

  /** Some packet ended the connection, and none opened it again afterwards. */
  ghost predicate Closed(h: seq<Op>)
    requires forall i :: 0 <= i < |h| ==> h[i].Seen?
  {
    exists i :: 0 <= i < |h| && Ends(h[i].p) && forall l :: i < l < |h| ==> !(Opens(h[l].p) && !Ends(h[l].p))
  }

  /** No packet acknowledged, ended or reset anything. */
  ghost predicate Unanswered(h: seq<Op>)
    requires forall i :: 0 <= i < |h| ==> h[i].Seen?
  {
    forall i :: 0 <= i < |h| ==> !h[i].p.ack && !Ends(h[i].p)
  }

  lemma ClosedExtends(h: seq<Op>, last: Op)
    requires (forall i :: 0 <= i < |h| ==> h[i].Seen?) && last.Seen?
    ensures Closed(h + [last]) <==> Ends(last.p) || (Closed(h) && !Opens(last.p))
  {
    var all := h + [last];
    if Ends(last.p) {
      assert Ends(all[|h|].p);
    }
    if Closed(h) && !Opens(last.p) {
      var i :| 0 <= i < |h| && Ends(h[i].p) && forall l :: i < l < |h| ==> !(Opens(h[l].p) && !Ends(h[l].p));
      assert all[i] == h[i];
      assert forall l :: i < l < |all| ==> all[l] == if l < |h| then h[l] else last;
    }
    if Closed(all) && !Ends(last.p) {
      var i :| 0 <= i < |all| && Ends(all[i].p) && forall l :: i < l < |all| ==> !(Opens(all[l].p) && !Ends(all[l].p));
      assert all[|h|] == last && i < |h| && h[i] == all[i];
      assert forall l :: i < l < |h| ==> h[l] == all[l];
    }
  }

  lemma UnansweredExtends(h: seq<Op>, last: Op)
    requires (forall i :: 0 <= i < |h| ==> h[i].Seen?) && last.Seen?
    ensures Unanswered(h + [last]) <==> Unanswered(h) && !last.p.ack && !Ends(last.p)
  {
    var all := h + [last];
    assert all[|h|] == last && forall i :: 0 <= i < |h| ==> all[i] == h[i];
  }

  ghost predicate OneFlow(h: seq<Op>, k: Key) {
    forall i :: 0 <= i < |h| ==> h[i].Seen? && h[i].p.key == k
  }

  lemma NotBoth(h: seq<Op>)
    requires forall i :: 0 <= i < |h| ==> h[i].Seen?
    ensures !(Unanswered(h) && Closed(h))
  {
  }

  /** A TCP record's state: nothing answered yet, closed by its last decisive packet, or established. */
  lemma {:induction false} TcpStateFromHistory(h: seq<Op>, k: Key)
    requires h != [] && OneFlow(h, k) && k.protocol == TCP
    ensures Fold(h).tcpState == if Unanswered(h) then 0 else if Closed(h) then 2 else 1
  {
    var init, last := h[..|h| - 1], h[|h| - 1];
    assert h == init + [last];
    ClosedExtends(init, last);
    UnansweredExtends(init, last);
    NotBoth(init);
    if init != [] {
      TcpStateFromHistory(init, k);
      assert Fold(h) == Touched(Fold(init), last.p, last.now, last.inspected);
    } else {
      assert !Closed(init);
      assert Fold(h) == Touched(NewFlow(last.p, last.now, last.path), last.p, last.now, last.inspected);
    }
  }

  /** Creation time, paths and direction come from the first packet, the last-seen time and inspection from the last. */
  lemma {:induction false} EndsFromHistory(h: seq<Op>, k: Key)
    requires h != [] && OneFlow(h, k)
    ensures var f, first, last := Fold(h), h[0], h[|h| - 1];
            && f.key == k && f.protocol == k.protocol && f.firstMs == first.now
            && f.activePath == f.desiredPath == first.path && f.lastMs == last.now && f.inspected == last.inspected
            && (f.beginningSeen <==> first.p.syn && !first.p.ack)
            && (f.clientIsA == first.p.sourceIsA <==>
                !(k.protocol == TCP && first.p.syn && first.p.ack))
  {
    if |h| > 1 {
      var init := h[..|h| - 1];
      EndsFromHistory(init, k);
    }
  }

  /** The time a record may idle, in milliseconds: one of six settings, by what inspection says, the protocol, and for
      TCP by what its packets said. */
  ghost predicate MayIdle(h: seq<Op>, c: Config, ms: nat)
    requires h != [] && forall i :: 0 <= i < |h| ==> h[i].Seen?
  {
    var inspected, protocol := h[|h| - 1].inspected, h[0].p.key.protocol;
    var monitored := inspected.result == MetadataMonitoring;
    var dns := c.dnsProtocol in {inspected.app, inspected.master};
    && (monitored ==> ms == 1000 * c.metadata)
    && (!monitored && protocol == UDP && dns ==> ms == 1000 * c.dns)
    && (!monitored && protocol == UDP && !dns ==> ms == 1000 * c.udp)
    && (!monitored && protocol == TCP && Unanswered(h) ==> ms == 1000 * c.tcpHandshake)
    && (!monitored && protocol == TCP && Closed(h) ==> ms == 1000 * c.tcpClosing)
    && (!monitored && protocol == TCP && !Unanswered(h) && !Closed(h) ==> ms == 1000 * c.tcpEstablished)
    && (!monitored && protocol != UDP && protocol != TCP ==> ms == 1000 * c.udp)
  }

  lemma TimeoutFromHistory(h: seq<Op>, k: Key, c: Config)
    requires h != [] && OneFlow(h, k)
    ensures MayIdle(h, c, TimeoutMs(Fold(h), c))
  {
    EndsFromHistory(h, k);
    NotBoth(h);
    if k.protocol == TCP {
      TcpStateFromHistory(h, k);
    }
  }

  /** Over every run under a clock that never runs back: expiry removes a record exactly if the flow's first packet is
      the maximum lifetime old, or its last packet is as old as its packets and its inspection allow. */
  lemma ExpiryFromHistory(maxFlows: nat, ops: seq<Op>, tables: seq<map<Key, Flow>>, j: nat, k: Key) returns (ms: nat)
    requires IsRun(maxFlows, ops, tables) && j < |ops| && ClockNeverRunsBack(ops) && ops[j].Sweeping? && k in tables[j]
    ensures var h, c, now := History(ops, tables, j, k), ops[j].c, ops[j].now;
            && h != [] && MayIdle(h, c, ms)
            && (k !in tables[j + 1] <==> h[|h| - 1].now + ms <= now || h[0].now + c.maxLifetime * 1000 <= now)
  {
    var h := History(ops, tables, j, k);
    RecordIsItsHistory(maxFlows, ops, tables, j, k);
    EndsFromHistory(h, k);
    TimeoutFromHistory(h, k, ops[j].c);
    ExpiryIsExact(maxFlows, ops, tables, j, k);
    ms := TimeoutMs(tables[j][k], ops[j].c);
  }
}
