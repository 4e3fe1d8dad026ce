/** The classifier's flow table: hash chains that refine a map from flow keys to records, with eviction of the least
    recently used record and two kinds of expiry. */
module FlowTable {
  import opened Basics
  import opened PacketParser

  const BUCKET_COUNT: nat := 4099

  const NO_TIME: nat := 0xFFFF_FFFF_FFFF_FFFF
  const TIME_MODULUS: nat := 0x1_0000_0000_0000_0000

  type Time = t: nat | t < 0x1_0000_0000_0000_0000

  datatype FlowResult =
    Inspecting | Partial | Classified | TerminalUnknown | MetadataMonitoring | Expired | Failed | TerminalPartial

  /** What deep inspection reports about a flow. */
  datatype Inspection = Inspection(result: FlowResult, app: nat, master: nat)

  datatype Flow = Flow(key: Key, firstMs: Time, lastMs: Time, activePath: nat, desiredPath: nat, protocol: nat,
                       clientIsA: bool, beginningSeen: bool, tcpState: nat, inspected: Inspection)

  /** Timeouts in seconds, and the protocol number that inspection uses for DNS. */
  datatype Config = Config(metadata: nat, dns: nat, udp: nat, tcpHandshake: nat, tcpClosing: nat, tcpEstablished: nat,
                           maxLifetime: nat, dnsProtocol: nat)

  /** 64-bit unsigned subtraction. */
  function Elapsed(now: Time, since: Time): Time {
    if now >= since then now - since else now + TIME_MODULUS - since
  }

  function TimeoutMs(f: Flow, c: Config): nat {
    1000 *
    if f.inspected.result == MetadataMonitoring then c.metadata
    else if f.protocol == UDP then
      if f.inspected.app == c.dnsProtocol || f.inspected.master == c.dnsProtocol then c.dns else c.udp
    else if f.protocol == TCP then
      if f.tcpState == 0 then c.tcpHandshake
      else if f.tcpState >= 2 then c.tcpClosing
      else c.tcpEstablished
    else c.udp
  }

  predicate Idle(f: Flow, c: Config, now: Time) {
    Elapsed(now, f.lastMs) >= TimeoutMs(f, c)
  }

  predicate Outlived(f: Flow, c: Config, now: Time) {
    Elapsed(now, f.firstMs) >= c.maxLifetime * 1000
  }

  function NewFlow(p: Packet, now: Time, path: nat): Flow {
    Flow(p.key, now, now, path, path, p.key.protocol,
         if p.key.protocol == TCP && p.syn && p.ack then !p.sourceIsA else p.sourceIsA,
         p.syn && !p.ack, 0, Inspection(Inspecting, 0, 0))
  }

  /** The caller's bookkeeping for one packet of the flow. */
  function Touched(f: Flow, p: Packet, now: Time, inspected: Inspection): Flow {
    var state := if p.key.protocol == TCP && p.ack && (p.syn || f.tcpState == 0) then 1 else f.tcpState;
    f.(lastMs := now, tcpState := if p.key.protocol == TCP && (p.fin || p.rst) then 2
      else state, inspected := inspected)
  }

  // ----- chains refine a map

  /** The chain of a key; nothing below depends on which hash is used. */
  function Slot(hash: Key -> nat, k: Key): (i: nat)
    ensures i < BUCKET_COUNT
  {
    hash(k) % BUCKET_COUNT
  }

  /** Every chained record is the map's record for its key and sits in its key's chain, once; and nothing is missing. */
  ghost predicate Represents(hash: Key -> nat, chains: seq<seq<Flow>>, m: map<Key, Flow>) {
    |chains| == BUCKET_COUNT &&
    (forall i, j {:trigger Holds(hash, m, i, chains[i][j])} ::
      0 <= i < |chains| && 0 <= j < |chains[i]| ==> Holds(hash, m, i, chains[i][j])) &&
    (forall i {:trigger Unique(chains[i])} :: 0 <= i < |chains| ==> Unique(chains[i])) &&
    forall k {:trigger Present(hash, chains, m, k)} :: k in m ==> Present(hash, chains, m, k)
  }

  ghost predicate Present(hash: Key -> nat, chains: seq<seq<Flow>>, m: map<Key, Flow>, k: Key)
    requires |chains| == BUCKET_COUNT && k in m
  {
    m[k].key == k && m[k] in chains[Slot(hash, k)]
  }

  ghost predicate Holds(hash: Key -> nat, m: map<Key, Flow>, i: nat, f: Flow) {
    f.key in m && m[f.key] == f && Slot(hash, f.key) == i
  }

  ghost predicate Unique(chain: seq<Flow>) {
    forall j, l :: 0 <= j < l < |chain| ==> chain[j].key != chain[l].key
  }

  function Without(chain: seq<Flow>, j: nat): seq<Flow>
    requires j < |chain|
  {
    chain[..j] + chain[j + 1..]
  }

  lemma WithoutMembers(chain: seq<Flow>, j: nat)
    requires j < |chain| && Unique(chain)
    ensures Unique(Without(chain, j))
    ensures forall f :: f in Without(chain, j) <==> f in chain && f.key != chain[j].key
  {
    var rest := Without(chain, j);
    forall f | f in chain && f.key != chain[j].key
      ensures f in rest
    {
      var l :| 0 <= l < |chain| && chain[l] == f;
      assert rest[if l < j then l else l - 1] == f;
    }
  }

  /** Unlinking one record removes exactly its key. */
  lemma Unlink(hash: Key -> nat, chains: seq<seq<Flow>>, m: map<Key, Flow>, i: nat, j: nat)
    requires Represents(hash, chains, m) && i < |chains| && j < |chains[i]|
    ensures var k := chains[i][j].key;
            k in m && Represents(hash, chains[i := Without(chains[i], j)], m - {k}) && |m - {k}| == |m| - 1
  {
    var k := chains[i][j].key;
    var after, left := chains[i := Without(chains[i], j)], m - {k};
    assert Holds(hash, m, i, chains[i][j]);
    WithoutMembers(chains[i], j);
    assert m.Keys == left.Keys + {k};
    forall a, b | 0 <= a < |after| && 0 <= b < |after[a]|
      ensures Holds(hash, left, a, after[a][b])
    {
      var f := after[a][b];
      if a == i {
        assert f in after[i];
        var l :| 0 <= l < |chains[i]| && chains[i][l] == f;
        assert Holds(hash, m, i, chains[i][l]);
      } else {
        assert Holds(hash, m, a, chains[a][b]);
      }
    }
    forall k' | k' in left
      ensures Present(hash, after, left, k')
    {
      assert Present(hash, chains, m, k');
    }
  }

  lemma LinkUnique(chain: seq<Flow>, f: Flow)
    requires Unique(chain) && forall j :: 0 <= j < |chain| ==> chain[j].key != f.key
    ensures Unique([f] + chain)
  {
  }

  lemma LinkHolds(hash: Key -> nat, chains: seq<seq<Flow>>, m: map<Key, Flow>, f: Flow, a: nat, b: nat)
    requires Represents(hash, chains, m) && f.key !in m && a < BUCKET_COUNT
    requires b < |if a == Slot(hash, f.key) then [f] + chains[a] else chains[a]|
    ensures Holds(hash, m[f.key := f], a, (if a == Slot(hash, f.key) then [f] + chains[a] else chains[a])[b])
  {
    if a != Slot(hash, f.key) {
      assert Holds(hash, m, a, chains[a][b]);
    } else if b > 0 {
      assert Holds(hash, m, a, chains[a][b - 1]);
    }
  }

  /** Linking a record with a new key at the head of its chain adds exactly that key. */
  lemma Link(hash: Key -> nat, chains: seq<seq<Flow>>, m: map<Key, Flow>, f: Flow)
    requires Represents(hash, chains, m) && f.key !in m
    ensures var i := Slot(hash, f.key);
            Represents(hash, chains[i := [f] + chains[i]], m[f.key := f]) && |m[f.key := f]| == |m| + 1
  {
    var i := Slot(hash, f.key);
    var after, more := chains[i := [f] + chains[i]], m[f.key := f];
    assert more.Keys == m.Keys + {f.key};
    forall a, b | 0 <= a < |after| && 0 <= b < |after[a]|
      ensures Holds(hash, more, a, after[a][b])
    {
      LinkHolds(hash, chains, m, f, a, b);
    }
    forall j | 0 <= j < |chains[i]|
      ensures chains[i][j].key != f.key
    {
      assert Holds(hash, m, i, chains[i][j]);
    }
    LinkUnique(chains[i], f);
    forall k | k in more
      ensures Present(hash, after, more, k)
    {
      if k == f.key {
        assert after[i][0] == f;
      } else {
        assert Present(hash, chains, m, k);
      }
    }
  }

  /** Updating a record in place, with the same key. */
  lemma Relabel(hash: Key -> nat, chains: seq<seq<Flow>>, m: map<Key, Flow>, i: nat, j: nat, f: Flow)
    requires Represents(hash, chains, m) && i < |chains| && j < |chains[i]| && f.key == chains[i][j].key
    ensures f.key in m && Represents(hash, chains[i := chains[i][j := f]], m[f.key := f]) && |m[f.key := f]| == |m|
  {
    var after, m' := chains[i := chains[i][j := f]], m[f.key := f];
    assert Holds(hash, m, i, chains[i][j]) && Unique(chains[i]);
    assert m'.Keys == m.Keys;
    forall a, b | 0 <= a < |after| && 0 <= b < |after[a]|
      ensures Holds(hash, m', a, after[a][b])
    {
      assert Holds(hash, m, a, chains[a][b]);
    }
    forall k | k in m'
      ensures Present(hash, after, m', k)
    {
      if k == f.key {
        assert after[i][j] == f;
      } else {
        var c := Slot(hash, k);
        assert Present(hash, chains, m, k);
        var l :| 0 <= l < |chains[c]| && chains[c][l] == m[k];
        assert after[c][l] == m[k];
      }
    }
  }

  /** A key that its own chain lacks is not in the table. */
  lemma Missing(hash: Key -> nat, chains: seq<seq<Flow>>, m: map<Key, Flow>, k: Key)
    requires Represents(hash, chains, m)
    requires forall j :: 0 <= j < |chains[Slot(hash, k)]| ==> chains[Slot(hash, k)][j].key != k
    ensures k !in m
  {
    if k in m {
      var i, j := RecordsAreChained(hash, chains, m, k);
      assert false;
    }
  }

  /** The map's records are the chained ones. */
  lemma RecordsAreChained(hash: Key -> nat, chains: seq<seq<Flow>>, m: map<Key, Flow>, k: Key) returns (i: nat, j: nat)
    requires Represents(hash, chains, m) && k in m
    ensures i == Slot(hash, k) && j < |chains[i]| && chains[i][j] == m[k] && m[k].key == k
  {
    assert Present(hash, chains, m, k);
    i := Slot(hash, k);
    j :| 0 <= j < |chains[i]| && chains[i][j] == m[k];
  }

  predicate Evictable(m: map<Key, Flow>) {
    exists k :: k in m && m[k].lastMs < NO_TIME
  }

  /** `victim` was used no later than any other record. */
  ghost predicate LeastRecent(m: map<Key, Flow>, victim: Key) {
    victim in m && forall k :: k in m ==> m[victim].lastMs <= m[k].lastMs
  }

  /** Records that expiry at `now` must keep. */
  function Surviving(m: map<Key, Flow>, c: Config, now: Time): map<Key, Flow> {
    map k | k in m && !Idle(m[k], c, now) && !Outlived(m[k], c, now) :: m[k]
  }

  function OutlivedKeys(m: map<Key, Flow>, c: Config, now: Time): set<Key> {
    set k | k in m && Outlived(m[k], c, now)
  }

  function IdleKeys(m: map<Key, Flow>, c: Config, now: Time): set<Key> {
    set k | k in m && !Outlived(m[k], c, now) && Idle(m[k], c, now)
  }

  class FlowTable {
    const hash: Key -> nat
    const maxFlows: nat
    var buckets: array<seq<Flow>>
    var size: nat
    var evicted: nat
    var expiredIdle: nat
    var expiredLifetime: nat
    ghost var contents: map<Key, Flow>
    ghost var created: nat

    /** The chains refine `contents`, and every record ever created is still there or was counted out once. */
    ghost predicate Valid()
      reads this, buckets
    {
      Represents(hash, buckets[..], contents) && size == |contents| &&
      created == size + evicted + expiredIdle + expiredLifetime
    }

    constructor (hash: Key -> nat, maxFlows: nat)
      ensures Valid() && fresh(buckets) && contents == map[] && created == 0
      ensures this.maxFlows == maxFlows && this.hash == hash
    {
      this.hash, this.maxFlows := hash, maxFlows;
      buckets := new seq<Flow>[4099](_ => []);
      size, evicted, expiredIdle, expiredLifetime := 0, 0, 0, 0;
      contents, created := map[], 0;
    }

    /** Position of the first record with the least timestamp below the all-ones one. */
    method FindOldest() returns (found: bool, at: nat, pos: nat)
      requires Valid()
      ensures found <==> Evictable(contents)
      ensures found ==> at < buckets.Length && pos < |buckets[at]| && LeastRecent(contents, buckets[at][pos].key)
    {
      var oldest := NO_TIME;
      found, at, pos := false, 0, 0;
      for i := 0 to buckets.Length
        invariant found ==> at < buckets.Length && pos < |buckets[at]| && buckets[at][pos].lastMs == oldest < NO_TIME
        invariant !found ==> oldest == NO_TIME
        invariant forall a, b :: 0 <= a < i && 0 <= b < |buckets[a]| ==> oldest <= buckets[a][b].lastMs
      {
        for j := 0 to |buckets[i]|
          invariant found ==> at < buckets.Length && pos < |buckets[at]| && buckets[at][pos].lastMs == oldest < NO_TIME
          invariant !found ==> oldest == NO_TIME
          invariant forall a, b :: 0 <= a < i && 0 <= b < |buckets[a]| ==> oldest <= buckets[a][b].lastMs
          invariant forall b :: 0 <= b < j ==> oldest <= buckets[i][b].lastMs
        {
          if buckets[i][j].lastMs < oldest {
            oldest, found, at, pos := buckets[i][j].lastMs, true, i, j;
          }
        }
      }
      OldestMeaning(hash, buckets[..], contents, oldest);
      if found {
        assert Holds(hash, contents, at, buckets[..][at][pos]);
      }
    }

    /** Unlinks one record; every other chain stays. */
    method Drop(i: nat, j: nat)
      requires Represents(hash, buckets[..], contents) && size == |contents| && i < buckets.Length && j < |buckets[i]|
      modifies this`size, this`contents, buckets
      ensures Represents(hash, buckets[..], contents) && size == |contents|
      ensures var k := old(buckets[i][j].key);
              k in old(contents) && old(contents)[k] == old(buckets[i][j]) && contents == old(contents) - {k} &&
                size == old(size) - 1
      ensures buckets[..] == old(buckets[..])[i := Without(old(buckets[i]), j)]
    {
      ghost var chains, key := buckets[..], buckets[i][j].key;
      Unlink(hash, chains, contents, i, j);
      assert Holds(hash, contents, i, chains[i][j]);
      buckets[i] := buckets[i][..j] + buckets[i][j + 1..];
      assert buckets[..] == chains[i := Without(chains[i], j)];
      size := size - 1;
      contents := contents - {key};
    }

    /** Links a new record at the head of its chain. */
    method Insert(item: Flow)
      requires Represents(hash, buckets[..], contents) && size == |contents| && item.key !in contents
      modifies this`size, this`contents, buckets
      ensures Represents(hash, buckets[..], contents) && size == |contents|
      ensures contents == old(contents)[item.key := item] && size == old(size) + 1
      ensures buckets[Slot(hash, item.key)] == [item] + old(buckets[Slot(hash, item.key)])
    {
      var bucket := Slot(hash, item.key);
      ghost var chains := buckets[..];
      Link(hash, chains, contents, item);
      buckets[bucket] := [item] + buckets[bucket];
      assert buckets[..] == chains[bucket := [item] + chains[bucket]];
      size := size + 1;
      contents := contents[item.key := item];
    }

    /** Rewrites the record at a position under the same key. */
    method Update(i: nat, j: nat, item: Flow)
      requires Represents(hash, buckets[..], contents) && i < buckets.Length && j < |buckets[i]| &&
               buckets[i][j].key == item.key
      modifies this`contents, buckets
      ensures Represents(hash, buckets[..], contents)
      ensures contents == old(contents)[item.key := item] && |contents| == |old(contents)|
    {
      ghost var chains := buckets[..];
      Relabel(hash, chains, contents, i, j, item);
      buckets[i] := buckets[i][j := item];
      assert buckets[..] == chains[i := chains[i][j := item]];
      contents := contents[item.key := item];
    }

    /** Removes one least recently used record, if any record carries a timestamp below the all-ones one. */
    method EvictOldest() returns (ghost victim: Option<Key>)
      requires Valid()
      modifies this`size, this`evicted, this`contents, buckets
      ensures Valid()
      ensures victim.Some? <==> old(Evictable(contents))
      ensures victim.Some? ==>
              LeastRecent(old(contents), victim.value) && contents == old(contents) - {victim.value} &&
                evicted == old(evicted) + 1
      ensures victim.None? ==> contents == old(contents) && evicted == old(evicted) && buckets[..] == old(buckets[..])
    {
      var found, at, pos := FindOldest();
      victim := None;
      if found {
        victim := Some(buckets[at][pos].key);
        Drop(at, pos);
        evicted := evicted + 1;
      }
    }

    /** Walks the chain of a key. */
    method Lookup(k: Key) returns (found: bool, pos: nat)
      requires Valid()
      ensures found <==> k in contents
      ensures found ==>
              pos < |buckets[Slot(hash, k)]| && buckets[Slot(hash, k)][pos] == contents[k] && contents[k].key == k
    {
      var bucket := Slot(hash, k);
      for j := 0 to |buckets[bucket]|
        invariant forall b :: 0 <= b < j ==> buckets[bucket][b].key != k
      {
        if buckets[bucket][j].key == k {
          assert Holds(hash, contents, bucket, buckets[..][bucket][j]);
          return true, j;
        }
      }
      Missing(hash, buckets[..], contents, k);
      return false, 0;
    }

    /** A full table gives up one record. */
    method MakeRoom()
      requires Valid()
      modifies this`size, this`evicted, this`contents, buckets
      ensures Valid() && Admitted(old(contents), maxFlows, contents)
    {
      if size >= maxFlows {
        ghost var victim := EvictOldest();
      }
    }

    /** The record for the packet's key, created at the head of its chain if there was none. A full table first gives
        up one record, also when the allocation then fails. */
    method Get(p: Packet, now: Time, path: nat, hasMemory: bool)
      returns (ok: bool, isNew: bool, pos: nat, ghost kept: map<Key, Flow>)
      requires Valid()
      modifies this`size, this`evicted, this`contents, this`created, buckets
      ensures Valid()
      ensures ok <==> p.key in old(contents) || hasMemory
      ensures isNew <==> p.key !in old(contents) && hasMemory
      ensures p.key in old(contents) ==> contents == old(contents)
      ensures p.key !in old(contents) ==>
              Admitted(old(contents), maxFlows, kept) && contents == if isNew then kept[p.key := NewFlow(p, now, path)]
                else kept
      ensures ok ==>
              p.key in contents && pos < |buckets[Slot(hash, p.key)]| &&
                buckets[Slot(hash, p.key)][pos] == contents[p.key] && contents[p.key].key == p.key
      ensures created == old(created) + if isNew then 1 else 0
    {
      kept := contents;
      var found;
      found, pos := Lookup(p.key);
      if found {
        return true, false, pos, kept;
      }
      MakeRoom();
      kept := contents;
      if !hasMemory {
        return false, false, 0, kept;
      }
      Insert(NewFlow(p, now, path));
      created := created + 1;
      return true, true, 0, kept;
    }

    /** One packet: fetch its record and stamp it. */
    method Observe(p: Packet, now: Time, path: nat, hasMemory: bool, inspected: Inspection)
      returns (ok: bool, ghost kept: map<Key, Flow>)
      requires Valid()
      modifies this`size, this`evicted, this`contents, this`created, buckets
      ensures Valid()
      ensures ok <==> p.key in old(contents) || hasMemory
      ensures ObserveStep(old(contents), maxFlows, p, now, path, ok, inspected, kept, contents)
    {
      var isNew, pos;
      ok, isNew, pos, kept := Get(p, now, path, hasMemory);
      if ok {
        var bucket := Slot(hash, p.key);
        Update(bucket, pos, Touched(buckets[bucket][pos], p, now, inspected));
      }
    }

    /** Removes one record and counts it on the side it belongs to. */
    method SweepOne(i: nat, j: nat, tooOld: bool, ghost g: Sweep, ghost gone: Gone) returns (ghost gone': Gone)
      requires Valid() && i < buckets.Length && j < |buckets[i]| && Swept(g, contents, gone)
      requires buckets[i][j].key in if tooOld then g.outlived else g.idle
      modifies this`size, this`expiredIdle, this`expiredLifetime, this`contents, buckets
      ensures Valid() && size == old(size) - 1 && Swept(g, contents, gone')
      ensures expiredLifetime - old(expiredLifetime) == |gone'.outlived| - |gone.outlived|
      ensures expiredIdle - old(expiredIdle) == |gone'.idle| - |gone.idle|
      ensures buckets[..] == old(buckets[..])[i := Without(old(buckets[i]), j)]
    {
      ghost var before, key := contents, buckets[i][j].key;
      Drop(i, j);
      gone' := SweptStep(g, before, gone, key, tooOld);
      if tooOld {
        expiredLifetime := expiredLifetime + 1;
      } else {
        expiredIdle := expiredIdle + 1;
      }
    }

    /** Decides about the record at one position. */
    method SweepAt(i: nat, j: nat, c: Config, now: Time, ghost g: Sweep, ghost gone: Gone)
      returns (removed: bool, ghost gone': Gone)
      requires Valid() && i < buckets.Length && j < |buckets[i]| && IsSweep(g, c, now) && Swept(g, contents, gone)
      modifies this`size, this`expiredIdle, this`expiredLifetime, this`contents, buckets
      ensures Valid() && size == old(size) - (if removed then 1 else 0) && Swept(g, contents, gone')
      ensures expiredLifetime - old(expiredLifetime) == |gone'.outlived| - |gone.outlived|
      ensures expiredIdle - old(expiredIdle) == |gone'.idle| - |gone.idle|
      ensures buckets[..] == if removed then old(buckets[..])[i := Without(old(buckets[i]), j)] else old(buckets[..])
      ensures !removed ==> buckets[i][j].key !in g.outlived && buckets[i][j].key !in g.idle
    {
      var item := buckets[i][j];
      assert Holds(hash, contents, i, buckets[..][i][j]);
      SortsRecord(g, c, now, contents, gone, item);
      var idle, lifetime := Idle(item, c, now), Outlived(item, c, now);
      removed, gone' := idle || lifetime, gone;
      if removed {
        gone' := SweepOne(i, j, lifetime, g, gone);
      }
    }

    /** Removes the timed-out records of one chain. */
    method SweepChain(i: nat, c: Config, now: Time, ghost g: Sweep, ghost gone0: Gone)
      returns (expired: nat, ghost gone: Gone)
      requires Valid() && i < buckets.Length && IsSweep(g, c, now) && Swept(g, contents, gone0)
      modifies this`size, this`expiredIdle, this`expiredLifetime, this`contents, buckets
      ensures Valid() && expired == old(size) - size && Swept(g, contents, gone)
      ensures expiredLifetime - old(expiredLifetime) == |gone.outlived| - |gone0.outlived|
      ensures expiredIdle - old(expiredIdle) == |gone.idle| - |gone0.idle|
      ensures Clean(g, buckets[i], |buckets[i]|)
      ensures buckets[..] == old(buckets[..])[i := buckets[i]]
    {
      expired, gone := 0, gone0;
      var j := 0;
      while j < |buckets[i]|
        invariant Valid() && expired == old(size) - size && j <= |buckets[i]|
        invariant Swept(g, contents, gone)
        invariant expiredLifetime - old(expiredLifetime) == |gone.outlived| - |gone0.outlived|
        invariant expiredIdle - old(expiredIdle) == |gone.idle| - |gone0.idle|
        invariant Clean(g, buckets[i], j)
        invariant buckets[..] == old(buckets[..])[i := buckets[i]]
        decreases |buckets[i]| - j
      {
        ghost var chain := buckets[i];
        var removed;
        removed, gone := SweepAt(i, j, c, now, g, gone);
        if removed {
          assert buckets[i] == buckets[..][i] == Without(chain, j);
          UpdateTwice(old(buckets[..]), i, chain, Without(chain, j));
          CleanWithout(g, chain, j);
          expired := expired + 1;
        } else {
          assert buckets[i] == buckets[..][i] == chain;
          CleanNext(g, chain, j);
          j := j + 1;
        }
      }
    }

    /** Expiry keeps exactly the records that have neither idled nor outlived their limit, and counts the others. */
    method Expire(c: Config, now: Time) returns (expired: nat)
      requires Valid()
      modifies this`size, this`expiredIdle, this`expiredLifetime, this`contents, buckets
      ensures Valid() && contents == Surviving(old(contents), c, now)
      ensures expiredLifetime == old(expiredLifetime) + |OutlivedKeys(old(contents), c, now)|
      ensures expiredIdle == old(expiredIdle) + |IdleKeys(old(contents), c, now)|
      ensures expired == old(size) - size
    {
      expired := 0;
      ghost var g := SweepOf(contents, c, now);
      ghost var gone := Gone({}, {});
      for i := 0 to buckets.Length
        invariant Valid() && expired == old(size) - size
        invariant Swept(g, contents, gone)
        invariant expiredLifetime == old(expiredLifetime) + |gone.outlived| &&
                  expiredIdle == old(expiredIdle) + |gone.idle|
        invariant CleanTo(g, buckets[..], i)
      {
        ghost var chains := buckets[..];
        var n;
        n, gone := SweepChain(i, c, now, g, gone);
        CleanToNext(g, chains, buckets[..], i);
        expired := expired + n;
      }
      SweepIsComplete(hash, buckets[..], g, contents, gone);
      SurvivingMeaning(old(contents), c, now, contents);
    }
  }

  /** One packet's effect on the map. */
  ghost predicate ObserveStep(before: map<Key, Flow>, maxFlows: nat, p: Packet, now: Time, path: nat, ok: bool,
                              inspected: Inspection,
                              kept: map<Key, Flow>, after: map<Key, Flow>)
  {
    if p.key in before then ok && after == before[p.key := Touched(before[p.key], p, now, inspected)]
    else
      Admitted(before, maxFlows, kept) &&
      after == if ok then kept[p.key := Touched(NewFlow(p, now, path), p, now, inspected)] else kept
  }

  /** The table at the start of an expiry round and the keys that the round has to remove. */
  datatype Sweep = Sweep(start: map<Key, Flow>, outlived: set<Key>, idle: set<Key>)

  /** The keys removed so far. */
  datatype Gone = Gone(outlived: set<Key>, idle: set<Key>)

  ghost predicate IsSweep(g: Sweep, c: Config, now: Time) {
    forall k {:trigger Sorted(g, c, now, k)} :: k in g.start ==> Sorted(g, c, now, k)
  }

  ghost predicate Sorted(g: Sweep, c: Config, now: Time, k: Key)
    requires k in g.start
  {
    (k in g.outlived <==> Outlived(g.start[k], c, now)) &&
    (k in g.idle <==> Idle(g.start[k], c, now) && !Outlived(g.start[k], c, now))
  }

  /** The sweep that expiry at `now` performs. */
  ghost function SweepOf(m: map<Key, Flow>, c: Config, now: Time): (g: Sweep)
    ensures IsSweep(g, c, now)
  {
    Sweep(m, OutlivedKeys(m, c, now), IdleKeys(m, c, now))
  }

  /** The first `n` records of the chain stay. */
  ghost predicate Clean(g: Sweep, chain: seq<Flow>, n: nat)
    requires n <= |chain|
  {
    forall j :: 0 <= j < n ==> chain[j].key !in g.outlived && chain[j].key !in g.idle
  }

  ghost predicate CleanTo(g: Sweep, chains: seq<seq<Flow>>, n: nat)
    requires n <= |chains|
  {
    forall a :: 0 <= a < n ==> Clean(g, chains[a], |chains[a]|)
  }

  lemma CleanToNext(g: Sweep, before: seq<seq<Flow>>, after: seq<seq<Flow>>, n: nat)
    requires n < |before| && CleanTo(g, before, n) && |after| == |before| && after == before[n := after[n]] &&
             Clean(g, after[n], |after[n]|)
    ensures CleanTo(g, after, n + 1)
  {
  }

  lemma CleanWithout(g: Sweep, chain: seq<Flow>, n: nat)
    requires n < |chain| && Clean(g, chain, n)
    ensures Clean(g, Without(chain, n), n)
  {
  }

  lemma UpdateTwice(chains: seq<seq<Flow>>, i: nat, a: seq<Flow>, b: seq<Flow>)
    requires i < |chains|
    ensures chains[i := a][i := b] == chains[i := b]
  {
  }

  lemma CleanNext(g: Sweep, chain: seq<Flow>, n: nat)
    requires n < |chain| && Clean(g, chain, n) && chain[n].key !in g.outlived && chain[n].key !in g.idle
    ensures Clean(g, chain, n + 1)
  {
  }

  /** Only keys that have to go are gone, each for its own reason. */
  ghost predicate Swept(g: Sweep, m: map<Key, Flow>, gone: Gone) {
    m == g.start - (gone.outlived + gone.idle) && gone.outlived <= g.outlived && gone.idle <= g.idle &&
    g.outlived !! g.idle && g.outlived + g.idle <= g.start.Keys
  }

  lemma SweptStep(g: Sweep, m: map<Key, Flow>, gone: Gone, key: Key, tooOld: bool) returns (gone': Gone)
    requires Swept(g, m, gone) && key in m && key in if tooOld then g.outlived else g.idle
    ensures Swept(g, m - {key}, gone')
    ensures |gone'.outlived| == |gone.outlived| + (if tooOld then 1 else 0) &&
            |gone'.idle| == |gone.idle| + (if tooOld then 0 else 1)
  {
    gone' := if tooOld then gone.(outlived := gone.outlived + {key}) else gone.(idle := gone.idle + {key});
  }

  lemma SortsRecord(g: Sweep, c: Config, now: Time, m: map<Key, Flow>, gone: Gone, f: Flow)
    requires IsSweep(g, c, now) && Swept(g, m, gone) && f.key in m && m[f.key] == f
    ensures f.key in g.outlived <==> Outlived(f, c, now)
    ensures f.key in g.idle <==> Idle(f, c, now) && !Outlived(f, c, now)
  {
    assert Sorted(g, c, now, f.key);
  }

  lemma SweepIsComplete(hash: Key -> nat, chains: seq<seq<Flow>>, g: Sweep, m: map<Key, Flow>, gone: Gone)
    requires Represents(hash, chains, m) && Swept(g, m, gone)
    requires CleanTo(g, chains, |chains|)
    ensures m == g.start - (g.outlived + g.idle) && gone.outlived == g.outlived && gone.idle == g.idle
  {
    forall k | k in m
      ensures k !in g.outlived + g.idle
    {
      var i, j := RecordsAreChained(hash, chains, m, k);
      assert Clean(g, chains[i], |chains[i]|);
    }
    forall k | k in g.outlived + g.idle
      ensures k in gone.outlived + gone.idle
    {
      assert k in g.start && k !in m;
    }
  }

  /** A completed sweep left the surviving records. */
  lemma SurvivingMeaning(m0: map<Key, Flow>, c: Config, now: Time, m: map<Key, Flow>)
    requires m == m0 - (OutlivedKeys(m0, c, now) + IdleKeys(m0, c, now))
    ensures m == Surviving(m0, c, now)
  {
  }

  lemma OldestMeaning(hash: Key -> nat, chains: seq<seq<Flow>>, m: map<Key, Flow>, oldest: nat)
    requires Represents(hash, chains, m)
    requires forall a, b :: 0 <= a < |chains| && 0 <= b < |chains[a]| ==> oldest <= chains[a][b].lastMs
    ensures forall k :: k in m ==> oldest <= m[k].lastMs
  {
    forall k | k in m
      ensures oldest <= m[k].lastMs
    {
      var i, j := RecordsAreChained(hash, chains, m, k);
    }
  }

  /** What is left of the table once room was made for a new record. */
  ghost predicate Admitted(before: map<Key, Flow>, maxFlows: nat, kept: map<Key, Flow>) {
    if |before| >= maxFlows && Evictable(before) then exists victim ::
      LeastRecent(before, victim) && kept == before - {victim}
    else kept == before
  }
}
