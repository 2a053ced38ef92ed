/** The mobile node's tunnel pool: a cache of kernel tunnels with four segments of
    25 slots, one per tunnel type. */
module TunnelPool {
  import opened Addresses

  const NTNL := 100
  const SEGMENT := 25
  const MAX_TIME := 0x7fffffff

  datatype Key = Key(src: Ip6, dst: Ip6, link: int)

  // struct Tunnel_data; type 0 marks a free slot
  datatype Tunnel = Tunnel(kind: int, key: Key, ifindex: int, lastAccess: int)

  predicate IsKind(kind: int) {
    kind == 66 || kind == 46 || kind == 44 || kind == 64
  }

  function Begin(kind: int): nat
    requires IsKind(kind)
  {
    if kind == 66 then 0 else if kind == 46 then 25 else if kind == 44 then 50 else 75
  }

  // --------------------------------------------------- one segment as a sequence

  // the occupied slots of a segment, in slot order
  type Entries = seq<Tunnel>

  predicate HasKey(es: Entries, key: Key) {
    exists i | 0 <= i < |es| :: es[i].key == key
  }

  predicate DistinctKeys(es: Entries) {
    forall i, j | 0 <= i < j < |es| :: es[i].key != es[j].key
  }

  predicate DistinctIds(es: Entries) {
    forall i, j | 0 <= i < j < |es| :: es[i].ifindex != es[j].ifindex
  }

  /** The first slot that holds the key, or the number of entries. */
  function IndexOf(es: Entries, key: Key): (i: nat)
    ensures i <= |es|
    ensures i < |es| ==> es[i].key == key
    ensures forall j | 0 <= j < i :: es[j].key != key
  {
    if es == [] || es[0].key == key then 0 else 1 + IndexOf(es[1..], key)
  }

  /** The first slot with the least access time. */
  predicate IsVictim(es: Entries, v: nat) {
    && v < |es|
    && (forall j | 0 <= j < |es| :: es[v].lastAccess <= es[j].lastAccess)
    && (forall j | 0 <= j < v :: es[v].lastAccess < es[j].lastAccess)
  }

  function Victim(es: Entries): (v: nat)
    requires es != []
    ensures IsVictim(es, v)
    decreases |es|
  {
    if |es| == 1 then 0
    else
      var n := |es| - 1;
      var v := Victim(es[..n]);
      if es[n].lastAccess < es[v].lastAccess then n else v
  }

  /** What an add for the key does to the segment; `id` is the ifindex of a tunnel
      made for it, if one has to be made. */
  function Use(es: Entries, kind: int, key: Key, now: int, id: int): Entries {
    var i := IndexOf(es, key);
    if i < |es| then es[i := es[i].(lastAccess := now)]
    else if |es| < SEGMENT then es + [Tunnel(kind, key, id, now)]
    else es[Victim(es) := Tunnel(kind, key, id, now)]
  }

  function IdsOf(es: Entries): set<int> {
    set i | 0 <= i < |es| :: es[i].ifindex
  }

  predicate InUse(kind: int) {
    kind == 66 || kind == 44 || kind == 64
  }

  /** Well-formed contents of a segment: no key and no tunnel twice. */
  ghost predicate SegmentOk(es: Entries, kind: int, nextIfindex: int) {
    && |es| <= SEGMENT && DistinctKeys(es) && DistinctIds(es)
    && (forall i | 0 <= i < |es| ::
        es[i].kind == kind && es[i].lastAccess < MAX_TIME && 0 < es[i].ifindex < nextIfindex)
  }

  /** The entries fill the segment's slots from its beginning; the rest is free. */
  ghost predicate Fills(slots: seq<Tunnel>, beg: nat, es: Entries)
    requires |slots| == NTNL && beg + SEGMENT <= NTNL && |es| <= SEGMENT
  {
    && (forall i | beg <= i < beg + |es| :: slots[i] == es[i - beg])
    && (forall i | beg + |es| <= i < beg + SEGMENT :: slots[i].kind == 0)
  }

  /** What the three segments in use hold. */
  datatype Segments = Segments(s66: Entries, s44: Entries, s64: Entries)
  {
    function Get(kind: int): Entries {
      if kind == 66 then s66 else if kind == 44 then s44 else s64
    }

    function Set(kind: int, es: Entries): Segments {
      if kind == 66 then this.(s66 := es) else if kind == 44 then this.(s44 := es) else this.(s64 := es)
    }

    ghost predicate Ok(next: int) {
      SegmentOk(s66, 66, next) && SegmentOk(s44, 44, next) && SegmentOk(s64, 64, next)
    }

    ghost predicate Disjoint() {
      IdsOf(s66) !! IdsOf(s44) && IdsOf(s66) !! IdsOf(s64) && IdsOf(s44) !! IdsOf(s64)
    }

    ghost predicate Filling(slots: seq<Tunnel>)
      requires |slots| == NTNL && |s66| <= SEGMENT && |s44| <= SEGMENT && |s64| <= SEGMENT
    {
      Fills(slots, 0, s66) && Fills(slots, 25, []) && Fills(slots, 50, s44) && Fills(slots, 75, s64)
    }

    function Ids(): set<int> {
      IdsOf(s66) + IdsOf(s44) + IdsOf(s64)
    }
  }

  /** The pool with its segments' contents, the kernel's tunnels and the next
      interface index. */
  datatype State = State(slots: seq<Tunnel>, segments: Segments, live: set<int>, next: int)
  {
    /** Occupied slots form a prefix of each segment, no key and no tunnel is
        there twice, and the pool's tunnels are just the kernel's. */
    ghost predicate Ok() {
      && |slots| == NTNL && next > 0
      && segments.Ok(next) && segments.Filling(slots) && segments.Disjoint()
      && live == segments.Ids()
    }
  }

  /** The slot of its segment an add uses. */
  function SlotFor(es: Entries, key: Key): (i: nat)
    ensures i <= |es| && (|es| == SEGMENT ==> i < SEGMENT)
  {
    var k := IndexOf(es, key);
    if k < |es| then k else if |es| < SEGMENT || es == [] then |es| else Victim(es)
  }

  /** The whole pool after an add. */
  ghost function Added(p: State, kind: int, key: Key, now: int): State
    requires InUse(kind) && p.Ok()
  {
    var es := p.segments.Get(kind);
    var es' := Use(es, kind, key, now, p.next);
    var i := SlotFor(es, key);
    var hit := IndexOf(es, key) < |es|;
    State(p.slots[Begin(kind) + i := es'[i]],
          p.segments.Set(kind, es'),
          if hit then p.live else p.live - (if |es| < SEGMENT then {} else {es[i].ifindex}) + {p.next},
          if hit then p.next else p.next + 1)
  }

  const FREE := Tunnel(0, Key(IN6ADDR_ANY, IN6ADDR_ANY, 0), 0, 0)

  function EmptyPool(): State {
    State(seq(NTNL, _ => FREE), Segments([], [], []), {}, 1)
  }

  // ------------------------------------------------------------------- the pool

  class Pool {
    const slots: array<Tunnel>
    // the tunnels in the kernel, and the next interface index it hands out
    var live: set<int>
    var nextIfindex: int
    // what the segments hold
    ghost var segments: Segments

    ghost function Abs(): State
      reads this, slots
    {
      State(slots[..], segments, live, nextIfindex)
    }

    /** tnl_init */
    constructor ()
      ensures Abs().Ok() && Abs() == EmptyPool() && fresh(slots)
    {
      slots := new Tunnel[NTNL](_ => FREE);
      live := {};
      nextIfindex := 1;
      segments := Segments([], [], []);
      new;
      assert slots[..] == EmptyPool().slots;
    }

    /** find_tunnel: the slot to use, and whether its tunnel must go first. The
        scan stops at the first free slot. */
    method FindTunnel(kind: int, key: Key, ghost es: Entries) returns (i: nat, feedback: bool)
      requires IsKind(kind) && slots.Length == NTNL && |es| <= SEGMENT && Fills(slots[..], Begin(kind), es)
      requires forall j | 0 <= j < |es| :: es[j].kind == kind && es[j].lastAccess < MAX_TIME
      ensures i == Begin(kind) + SlotFor(es, key)
      ensures feedback <==> IndexOf(es, key) == |es| == SEGMENT
    {
      var beg := if kind == 66 then 0 else if kind == 46 then 25 else if kind == 44 then 50 else 75;
      i := beg;
      var minAccessTime := MAX_TIME;
      var replace := -1;
      while i < beg + SEGMENT
        invariant beg <= i <= beg + |es|
        invariant forall j | 0 <= j < i - beg :: es[j].key != key
        invariant i == beg ==> minAccessTime == MAX_TIME
        invariant i > beg ==> beg <= replace < i && IsVictim(es[..i - beg], replace - beg)
        invariant i > beg ==> minAccessTime == es[replace - beg].lastAccess
        decreases beg + SEGMENT - i
      {
        var t := slots[i];
        assert t == slots[..][i];
        assert i < beg + |es| ==> t == es[i - beg];
        if t.kind == 0 {
          IndexOfIs(es, key, |es|);
          return i, false;
        }
        if t.key == key {
          IndexOfIs(es, key, i - beg);
          return i, false;
        }
        VictimOneMore(es, i - beg, replace - beg);
        if t.lastAccess < minAccessTime {
          replace := i;
          minAccessTime := t.lastAccess;
        }
        i := i + 1;
      }
      IndexOfIs(es, key, |es|);
      assert es[..SEGMENT] == es;
      VictimIs(es, replace - beg);
      return replace, true;
    }

    method Search(kind: int, key: Key) returns (i: nat, del: bool)
      requires Abs().Ok() && InUse(kind)
      ensures var es := segments.Get(kind); var k := SlotFor(es, key);
        && i == Begin(kind) + k && k < SEGMENT && i < slots.Length
        && (del <==> IndexOf(es, key) == |es| == SEGMENT)
    {
      OkParts(Abs(), kind);
      i, del := FindTunnel(kind, key, segments.Get(kind));
    }

    /** Bringing slot i up to date: what follows the search in an add. */
    method Refresh(kind: int, key: Key, now: int, i: nat, del: bool) returns (id: int)
      requires InUse(kind) && i < slots.Length
      modifies slots, this`live, this`nextIfindex
      ensures var t := old(slots[i]); var make := del || t.kind == 0;
        && id == (if make then old(nextIfindex) else t.ifindex)
        && slots[..] == old(slots[..])[i := if make then Tunnel(kind, key, id, now) else t.(lastAccess := now)]
        && live == old(live) - (if del then {t.ifindex} else {}) + (if make then {id} else {})
        && nextIfindex == old(nextIfindex) + if make then 1 else 0
    {
      if del {
        live := live - {slots[i].ifindex};
        slots[i] := slots[i].(kind := 0);
      }
      if slots[i].kind == 0 {
        slots[i] := slots[i].(kind := kind, key := key, ifindex := nextIfindex);
        live := live + {nextIfindex};
        nextIfindex := nextIfindex + 1;
      }
      slots[i] := slots[i].(lastAccess := now);
      id := slots[i].ifindex;
    }

    /** tunnel66_add, tunnel44_add, tunnel64_add: the tunnel for the key, made only
        if the pool has none; a full segment gives up its least recently used one. */
    method TunnelAdd(kind: int, key: Key, now: int) returns (id: int)
      requires Abs().Ok() && InUse(kind) && now < MAX_TIME
      modifies slots, this
      ensures Abs() == Added(old(Abs()), kind, key, now) && Abs().Ok()
      ensures var es := segments.Get(kind); var k := IndexOf(es, key); k < |es| && id == es[k].ifindex && id in live
    {
      ghost var p := Abs();
      ghost var es := p.segments.Get(kind);
      var i, del := Search(kind, key);
      AddedIs(p, kind, key, now, SlotFor(es, key), del);
      AddedOk(p, kind, key, now);
      AddedHas(p, kind, key, now);
      assert slots[i] == p.slots[i];
      id := Refresh(kind, key, now, i, del);
      segments := segments.Set(kind, Use(es, kind, key, now, p.next));
    }

    /** tnl_cleanup: every tunnel in the kernel is deleted. */
    method TnlCleanup()
      requires Abs().Ok()
      modifies this`live
      ensures live == {}
    {
      ghost var p := Abs();
      LiveInSlots(p);
      for i := 0 to NTNL
        invariant forall id | id in live :: exists j | i <= j < NTNL ::
          InUse(p.slots[j].kind) && p.slots[j].ifindex == id
      {
        assert slots[i] == p.slots[i];
        if slots[i].kind != 0 {
          if slots[i].kind == 66 {
            live := live - {slots[i].ifindex};
          } else if slots[i].kind == 44 {
            live := live - {slots[i].ifindex};
          } else if slots[i].kind == 46 {
          } else {
            live := live - {slots[i].ifindex};
          }
        }
      }
      assert forall id :: id !in live;
    }
  }

  /** Every tunnel in the kernel is in an occupied slot of a segment in use. */
  lemma LiveInSlots(p: State)
    requires p.Ok()
    ensures forall id | id in p.live :: exists j | 0 <= j < NTNL :: InUse(p.slots[j].kind) && p.slots[j].ifindex == id
  {
    forall id | id in p.live
      ensures exists j | 0 <= j < NTNL :: InUse(p.slots[j].kind) && p.slots[j].ifindex == id
    {
      var kind := if id in IdsOf(p.segments.s66) then 66 else if id in IdsOf(p.segments.s44) then 44 else 64;
      var es := p.segments.Get(kind);
      assert SegmentOk(es, kind, p.next) && Fills(p.slots, Begin(kind), es);
      var i :| 0 <= i < |es| && es[i].ifindex == id;
      assert p.slots[Begin(kind) + i] == es[i];
    }
  }

  lemma VictimOneMore(es: Entries, n: nat, v: int)
    requires n < |es| && (n > 0 ==> v >= 0 && IsVictim(es[..n], v))
    ensures if n == 0 || es[n].lastAccess < es[v].lastAccess then IsVictim(es[..n + 1], n) else IsVictim(es[..n + 1], v)
  {
    if n > 0 {
      assert forall j | 0 <= j < n :: es[..n][j] == es[j];
    }
  }

  lemma {:induction false} IndexOfIs(es: Entries, key: Key, i: nat)
    requires i <= |es| && (i < |es| ==> es[i].key == key)
    requires forall j | 0 <= j < i :: es[j].key != key
    ensures IndexOf(es, key) == i
  {
    if i > 0 {
      IndexOfIs(es[1..], key, i - 1);
    }
  }

  lemma VictimIs(es: Entries, v: nat)
    requires IsVictim(es, v)
    ensures Victim(es) == v
  {
  }

  /** An add keeps a segment well-formed; the key is in it afterwards. */
  lemma UseOk(es: Entries, kind: int, key: Key, now: int, id: int)
    requires SegmentOk(es, kind, id) && now < MAX_TIME && id > 0
    ensures var es' := Use(es, kind, key, now, id);
      && SegmentOk(es', kind, if IndexOf(es, key) < |es| then id else id + 1)
      && IndexOf(es', key) == SlotFor(es, key) < |es'|
      && (forall j | 0 <= j < |es| && j != SlotFor(es, key) :: es'[j] == es[j])
      && |es'| == if SlotFor(es, key) < |es| then |es| else |es| + 1
  {
    var es' := Use(es, kind, key, now, id);
    var at := SlotFor(es, key);
    assert forall j | 0 <= j < |es| && j != at :: es'[j] == es[j];
    IndexOfIs(es', key, at);
  }

  lemma OkParts(p: State, kind: int)
    requires p.Ok() && InUse(kind)
    ensures SegmentOk(p.segments.Get(kind), kind, p.next) && Fills(p.slots, Begin(kind), p.segments.Get(kind))
  {
  }

  lemma SlotContents(p: State, kind: int, k: nat)
    requires p.Ok() && InUse(kind) && k <= |p.segments.Get(kind)| && k < SEGMENT
    ensures var es, t := p.segments.Get(kind), p.slots[Begin(kind) + k];
      if k < |es| then t == es[k] && t.kind == kind else t.kind == 0
  {
    OkParts(p, kind);
  }

  lemma AddedIs(p: State, kind: int, key: Key, now: int, k: nat, del: bool)
    requires p.Ok() && InUse(kind) && now < MAX_TIME && k == SlotFor(p.segments.Get(kind), key) && k < SEGMENT
    requires del <==> IndexOf(p.segments.Get(kind), key) == |p.segments.Get(kind)| == SEGMENT
    ensures var i := Begin(kind) + k; var t := p.slots[i]; var make := del || t.kind == 0;
      Added(p, kind, key, now)
      == State(p.slots[i := if make then Tunnel(kind, key, p.next, now) else t.(lastAccess := now)],
               p.segments.Set(kind, Use(p.segments.Get(kind), kind, key, now, p.next)),
               p.live - (if del then {t.ifindex} else {}) + (if make then {p.next} else {}),
               p.next + if make then 1 else 0)
  {
    SlotContents(p, kind, k);
  }

  /** After an add the key's tunnel is in the pool and in the kernel. */
  lemma AddedHas(p: State, kind: int, key: Key, now: int)
    requires p.Ok() && InUse(kind) && now < MAX_TIME
    ensures var q := Added(p, kind, key, now); var es := q.segments.Get(kind);
      var k := SlotFor(p.segments.Get(kind), key);
      && k == IndexOf(es, key) < |es| && es[k] == q.slots[Begin(kind) + k] && es[k].ifindex in q.live
  {
    var q := Added(p, kind, key, now);
    OkParts(p, kind);
    UseOk(p.segments.Get(kind), kind, key, now, p.next);
    AddedOk(p, kind, key, now);
    InLive(q, kind, SlotFor(p.segments.Get(kind), key));
  }

  lemma InLive(p: State, kind: int, k: nat)
    requires p.Ok() && InUse(kind) && k < |p.segments.Get(kind)|
    ensures p.segments.Get(kind)[k].ifindex in p.live
  {
    assert p.segments.Get(kind)[k].ifindex in IdsOf(p.segments.Get(kind));
  }

  lemma FillsStore(slots: seq<Tunnel>, beg: nat, es: Entries, i: nat, es': Entries)
    requires |slots| == NTNL && beg + SEGMENT <= NTNL && |es| <= SEGMENT && Fills(slots, beg, es)
    requires i <= |es| && i < |es'| <= SEGMENT && |es'| == (if i < |es| then |es| else |es| + 1)
    requires forall j | 0 <= j < |es| && j != i :: es'[j] == es[j]
    ensures Fills(slots[beg + i := es'[i]], beg, es')
  {
  }

  lemma FillsElsewhere(slots: seq<Tunnel>, beg: nat, es: Entries, k: nat, t: Tunnel)
    requires |slots| == NTNL && beg + SEGMENT <= NTNL && |es| <= SEGMENT && Fills(slots, beg, es)
    requires k < NTNL && !(beg <= k < beg + SEGMENT)
    ensures Fills(slots[k := t], beg, es)
  {
  }

  lemma AddedSegments(p: State, kind: int, key: Key, now: int)
    requires p.Ok() && InUse(kind) && now < MAX_TIME
    ensures Added(p, kind, key, now).segments.Ok(Added(p, kind, key, now).next)
  {
    OkParts(p, kind);
    UseOk(p.segments.Get(kind), kind, key, now, p.next);
  }

  lemma FillingStore(slots: seq<Tunnel>, segs: Segments, kind: int, i: nat, es': Entries)
    requires |slots| == NTNL && |segs.s66| <= SEGMENT && |segs.s44| <= SEGMENT && |segs.s64| <= SEGMENT
    requires InUse(kind) && segs.Filling(slots)
    requires var es := segs.Get(kind);
      && i <= |es| && i < |es'| <= SEGMENT && |es'| == (if i < |es| then |es| else |es| + 1)
      && forall j | 0 <= j < |es| && j != i :: es'[j] == es[j]
    ensures segs.Set(kind, es').Filling(slots[Begin(kind) + i := es'[i]])
  {
    var at := Begin(kind) + i;
    FillsStore(slots, Begin(kind), segs.Get(kind), i, es');
    FillsElsewhere(slots, 25, [], at, es'[i]);
    if kind != 66 { FillsElsewhere(slots, 0, segs.s66, at, es'[i]); }
    if kind != 44 { FillsElsewhere(slots, 50, segs.s44, at, es'[i]); }
    if kind != 64 { FillsElsewhere(slots, 75, segs.s64, at, es'[i]); }
  }

  lemma AddedFills(p: State, kind: int, key: Key, now: int)
    requires p.Ok() && InUse(kind) && now < MAX_TIME
    requires Added(p, kind, key, now).segments.Ok(Added(p, kind, key, now).next)
    ensures Added(p, kind, key, now).segments.Filling(Added(p, kind, key, now).slots)
  {
    var es := p.segments.Get(kind);
    OkParts(p, kind);
    UseOk(es, kind, key, now, p.next);
    FillingStore(p.slots, p.segments, kind, SlotFor(es, key), Use(es, kind, key, now, p.next));
  }

  lemma SegmentIdsBelow(es: Entries, kind: int, next: int)
    requires SegmentOk(es, kind, next)
    ensures next !in IdsOf(es)
  {
  }

  lemma VictimGoes(es: Entries, kind: int, next: int, v: nat)
    requires SegmentOk(es, kind, next) && v < |es|
    ensures es[v].ifindex in IdsOf(es)
  {
  }

  lemma OkIds(p: State)
    requires p.Ok()
    ensures var a, b, c := IdsOf(p.segments.s66), IdsOf(p.segments.s44), IdsOf(p.segments.s64);
      && a !! b && a !! c && b !! c && p.live == a + b + c && p.next !in a + b + c
  {
    OkParts(p, 66);
    OkParts(p, 44);
    OkParts(p, 64);
    SegmentIdsBelow(p.segments.s66, 66, p.next);
    SegmentIdsBelow(p.segments.s44, 44, p.next);
    SegmentIdsBelow(p.segments.s64, 64, p.next);
  }

  lemma AddedIds(p: State, kind: int, key: Key, now: int)
    requires p.Ok() && InUse(kind) && now < MAX_TIME
    ensures var q := Added(p, kind, key, now);
      var a, b, c := IdsOf(q.segments.s66), IdsOf(q.segments.s44), IdsOf(q.segments.s64);
      a !! b && a !! c && b !! c && q.live == a + b + c
  {
    OkIds(p);
    OkParts(p, kind);
    var es := p.segments.Get(kind);
    var es' := Use(es, kind, key, now, p.next);
    UseIds(es, kind, key, now, p.next);
    var i := SlotFor(es, key);
    var full := IndexOf(es, key) == |es| == SEGMENT;
    if full {
      VictimGoes(es, kind, p.next, i);
    }
    IdsSwap(IdsOf(p.segments.s66), IdsOf(p.segments.s44), IdsOf(p.segments.s64), kind, IdsOf(es'),
            if full then {es[i].ifindex} else {}, if IndexOf(es, key) < |es| then {} else {p.next});
  }

  lemma IdsSwap(a: set<int>, b: set<int>, c: set<int>, kind: int, new': set<int>, gone: set<int>, made: set<int>)
    requires a !! b && a !! c && b !! c && InUse(kind)
    requires made !! a && made !! b && made !! c
    requires var old' := if kind == 66 then a else if kind == 44 then b else c;
      gone <= old' && new' == old' - gone + made
    ensures var a', b' := if kind == 66 then new' else a, if kind == 44 then new' else b;
      var c' := if kind == 64 then new' else c;
      a' !! b' && a' !! c' && b' !! c' && a' + b' + c' == a + b + c - gone + made
  {
  }

  /** An add keeps the pool in order. */
  lemma AddedOk(p: State, kind: int, key: Key, now: int)
    requires p.Ok() && InUse(kind) && now < MAX_TIME
    ensures Added(p, kind, key, now).Ok()
  {
    var q := Added(p, kind, key, now);
    AddedSegments(p, kind, key, now);
    AddedFills(p, kind, key, now);
    AddedIds(p, kind, key, now);
  }

  lemma UseIds(es: Entries, kind: int, key: Key, now: int, id: int)
    requires SegmentOk(es, kind, id)
    ensures var es' := Use(es, kind, key, now, id); var k := IndexOf(es, key);
      IdsOf(es') == (if k < |es| then IdsOf(es)
                     else if |es| < SEGMENT then IdsOf(es) + {id}
                     else IdsOf(es) - {es[Victim(es)].ifindex} + {id})
  {
    var es' := Use(es, kind, key, now, id);
    var k := IndexOf(es, key);
    if k < |es| {
      assert forall j | 0 <= j < |es| :: es'[j].ifindex == es[j].ifindex;
    } else if |es| < SEGMENT {
      assert forall j | 0 <= j < |es| :: es'[j] == es[j];
      assert es'[|es|].ifindex == id;
    } else {
      var v := Victim(es);
      assert forall j | 0 <= j < |es| && j != v :: es'[j] == es[j];
      assert es'[v].ifindex == id;
    }
  }
}
