/** The tunnel pool is a least-recently-used cache: what a segment holds after any
    sequence of adds, told without the pool's own data structure. */
module TunnelLru {
  import opened Addresses
  import opened TunnelPool

  // an add for a key at a time; id is the ifindex the kernel would hand out
  datatype Request = Request(key: Key, now: int, id: int)

  function Serve(es: Entries, kind: int, reqs: seq<Request>): Entries
    decreases |reqs|
  {
    if reqs == [] then es
    else
      var before := Serve(es, kind, reqs[..|reqs| - 1]);
      var r := reqs[|reqs| - 1];
      Use(before, kind, r.key, r.now, r.id)
  }

  /** When each key was last asked for. */
  function LastAsked(reqs: seq<Request>): map<Key, int> {
    if reqs == [] then map[]
    else LastAsked(reqs[..|reqs| - 1])[reqs[|reqs| - 1].key := reqs[|reqs| - 1].now]
  }

  predicate Increasing(reqs: seq<Request>) {
    forall i, j | 0 <= i < j < |reqs| :: reqs[i].now < reqs[j].now
  }

  predicate Before(reqs: seq<Request>, t: int) {
    forall i | 0 <= i < |reqs| :: reqs[i].now < t
  }

  /** The segment holds the keys asked for most recently: all of them while there
      is room, and always later ones than those it has given up. */
  ghost predicate HoldsMostRecent(es: Entries, asked: map<Key, int>) {
    && |es| <= SEGMENT && DistinctKeys(es)
    && (forall s | 0 <= s < |es| :: es[s].key in asked && es[s].lastAccess == asked[es[s].key])
    && (|es| < SEGMENT ==> forall k | k in asked :: HasKey(es, k))
    && (forall s, k | 0 <= s < |es| && k in asked && !HasKey(es, k) :: asked[k] < es[s].lastAccess)
  }

  predicate DistinctTimes(asked: map<Key, int>) {
    forall a, b | a in asked && b in asked && a != b :: asked[a] != asked[b]
  }

  lemma {:induction false} AskedBounds(reqs: seq<Request>, t: int)
    requires Increasing(reqs) && Before(reqs, t)
    ensures DistinctTimes(LastAsked(reqs)) && forall k | k in LastAsked(reqs) :: LastAsked(reqs)[k] < t
    decreases |reqs|
  {
    if reqs != [] {
      var n := |reqs| - 1;
      AskedBounds(reqs[..n], reqs[n].now);
    }
  }

  lemma IndexOfFinds(es: Entries, key: Key)
    ensures IndexOf(es, key) < |es| <==> HasKey(es, key)
  {
    if IndexOf(es, key) < |es| {
      assert es[IndexOf(es, key)].key == key;
    }
  }

  /** The keys after an add. */
  lemma UseKeys(es: Entries, kind: int, key: Key, now: int, id: int, k: Key)
    requires |es| <= SEGMENT && DistinctKeys(es)
    ensures var es' := Use(es, kind, key, now, id);
      HasKey(es', k) <==> (k == key
                           || (HasKey(es, k) && !(!HasKey(es, key) && |es| == SEGMENT && k == es[Victim(es)].key)))
  {
    IndexOfFinds(es, key);
    var es' := Use(es, kind, key, now, id);
    var at := SlotFor(es, key);
    assert es'[at].key == key;
    assert forall j | 0 <= j < |es| && j != at :: es'[j] == es[j];
    if HasKey(es, k) {
      var i :| 0 <= i < |es| && es[i].key == k;
      assert i != at ==> es'[i].key == k;
    }
  }

  /** The slot an add uses; the others stay. */
  lemma UseSlots(es: Entries, kind: int, key: Key, now: int, id: int)
    requires |es| <= SEGMENT && DistinctKeys(es)
    ensures var es' := Use(es, kind, key, now, id); var at := SlotFor(es, key);
      && at < |es'| <= SEGMENT && DistinctKeys(es')
      && es'[at].key == key && es'[at].lastAccess == now
      && (forall j | 0 <= j < |es'| && j != at :: j < |es| && es'[j] == es[j])
  {
    var at := SlotFor(es, key);
    var es' := Use(es, kind, key, now, id);
    assert forall j | 0 <= j < |es| && j != at :: es'[j] == es[j] && es[j].key != key;
  }

  lemma UseKeepsRoom(es: Entries, asked: map<Key, int>, kind: int, key: Key, now: int, id: int)
    requires HoldsMostRecent(es, asked) && DistinctTimes(asked)
    requires forall k | k in asked :: asked[k] < now
    ensures |Use(es, kind, key, now, id)| < SEGMENT ==>
      forall k | k in asked[key := now] :: HasKey(Use(es, kind, key, now, id), k)
  {
    if |Use(es, kind, key, now, id)| < SEGMENT {
      forall k | k in asked[key := now]
        ensures HasKey(Use(es, kind, key, now, id), k)
      {
        UseKeys(es, kind, key, now, id, k);
      }
    }
  }

  lemma UseKeepsOrder(es: Entries, asked: map<Key, int>, kind: int, key: Key, now: int, id: int, s: nat, k: Key)
    requires HoldsMostRecent(es, asked) && DistinctTimes(asked)
    requires forall k | k in asked :: asked[k] < now
    requires s < |Use(es, kind, key, now, id)| && k in asked[key := now] && !HasKey(Use(es, kind, key, now, id), k)
    ensures asked[key := now][k] < Use(es, kind, key, now, id)[s].lastAccess
  {
    UseSlots(es, kind, key, now, id);
    UseKeys(es, kind, key, now, id, k);
    if s != SlotFor(es, key) && HasKey(es, k) {
      assert k == es[Victim(es)].key;
      assert es[s].key != k;
      assert asked[es[s].key] != asked[k];
    }
  }

  lemma UseKeepsTimes(es: Entries, asked: map<Key, int>, kind: int, key: Key, now: int, id: int)
    requires HoldsMostRecent(es, asked)
    ensures var es' := Use(es, kind, key, now, id);
      forall s | 0 <= s < |es'| :: es'[s].key in asked[key := now] && es'[s].lastAccess == asked[key := now][es'[s].key]
  {
    UseSlots(es, kind, key, now, id);
  }

  lemma UseKeepsMostRecent(es: Entries, asked: map<Key, int>, kind: int, key: Key, now: int, id: int)
    requires HoldsMostRecent(es, asked) && DistinctTimes(asked)
    requires forall k | k in asked :: asked[k] < now
    ensures HoldsMostRecent(Use(es, kind, key, now, id), asked[key := now])
  {
    var es' := Use(es, kind, key, now, id);
    UseSlots(es, kind, key, now, id);
    UseKeepsTimes(es, asked, kind, key, now, id);
    UseKeepsRoom(es, asked, kind, key, now, id);
    forall s, k | 0 <= s < |es'| && k in asked[key := now] && !HasKey(es', k)
      ensures asked[key := now][k] < es'[s].lastAccess
    {
      UseKeepsOrder(es, asked, kind, key, now, id, s, k);
    }
  }

  /** After any sequence of adds at increasing times, the segment holds exactly
      the most recently requested keys, each with its time. */
  lemma {:induction false} LeastRecentlyUsed(kind: int, reqs: seq<Request>)
    requires Increasing(reqs)
    ensures HoldsMostRecent(Serve([], kind, reqs), LastAsked(reqs))
    decreases |reqs|
  {
    if reqs != [] {
      var n := |reqs| - 1;
      var r := reqs[n];
      LeastRecentlyUsed(kind, reqs[..n]);
      AskedBounds(reqs[..n], r.now);
      UseKeepsMostRecent(Serve([], kind, reqs[..n]), LastAsked(reqs[..n]), kind, r.key, r.now, r.id);
    }
  }

  /** The tunnel an add returned is still there after the next add, so the old
      path survives while the new one is built. */
  lemma PreviousSurvives(kind: int, reqs: seq<Request>, r: Request, next: Request)
    requires Increasing(reqs + [r, next])
    ensures var es1 := Serve([], kind, reqs + [r]); var es2 := Serve([], kind, reqs + [r, next]);
      && HasKey(es1, r.key) && HasKey(es2, r.key)
      && es1[IndexOf(es1, r.key)].ifindex == es2[IndexOf(es2, r.key)].ifindex
  {
    var all := reqs + [r, next];
    assert all[..|all| - 1] == reqs + [r];
    assert (reqs + [r])[..|reqs|] == reqs;
    assert Increasing(reqs + [r]) by {
      assert forall i | 0 <= i <= |reqs| :: (reqs + [r])[i] == all[i];
    }
    var es1 := Serve([], kind, reqs + [r]);
    LeastRecentlyUsed(kind, reqs + [r]);
    var es0 := Serve([], kind, reqs);
    assert Increasing(reqs) by {
      assert forall i | 0 <= i < |reqs| :: reqs[i] == all[i];
    }
    LeastRecentlyUsed(kind, reqs);
    UseKeys(es0, kind, r.key, r.now, r.id, r.key);
    IndexOfFinds(es1, r.key);
    assert Before(reqs, r.now) by {
      assert forall i | 0 <= i < |reqs| :: reqs[i] == all[i] && all[|reqs|] == r;
    }
    AskedBounds(reqs, r.now);
    LatestStays(es1, LastAsked(reqs + [r]), kind, r.key, next);
  }

  /** The key with the latest time is never the one given up. */
  lemma LatestStays(es: Entries, asked: map<Key, int>, kind: int, key: Key, next: Request)
    requires HoldsMostRecent(es, asked) && HasKey(es, key)
    requires forall k | k in asked && k != key :: asked[k] < asked[key]
    ensures var es' := Use(es, kind, next.key, next.now, next.id);
      HasKey(es', key) && es'[IndexOf(es', key)].ifindex == es[IndexOf(es, key)].ifindex
  {
    IndexOfFinds(es, key);
    IndexOfFinds(es, next.key);
    var es' := Use(es, kind, next.key, next.now, next.id);
    var p := IndexOf(es, key);
    if |es| == SEGMENT {
      var other := if p == 0 then 1 else 0;
      assert es[other].key != key;
      assert es[other].lastAccess < es[p].lastAccess;
      assert Victim(es) != p;
    }
    var at := SlotFor(es, next.key);
    assert forall j | 0 <= j < |es| && j != at :: es'[j] == es[j];
    assert es'[p].key == key && es'[p].ifindex == es[p].ifindex;
    IndexOfIs(es', key, p);
  }

  /** With a clock that may stand still, an add gives up the tunnel used last
      exactly if the segment is full, lacks the key, and all its access times
      are the same and that tunnel is in its first slot. */
  lemma TieEviction(es: Entries, kind: int, p: nat, next: Request)
    requires |es| <= SEGMENT && DistinctKeys(es) && p < |es|
    requires forall s | 0 <= s < |es| :: es[s].lastAccess <= es[p].lastAccess
    ensures !HasKey(Use(es, kind, next.key, next.now, next.id), es[p].key)
       <==> !HasKey(es, next.key) && |es| == SEGMENT && p == 0
            && forall s | 0 <= s < |es| :: es[s].lastAccess == es[p].lastAccess
  {
    UseKeys(es, kind, next.key, next.now, next.id, es[p].key);
    assert HasKey(es, es[p].key);
    if |es| == SEGMENT {
      var v := Victim(es);
      if es[v].key == es[p].key {
        assert v == p;
        assert forall s | 0 <= s < |es| :: es[v].lastAccess <= es[s].lastAccess;
      }
      if p == 0 && forall s | 0 <= s < |es| :: es[s].lastAccess == es[p].lastAccess {
        assert v == 0;
      }
    }
  }
}
