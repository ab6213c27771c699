/**
 * The photon logic of quantum_repeters_simulation.py: five nodes (the main
 * tower, two repeaters, two receivers), photons that travel along the four
 * connections, lose intensity every frame down to a floor, are boosted and
 * rerouted at a repeater and vanish at a receiver; and the main loop that
 * spawns photons, updates them and keeps the live ones.
 *
 * Positions and velocities are not modelled: whether a photon has reached
 * its next node in a frame comes in as a boolean.
 */
module RepeaterNetwork {
  import opened Wrappers

  const InitialSpeed: real := 0.15
  const InitialAttenuation: real := 0.995
  const InitialBoost: real := 1.0
  /** A photon is spawned every this many frames. */
  const PhotonSpawnRate: nat := 40
  /** Intensity never decays below this. */
  const IntensityFloor: real := 0.05
  /** How much of the repeater burst fades per frame. */
  const BurstDecay: real := 0.05

  datatype NodeKind = Source | Repeater | Destination

  /** Main Tower, Repeater 1, Repeater 2, Receiver A, Receiver B, by index. */
  const Nodes: seq<NodeKind> := [Source, Repeater, Repeater, Destination, Destination]

  /** The edges of the network. */
  const Connections: seq<(nat, nat)> := [(0, 1), (0, 2), (1, 3), (2, 4)]

  /** The fields of a photon that the simulation updates. */
  datatype PhotonState = PhotonState(current: nat, next: Option<nat>, intensity: real, burst: real)

  /** A photon travelling along one of the connections, written out edge by edge. */
  predicate OnEdge(s: PhotonState)
  {
    && s.next.Some?
    && (|| (s.current == 0 && s.next.value == 1)
        || (s.current == 0 && s.next.value == 2)
        || (s.current == 1 && s.next.value == 3)
        || (s.current == 2 && s.next.value == 4))
  }

  /** `OnEdge` is exactly membership of (current, next) in `Connections`. */
  lemma OnEdgeIsConnection(s: PhotonState)
    ensures OnEdge(s) <==> s.next.Some? && (s.current, s.next.value) in Connections
  {
    if s.next.Some? && (s.current, s.next.value) in Connections {
      var k :| 0 <= k < |Connections| && Connections[k] == (s.current, s.next.value);
    }
  }

  /** `nodes[next_node]` exists whenever there is a next node. */
  predicate Routable(s: PhotonState)
  {
    s.next.None? || s.next.value < |Nodes|
  }

  /** A freshly created photon: at the tower, heading for `first`, full intensity, no burst. */
  function Spawned(first: nat): PhotonState
  {
    PhotonState(0, Some(first), 1.0, 0.0)
  }

  /** `max(0.05, intensity * attenuation_rate)`. */
  function Attenuated(intensity: real, rate: real): (r: real)
    ensures r >= IntensityFloor && r >= intensity * rate
    ensures r == IntensityFloor || r == intensity * rate
  {
    var x := intensity * rate;
    if IntensityFloor >= x then IntensityFloor else x
  }

  /**
   * `update_photon` on the photon's state: the new state and whether the
   * photon stays alive. `arrived` is the outcome of the distance test.
   */
  function UpdateRule(s: PhotonState, attenuation: real, boost: real, arrived: bool): (r: (PhotonState, bool))
    requires Routable(s)
    // A photon with nowhere to go is dead and nothing about it changes.
    ensures s.next.None? ==> r == (s, false)
    // Alive exactly when it had a next node and did not just reach a receiver.
    ensures r.1 <==> s.next.Some? && !(arrived && Nodes[s.next.value] == Destination)
    // In flight: same edge, attenuated intensity, fading burst.
    ensures s.next.Some? && !arrived ==>
      && r.0.current == s.current && r.0.next == s.next
      && r.0.intensity == Attenuated(s.intensity, attenuation) >= IntensityFloor
      && r.0.burst == (if s.burst > 0.0 then s.burst - BurstDecay else s.burst)
    // On arrival the photon is at its next node.
    ensures s.next.Some? && arrived ==> r.0.current == s.next.value
    // At a repeater: boosted, burst reset, rerouted 1 -> 3 and 2 -> 4.
    ensures s.next.Some? && arrived && Nodes[s.next.value] == Repeater ==>
      && r.0.intensity == boost && r.0.burst == 1.0
      && r.0.next == Some(if s.next.value == 1 then 3 else 4)
    // A live photon on a connection stays on a connection.
    ensures OnEdge(s) && r.1 ==> OnEdge(r.0)
  {
    if s.next.None? then (s, false)
    else
      var intensity := Attenuated(s.intensity, attenuation);
      var burst := if s.burst > 0.0 then s.burst - BurstDecay else s.burst;
      if !arrived then (PhotonState(s.current, s.next, intensity, burst), true)
      else
        var at := s.next.value;
        match Nodes[at]
        case Repeater => (PhotonState(at, Some(if at == 1 then 3 else 4), boost, 1.0), true)
        case Destination => (PhotonState(at, s.next, intensity, burst), false)
        case Source => (PhotonState(at, s.next, intensity, burst), true)
  }

  /** A photon dictionary; `update_photon` changes its fields in place. */
  class Photon {
    var currentNode: nat
    var nextNode: Option<nat>
    var intensity: real
    var burst: real

    function State(): PhotonState
      reads this
    {
      PhotonState(currentNode, nextNode, intensity, burst)
    }

    /** `Photon(start_node, end_node)`. */
    constructor (startNode: nat, endNode: nat)
      ensures State() == PhotonState(startNode, Some(endNode), 1.0, 0.0)
    {
      currentNode := startNode;
      nextNode := Some(endNode);
      intensity := 1.0;
      burst := 0.0;
    }

    /** `update_photon(photon)`: returns false when the photon should be removed. */
    method Update(attenuation: real, boost: real, arrived: bool) returns (alive: bool)
      requires Routable(State())
      modifies this
      ensures (State(), alive) == UpdateRule(old(State()), attenuation, boost, arrived)
    {
      if nextNode.None? {
        return false;
      }
      ghost var s := State();
      intensity := intensity * attenuation;
      intensity := if IntensityFloor >= intensity then IntensityFloor else intensity;
      assert intensity == Attenuated(s.intensity, attenuation);
      if burst > 0.0 {
        burst := burst - BurstDecay;
      }
      if arrived {
        currentNode := nextNode.value;
        var kind := Nodes[currentNode];
        if kind == Repeater {
          intensity := boost;
          burst := 1.0;
          if currentNode == 1 {
            nextNode := Some(3);
          } else {
            nextNode := Some(4);
          }
        } else if kind == Destination {
          return false;
        }
      }
      return true;
    }
  }

  /** The states of a list of photons, in order. */
  function States(ps: seq<Photon>): (r: seq<PhotonState>)
    reads ps
    ensures |r| == |ps| && forall k :: 0 <= k < |ps| ==> r[k] == ps[k].State()
  {
    if ps == [] then [] else States(ps[..|ps| - 1]) + [ps[|ps| - 1].State()]
  }

  lemma StatesAppend(ps: seq<Photon>, p: Photon)
    ensures States(ps + [p]) == States(ps) + [p.State()]
  {
    assert (ps + [p])[..|ps|] == ps;
  }

  /**
   * The update pass of the main loop on states: every photon is updated with
   * its own arrival outcome, and the live ones are kept, in order.
   */
  function Survivors(states: seq<PhotonState>, attenuation: real, boost: real, arrivals: seq<bool>)
    : (r: seq<PhotonState>)
    requires |arrivals| >= |states| && forall k :: 0 <= k < |states| ==> Routable(states[k])
    ensures |r| <= |states|
    decreases |states|
  {
    if states == [] then []
    else
      var n := |states| - 1;
      var u := UpdateRule(states[n], attenuation, boost, arrivals[n]);
      Survivors(states[..n], attenuation, boost, arrivals) + (if u.1 then [u.0] else [])
  }

  /** The update pass keeps every photon on a connection: live photons never leave the network's edges. */
  lemma {:induction false} SurvivorsOnEdge(states: seq<PhotonState>, attenuation: real, boost: real,
                                           arrivals: seq<bool>)
    requires |arrivals| >= |states| && forall k :: 0 <= k < |states| ==> Routable(states[k]) && OnEdge(states[k])
    ensures forall k :: 0 <= k < |Survivors(states, attenuation, boost, arrivals)| ==>
      OnEdge(Survivors(states, attenuation, boost, arrivals)[k])
    decreases |states|
  {
    if states != [] {
      SurvivorsOnEdge(states[..|states| - 1], attenuation, boost, arrivals);
    }
  }

  /** Photons whose states are the survivors of on-edge states are all on an edge. */
  lemma SurvivorsStayOnEdge(alive: seq<Photon>, states: seq<PhotonState>, attenuation: real, boost: real,
                            arrivals: seq<bool>)
    requires |arrivals| >= |states|
    requires forall k :: 0 <= k < |states| ==> Routable(states[k]) && OnEdge(states[k])
    requires States(alive) == Survivors(states, attenuation, boost, arrivals)
    ensures forall k :: 0 <= k < |alive| ==> OnEdge(alive[k].State())
  {
    SurvivorsOnEdge(states, attenuation, boost, arrivals);
    forall k | 0 <= k < |alive| ensures OnEdge(alive[k].State()) {
      assert alive[k].State() == States(alive)[k];
    }
  }

  /** What `update_photon` returns for each photon of the pass, in order. */
  function Outcomes(states: seq<PhotonState>, attenuation: real, boost: real, arrivals: seq<bool>)
    : (r: seq<bool>)
    requires |arrivals| >= |states| && forall k :: 0 <= k < |states| ==> Routable(states[k])
  {
    seq(|states|, k requires 0 <= k < |states| => UpdateRule(states[k], attenuation, boost, arrivals[k]).1)
  }

  /** The elements of `s` whose flag in `keep` is set, in their order in `s`. */
  function Filter<T>(s: seq<T>, keep: seq<bool>): (r: seq<T>)
    requires |keep| >= |s|
    ensures |r| <= |s|
    ensures forall x :: x in r ==> x in s
    decreases |s|
  {
    if s == [] then []
    else
      var n := |s| - 1;
      Filter(s[..n], keep) + (if keep[n] then [s[n]] else [])
  }

  /** One more element visited by the filter is added at the end if its flag is set. */
  lemma FilterSnoc<T>(s: seq<T>, j: nat, keep: seq<bool>)
    requires j < |s| <= |keep|
    ensures Filter(s[..j + 1], keep) == Filter(s[..j], keep) + (if keep[j] then [s[j]] else [])
  {
    assert s[..j + 1][..j] == s[..j];
  }

  /** Only the flags of the elements themselves matter to the filter. */
  lemma {:induction false} FilterFlags<T>(s: seq<T>, keep: seq<bool>, keep': seq<bool>)
    requires |keep| >= |s| && |keep'| >= |s|
    requires forall k :: 0 <= k < |s| ==> keep[k] == keep'[k]
    ensures Filter(s, keep) == Filter(s, keep')
    decreases |s|
  {
    if s != [] {
      FilterFlags(s[..|s| - 1], keep, keep');
    }
  }

  /**
   * Every photon of `ps` holds the update of its own state in `before`: the
   * same objects, each changed in place.
   */
  ghost predicate UpdatedInPlace(ps: seq<Photon>, before: seq<PhotonState>, attenuation: real, boost: real,
                                 arrivals: seq<bool>)
    reads ps
    requires |before| == |ps| <= |arrivals| && forall k :: 0 <= k < |before| ==> Routable(before[k])
  {
    forall k :: 0 <= k < |ps| ==> ps[k].State() == UpdateRule(before[k], attenuation, boost, arrivals[k]).0
  }

  predicate DistinctPhotons(ps: seq<Photon>)
  {
    forall j, k :: 0 <= j < k < |ps| ==> ps[j] != ps[k]
  }

  /** Appending a photon that is not in a list of distinct photons keeps them distinct. */
  lemma DistinctSnoc(ps: seq<Photon>, p: Photon)
    requires DistinctPhotons(ps) && p !in ps
    ensures DistinctPhotons(ps + [p])
  {
  }

  /** The photon the update pass visits next has not been kept yet. */
  lemma NextNotKept(batch: seq<Photon>, j: nat, kept: seq<Photon>)
    requires DistinctPhotons(batch) && j < |batch|
    requires forall p :: p in kept ==> p in batch[..j]
    ensures batch[j] !in kept
  {
    forall q | q in kept ensures q != batch[j] {
      var i :| 0 <= i < j && batch[..j][i] == q;
      assert batch[i] == q;
    }
  }

  /**
   * When every photon holds the update of its old state, the photons whose
   * update returned true hold exactly the survivors' states, in order.
   */
  lemma {:induction false} StatesOfKept(batch: seq<Photon>, before: seq<PhotonState>, attenuation: real,
                                        boost: real, arrivals: seq<bool>)
    requires |before| == |batch| <= |arrivals| && forall k :: 0 <= k < |before| ==> Routable(before[k])
    requires UpdatedInPlace(batch, before, attenuation, boost, arrivals)
    ensures States(Filter(batch, Outcomes(before, attenuation, boost, arrivals)))
      == Survivors(before, attenuation, boost, arrivals)
    decreases |batch|
  {
    if batch != [] {
      var n := |batch| - 1;
      var outs := Outcomes(before, attenuation, boost, arrivals);
      var outs' := Outcomes(before[..n], attenuation, boost, arrivals);
      assert UpdatedInPlace(batch[..n], before[..n], attenuation, boost, arrivals);
      StatesOfKept(batch[..n], before[..n], attenuation, boost, arrivals);
      FilterFlags(batch[..n], outs', outs);
      if outs[n] {
        StatesAppend(Filter(batch[..n], outs), batch[n]);
      }
    }
  }

  /** Keeping some of a list of distinct photons gives distinct photons. */
  lemma {:induction false} KeptDistinct(batch: seq<Photon>, keep: seq<bool>)
    requires |keep| >= |batch| && DistinctPhotons(batch)
    ensures DistinctPhotons(Filter(batch, keep))
    decreases |batch|
  {
    if batch != [] {
      var n := |batch| - 1;
      KeptDistinct(batch[..n], keep);
      if keep[n] {
        NextNotKept(batch, n, Filter(batch[..n], keep));
        DistinctSnoc(Filter(batch[..n], keep), batch[n]);
      }
    }
  }

  /**
   * The update pass of the main loop (the `alive` accumulator): calls
   * `update_photon` on every photon in order and keeps those that return true.
   */
  method UpdateAll(batch: seq<Photon>, attenuation: real, boost: real, arrivals: seq<bool>)
    returns (alive: seq<Photon>)
    requires DistinctPhotons(batch)
    requires |arrivals| >= |batch| && forall k :: 0 <= k < |batch| ==> Routable(batch[k].State())
    modifies set p | p in batch
    ensures States(alive) == Survivors(old(States(batch)), attenuation, boost, arrivals)
    ensures DistinctPhotons(alive)
    // Each photon object is updated in place, and the kept ones are exactly
    // those whose update returned true, in their order in the batch.
    ensures UpdatedInPlace(batch, old(States(batch)), attenuation, boost, arrivals)
    ensures alive == Filter(batch, Outcomes(old(States(batch)), attenuation, boost, arrivals))
  {
    ghost var pre := States(batch);
    ghost var outcomes := Outcomes(pre, attenuation, boost, arrivals);
    alive := [];
    for j := 0 to |batch|
      invariant forall k :: j <= k < |batch| ==> batch[k].State() == pre[k]
      invariant forall k :: 0 <= k < j ==>
        batch[k].State() == UpdateRule(pre[k], attenuation, boost, arrivals[k]).0
      invariant alive == Filter(batch[..j], outcomes)
    {
      var p := batch[j];
      var a := p.Update(attenuation, boost, arrivals[j]);
      FilterSnoc(batch, j, outcomes);
      if a {
        alive := alive + [p];
      }
    }
    assert batch[..|batch|] == batch;
    StatesOfKept(batch, pre, attenuation, boost, arrivals);
    KeptDistinct(batch, outcomes);
  }

  /** Whether the main loop spawns a photon at frame `step`. */
  predicate SpawnFrame(step: nat)
  {
    step % PhotonSpawnRate == 0
  }

  /** The photon the main loop spawns at frame `step`, if any; `coin` is `random.random()`. */
  function SpawnedAt(step: nat, coin: real): seq<PhotonState>
  {
    if SpawnFrame(step) then [Spawned(if coin < 0.5 then 1 else 2)] else []
  }

  /**
   * The spawning step of the main loop: at every `PhotonSpawnRate`-th frame
   * a new photon leaves the tower for Repeater 1 or Repeater 2, by a coin
   * flip, and joins the end of the list.
   */
  method Spawn(photons: seq<Photon>, step: nat, coin: real) returns (batch: seq<Photon>)
    requires DistinctPhotons(photons)
    requires forall k :: 0 <= k < |photons| ==> OnEdge(photons[k].State())
    ensures States(batch) == States(photons) + SpawnedAt(step, coin)
    ensures DistinctPhotons(batch)
    ensures forall k :: 0 <= k < |batch| ==> OnEdge(batch[k].State())
    // The old photon objects are kept, in order; only the spawned one is new.
    ensures batch[..|photons|] == photons
    ensures !SpawnFrame(step) ==> batch == photons
    ensures forall p :: p in batch ==> p in photons || (fresh(p) && SpawnFrame(step))
    ensures forall p, q :: p in batch && q in batch && fresh(p) && fresh(q) ==> p == q
  {
    batch := photons;
    if SpawnFrame(step) {
      var p: Photon;
      if coin < 0.5 {
        p := new Photon(0, 1);
      } else {
        p := new Photon(0, 2);
      }
      StatesAppend(batch, p);
      DistinctSnoc(batch, p);
      batch := batch + [p];
      assert batch[..|photons|] == photons && batch[|photons|] == p;
      assert forall q :: q in batch ==> q in photons || q == p;
    }
  }

  /**
   * The photons `ps`, whose states were `before`, have each been updated in
   * place, and `alive` is the in-order list of those whose update returned
   * true, followed by at most one more (the photon spawned at this frame).
   */
  ghost predicate UpdatedAndKept(ps: seq<Photon>, before: seq<PhotonState>, alive: seq<Photon>,
                                 attenuation: real, boost: real, arrivals: seq<bool>)
    reads ps
  {
    && |before| == |ps| <= |arrivals|
    && (forall k :: 0 <= k < |before| ==> Routable(before[k]))
    && UpdatedInPlace(ps, before, attenuation, boost, arrivals)
    && var kept := Filter(ps, Outcomes(before, attenuation, boost, arrivals));
       |kept| <= |alive| <= |kept| + 1 && alive[..|kept|] == kept
  }

  /**
   * The outcome of one update pass over the photons `ps`, whose states were
   * `before`, followed by photons in the states `spawned`: the states of
   * `alive` are the survivors, in order, and at the object level the old
   * photons were updated in place and the live ones kept in their order.
   */
  ghost predicate PassResult(ps: seq<Photon>, before: seq<PhotonState>, spawned: seq<PhotonState>,
                             alive: seq<Photon>, attenuation: real, boost: real, arrivals: seq<bool>)
    reads ps, alive
  {
    && |arrivals| >= |before| + |spawned|
    && (forall k :: 0 <= k < |before + spawned| ==> Routable((before + spawned)[k]))
    && States(alive) == Survivors(before + spawned, attenuation, boost, arrivals)
    && UpdatedAndKept(ps, before, alive, attenuation, boost, arrivals)
  }

  /**
   * The photon part of one unpaused pass of the main loop: spawn (if it is
   * frame `step`'s turn), then update every photon and keep the live ones.
   */
  method Advance(photons: seq<Photon>, step: nat, coin: real, attenuation: real, boost: real,
                 arrivals: seq<bool>)
    returns (alive: seq<Photon>)
    requires DistinctPhotons(photons)
    requires forall k :: 0 <= k < |photons| ==> OnEdge(photons[k].State())
    requires |arrivals| >= |photons| + |SpawnedAt(step, coin)|
    modifies set p | p in photons
    ensures DistinctPhotons(alive)
    ensures forall k :: 0 <= k < |alive| ==> OnEdge(alive[k].State())
    ensures forall p :: p in alive ==> p in photons || (fresh(p) && SpawnFrame(step))
    ensures PassResult(photons, old(States(photons)), SpawnedAt(step, coin), alive, attenuation, boost, arrivals)
  {
    ghost var before := States(photons);
    var batch := Spawn(photons, step, coin);
    ghost var spawned := States(batch);
    assert spawned[..|photons|] == before;
    var alive' := UpdateAll(batch, attenuation, boost, arrivals);
    SurvivorsStayOnEdge(alive', spawned, attenuation, boost, arrivals);
    alive := alive';
    KeptUpdated(photons, batch, before, spawned, attenuation, boost, arrivals);
    KeptPrefix(photons, batch, before, spawned, attenuation, boost, arrivals);
    assert spawned == before + SpawnedAt(step, coin);
  }

  /**
   * The update pass over the old photons plus at most one spawned photon:
   * the old photons hold their own updates.
   */
  lemma KeptUpdated(photons: seq<Photon>, batch: seq<Photon>, before: seq<PhotonState>,
                    spawned: seq<PhotonState>, attenuation: real, boost: real, arrivals: seq<bool>)
    requires |batch| == |spawned| <= |arrivals| && |photons| == |before| <= |batch|
    requires batch[..|photons|] == photons && spawned[..|photons|] == before
    requires forall k :: 0 <= k < |spawned| ==> Routable(spawned[k])
    requires UpdatedInPlace(batch, spawned, attenuation, boost, arrivals)
    ensures forall k :: 0 <= k < |before| ==> Routable(before[k])
    ensures UpdatedInPlace(photons, before, attenuation, boost, arrivals)
  {
    forall k | 0 <= k < |before| ensures Routable(before[k]) {
      assert before[k] == spawned[k];
    }
    forall k | 0 <= k < |photons|
      ensures photons[k].State() == UpdateRule(before[k], attenuation, boost, arrivals[k]).0
    {
      assert photons[k] == batch[k] && before[k] == spawned[k];
    }
  }

  /**
   * The update pass over the old photons plus at most one spawned photon:
   * the survivors among the old photons come first, in order.
   */
  lemma KeptPrefix(photons: seq<Photon>, batch: seq<Photon>, before: seq<PhotonState>,
                   spawned: seq<PhotonState>, attenuation: real, boost: real, arrivals: seq<bool>)
    requires |batch| == |spawned| <= |arrivals| && |photons| == |before|
    requires |photons| <= |batch| <= |photons| + 1
    requires batch[..|photons|] == photons && spawned[..|photons|] == before
    requires forall k :: 0 <= k < |spawned| ==> Routable(spawned[k])
    requires forall k :: 0 <= k < |before| ==> Routable(before[k])
    ensures var kept := Filter(photons, Outcomes(before, attenuation, boost, arrivals));
      var all := Filter(batch, Outcomes(spawned, attenuation, boost, arrivals));
      |kept| <= |all| <= |kept| + 1 && all[..|kept|] == kept
  {
    var outsOld, outsNew := Outcomes(before, attenuation, boost, arrivals), Outcomes(spawned, attenuation, boost, arrivals);
    forall k | 0 <= k < |photons| ensures outsOld[k] == outsNew[k] {
      assert before[k] == spawned[k];
    }
    var extra := batch[|photons|..];
    assert batch == photons + extra;
    FilterExtend(photons, extra, outsOld, outsNew);
  }

  /**
   * Filtering a list extended by at most one element, with the same flags on
   * the common part, keeps the shorter list's result as a prefix.
   */
  lemma FilterExtend<T>(s: seq<T>, extra: seq<T>, keep: seq<bool>, keep': seq<bool>)
    requires |extra| <= 1 && |keep| >= |s| && |keep'| >= |s| + |extra|
    requires forall k :: 0 <= k < |s| ==> keep[k] == keep'[k]
    ensures |Filter(s, keep)| <= |Filter(s + extra, keep')| <= |Filter(s, keep)| + 1
    ensures Filter(s + extra, keep')[..|Filter(s, keep)|] == Filter(s, keep)
  {
    FilterFlags(s, keep, keep');
    if extra == [] {
      assert s + extra == s;
    } else {
      assert extra == [extra[0]];
      FilterAppendOne(s, extra[0], keep');
    }
  }

  /** Appending one element adds it at the end of the filtered list exactly when its flag is set. */
  lemma FilterAppendOne<T>(s: seq<T>, x: T, keep: seq<bool>)
    requires |keep| > |s|
    ensures Filter(s + [x], keep) == Filter(s, keep) + (if keep[|s|] then [x] else [])
  {
    assert (s + [x])[..|s|] == s;
  }

  /** The module-level state of the simulation. */
  class Simulation {
    var photons: seq<Photon>
    var step: nat
    var paused: bool
    var photonSpeed: real
    var attenuationRate: real
    var repeaterBoost: real

    /** The live photons are distinct objects, each on one of the connections. */
    ghost predicate Valid()
      reads this`photons, photons
    {
      && DistinctPhotons(photons)
      && (forall k :: 0 <= k < |photons| ==> OnEdge(photons[k].State()))
    }

    /** The globals as the script sets them up. */
    constructor ()
      ensures Valid()
      ensures photons == [] && step == 0 && !paused
      ensures photonSpeed == InitialSpeed && attenuationRate == InitialAttenuation
      ensures repeaterBoost == InitialBoost
    {
      photons := [];
      step := 0;
      paused := false;
      photonSpeed := InitialSpeed;
      attenuationRate := InitialAttenuation;
      repeaterBoost := InitialBoost;
    }

    /** `toggle_pause`: flips `paused` and nothing else. */
    method TogglePause()
      requires Valid()
      modifies this
      ensures Valid()
      ensures paused == !old(paused)
      ensures photons == old(photons) && step == old(step)
      ensures photonSpeed == old(photonSpeed) && attenuationRate == old(attenuationRate)
      ensures repeaterBoost == old(repeaterBoost)
    {
      paused := !paused;
    }

    /** `reset_sim`: no photons, frame counter at 0, the three parameters at their initial values. */
    method Reset()
      modifies this
      ensures Valid()
      ensures photons == [] && step == 0 && paused == old(paused)
      ensures photonSpeed == InitialSpeed && attenuationRate == InitialAttenuation
      ensures repeaterBoost == InitialBoost
    {
      photons := [];
      step := 0;
      photonSpeed := InitialSpeed;
      attenuationRate := InitialAttenuation;
      repeaterBoost := InitialBoost;
    }

    /**
     * One pass of the main loop: count the frame; unless paused, spawn a
     * photon every `PhotonSpawnRate` frames, update every photon (the k-th
     * with arrival outcome `arrivals[k]`) and keep the live ones.
     */
    method Step(coin: real, arrivals: seq<bool>)
      requires Valid()
      requires |arrivals| > |photons|
      modifies this, photons
      ensures Valid()
      ensures step == old(step) + 1 && paused == old(paused)
      ensures photonSpeed == old(photonSpeed) && attenuationRate == old(attenuationRate)
      ensures repeaterBoost == old(repeaterBoost)
      ensures old(paused) ==> photons == old(photons) && States(photons) == old(States(photons))
      ensures !old(paused) ==>
        PassResult(old(photons), old(States(photons)), SpawnedAt(step, coin), photons,
                   attenuationRate, repeaterBoost, arrivals)
      // Photons are the same objects from frame to frame; a new one appears only at a spawning frame.
      ensures forall p :: p in photons ==> p in old(photons) || (fresh(p) && SpawnFrame(step))
    {
      step := step + 1;
      if !paused {
        AdvancePhotons(coin, arrivals);
      }
    }

    /**
     * The photon part of an unpaused pass at the current frame: spawn if it
     * is the frame's turn, update every photon and keep the live ones.
     */
    method AdvancePhotons(coin: real, arrivals: seq<bool>)
      requires Valid()
      requires |arrivals| > |photons|
      modifies this`photons, photons
      ensures Valid()
      ensures PassResult(old(photons), old(States(photons)), SpawnedAt(step, coin), photons,
                         attenuationRate, repeaterBoost, arrivals)
      ensures forall p :: p in photons ==> p in old(photons) || (fresh(p) && SpawnFrame(step))
    {
      photons := Advance(photons, step, coin, attenuationRate, repeaterBoost, arrivals);
    }
  }
}
