/**
 * One photon's journey under repeated applications of `update_photon`:
 * from the tower through its repeater to the receiver on that side.
 */
module RepeaterJourney {
  import opened Wrappers
  import opened RepeaterNetwork

  /** What became of a photon after some frames: still flying, or absorbed at a receiver. */
  datatype Fate = Flying(state: PhotonState) | Delivered(at: nat)

  /** `UpdateRule` applied frame after frame, with `arrivals[i]` the arrival outcome of frame i. */
  function Fly(s: PhotonState, attenuation: real, boost: real, arrivals: seq<bool>): Fate
    requires OnEdge(s)
    decreases |arrivals|
  {
    if arrivals == [] then Flying(s)
    else
      var u := UpdateRule(s, attenuation, boost, arrivals[0]);
      if u.1 then Fly(u.0, attenuation, boost, arrivals[1..]) else Delivered(u.0.current)
  }

  /** Number of frames in which the photon reached its next node. */
  function ArrivalCount(arrivals: seq<bool>): nat
  {
    if arrivals == [] then 0 else (if arrivals[0] then 1 else 0) + ArrivalCount(arrivals[1..])
  }

  /** Arrivals still needed: two from the tower's edges, one from a repeater's. */
  function Hops(s: PhotonState): nat
    requires OnEdge(s)
  {
    if s.next.value == 1 || s.next.value == 2 then 2 else 1
  }

  /** The receiver the photon is bound for: Receiver A via Repeater 1, Receiver B via Repeater 2. */
  function Receiver(s: PhotonState): nat
    requires OnEdge(s)
  {
    if s.next.value == 1 || s.next.value == 3 then 3 else 4
  }

  /**
   * Source to repeater to receiver: a photon on a connection is delivered
   * exactly when it has had as many arrivals as it has hops left, always at
   * the receiver on its side of the network, and until then it stays on a
   * connection.
   */
  lemma {:induction false} FlyReachesReceiver(s: PhotonState, attenuation: real, boost: real,
                                              arrivals: seq<bool>)
    requires OnEdge(s)
    ensures Fly(s, attenuation, boost, arrivals).Delivered? <==> ArrivalCount(arrivals) >= Hops(s)
    ensures Fly(s, attenuation, boost, arrivals).Delivered? ==>
      Fly(s, attenuation, boost, arrivals).at == Receiver(s)
    ensures Fly(s, attenuation, boost, arrivals).Flying? ==>
      OnEdge(Fly(s, attenuation, boost, arrivals).state)
    decreases |arrivals|
  {
    if arrivals != [] {
      var u := UpdateRule(s, attenuation, boost, arrivals[0]);
      if u.1 {
        FlyReachesReceiver(u.0, attenuation, boost, arrivals[1..]);
      }
    }
  }

  /** A spawned photon is delivered after exactly two arrivals, at receiver `first + 2`. */
  lemma SpawnedReachesReceiver(first: nat, attenuation: real, boost: real, arrivals: seq<bool>)
    requires first == 1 || first == 2
    ensures OnEdge(Spawned(first))
    ensures Fly(Spawned(first), attenuation, boost, arrivals).Delivered? <==> ArrivalCount(arrivals) >= 2
    ensures Fly(Spawned(first), attenuation, boost, arrivals).Delivered? ==>
      Fly(Spawned(first), attenuation, boost, arrivals).at == first + 2
  {
    FlyReachesReceiver(Spawned(first), attenuation, boost, arrivals);
  }
}
