/** Descriptors on their way through the rings and the RTOS, and the record of
    which place holds which block. */
module Tracking {
  import opened Types

  /** `number` stamps each committed message for the proofs; no code reads it.
      The fields nothing looks at on the way are left out. */
  datatype Descriptor = Descriptor(
    frame: nat, offset: nat, length: nat, source: nat, target: nat, priority: nat, number: nat)

  predicate InBounds(d: Descriptor) {
    && d.source < INTERFACE_COUNT && d.target < INTERFACE_COUNT
    && d.frame < BLOCK_COUNT && d.offset == d.frame * BLOCK_SIZE
    && HEADER_SIZE <= d.length <= BLOCK_SIZE
  }

  /** Where a block can be while the RTOS side answers for it. */
  datatype Place = Rx(ring: nat) | Held | Queue | Hand | Frozen | Tx(ring: nat) | Reclaim

  datatype Track = Away | At(place: Place, original: Descriptor)

  function Without<T>(s: seq<T>, k: nat): (r: seq<T>)
    requires k < |s|
    ensures |r| == |s| - 1
    ensures forall i :: 0 <= i < |r| ==> r[i] == if i < k then s[i] else s[i + 1]
  {
    s[..k] + s[k + 1..]
  }

  /** A descriptor as it was committed, except for the target the router chose. */
  predicate Alike(d: Descriptor, original: Descriptor, x: Place) {
    && d == original.(target := d.target)
    && d.target < INTERFACE_COUNT
    && (x.Tx? ==> d.target == x.ring)
    && (x.Rx? ==> d.source == x.ring)
    && (x.Rx? || x.Held? || x.Frozen? || x.Reclaim? ==> d.target == original.target)
  }

  predicate Fits(d: Descriptor, track: seq<Track>, x: Place) {
    d.frame < |track| && track[d.frame].At? && track[d.frame].place == x && Alike(d, track[d.frame].original, x)
  }

  predicate HasFrame(ds: seq<Descriptor>, f: nat) {
    exists i :: 0 <= i < |ds| && ds[i].frame == f
  }

  predicate NoRepeat(ds: seq<Descriptor>) {
    forall i, j :: 0 <= i < j < |ds| ==> ds[i].frame != ds[j].frame
  }

  /** The place x holds exactly the blocks tracked there, each once. */
  predicate Holds(ds: seq<Descriptor>, track: seq<Track>, x: Place) {
    && (forall i :: 0 <= i < |ds| ==> Fits(ds[i], track, x))
    && NoRepeat(ds)
    && (forall f :: 0 <= f < |track| && track[f].At? && track[f].place == x ==> HasFrame(ds, f))
  }

  predicate IsAt(t: Track, x: Place) {
    t.At? && t.place == x
  }

  lemma HoldsElsewhere(ds: seq<Descriptor>, track: seq<Track>, x: Place, f: nat, t: Track)
    requires Holds(ds, track, x) && f < |track| && !IsAt(track[f], x) && !IsAt(t, x)
    ensures Holds(ds, track[f := t], x)
  {
    forall i | 0 <= i < |ds|
      ensures Fits(ds[i], track[f := t], x)
    {
      assert Fits(ds[i], track, x);
    }
  }

  lemma HoldsOneMore(ds: seq<Descriptor>, track: seq<Track>, x: Place, d: Descriptor, original: Descriptor)
    requires Holds(ds, track, x) && d.frame < |track| && !IsAt(track[d.frame], x) && Alike(d, original, x)
    ensures Holds(ds + [d], track[d.frame := At(x, original)], x)
  {
    var after, moved := ds + [d], track[d.frame := At(x, original)];
    forall i | 0 <= i < |ds|
      ensures Fits(ds[i], moved, x) && ds[i].frame != d.frame
    {
      assert Fits(ds[i], track, x);
    }
    forall f | 0 <= f < |moved| && IsAt(moved[f], x)
      ensures HasFrame(after, f)
    {
      if f == d.frame {
        assert after[|ds|].frame == f;
      } else {
        var i :| 0 <= i < |ds| && ds[i].frame == f;
        assert after[i].frame == f;
      }
    }
  }

  lemma HoldsOneLess(ds: seq<Descriptor>, track: seq<Track>, x: Place, k: nat, t: Track)
    requires Holds(ds, track, x) && k < |ds| && !IsAt(t, x)
    ensures ds[k].frame < |track| && Holds(Without(ds, k), track[ds[k].frame := t], x)
  {
    assert Fits(ds[k], track, x);
    var after, moved := Without(ds, k), track[ds[k].frame := t];
    forall i | 0 <= i < |after|
      ensures Fits(after[i], moved, x)
    {
      assert Fits(ds[if i < k then i else i + 1], track, x);
    }
    forall f | 0 <= f < |moved| && IsAt(moved[f], x)
      ensures HasFrame(after, f)
    {
      var i :| 0 <= i < |ds| && ds[i].frame == f;
      assert after[if i < k then i else i - 1].frame == f;
    }
  }

  /** Blocks are counted by their places: distinct frame numbers below n. */
  lemma {:induction false} DistinctFrames(ds: seq<Descriptor>, others: set<nat>)
    requires NoRepeat(ds) && forall i :: 0 <= i < |ds| ==> ds[i].frame in others
    ensures |ds| <= |others|
  {
    if ds != [] {
      var n := |ds| - 1;
      var rest := others - {ds[n].frame};
      DistinctFrames(ds[..n], rest);
      assert others == rest + {ds[n].frame};
    }
  }

  function Below(n: nat): (r: set<nat>)
    ensures |r| == n && forall f: nat :: f in r <==> f < n
  {
    if n == 0 then {} else Below(n - 1) + {n - 1}
  }
}
