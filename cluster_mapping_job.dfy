/** The coordinate-mapping job: a sequential pass over the input slot infos
    that files each coordinate in the coordinate map under the index of the
    slot info carrying it, through a TryAdd that never overwrites. The slot
    infos enter the model through their coordinates alone. */
module ClusterMapping {

  import opened Coords

  /** TryAdd on the hash map: the key is added with the value only when it
      is absent; an entry already there is kept. */
  function TryAdd(m: map<ByteTrio, int>, k: ByteTrio, v: int): (r: map<ByteTrio, int>)
    ensures r.Keys == m.Keys + {k}
    ensures r[k] == (if k in m then m[k] else v)
    ensures forall k' :: k' in m && k' != k ==> r[k'] == m[k']
  {
    if k in m then m else m[k := v]
  }

  /** The map after the first n steps of Execute, from the map m0 the job
      was given. */
  ghost function Mapped(m0: map<ByteTrio, int>, coords: seq<ByteTrio>, n: int): map<ByteTrio, int>
    requires 0 <= n <= |coords|
  {
    if n == 0 then m0 else TryAdd(Mapped(m0, coords, n - 1), coords[n - 1], n - 1)
  }

  /** The keys after n steps: the keys given plus every coordinate seen. */
  lemma {:induction false} MappedKeys(m0: map<ByteTrio, int>, coords: seq<ByteTrio>, n: int)
    requires 0 <= n <= |coords|
    ensures Mapped(m0, coords, n).Keys == m0.Keys + set i | 0 <= i < n :: coords[i]
  {
    if n > 0 {
      MappedKeys(m0, coords, n - 1);
      assert (set i | 0 <= i < n :: coords[i]) == (set i | 0 <= i < n - 1 :: coords[i]) + {coords[n - 1]};
    }
  }

  /** An entry the map held before the job keeps its value. */
  lemma {:induction false} MappedKeepsExisting(m0: map<ByteTrio, int>, coords: seq<ByteTrio>, n: int, k: ByteTrio)
    requires 0 <= n <= |coords| && k in m0
    ensures k in Mapped(m0, coords, n) && Mapped(m0, coords, n)[k] == m0[k]
  {
    if n > 0 {
      MappedKeepsExisting(m0, coords, n - 1, k);
    }
  }

  /** A coordinate the map did not hold is filed under the index of its
      first occurrence among the inputs seen. */
  lemma {:induction false} MappedFirstOccurrence(m0: map<ByteTrio, int>, coords: seq<ByteTrio>, n: int, k: ByteTrio)
    requires 0 <= n <= |coords| && k !in m0 && k in Mapped(m0, coords, n)
    ensures 0 <= Mapped(m0, coords, n)[k] < n
    ensures coords[Mapped(m0, coords, n)[k]] == k
    ensures forall j :: 0 <= j < Mapped(m0, coords, n)[k] ==> coords[j] != k
  {
    var prev := Mapped(m0, coords, n - 1);
    if k in prev {
      MappedFirstOccurrence(m0, coords, n - 1, k);
    } else {
      assert k == coords[n - 1];
      MappedKeys(m0, coords, n - 1);
      forall j | 0 <= j < n - 1
        ensures coords[j] != k
      {
        assert coords[j] in prev;
      }
    }
  }

  /** With pairwise distinct input coordinates, none of them already in the
      map, every input coordinate is filed under its own index. */
  lemma MappedDistinct(m0: map<ByteTrio, int>, coords: seq<ByteTrio>, i: int)
    requires forall a, b :: 0 <= a < b < |coords| ==> coords[a] != coords[b]
    requires forall a :: 0 <= a < |coords| ==> coords[a] !in m0
    requires 0 <= i < |coords|
    ensures coords[i] in Mapped(m0, coords, |coords|) && Mapped(m0, coords, |coords|)[coords[i]] == i
  {
    var m := Mapped(m0, coords, |coords|);
    MappedKeys(m0, coords, |coords|);
    assert coords[i] in m;
    MappedFirstOccurrence(m0, coords, |coords|, coords[i]);
  }

  /** The job: a read-only array of inputs and the map it fills. */
  class ClusterMappingJob {
    const inputs: array<ByteTrio>
    var coordinateMap: map<ByteTrio, int>

    constructor(inputs: array<ByteTrio>, coordinateMap: map<ByteTrio, int>)
      ensures this.inputs == inputs && this.coordinateMap == coordinateMap
    {
      this.inputs := inputs;
      this.coordinateMap := coordinateMap;
    }

    /** Execute: TryAdd of each input's coordinate with its index, in
        order. Every input coordinate ends up a key of the map; the inputs
        are not written. */
    method Execute()
      modifies this`coordinateMap
      ensures coordinateMap == Mapped(old(coordinateMap), inputs[..], inputs.Length)
      ensures forall i :: 0 <= i < inputs.Length ==> inputs[i] in coordinateMap
    {
      ghost var m0 := coordinateMap;
      for i := 0 to inputs.Length
        invariant coordinateMap == Mapped(m0, inputs[..], i)
      {
        coordinateMap := TryAdd(coordinateMap, inputs[i], i);
      }
      MappedKeys(m0, inputs[..], inputs.Length);
      forall i | 0 <= i < inputs.Length
        ensures inputs[i] in coordinateMap
      {
        assert inputs[..][i] == inputs[i];
      }
    }
  }
}
