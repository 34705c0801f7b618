/** Physical-device scoring and selection: `calculatePhysicalDeviceScore` and
    `pickSuitablePhysicalDevice`. Both the Engine class and the
    namespace-level Initializer carry the same two functions word for word, so
    they are modelled once here.

    A device handle is the device's position in the enumerated list, and the
    null handle `VK_NULL_HANDLE` is `None`. */
module DeviceSelection {
  import opened Common

  const TWO_31: int := 0x8000_0000
  const TWO_32: int := 0x1_0000_0000

  /** Bonus for `VK_PHYSICAL_DEVICE_TYPE_DISCRETE_GPU`. */
  const DiscreteBonus: int := 1000

  newtype u32 = x: int | 0 <= x < 0x1_0000_0000

  /** The queried properties and features of one physical device that the score reads. */
  datatype DeviceProperties = DeviceProperties(isDiscrete: bool, maxImageDimension2D: u32, geometryShader: bool)

  /** Why selecting a physical device fails. */
  datatype SelectError =
    | NoVulkanDevice     // "failed to find GPUs with vulkan support"
    | NoSuitableDevice   // "failed to find suitable GPU"

  predicate IsInt32(x: int) {
    -TWO_31 <= x < TWO_31
  }

  /** The conversion of an unsigned 32-bit value back to a signed `int`:
      the same bits read as two's complement. */
  function AsInt32(u: int): (r: int)
    requires 0 <= u < TWO_32
    ensures IsInt32(r)
    ensures r == u || r == u - TWO_32
    ensures u < TWO_31 ==> r == u
  {
    if u < TWO_31 then u else u - TWO_32
  }

  /** `calculatePhysicalDeviceScore`. The `int` score plus the `uint32_t`
      limit is computed in unsigned arithmetic (modulo 2^32) and stored back
      into the `int`; a device without geometry shaders scores 0. */
  function Score(d: DeviceProperties): (s: int)
    ensures IsInt32(s)
    ensures !d.geometryShader ==> s == 0
  {
    var score := if d.isDiscrete then DiscreteBonus else 0;
    var score' := AsInt32((score + d.maxImageDimension2D as int) % TWO_32);
    if !d.geometryShader then 0 else score'
  }

  /** The additive formula whenever the sum fits in a signed 32-bit `int`
      (maximum image dimensions below 2^31 - 1000, that is every real device). */
  lemma ScoreFormula(d: DeviceProperties)
    requires (if d.isDiscrete then DiscreteBonus else 0) + d.maxImageDimension2D as int < TWO_31
    ensures Score(d) == if !d.geometryShader then 0
                        else (if d.isDiscrete then DiscreteBonus else 0) + d.maxImageDimension2D as int
  {
  }

  /** When the sum of a geometry-capable device reaches 2^31 it wraps: the
      stored score is the sum minus 2^32, negative unless the unsigned sum
      itself overflowed (a discrete GPU with a limit of 2^32 - 1000 or more). */
  lemma ScoreWraps(d: DeviceProperties)
    requires d.geometryShader
    requires (if d.isDiscrete then DiscreteBonus else 0) + d.maxImageDimension2D as int >= TWO_31
    ensures Score(d) == (if d.isDiscrete then DiscreteBonus else 0) + d.maxImageDimension2D as int - TWO_32
    ensures Score(d) < 0 <==> (if d.isDiscrete then DiscreteBonus else 0) + d.maxImageDimension2D as int < TWO_32
  {
  }

  // ---------------------------------------------------------------------------
  // std::multimap<int, VkPhysicalDevice>
  // ---------------------------------------------------------------------------

  /** An entry of the multimap: a score (the key) and the device it belongs to. */
  datatype Candidate = Candidate(score: int, device: nat)

  /** The multimap's iteration order: keys never decrease. */
  ghost predicate Ordered(m: seq<Candidate>) {
    forall i, j :: 0 <= i < j < |m| ==> m[i].score <= m[j].score
  }

  /** Length of the longest prefix whose keys are at most `key`; on an ordered
      multimap this is the position `upper_bound(key)`. */
  function UpperBound(m: seq<Candidate>, key: int): (u: nat)
    ensures u <= |m|
    ensures forall j :: 0 <= j < u ==> m[j].score <= key
    ensures u < |m| ==> m[u].score > key
  {
    if m == [] || m[0].score > key then 0 else 1 + UpperBound(m[1..], key)
  }

  /** `std::multimap::insert`: the new entry goes after every entry whose key
      is equal to or less than its own, so equal keys keep insertion order. */
  function Insert(m: seq<Candidate>, c: Candidate): (r: seq<Candidate>)
    ensures |r| == |m| + 1
    ensures multiset(r) == multiset(m) + multiset{c}
  {
    var u := UpperBound(m, c.score);
    assert m == m[..u] + m[u..];
    m[..u] + [c] + m[u..]
  }

  /** Two ordered runs whose keys do not interleave concatenate to an ordered run. */
  lemma OrderedConcat(a: seq<Candidate>, b: seq<Candidate>)
    requires Ordered(a) && Ordered(b)
    requires forall i, j :: 0 <= i < |a| && 0 <= j < |b| ==> a[i].score <= b[j].score
    ensures Ordered(a + b)
  {
    forall i, j | 0 <= i < j < |a + b|
      ensures (a + b)[i].score <= (a + b)[j].score
    {
      if j < |a| {
        assert (a + b)[i] == a[i] && (a + b)[j] == a[j];
      } else if i < |a| {
        assert (a + b)[i] == a[i] && (a + b)[j] == b[j - |a|];
      } else {
        assert (a + b)[i] == b[i - |a|] && (a + b)[j] == b[j - |a|];
      }
    }
  }

  lemma InsertOrdered(m: seq<Candidate>, c: Candidate)
    requires Ordered(m)
    ensures Ordered(Insert(m, c))
  {
    var u := UpperBound(m, c.score);
    var lo, hi := m[..u], m[u..];
    assert forall k :: 0 <= k < |lo| ==> lo[k] == m[k];
    assert forall k :: 0 <= k < |hi| ==> hi[k] == m[u + k];
    OrderedConcat(lo, [c]);
    var front := lo + [c];
    assert forall k :: 0 <= k < |front| ==> front[k].score <= c.score;
    assert forall j :: 0 <= j < |hi| ==> c.score < hi[j].score;
    OrderedConcat(front, hi);
  }

  /** An entry whose key is at least every key present becomes the last one (`rbegin`). */
  lemma InsertAtEnd(m: seq<Candidate>, c: Candidate)
    requires Ordered(m)
    requires m == [] || m[|m| - 1].score <= c.score
    ensures Insert(m, c) == m + [c]
  {
    if m != [] {
      assert forall j :: 0 <= j < |m| ==> m[j].score <= m[|m| - 1].score;
    }
    UpperBoundOfMaximum(m, c.score);
    var u := UpperBound(m, c.score);
    assert m[..u] == m && m[u..] == [];
  }

  lemma {:induction false} UpperBoundOfMaximum(m: seq<Candidate>, key: int)
    requires forall j :: 0 <= j < |m| ==> m[j].score <= key
    ensures UpperBound(m, key) == |m|
  {
    if m != [] {
      UpperBoundOfMaximum(m[1..], key);
    }
  }

  /** An entry whose key is below the current maximum leaves `rbegin` as it was. */
  lemma InsertKeepsLast(m: seq<Candidate>, c: Candidate)
    requires m != []
    requires c.score < m[|m| - 1].score
    ensures Insert(m, c)[|m|] == m[|m| - 1]
  {
    var u := UpperBound(m, c.score);
    assert u < |m|;
    var r := Insert(m, c);
    assert r == m[..u] + [c] + m[u..];
    assert r[|m|] == m[u..][|m| - u - 1];
  }

  // ---------------------------------------------------------------------------
  // What the pick returns
  // ---------------------------------------------------------------------------

  /** `k` is a best device among the first `n`: no device scores more, and every
      later device scores strictly less (ties go to the last enumerated). */
  ghost predicate IsLastBest(ds: seq<DeviceProperties>, n: nat, k: nat)
    requires n <= |ds|
  {
    && k < n
    && (forall j :: 0 <= j < n ==> Score(ds[j]) <= Score(ds[k]))
    && (forall j :: k < j < n ==> Score(ds[j]) < Score(ds[k]))
  }

  /** The device at the multimap's `rbegin()` after the first `n` devices are inserted. */
  function BestUpTo(ds: seq<DeviceProperties>, n: nat): (k: nat)
    requires 0 < n <= |ds|
    ensures IsLastBest(ds, n, k)
  {
    if n == 1 then 0
    else
      var k := BestUpTo(ds, n - 1);
      if Score(ds[k]) <= Score(ds[n - 1]) then n - 1 else k
  }

  /** At most one device is the last best one. */
  lemma {:induction false} LastBestUnique(ds: seq<DeviceProperties>, n: nat, k1: nat, k2: nat)
    requires n <= |ds|
    requires IsLastBest(ds, n, k1) && IsLastBest(ds, n, k2)
    ensures k1 == k2
  {
    assert Score(ds[k1]) == Score(ds[k2]);
  }

  /** What `pickSuitablePhysicalDevice` returns for a non-empty device list:
      the top entry of the multimap if its score is positive, else the null handle. */
  function SelectedDevice(ds: seq<DeviceProperties>): (r: Option<nat>)
    requires |ds| > 0
    ensures r.Some? ==> IsLastBest(ds, |ds|, r.value) && Score(ds[r.value]) > 0
    ensures r.Some? ==> ds[r.value].geometryShader
    ensures r.None? <==> forall j :: 0 <= j < |ds| ==> Score(ds[j]) <= 0
  {
    var k := BestUpTo(ds, |ds|);
    if Score(ds[k]) > 0 then Some(k) else None
  }

  /** The pick, characterised without reference to the multimap: device `k` is
      returned exactly when it has the greatest score, is the last enumerated
      such device and its score is positive. */
  lemma SelectedDeviceCharacterised(ds: seq<DeviceProperties>, k: nat)
    requires |ds| > 0
    ensures SelectedDevice(ds) == Some(k) <==> IsLastBest(ds, |ds|, k) && Score(ds[k]) > 0
  {
    if IsLastBest(ds, |ds|, k) && Score(ds[k]) > 0 {
      LastBestUnique(ds, |ds|, k, BestUpTo(ds, |ds|));
    }
  }

  /** A device is found exactly when some device scores above zero, so a
      device with a positive score is never passed over for the null handle. */
  lemma SelectedIffPositive(ds: seq<DeviceProperties>)
    requires |ds| > 0
    ensures SelectedDevice(ds).Some? <==> exists j :: 0 <= j < |ds| && Score(ds[j]) > 0
  {
    if SelectedDevice(ds).Some? {
      var k := SelectedDevice(ds).value;
      assert 0 <= k < |ds| && Score(ds[k]) > 0;
    }
  }

  /** When no device supports geometry shaders no device is selected. */
  lemma NoGeometryShadersNoDevice(ds: seq<DeviceProperties>)
    requires |ds| > 0
    requires forall j :: 0 <= j < |ds| ==> !ds[j].geometryShader
    ensures SelectedDevice(ds) == None
  {
  }

  /** A large enough image limit outweighs the discrete bonus: an integrated
      device whose limit exceeds a discrete device's by more than 1000 wins. */
  lemma IntegratedCanOutscoreDiscrete(integrated: DeviceProperties, discrete: DeviceProperties)
    requires !integrated.isDiscrete && discrete.isDiscrete
    requires integrated.geometryShader && discrete.geometryShader
    requires integrated.maxImageDimension2D as int < TWO_31
    requires integrated.maxImageDimension2D as int > discrete.maxImageDimension2D as int + DiscreteBonus
    ensures SelectedDevice([discrete, integrated]) == Some(1)
    ensures SelectedDevice([integrated, discrete]) == Some(0)
  {
    ScoreFormula(integrated);
    ScoreFormula(discrete);
    assert Score(discrete) < Score(integrated);
  }

  /** Equal best scores: the device enumerated last is picked, whichever two
      devices tie (a discrete GPU with limit 1000 and an integrated one with
      limit 2000 both score 2000). */
  lemma TieGoesToLastEnumerated(a: DeviceProperties, b: DeviceProperties)
    requires Score(a) == Score(b) > 0
    ensures SelectedDevice([a, b]) == Some(1)
    ensures SelectedDevice([b, a]) == Some(1)
  {
  }

  /** An integrated 4096 device beats a discrete 2048 one (1000 + 2048) and a
      discrete 8192 one without geometry shaders (0). */
  lemma ThreeDeviceScenario()
    ensures SelectedDevice([DeviceProperties(false, 4096, true),
                            DeviceProperties(true, 2048, true),
                            DeviceProperties(true, 8192, false)]) == Some(0)
  {
    var ds := [DeviceProperties(false, 4096, true), DeviceProperties(true, 2048, true), DeviceProperties(true, 8192, false)];
    assert Score(ds[0]) == 4096 && Score(ds[1]) == 3048 && Score(ds[2]) == 0;
  }

  // ---------------------------------------------------------------------------
  // pickSuitablePhysicalDevice
  // ---------------------------------------------------------------------------

  /** The entries the loop inserts for the first `n` devices, in enumeration order. */
  function Entries(ds: seq<DeviceProperties>, n: nat): (es: seq<Candidate>)
    requires n <= |ds|
    ensures |es| == n
    ensures forall j :: 0 <= j < n ==> es[j] == Candidate(Score(ds[j]), j)
  {
    if n == 0 then [] else Entries(ds, n - 1) + [Candidate(Score(ds[n - 1]), n - 1)]
  }

  /** The multimap after the first `n` devices are inserted: ordered, holding
      exactly one entry per device (each under its own score), and its last
      entry is the last best device so far. */
  ghost predicate TracksBest(ds: seq<DeviceProperties>, m: seq<Candidate>, n: nat)
    requires n <= |ds|
  {
    && |m| == n
    && Ordered(m)
    && multiset(m) == multiset(Entries(ds, n))
    && (n > 0 ==> m[n - 1] == Candidate(Score(ds[BestUpTo(ds, n)]), BestUpTo(ds, n)))
  }

  /** Inserting the next device under its score keeps the multimap tracking the best device. */
  lemma InsertStep(ds: seq<DeviceProperties>, m: seq<Candidate>, n: nat)
    requires n < |ds| && TracksBest(ds, m, n)
    ensures TracksBest(ds, Insert(m, Candidate(Score(ds[n]), n)), n + 1)
  {
    var c := Candidate(Score(ds[n]), n);
    assert Entries(ds, n + 1) == Entries(ds, n) + [c];
    InsertOrdered(m, c);
    if m == [] || m[n - 1].score <= c.score {
      InsertAtEnd(m, c);
    } else {
      InsertKeepsLast(m, c);
    }
  }

  /** `pickSuitablePhysicalDevice`: insert every device under its score into
      the multimap, then return the top entry if its key is positive. The
      source reads `rbegin()` unchecked, so callers pass a non-empty list. */
  method PickSuitablePhysicalDevice(devices: seq<DeviceProperties>) returns (picked: Option<nat>)
    requires |devices| > 0
    ensures picked == SelectedDevice(devices)
  {
    var candidates: seq<Candidate> := [];
    for i := 0 to |devices|
      invariant TracksBest(devices, candidates, i)
    {
      var c := Candidate(Score(devices[i]), i);
      InsertStep(devices, candidates, i);
      candidates := Insert(candidates, c);
    }
    var top := candidates[|candidates| - 1];
    if top.score > 0 {
      picked := Some(top.device);
    } else {
      picked := None;
    }
  }
}
