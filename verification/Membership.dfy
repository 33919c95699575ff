/** The packed membership set: built in chunks, searched by bisection, amended by an overlay. */
module Membership {
  import opened Wrappers
  import opened Packed
  import opened Overlay

  const BUILD_CHUNK := 65536

  /** The first n values, or all of them when there is no cap. */
  function Capped(values: seq<string>, maxEntries: Option<nat>): (r: seq<string>)
    ensures r <= values && (maxEntries.None? ==> r == values)
    ensures maxEntries.Some? ==> |r| <= maxEntries.value && (|r| == maxEntries.value || r == values)
  {
    if maxEntries.Some? && maxEntries.value < |values| then values[..maxEntries.value] else values
  }

  function Fingerprints(hash: string -> Fp, values: seq<string>): (r: seq<Fp>)
    ensures |r| == |values| && forall i :: 0 <= i < |r| ==> r[i] == hash(values[i])
  {
    seq(|values|, i requires 0 <= i < |values| => hash(values[i]))
  }

  ghost function Joined(blocks: seq<array<Fp>>): (r: seq<Fp>)
    reads blocks
  {
    if blocks == [] then [] else Joined(blocks[..|blocks| - 1]) + blocks[|blocks| - 1][..]
  }

  /** np.concatenate */
  method Concatenate(blocks: seq<array<Fp>>, tail: seq<Fp>) returns (r: seq<Fp>)
    ensures r == Joined(blocks) + tail
  {
    r := [];
    for i := 0 to |blocks|
      invariant r == Joined(blocks[..i])
    {
      assert blocks[..i + 1][..i] == blocks[..i];
      r := r + blocks[i][..];
    }
    assert blocks[..|blocks|] == blocks;
    r := r + tail;
  }

  /** One buffer filled from the value stream, until it is full, the cap is met or the stream ends. */
  method FillBlock(hash: string -> Fp, values: seq<string>, maxEntries: Option<nat>, from: nat)
    returns (buffer: array<Fp>, filled: nat)
    requires from <= |Capped(values, maxEntries)|
    ensures fresh(buffer) && buffer.Length == BUILD_CHUNK && filled <= BUILD_CHUNK
    ensures from + filled <= |Capped(values, maxEntries)| <= |values|
    ensures filled == BUILD_CHUNK || from + filled == |Capped(values, maxEntries)|
    ensures buffer[..filled] == Fingerprints(hash, values[from..from + filled])
  {
    buffer := new Fp[BUILD_CHUNK];
    filled := 0;
    while filled < BUILD_CHUNK && from + filled < |values|
      invariant filled <= BUILD_CHUNK && from + filled <= |Capped(values, maxEntries)|
      invariant forall i :: 0 <= i < filled ==> buffer[i] == hash(values[from + i])
    {
      if maxEntries.Some? && from + filled >= maxEntries.value { break; }
      buffer[filled] := hash(values[from + filled]);
      filled := filled + 1;
    }
    ghost var part := values[from..from + filled];
    assert forall i :: 0 <= i < filled ==> buffer[..filled][i] == hash(part[i]) == Fingerprints(hash, part)[i];
  }

  /** The fingerprints of the capped value stream, gathered in full buffers and a remainder. */
  method GatherBlocks(hash: string -> Fp, values: seq<string>, maxEntries: Option<nat>)
    returns (blocks: seq<array<Fp>>, rest: seq<Fp>)
    ensures Joined(blocks) + rest == Fingerprints(hash, Capped(values, maxEntries))
  {
    hide Joined, Fingerprints;
    blocks, rest := [], [];
    var seen := 0;
    var more := true;
    NothingJoined(hash);
    assert values[..0] == [];
    while more
      invariant seen <= |Capped(values, maxEntries)|
      invariant Joined(blocks) + rest == Fingerprints(hash, values[..seen])
      invariant if more then rest == [] else seen == |Capped(values, maxEntries)|
      decreases more, |values| - seen
    {
      var buffer, filled := FillBlock(hash, values, maxEntries, seen);
      OneMoreBlock(hash, values, seen, filled, Joined(blocks), buffer[..filled]);
      seen := seen + filled;
      if filled == BUILD_CHUNK {
        JoinedOneMore(blocks, buffer);
        assert buffer[..filled] == buffer[..];
        blocks := blocks + [buffer];
        assert Joined(blocks) + [] == Joined(blocks);
      } else {
        rest := buffer[..filled];
        more := false;
      }
    }
    assert values[..seen] == Capped(values, maxEntries);
  }

  lemma NothingJoined(hash: string -> Fp)
    ensures Joined([]) == [] && Fingerprints(hash, []) == []
  {
  }

  lemma {:induction false} JoinedOneMore(blocks: seq<array<Fp>>, block: array<Fp>)
    ensures Joined(blocks + [block]) == Joined(blocks) + block[..]
  {
    assert (blocks + [block])[..|blocks|] == blocks;
  }

  lemma OneMoreBlock(hash: string -> Fp, values: seq<string>, seen: nat, filled: nat, whole: seq<Fp>, part: seq<Fp>)
    requires seen + filled <= |values| && whole == Fingerprints(hash, values[..seen])
    requires part == Fingerprints(hash, values[seen..seen + filled])
    ensures whole + part == Fingerprints(hash, values[..seen + filled])
  {
  }

  /** build up to np.unique: exactly the fingerprints of the capped stream, strictly increasing. */
  method PackValues(hash: string -> Fp, values: seq<string>, maxEntries: Option<nat>) returns (arr: seq<Fp>)
    ensures StrictlyIncreasing(arr)
    ensures forall fp :: fp in arr <==> exists v :: v in Capped(values, maxEntries) && hash(v) == fp
    ensures maxEntries.Some? ==> |arr| <= maxEntries.value
  {
    var blocks, rest := GatherBlocks(hash, values, maxEntries);
    var all := Concatenate(blocks, rest);
    arr := Unique(all);
    FingerprintsMembers(hash, Capped(values, maxEntries));
  }

  lemma FingerprintsMembers(hash: string -> Fp, values: seq<string>)
    ensures forall fp :: fp in Fingerprints(hash, values) <==> exists v :: v in values && hash(v) == fp
  {
    forall v | v in values ensures hash(v) in Fingerprints(hash, values) {
      var i :| 0 <= i < |values| && values[i] == v;
      assert Fingerprints(hash, values)[i] == hash(v);
    }
  }

  /** bisect_left over the first hi words of a buffer: the first position not below fp. */
  method BisectLeft(words: array<Fp>, hi0: nat, fp: Fp) returns (idx: nat)
    requires hi0 <= words.Length && StrictlyIncreasing(words[..hi0])
    ensures idx <= hi0
    ensures forall i :: 0 <= i < idx ==> words[i] < fp
    ensures forall i :: idx <= i < hi0 ==> fp <= words[i]
  {
    var lo, hi := 0, hi0;
    while lo < hi
      invariant lo <= hi <= hi0
      invariant forall i :: 0 <= i < lo ==> words[i] < fp
      invariant forall i :: hi <= i < hi0 ==> fp <= words[i]
    {
      var mid := (lo + hi) / 2;
      assert forall i :: 0 <= i < hi0 ==> words[i] == words[..hi0][i];
      if words[mid] < fp { lo := mid + 1; } else { hi := mid; }
    }
    idx := lo;
  }

  /** A page-rounded segment holding arr. */
  method AllocateSegment(arr: seq<Fp>) returns (words: array<Fp>)
    ensures fresh(words) && words[..] == Segment(arr)
  {
    words := new Fp[PageRounded(|arr|)](_ => 0 as Fp);
    for i := 0 to |arr|
      invariant forall k :: 0 <= k < words.Length ==> words[k] == if k < i then arr[k] else 0
    {
      words[i] := arr[i];
    }
  }

  class MembershipSet {
    const hash: string -> Fp
    const overlayMax: int
    const owner: bool
    var shm: array?<Fp>          // the mapped segment: the data, then zeros to the page boundary
    var count: nat
    var added: set<Fp>
    var tombstones: set<Fp>

    /** The array the read path searches: the mapped words cut to the count, or nothing. */
    ghost var packed: seq<Fp>

    ghost predicate Valid()
      reads this, shm
    {
      if shm == null then packed == []
      else count <= shm.Length && shm[..count] == packed && StrictlyIncreasing(packed)
    }

    ghost function Model(): Overlaid
      reads this
    {
      Overlaid(packed, added, tombstones)
    }

    /** build: an empty corpus allocates no segment. */
    constructor Build(hash: string -> Fp, values: seq<string>, overlayMax: int, maxEntries: Option<nat>)
      ensures Valid() && owner && this.hash == hash && this.overlayMax == overlayMax
      ensures added == {} && tombstones == {} && count == |packed|
      ensures forall fp :: fp in packed <==> exists v :: v in Capped(values, maxEntries) && hash(v) == fp
      ensures shm == null <==> Capped(values, maxEntries) == []
      ensures shm != null ==> fresh(shm) && shm[..] == Segment(packed)
      ensures maxEntries.Some? ==> count <= maxEntries.value
    {
      this.hash, this.overlayMax, owner := hash, overlayMax, true;
      added, tombstones := {}, {};
      shm, count, packed := null, 0, [];
      new;
      var arr := PackValues(hash, values, maxEntries);
      assert Capped(values, maxEntries) != [] ==> hash(Capped(values, maxEntries)[0]) in arr;
      assert arr == [] || arr[0] in arr;
      if arr != [] {
        var backing := AllocateSegment(arr);
        shm, count, packed := backing, |arr|, arr;
        assert shm[..count] == arr;
      }
    }

    /** attach: map words another process built. */
    constructor Attach(hash: string -> Fp, words: array<Fp>, count: nat, overlayMax: int)
      requires count <= words.Length && StrictlyIncreasing(words[..count])
      ensures Valid() && !owner && this.hash == hash && this.overlayMax == overlayMax
      ensures shm == words && this.count == count && Model() == Overlaid.Fresh(words[..count])
    {
      this.hash, this.overlayMax, owner := hash, overlayMax, false;
      shm, this.count, packed := words, count, words[..count];
      added, tombstones := {}, {};
    }

    /** `value in set` is membership of its fingerprint in packed minus tombstones plus added. */
    method Contains(value: string) returns (found: bool)
      requires Valid()
      ensures found == Model().Has(hash(value))
    {
      var fp := hash(value);
      if fp in tombstones { return false; }
      if fp in added { return true; }
      if shm == null || count == 0 { return false; }
      var idx := BisectLeft(shm, count, fp);
      found := idx < count && shm[idx] == fp;
      assert forall i :: 0 <= i < count ==> shm[..count][i] == shm[i];
    }

    method Add(value: string)
      requires Valid()
      modifies this`added, this`tombstones
      ensures Valid() && Model() == old(Model()).WithAdded(hash(value))
    {
      var fp := hash(value);
      tombstones := tombstones - {fp};
      added := added + {fp};
    }

    method Remove(value: string)
      requires Valid()
      modifies this`added, this`tombstones
      ensures Valid() && Model() == old(Model()).WithRemoved(hash(value))
    {
      var fp := hash(value);
      added := added - {fp};
      tombstones := tombstones + {fp};
    }

    /** Carries the other set's pending updates onto this one. */
    method AdoptOverlay(other: MembershipSet)
      requires Valid() && other.Valid()
      modifies this`added, this`tombstones
      ensures Valid() && Model() == old(Model()).Adopting(old(other.Model()))
    {
      added := added + other.added;
      tombstones := tombstones + other.tombstones;
      added := added - other.tombstones;
    }

    /** Enough pending updates to warrant a rebuild. */
    predicate OverlayFull()
      reads this
    {
      |added| + |tombstones| >= overlayMax
    }

    /** close: drop the mapping, once; the overlay stays readable. The owner unlinks unless told otherwise. */
    method Close(unlink: Option<bool>) returns (unlinked: bool)
      requires Valid()
      modifies this`shm, this`packed
      ensures Valid() && shm == null && Model() == old(Model()).(packed := [])
      ensures unlinked <==> old(shm) != null && (if unlink.Some? then unlink.value else owner)
    {
      if shm == null { return false; }
      unlinked := if unlink.Some? then unlink.value else owner;
      shm, packed := null, [];
    }
  }
}
