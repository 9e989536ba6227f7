/** The `CPartialMerkleTree` object: the loops and recursions of the source, each proved to compute
    what module Merkle defines. */
module PartialMerkle {
  import opened Merkle

  // ---------------------------------------------------------- byte packing

  function Weight(k: nat): nat { if k == 0 then 1 else 2 * Weight(k - 1) }

  lemma {:induction false} FromBitsPush(bits: seq<bool>, b: bool)
    ensures FromBits(bits + [b]) == FromBits(bits) + if b then Weight(|bits|) else 0
    decreases |bits|
  {
    if bits == [] {
      assert [b][1..] == [];
    } else {
      assert (bits + [b])[1..] == bits[1..] + [b];
      FromBitsPush(bits[1..], b);
    }
  }

  /** Setting one more flag touches only the byte it belongs to. */
  lemma {:induction false} PackPush(bits: seq<bool>, b: bool)
    ensures var was, is_ := Pack(bits), Pack(bits + [b]); var k := |bits| / 8; var w := if b then Weight(|bits| % 8)
      else 0;
      if |bits| % 8 == 0 then |was| == k && is_ == was + [w]
      else k == |was| - 1 && is_ == was[k := was[k] + w]
    decreases |bits|
  {
    if |bits| < 8 {
      FromBitsPush(bits, b);
    } else if |bits| == 8 {
      FromBitsPush([], b);
      assert [] + [b] == [b];
      assert (bits + [b])[..8] == bits && (bits + [b])[8..] == [b];
      assert Pack(bits + [b]) == [FromBits(bits)] + Pack([b]);
    } else {
      var rest := bits[8..];
      assert (bits + [b])[..8] == bits[..8] && (bits + [b])[8..] == rest + [b];
      assert Pack(bits + [b]) == [FromBits(bits[..8])] + Pack(rest + [b]);
      assert |bits| / 8 == |rest| / 8 + 1 && |bits| % 8 == |rest| % 8;
      PackPush(rest, b);
      var was, x, k := Pack(rest), FromBits(bits[..8]), |rest| / 8;
      assert Pack(bits) == [x] + was;
      if |rest| % 8 != 0 {
        var y := was[k] + if b then Weight(|rest| % 8) else 0;
        assert [x] + was[k := y] == ([x] + was)[k + 1 := y];
      }
    }
  }

  lemma {:induction false} PackLength(bits: seq<bool>)
    ensures |Pack(bits)| == (|bits| + 7) / 8
    decreases |bits|
  {
    if |bits| > 8 {
      PackLength(bits[8..]);
      assert (|bits| + 7) / 8 == (|bits[8..]| + 7) / 8 + 1;
    }
  }

  lemma {:induction false} UnpackAt(bytes: seq<nat>, p: nat)
    requires p < 8 * |bytes|
    ensures Unpack(bytes)[p] == Bit(bytes[p / 8], p % 8)
    decreases |bytes|
  {
    if p >= 8 {
      assert p / 8 == (p - 8) / 8 + 1 && p % 8 == (p - 8) % 8;
      UnpackAt(bytes[1..], p - 8);
    }
  }

  lemma Regroup<T>(a: seq<T>, b: seq<T>, c: seq<T>)
    ensures a + b + c == a + (b + c)
  {}

  /** Bits and hashes have been appended to the two lists. */
  ghost predicate Appended(
      bits: seq<bool>, hashes: seq<Hash>, bits': seq<bool>, hashes': seq<Hash>, b: seq<bool>, d: seq<Hash>) {
    bits' == bits + b && hashes' == hashes + d
  }

  /** What is pushed at a node that is not descended into, at one with one child, and at one with two. */
  lemma BuildStored(
      h: Pair, txid: seq<Hash>, match_: seq<bool>, height: nat, pos: nat, bits: seq<bool>, hashes: seq<Hash>)
    requires |match_| == |txid| && pos < Width(|txid|, height) && (height == 0 || !ParentOfMatch(match_, height, pos))
    ensures Appended(bits, hashes, bits + [ParentOfMatch(match_, height, pos)],
      hashes + [CalcHash(h, txid, height, pos)],
                     Bits(match_, height, pos), Hashes(h, txid, match_, height, pos))
  {}

  lemma BuildOne(h: Pair, txid: seq<Hash>, match_: seq<bool>, height: nat, pos: nat,
                 bits: seq<bool>, hashes: seq<Hash>, bits': seq<bool>, hashes': seq<Hash>)
    requires |match_| == |txid| && height > 0 && pos < Width(|txid|, height) && ParentOfMatch(match_, height, pos)
    requires !HasRight(|match_|, height, pos)
    requires Appended(bits + [true], hashes, bits', hashes',
                      Bits(match_, height - 1, pos + pos), Hashes(h, txid, match_, height - 1, pos + pos))
    ensures Appended(bits, hashes, bits', hashes', Bits(match_, height, pos), Hashes(h, txid, match_, height, pos))
  {
    Regroup(bits, [true], Bits(match_, height - 1, pos + pos));
  }

  lemma BuildTwo(h: Pair, txid: seq<Hash>, match_: seq<bool>, height: nat, pos: nat,
                 bits: seq<bool>, hashes: seq<Hash>, bits1: seq<bool>, hashes1: seq<Hash>, bits': seq<bool>,
                   hashes': seq<Hash>)
    requires |match_| == |txid| && height > 0 && pos < Width(|txid|, height) && ParentOfMatch(match_, height, pos)
    requires HasRight(|match_|, height, pos)
    requires Appended(bits + [true], hashes, bits1, hashes1,
                      Bits(match_, height - 1, pos + pos), Hashes(h, txid, match_, height - 1, pos + pos))
    requires Appended(bits1, hashes1, bits', hashes',
                      Bits(match_, height - 1, pos + pos + 1), Hashes(h, txid, match_, height - 1, pos + pos + 1))
    ensures Appended(bits, hashes, bits', hashes', Bits(match_, height, pos), Hashes(h, txid, match_, height, pos))
  {
    var l, r := Bits(match_, height - 1, pos + pos), Bits(match_, height - 1, pos + pos + 1);
    assert Bits(match_, height, pos) == [true] + l + r;
    Regroup(bits, [true], l);
    Regroup(bits, [true] + l, r);
    Regroup(hashes, Hashes(h, txid, match_, height - 1, pos + pos), Hashes(h, txid, match_, height - 1, pos + pos + 1));
  }

  /** What a call of `TraverseAndExtract` returns and appends. */
  ghost predicate Returned(r: Extraction, bad: bool, hash: Hash, bitsNow: nat, hashNow: nat,
                           vMatch: seq<Hash>, matchNow: seq<Hash>, vnIndex: seq<nat>, indexNow: seq<nat>) {
    && r.bad == bad && r.hash == hash && r.bitsUsed == bitsNow && r.hashUsed == hashNow
    && matchNow == vMatch + r.vMatch && indexNow == vnIndex + r.vnIndex
  }

  class PartialMerkleTree {
    const h: Pair
    var nTransactions: nat
    var vBits: seq<bool>
    var vHash: seq<Hash>
    var fBad: bool

    /** The tree of a list of transaction ids and a mask. */
    constructor (h: Pair, txid: seq<Hash>, match_: seq<bool>)
      requires |match_| == |txid| > 0
      ensures this.h == h && nTransactions == |txid| && !fBad
      ensures Encoding(vBits, vHash) == Build(h, txid, match_)
    {
      this.h := h;
      nTransactions := |txid|;
      vBits, vHash, fBad := [], [], false;
      new;
      HeightIsRoot(|txid|);
      var height := TreeHeight();
      TraverseAndBuild(height, 0, txid, match_);
    }

    /** An empty object, bad until something is read into it. */
    constructor Empty(h: Pair)
      ensures this.h == h && nTransactions == 0 && fBad && vBits == [] && vHash == []
    {
      this.h := h;
      nTransactions := 0;
      vBits, vHash, fBad := [], [], true;
    }

    method TreeHeight() returns (height: nat)
      ensures height == Height(nTransactions)
    {
      height := 0;
      if nTransactions > 0 { HeightIsRoot(nTransactions); }
      WidthIsCalcTreeWidth(nTransactions, 0);
      while CalcTreeWidth(nTransactions, height) > 1
        invariant height <= Height(nTransactions)
        invariant CalcTreeWidth(nTransactions, height) == Width(nTransactions, height)
        decreases Height(nTransactions) - height
      {
        height := height + 1;
        WidthIsCalcTreeWidth(nTransactions, height);
      }
    }

    method TreeWidth(height: nat) returns (width: nat)
      ensures width == Width(nTransactions, height)
    {
      WidthIsCalcTreeWidth(nTransactions, height);
      width := CalcTreeWidth(nTransactions, height);
    }

    method HasMatch(match_: seq<bool>, height: nat, pos: nat) returns (parent: bool)
      requires |match_| == nTransactions
      ensures parent <==> ParentOfMatch(match_, height, pos)
      ensures parent <==> exists p :: First(height, pos) <= p < Limit(nTransactions, height, pos) && match_[p]
    {
      AnyMatchMeans(match_, First(height, pos), Limit(nTransactions, height, pos));
      parent := false;
      var p := First(height, pos);
      while p < First(height, pos + 1) && p < nTransactions
        invariant First(height, pos) <= p && (p > First(height, pos) ==> p <= Limit(nTransactions, height, pos))
        invariant parent <==> p <= nTransactions && AnyMatch(match_, First(height, pos), p)
      {
        AnyMatchConcat(match_, First(height, pos), p, p + 1);
        parent := parent || match_[p];
        p := p + 1;
      }
      ShlMonotone(pos, pos + 1, height);
    }

    method TraverseAndBuild(height: nat, pos: nat, txid: seq<Hash>, match_: seq<bool>)
      requires |match_| == |txid| == nTransactions && pos < Width(nTransactions, height)
      modifies this`vBits, this`vHash
      ensures Appended(old(vBits), old(vHash), vBits, vHash, Bits(match_, height, pos),
        Hashes(h, txid, match_, height, pos))
      decreases height
    {
      ghost var bits, hashes := vBits, vHash;
      var parent := HasMatch(match_, height, pos);
      vBits := vBits + [parent];
      if height == 0 || !parent {
        vHash := vHash + [CalcHash(h, txid, height, pos)];
        BuildStored(h, txid, match_, height, pos, bits, hashes);
      } else {
        var width := TreeWidth(height - 1);
        TraverseAndBuild(height - 1, pos + pos, txid, match_);
        if pos + pos + 1 < width {
          ghost var bits1, hashes1 := vBits, vHash;
          TraverseAndBuild(height - 1, pos + pos + 1, txid, match_);
          BuildTwo(h, txid, match_, height, pos, bits, hashes, bits1, hashes1, vBits, vHash);
        } else {
          BuildOne(h, txid, match_, height, pos, bits, hashes, vBits, vHash);
        }
      }
    }

    /** The cursors and the two result lists are passed along and returned. */
    method TraverseAndExtract(height: nat, pos: nat, bitsUsed: nat, hashUsed: nat, vMatch: seq<Hash>, vnIndex: seq<nat>)
      returns (hash: Hash, bitsNow: nat, hashNow: nat, matchNow: seq<Hash>, indexNow: seq<nat>)
      modifies this`fBad
      ensures Returned(Extract(h, nTransactions, Encoding(vBits, vHash), height, pos, bitsUsed, hashUsed, old(fBad)),
                       fBad, hash, bitsNow, hashNow, vMatch, matchNow, vnIndex, indexNow)
      decreases height
    {
      ghost var e, bad := Encoding(vBits, vHash), fBad;
      bitsNow, hashNow, matchNow, indexNow := bitsUsed, hashUsed, vMatch, vnIndex;
      if bitsNow >= |vBits| {
        fBad := true;
        return NULL_HASH, bitsNow, hashNow, matchNow, indexNow;
      }
      var parent := vBits[bitsNow];
      bitsNow := bitsNow + 1;
      if height == 0 || !parent {
        if hashNow >= |vHash| {
          fBad := true;
          return NULL_HASH, bitsNow, hashNow, matchNow, indexNow;
        }
        hash := vHash[hashNow];
        hashNow := hashNow + 1;
        if height == 0 && parent { matchNow, indexNow := matchNow + [hash], indexNow + [pos]; }
      } else {
        ghost var l := Extract(h, nTransactions, e, height - 1, pos + pos, bitsUsed + 1, hashUsed, bad);
        ghost var r := Extract(h, nTransactions, e, height - 1, pos + pos + 1, l.bitsUsed, l.hashUsed, l.bad);
        ghost var x := Extract(h, nTransactions, e, height, pos, bitsUsed, hashUsed, bad);
        ExtractParts(h, nTransactions, e, height, pos, bitsUsed, hashUsed, bad, l, r, x);
        var width := TreeWidth(height - 1);
        var left, right;
        left, bitsNow, hashNow, matchNow,
          indexNow := TraverseAndExtract(height - 1, pos + pos, bitsNow, hashNow, matchNow, indexNow);
        if pos + pos + 1 < width {
          right, bitsNow, hashNow, matchNow,
            indexNow := TraverseAndExtract(height - 1, pos + pos + 1, bitsNow, hashNow, matchNow, indexNow);
          Regroup(vMatch, l.vMatch, r.vMatch);
          Regroup(vnIndex, l.vnIndex, r.vnIndex);
          if right == left { fBad := true; }
          assert Returned(x, fBad, h(left, right), bitsNow, hashNow, vMatch, matchNow, vnIndex, indexNow);
        } else {
          right := left;
          assert Returned(x, fBad, h(left, right), bitsNow, hashNow, vMatch, matchNow, vnIndex, indexNow);
        }
        hash := h(left, right);
      }
    }

    /** The match list is cleared first; the index list is not, so indices are appended to it.
        An object that is already bad never yields a root. */
    method ExtractMatches(indices: seq<nat>) returns (root: Hash, vMatch: seq<Hash>, vnIndex: seq<nat>)
      modifies this`fBad
      ensures fBad <==> old(fBad) || Spoils(h, nTransactions, Encoding(vBits, vHash))
      ensures var r := Merkle.ExtractMatches(h, nTransactions, Encoding(vBits, vHash));
        root == (if old(fBad) then NULL_HASH else r.0) && vMatch == r.1 && vnIndex == indices + r.2
    {
      vMatch, vnIndex := [], indices;
      if nTransactions == 0 || nTransactions > MAX_TRANSACTIONS || |vHash| > nTransactions || |vBits| < |vHash| {
        return NULL_HASH, vMatch, vnIndex;
      }
      var height := TreeHeight();
      BadBefore(h, nTransactions, Encoding(vBits, vHash), height, 0, 0, 0,
        Extract(h, nTransactions, Encoding(vBits, vHash), height, 0, 0, 0, false));
      var bitsUsed, hashUsed;
      root, bitsUsed, hashUsed, vMatch, vnIndex := TraverseAndExtract(height, 0, 0, 0, vMatch, vnIndex);
      if fBad || (bitsUsed + 7) / 8 != (|vBits| + 7) / 8 || hashUsed != |vHash| { root := NULL_HASH; }
    }

    method WriteBits() returns (vBytes: seq<nat>)
      ensures vBytes == Pack(vBits)
    {
      var size := (|vBits| + 7) / 8;
      vBytes := seq(size, _ => 0);
      var p := 0;
      assert vBits[..0] == [];
      while p < |vBits|
        invariant p <= |vBits| && |vBytes| == size
        invariant |Pack(vBits[..p])| == (p + 7) / 8 <= size
        invariant vBytes[..(p + 7) / 8] == Pack(vBits[..p])
        invariant forall k :: (p + 7) / 8 <= k < size ==> vBytes[k] == 0
      {
        assert vBits[..p + 1] == vBits[..p] + [vBits[p]];
        PackPush(vBits[..p], vBits[p]);
        PackLength(vBits[..p + 1]);
        ghost var was := vBytes;
        vBytes := vBytes[p / 8 := vBytes[p / 8] + if vBits[p] then Weight(p % 8) else 0];
        p := p + 1;
      }
      assert vBits[..p] == vBits;
    }

    /** Reading replaces everything and clears the bad flag. */
    method Read(n: nat, hashes: seq<Hash>, vBytes: seq<nat>)
      modifies this
      ensures nTransactions == n && vHash == hashes && !fBad && vBits == Unpack(vBytes)
    {
      var bits := seq(8 * |vBytes|, _ => false);
      var p := 0;
      while p < |bits|
        invariant p <= |bits| == 8 * |vBytes|
        invariant forall k :: 0 <= k < p ==> bits[k] == Unpack(vBytes)[k]
      {
        UnpackAt(vBytes, p);
        bits := bits[p := Bit(vBytes[p / 8], p % 8)];
        p := p + 1;
      }
      nTransactions, vHash, vBits, fBad := n, hashes, bits, false;
    }
  }
}
