/** The simulated address space as values: an ordered table of regions, each
    covering the addresses begin..end (inclusive) with one byte per address.
    Words are stored little-endian. This is the specification that the
    region-scanning loops of the simulator are proved against. */
module Memory {
  import opened Isa

  datatype RegionImage = RegionImage(begin: Addr, end: Addr, bytes: seq<Byte>)

  predicate Contains(r: RegionImage, a: Addr) {
    r.begin <= a <= r.end
  }

  /** Distance of a mapped address from the start of its region. */
  function Offset(r: RegionImage, a: Addr): (o: nat)
    requires Contains(r, a)
  {
    a - r.begin
  }

  /** Every region holds one byte per address it covers. */
  predicate Layout(img: seq<RegionImage>) {
    forall i :: 0 <= i < |img| ==>
      img[i].begin <= img[i].end && |img[i].bytes| == img[i].end - img[i].begin + 1
  }

  /** No two regions overlap. */
  predicate Disjoint(img: seq<RegionImage>) {
    forall i, j :: 0 <= i < j < |img| ==> img[i].end < img[j].begin || img[j].end < img[i].begin
  }

  /** Same region table, bytes aside. */
  predicate SameBounds(img: seq<RegionImage>, img': seq<RegionImage>) {
    |img| == |img'| &&
    forall i :: 0 <= i < |img| ==> img[i].begin == img'[i].begin && img[i].end == img'[i].end
  }

  /** A word access at `a` stays inside whatever region holds `a`. An access
      whose last bytes fall past the end of its region runs off the region's
      buffer, which is undefined and excluded here. */
  predicate AccessOk(img: seq<RegionImage>, a: Addr) {
    forall i :: 0 <= i < |img| && Contains(img[i], a) ==> a + 3 <= img[i].end
  }

  /** Index of the first region at or after `from` that holds `a`. */
  function FindFrom(img: seq<RegionImage>, a: Addr, from: nat): (r: Option<nat>)
    requires from <= |img|
    ensures r.Some? ==> from <= r.value < |img| && Contains(img[r.value], a)
    ensures r.Some? ==> forall j :: from <= j < r.value ==> !Contains(img[j], a)
    ensures r.None? ==> forall j :: from <= j < |img| ==> !Contains(img[j], a)
    decreases |img| - from
  {
    if from == |img| then None
    else if Contains(img[from], a) then Some(from)
    else FindFrom(img, a, from + 1)
  }

  /** Index of the first region that holds `a`, if any. */
  function Find(img: seq<RegionImage>, a: Addr): (r: Option<nat>)
    ensures r.Some? ==> r.value < |img| && Contains(img[r.value], a)
    ensures r.Some? ==> forall j :: 0 <= j < r.value ==> !Contains(img[j], a)
    ensures r.None? ==> forall j :: 0 <= j < |img| ==> !Contains(img[j], a)
  {
    FindFrom(img, a, 0)
  }

  /** The four bytes of a word, least significant first. */
  function LeBytes(v: Word): (bs: seq<Byte>)
    ensures |bs| == 4
  {
    [(v & 0xFF) as Byte, ((v >> 8) & 0xFF) as Byte, ((v >> 16) & 0xFF) as Byte, ((v >> 24) & 0xFF) as Byte]
  }

  /** The word whose bytes, least significant first, are `bs`. */
  function LeWord(bs: seq<Byte>): Word
    requires |bs| == 4
  {
    (bs[3] as Word << 24) | (bs[2] as Word << 16) | (bs[1] as Word << 8) | bs[0] as Word
  }

  /** Splitting a word into bytes and joining them again gives the word back. */
  lemma LeWordOfBytes(v: Word)
    ensures LeWord(LeBytes(v)) == v
  {
  }

  /** Joining four bytes into a word and splitting it again gives the bytes back. */
  lemma LeBytesOfWord(bs: seq<Byte>)
    requires |bs| == 4
    ensures LeBytes(LeWord(bs)) == bs
  {
  }

  /** Reads the word at `a` from the first region holding it; an address in
      no region reads as 0. */
  function Load(img: seq<RegionImage>, a: Addr): Word
    requires Layout(img) && AccessOk(img, a)
  {
    match Find(img, a)
    case None => 0
    case Some(i) =>
      var o := Offset(img[i], a);
      LeWord(img[i].bytes[o..o + 4])
  }

  /** The word read at a mapped address splits back into exactly the four
      bytes stored at its offset in the first region holding it. */
  lemma LoadBytes(img: seq<RegionImage>, a: Addr)
    requires Layout(img) && AccessOk(img, a) && Find(img, a).Some?
    ensures var i := Find(img, a).value; var o := Offset(img[i], a);
      o + 4 <= |img[i].bytes| && LeBytes(Load(img, a)) == img[i].bytes[o..o + 4]
  {
    var i := Find(img, a).value;
    var o := Offset(img[i], a);
    LeBytesOfWord(img[i].bytes[o..o + 4]);
  }

  /** Region `r` with the four bytes at `a` replaced by those of `v`. */
  function Patch(r: RegionImage, a: Addr, v: Word): RegionImage
    requires Contains(r, a) && Offset(r, a) + 4 <= |r.bytes|
  {
    var o := Offset(r, a);
    r.(bytes := r.bytes[..o] + LeBytes(v) + r.bytes[o + 4..])
  }

  /** Writes `v` at `a` into every region holding `a`; an address in no
      region changes nothing. */
  function Store(img: seq<RegionImage>, a: Addr, v: Word): (img': seq<RegionImage>)
    requires Layout(img) && AccessOk(img, a)
    ensures Layout(img') && SameBounds(img, img')
  {
    seq(|img|, i requires 0 <= i < |img| =>
      if Contains(img[i], a) then Patch(img[i], a, v) else img[i])
  }

  /** A freshly allocated, cleared region table over the given address ranges. */
  function Blank(layout: seq<(Addr, Addr)>): (img: seq<RegionImage>)
    requires forall i :: 0 <= i < |layout| ==> layout[i].0 <= layout[i].1
  {
    seq(|layout|, i requires 0 <= i < |layout| =>
      RegionImage(layout[i].0, layout[i].1, seq(layout[i].1 - layout[i].0 + 1, _ => 0)))
  }

  /** A fresh table has one region per address range, each with one byte per
      address, and clearing it changes nothing: every byte is already 0. */
  lemma BlankCleared(layout: seq<(Addr, Addr)>)
    requires forall i :: 0 <= i < |layout| ==> layout[i].0 <= layout[i].1
    ensures Layout(Blank(layout)) && |Blank(layout)| == |layout|
    ensures forall i :: 0 <= i < |layout| ==>
      Blank(layout)[i].begin == layout[i].0 && Blank(layout)[i].end == layout[i].1
    ensures Zeroed(Blank(layout)) == Blank(layout)
  {
  }

  /** Every byte of every region cleared, the region table kept. */
  function Zeroed(img: seq<RegionImage>): (img': seq<RegionImage>)
    ensures SameBounds(img, img')
    ensures forall i :: 0 <= i < |img'| ==> |img'[i].bytes| == |img[i].bytes|
    ensures forall i, k :: 0 <= i < |img'| && 0 <= k < |img'[i].bytes| ==> img'[i].bytes[k] == 0
  {
    seq(|img|, i requires 0 <= i < |img| => img[i].(bytes := seq(|img[i].bytes|, _ => 0)))
  }

  lemma FindSameBounds(img: seq<RegionImage>, img': seq<RegionImage>, a: Addr)
    requires SameBounds(img, img')
    ensures Find(img', a) == Find(img, a)
  {
    var r, r' := Find(img, a), Find(img', a);
    assert forall i :: 0 <= i < |img| ==> (Contains(img[i], a) <==> Contains(img'[i], a));
    if r.Some? && r'.Some? {
      assert !(r.value < r'.value) && !(r'.value < r.value);
    }
  }

  lemma AccessOkSameBounds(img: seq<RegionImage>, img': seq<RegionImage>, a: Addr)
    requires SameBounds(img, img')
    ensures AccessOk(img', a) == AccessOk(img, a)
  {
    assert forall i :: 0 <= i < |img| ==> (Contains(img[i], a) <==> Contains(img'[i], a));
  }

  /** A word read back right after it is written is the word written; at an
      unmapped address the write is dropped and the read gives 0. */
  lemma LoadAfterStore(img: seq<RegionImage>, a: Addr, v: Word)
    requires Layout(img) && AccessOk(img, a)
    ensures AccessOk(Store(img, a, v), a)
    ensures Load(Store(img, a, v), a) == if Find(img, a).Some? then v else 0
  {
    var img' := Store(img, a, v);
    FindSameBounds(img, img', a);
    AccessOkSameBounds(img, img', a);
    match Find(img, a)
    case None =>
    case Some(i) =>
      var o := Offset(img[i], a);
      assert img'[i].bytes[o..o + 4] == LeBytes(v);
      LeWordOfBytes(v);
  }

  /** An address in no region: reading gives 0 and writing leaves every region as it was. */
  lemma Unmapped(img: seq<RegionImage>, a: Addr, v: Word)
    requires Layout(img) && AccessOk(img, a) && Find(img, a).None?
    ensures Load(img, a) == 0
    ensures Store(img, a, v) == img
  {
    var img' := Store(img, a, v);
    assert forall i :: 0 <= i < |img| ==> img'[i] == img[i];
  }

  /** A write at a mapped address sets exactly the four bytes offset..offset+3
      of the region holding it, to the bytes of `v` from the least significant
      up, and leaves every other byte of that region and every other region
      as it was. */
  lemma StoreBytes(img: seq<RegionImage>, a: Addr, v: Word)
    requires Layout(img) && Disjoint(img) && AccessOk(img, a) && Find(img, a).Some?
    ensures var i, img' := Find(img, a).value, Store(img, a, v);
      var o := Offset(img[i], a);
      |img'[i].bytes| == |img[i].bytes| &&
      img'[i].bytes[o] == (v & 0xFF) as Byte &&
      img'[i].bytes[o + 1] == ((v >> 8) & 0xFF) as Byte &&
      img'[i].bytes[o + 2] == ((v >> 16) & 0xFF) as Byte &&
      img'[i].bytes[o + 3] == (v >> 24) as Byte &&
      (forall k :: 0 <= k < |img[i].bytes| && !(o <= k < o + 4) ==> img'[i].bytes[k] == img[i].bytes[k]) &&
      (forall j :: 0 <= j < |img| && j != i ==> img'[j] == img[j])
  {
    var i, img' := Find(img, a).value, Store(img, a, v);
    forall j | 0 <= j < |img| && j != i
      ensures img'[j] == img[j]
    {
      if Contains(img[j], a) {
        assert false;
      }
    }
  }

  /** A write at `a` does not disturb the word at `b` when the two four-byte
      windows do not overlap. */
  lemma LoadStoreOther(img: seq<RegionImage>, a: Addr, b: Addr, v: Word)
    requires Layout(img) && AccessOk(img, a) && AccessOk(img, b)
    requires a + 4 <= b || b + 4 <= a
    ensures AccessOk(Store(img, a, v), b)
    ensures Load(Store(img, a, v), b) == Load(img, b)
  {
    var img' := Store(img, a, v);
    FindSameBounds(img, img', b);
    AccessOkSameBounds(img, img', b);
    if Find(img, b).Some? {
      StoreKeepsWindow(img, a, b, v);
    }
  }

  /** The bytes of the word at `b` survive a write at `a` elsewhere. */
  lemma StoreKeepsWindow(img: seq<RegionImage>, a: Addr, b: Addr, v: Word)
    requires Layout(img) && AccessOk(img, a) && AccessOk(img, b)
    requires a + 4 <= b || b + 4 <= a
    requires Find(img, b).Some?
    ensures var i := Find(img, b).value; var o := Offset(img[i], b);
      |Store(img, a, v)[i].bytes| == |img[i].bytes| &&
      Store(img, a, v)[i].bytes[o..o + 4] == img[i].bytes[o..o + 4]
  {
    var img', i := Store(img, a, v), Find(img, b).value;
    var ob := Offset(img[i], b);
    if Contains(img[i], a) {
      var oa := Offset(img[i], a);
      forall k | ob <= k < ob + 4
        ensures img'[i].bytes[k] == img[i].bytes[k]
      {
        assert k < oa || oa + 4 <= k;
      }
    }
  }

  /** Address of the k-th word of a block starting at `base`, wrapping as
      unsigned 32-bit arithmetic does. */
  function WordAddress(base: Addr, k: nat): Addr
  {
    (base + 4 * k) % 0x1_0000_0000
  }

  /** Inside a block that does not wrap, word addresses are plain sums. */
  lemma WordAddressNoWrap(base: Addr, n: nat, k: nat)
    requires base + 4 * n <= 0x1_0000_0000 && k < n
    ensures WordAddress(base, k) == base + 4 * k
  {
  }

  /** Every word of an n-word block at `base` is a defined access. */
  predicate BlockOk(img: seq<RegionImage>, base: Addr, n: nat) {
    forall k :: 0 <= k < n ==> AccessOk(img, WordAddress(base, k))
  }

  lemma BlockOkSameBounds(img: seq<RegionImage>, img': seq<RegionImage>, base: Addr, n: nat)
    requires SameBounds(img, img') && BlockOk(img, base, n)
    ensures BlockOk(img', base, n)
  {
    forall k | 0 <= k < n
      ensures AccessOk(img', WordAddress(base, k))
    {
      AccessOkSameBounds(img, img', WordAddress(base, k));
    }
  }

  /** Writes the words of `ws` one after another at base, base+4, base+8, ... */
  function StoreWords(img: seq<RegionImage>, base: Addr, ws: seq<Word>): (img': seq<RegionImage>)
    requires Layout(img) && BlockOk(img, base, |ws|)
    ensures Layout(img') && SameBounds(img, img')
    decreases |ws|
  {
    if ws == [] then img
    else
      var n := |ws| - 1;
      var prior := StoreWords(img, base, ws[..n]);
      AccessOkSameBounds(img, prior, WordAddress(base, n));
      Store(prior, WordAddress(base, n), ws[n])
  }

  /** After a block of words is written, the k-th one reads back from
      base + 4k, provided the block does not wrap past the top of the address
      space and that address is mapped. */
  lemma {:induction false} StoreWordsReadBack(img: seq<RegionImage>, base: Addr, ws: seq<Word>, k: nat)
    requires Layout(img) && BlockOk(img, base, |ws|)
    requires base + 4 * |ws| <= 0x1_0000_0000
    requires k < |ws| && Find(img, WordAddress(base, k)).Some?
    ensures AccessOk(StoreWords(img, base, ws), WordAddress(base, k))
    ensures Load(StoreWords(img, base, ws), WordAddress(base, k)) == ws[k]
    decreases |ws|
  {
    var n := |ws| - 1;
    var prior := StoreWords(img, base, ws[..n]);
    var a, b := WordAddress(base, n), WordAddress(base, k);
    WordAddressNoWrap(base, |ws|, n);
    WordAddressNoWrap(base, |ws|, k);
    AccessOkSameBounds(img, prior, a);
    AccessOkSameBounds(img, prior, b);
    FindSameBounds(img, prior, a);
    assert StoreWords(img, base, ws) == Store(prior, a, ws[n]);
    if k == n {
      LoadAfterStore(prior, a, ws[n]);
    } else {
      assert ws[..n][k] == ws[k];
      StoreWordsReadBack(img, base, ws[..n], k);
      LoadStoreOther(prior, a, b, ws[n]);
    }
  }

  /** A block store leaves the word at any address outside the block as it
      was, provided the block does not wrap past the top of the address
      space. */
  lemma {:induction false} StoreWordsOther(img: seq<RegionImage>, base: Addr, ws: seq<Word>, b: Addr)
    requires Layout(img) && BlockOk(img, base, |ws|) && AccessOk(img, b)
    requires base + 4 * |ws| <= 0x1_0000_0000
    requires b + 4 <= base || base + 4 * |ws| <= b
    ensures AccessOk(StoreWords(img, base, ws), b)
    ensures Load(StoreWords(img, base, ws), b) == Load(img, b)
    decreases |ws|
  {
    if ws != [] {
      var n := |ws| - 1;
      var prior := StoreWords(img, base, ws[..n]);
      var a := WordAddress(base, n);
      WordAddressNoWrap(base, |ws|, n);
      AccessOkSameBounds(img, prior, a);
      StoreWordsOther(img, base, ws[..n], b);
      LoadStoreOther(prior, a, b, ws[n]);
    }
  }

  /** Every mapped word of a cleared table reads 0. */
  lemma ZeroedLoad(img: seq<RegionImage>, b: Addr)
    requires Layout(img) && AccessOk(img, b)
    ensures Layout(Zeroed(img)) && AccessOk(Zeroed(img), b)
    ensures Load(Zeroed(img), b) == 0
  {
    AccessOkSameBounds(img, Zeroed(img), b);
    FindSameBounds(img, Zeroed(img), b);
    if Find(img, b).Some? {
      var i := Find(img, b).value;
      var o := Offset(img[i], b);
      assert Zeroed(img)[i].bytes[o..o + 4] == [0, 0, 0, 0];
    }
  }

  /** After a table is cleared and a block is written into it, every mapped
      word outside the block reads 0. */
  lemma StoreWordsZeroedOther(img: seq<RegionImage>, base: Addr, ws: seq<Word>, b: Addr)
    requires Layout(img) && BlockOk(img, base, |ws|) && AccessOk(img, b)
    requires base + 4 * |ws| <= 0x1_0000_0000
    requires b + 4 <= base || base + 4 * |ws| <= b
    ensures Layout(Zeroed(img)) && BlockOk(Zeroed(img), base, |ws|)
    ensures AccessOk(StoreWords(Zeroed(img), base, ws), b)
    ensures Load(StoreWords(Zeroed(img), base, ws), b) == 0
  {
    ZeroedLoad(img, b);
    BlockOkSameBounds(img, Zeroed(img), base, |ws|);
    StoreWordsOther(Zeroed(img), base, ws, b);
  }
}
