/** Merging checkpoints: memory images are laid end to end and physical addresses moved along. */
module Aggregator {
  import opened Common

  /** What of a checkpoint matters here: its page count and its memory file. */
  datatype Checkpoint = Checkpoint(pages: nat, memory: seq<Byte>)

  /** The memory file holds all the pages the checkpoint counts. */
  predicate Complete(c: Checkpoint) {
    |c.memory| >= 4096 * c.pages
  }

  predicate AllComplete(cpts: seq<Checkpoint>, i: nat)
    requires i <= |cpts|
  {
    forall j :: 0 <= j < i ==> Complete(cpts[j])
  }

  /** Pages of the checkpoints before number i. */
  function PagesBefore(cpts: seq<Checkpoint>, i: nat): nat
    requires i <= |cpts|
  {
    if i == 0 then 0 else PagesBefore(cpts, i - 1) + cpts[i - 1].pages
  }

  /** A page read from the file; short or empty past its end. */
  function Page(memory: seq<Byte>, x: nat): seq<Byte> {
    if 4096 * x >= |memory| then []
    else if 4096 * x + 4096 > |memory| then memory[4096 * x..]
    else memory[4096 * x..4096 * x + 4096]
  }

  /** The first n pages as the copy loop reads them. */
  function Pages(memory: seq<Byte>, n: nat): seq<Byte> {
    if n == 0 then [] else Pages(memory, n - 1) + Page(memory, n - 1)
  }

  function Image(cpts: seq<Checkpoint>, i: nat): seq<Byte>
    requires i <= |cpts|
  {
    if i == 0 then [] else Image(cpts, i - 1) + Pages(cpts[i - 1].memory, cpts[i - 1].pages)
  }

  /** A physical address of checkpoint i after the merge. */
  function Moved(cpts: seq<Checkpoint>, i: nat, paddr: nat): nat
    requires i < |cpts|
  {
    paddr + 4096 * PagesBefore(cpts, i)
  }

  function AllMoved(cpts: seq<Checkpoint>, i: nat, paddrs: seq<nat>): seq<nat>
    requires i < |cpts|
  {
    seq(|paddrs|, k requires 0 <= k < |paddrs| => Moved(cpts, i, paddrs[k]))
  }

  /** The addresses of the first n checkpoints, all moved. */
  function Relocated(cpts: seq<Checkpoint>, paddrs: seq<seq<nat>>, n: nat): seq<seq<nat>>
    requires n <= |cpts| == |paddrs|
  {
    if n == 0 then [] else Relocated(cpts, paddrs, n - 1) + [AllMoved(cpts, n - 1, paddrs[n - 1])]
  }

  lemma {:induction false} RelocatedAt(cpts: seq<Checkpoint>, paddrs: seq<seq<nat>>, n: nat)
    requires n <= |cpts| == |paddrs|
    ensures |Relocated(cpts, paddrs, n)| == n
    ensures forall i :: 0 <= i < n ==> Relocated(cpts, paddrs, n)[i] == AllMoved(cpts, i, paddrs[i])
  {
    if n > 0 {
      RelocatedAt(cpts, paddrs, n - 1);
    }
  }

  /** Pages of padding, filled with the character zero. */
  function Padding(n: nat): seq<Byte> {
    seq(4096 * n, i => '0' as int)
  }

  method Aggregate(cpts: seq<Checkpoint>, paddrs: seq<seq<nat>>, memorySize: nat)
    returns (image: seq<Byte>, moved: seq<seq<nat>>, pagePtr: nat, rangePages: nat)
    requires |paddrs| == |cpts|
    ensures pagePtr == PagesBefore(cpts, |cpts|) <= rangePages
    ensures image == Image(cpts, |cpts|) + Padding(rangePages - pagePtr)
    ensures |image| == 4096 * rangePages <==> AllComplete(cpts, |cpts|)
    ensures forall a :: |Image(cpts, |cpts|)| <= a < |image| ==> image[a] == '0' as int
    ensures 4096 * rangePages >= memorySize && (rangePages > pagePtr ==> 4096 * (rangePages - 1) < memorySize)
    ensures |moved| == |cpts|
    ensures forall i :: 0 <= i < |cpts| ==> moved[i] == AllMoved(cpts, i, paddrs[i])
  {
    image, moved, pagePtr := Merge(cpts, paddrs);
    rangePages, image := Pad(image, pagePtr, memorySize);
    PaddedSize(cpts, rangePages - pagePtr);
    RelocatedAt(cpts, paddrs, |cpts|);
  }

  /** The loop over the checkpoints. */
  method Merge(cpts: seq<Checkpoint>, paddrs: seq<seq<nat>>)
    returns (image: seq<Byte>, moved: seq<seq<nat>>, pagePtr: nat)
    requires |paddrs| == |cpts|
    ensures pagePtr == PagesBefore(cpts, |cpts|) && image == Image(cpts, |cpts|)
    ensures moved == Relocated(cpts, paddrs, |cpts|)
  {
    image, moved, pagePtr := [], [], 0;
    for i := 0 to |cpts|
      invariant pagePtr == PagesBefore(cpts, i) && image == Image(cpts, i)
      invariant moved == Relocated(cpts, paddrs, i)
    {
      var here;
      here, image, pagePtr := AddCheckpoint(cpts, i, paddrs[i], image, pagePtr);
      moved := moved + [here];
    }
  }

  method AddCheckpoint(cpts: seq<Checkpoint>, i: nat, paddrs: seq<nat>, image: seq<Byte>, pagePtr: nat)
    returns (moved: seq<nat>, image': seq<Byte>, pagePtr': nat)
    requires i < |cpts| && pagePtr == PagesBefore(cpts, i) && image == Image(cpts, i)
    ensures pagePtr' == PagesBefore(cpts, i + 1) && image' == Image(cpts, i + 1)
    ensures moved == AllMoved(cpts, i, paddrs)
  {
    moved := Relocate(cpts, i, paddrs, pagePtr);
    pagePtr' := pagePtr + cpts[i].pages;
    image' := CopyPages(image, cpts[i].memory, cpts[i].pages);
  }

  method Relocate(ghost cpts: seq<Checkpoint>, ghost i: nat, paddrs: seq<nat>, pagePtr: nat) returns (moved: seq<nat>)
    requires i < |cpts| && pagePtr == PagesBefore(cpts, i)
    ensures moved == AllMoved(cpts, i, paddrs)
  {
    moved := [];
    for k := 0 to |paddrs|
      invariant moved == AllMoved(cpts, i, paddrs[..k])
    {
      assert paddrs[..k + 1] == paddrs[..k] + [paddrs[k]];
      moved := moved + [paddrs[k] + 4096 * pagePtr];
    }
    assert paddrs[..|paddrs|] == paddrs;
  }

  method Pad(merged: seq<Byte>, pagePtr: nat, memorySize: nat) returns (pages: nat, image: seq<Byte>)
    ensures pages >= pagePtr && image == merged + Padding(pages - pagePtr)
    ensures 4096 * pages >= memorySize && (pages > pagePtr ==> 4096 * (pages - 1) < memorySize)
  {
    pages, image := pagePtr, merged;
    assert Padding(0) == [];
    while 4096 * pages < memorySize
      invariant pages >= pagePtr && image == merged + Padding(pages - pagePtr)
      invariant pages > pagePtr ==> 4096 * (pages - 1) < memorySize
      decreases memorySize - 4096 * pages
    {
      PaddingGrows(pages - pagePtr);
      image := image + Padding(1);
      pages := pages + 1;
    }
  }

  method CopyPages(image: seq<Byte>, memory: seq<Byte>, pages: nat) returns (after: seq<Byte>)
    ensures after == image + Pages(memory, pages)
  {
    after := image;
    for x := 0 to pages
      invariant after == image + Pages(memory, x)
    {
      after := after + Page(memory, x);
    }
  }

  lemma PaddingGrows(n: nat)
    ensures Padding(n) + Padding(1) == Padding(n + 1)
  {}

  /** The pages read are as much of the file as there is of them. */
  lemma {:induction false} PagesArePrefix(memory: seq<Byte>, n: nat)
    ensures Pages(memory, n) == if |memory| < 4096 * n then memory else memory[..4096 * n]
  {
    if n > 0 {
      PagesArePrefix(memory, n - 1);
    }
  }

  lemma PagesSize(c: Checkpoint)
    ensures |Pages(c.memory, c.pages)| <= 4096 * c.pages
    ensures |Pages(c.memory, c.pages)| == 4096 * c.pages <==> Complete(c)
  {
    PagesArePrefix(c.memory, c.pages);
  }

  lemma PagesAt(c: Checkpoint, paddr: nat)
    ensures paddr < |Pages(c.memory, c.pages)| <==> paddr < |c.memory| && paddr < 4096 * c.pages
    ensures paddr < |Pages(c.memory, c.pages)| ==> Pages(c.memory, c.pages)[paddr] == c.memory[paddr]
  {
    PagesArePrefix(c.memory, c.pages);
  }

  /** The image is as long as the page pointer says exactly when no memory file so far is short. */
  lemma {:induction false} ImageSize(cpts: seq<Checkpoint>, i: nat)
    requires i <= |cpts|
    ensures |Image(cpts, i)| <= 4096 * PagesBefore(cpts, i)
    ensures |Image(cpts, i)| == 4096 * PagesBefore(cpts, i) <==> AllComplete(cpts, i)
  {
    if i > 0 {
      ImageSize(cpts, i - 1);
      PagesSize(cpts[i - 1]);
      assert AllComplete(cpts, i) <==> AllComplete(cpts, i - 1) && Complete(cpts[i - 1]);
    }
  }

  lemma PaddedSize(cpts: seq<Checkpoint>, padding: nat)
    ensures |Image(cpts, |cpts|) + Padding(padding)| == 4096 * (PagesBefore(cpts, |cpts|) + padding)
            <==> AllComplete(cpts, |cpts|)
  {
    ImageSize(cpts, |cpts|);
  }

  lemma {:induction false} ImageGrows(cpts: seq<Checkpoint>, i: nat, j: nat)
    requires i <= j <= |cpts|
    ensures Image(cpts, i) <= Image(cpts, j) && PagesBefore(cpts, i) <= PagesBefore(cpts, j)
    decreases j
  {
    if i < j {
      ImageGrows(cpts, i, j - 1);
    }
  }

  /** The byte at an address of checkpoint i is in the padded image at the moved address. */
  predicate Lands(cpts: seq<Checkpoint>, padding: nat, i: nat, paddr: nat)
    requires i < |cpts| && paddr < |cpts[i].memory|
  {
    var image := Image(cpts, |cpts|) + Padding(padding);
    Moved(cpts, i, paddr) < |image| && image[Moved(cpts, i, paddr)] == cpts[i].memory[paddr]
  }

  /** The byte a checkpoint had at an address is found at the moved address if no file before it is short. */
  lemma BytesMove(cpts: seq<Checkpoint>, padding: nat, i: nat, paddr: nat)
    requires i < |cpts| && paddr < 4096 * cpts[i].pages && paddr < |cpts[i].memory| && AllComplete(cpts, i)
    ensures Lands(cpts, padding, i, paddr)
  {
    ImageSize(cpts, i);
    ImageAt(cpts, i, paddr);
    ImageGrows(cpts, i + 1, |cpts|);
  }

  lemma ImageAt(cpts: seq<Checkpoint>, i: nat, paddr: nat)
    requires i < |cpts| && paddr < 4096 * cpts[i].pages && paddr < |cpts[i].memory|
    ensures var image := Image(cpts, i + 1);
      |Image(cpts, i)| + paddr < |image| && image[|Image(cpts, i)| + paddr] == cpts[i].memory[paddr]
  {
    PagesAt(cpts[i], paddr);
  }

  // ------------------------------------------------------------------- short memory files

  ghost predicate SameSizes(cpts: seq<Checkpoint>, like: seq<Checkpoint>) {
    && |cpts| == |like|
    && forall j :: 0 <= j < |like| ==> cpts[j].pages == like[j].pages && |cpts[j].memory| == |like[j].memory|
  }

  /** All zero, with a single one at an address of checkpoint i. */
  function Spot(like: seq<Checkpoint>, i: nat, paddr: nat): seq<Checkpoint> {
    seq(|like|, j requires 0 <= j < |like| =>
      Checkpoint(like[j].pages, seq(|like[j].memory|, a => if j == i && a == paddr then 1 else 0)))
  }

  lemma {:induction false} SpotIsAlone(like: seq<Checkpoint>, i: nat, paddr: nat, k: nat, q: nat)
    requires i < |like| && k <= |like|
    requires q < |Image(Spot(like, i, paddr), k)| && Image(Spot(like, i, paddr), k)[q] == 1
    ensures q == |Image(Spot(like, i, paddr), i)| + paddr
  {
    var cpts := Spot(like, i, paddr);
    var before := |Image(cpts, k - 1)|;
    if q < before {
      SpotIsAlone(like, i, paddr, k - 1, q);
    } else {
      PagesAt(cpts[k - 1], q - before);
    }
  }

  lemma {:induction false} SamePages(cpts: seq<Checkpoint>, like: seq<Checkpoint>, i: nat)
    requires SameSizes(cpts, like) && i <= |like|
    ensures PagesBefore(cpts, i) == PagesBefore(like, i) && (AllComplete(cpts, i) <==> AllComplete(like, i))
  {
    if i > 0 {
      SamePages(cpts, like, i - 1);
    }
  }

  lemma SpotIsMissed(like: seq<Checkpoint>, padding: nat, i: nat, paddr: nat)
    requires i < |like| && paddr < |like[i].memory| && !AllComplete(like, i)
    ensures SameSizes(Spot(like, i, paddr), like) && !Lands(Spot(like, i, paddr), padding, i, paddr)
  {
    var cpts := Spot(like, i, paddr);
    SamePages(cpts, like, i);
    ImageSize(cpts, i);
    var image, q := Image(cpts, |cpts|), Moved(cpts, i, paddr);
    if q < |image| && image[q] == 1 {
      SpotIsAlone(like, i, paddr, |like|, q);
    }
  }

  /**
   An address of checkpoint i is moved rightly whatever the files contain exactly
   when no memory file before the i-th is shorter than its page count.
   */
  lemma RelocationExact(like: seq<Checkpoint>, padding: nat, i: nat, paddr: nat)
    requires i < |like| && paddr < 4096 * like[i].pages && paddr < |like[i].memory|
    ensures (forall cpts :: SameSizes(cpts, like) ==> Lands(cpts, padding, i, paddr)) <==> AllComplete(like, i)
  {
    if AllComplete(like, i) {
      forall cpts | SameSizes(cpts, like) ensures Lands(cpts, padding, i, paddr) {
        SamePages(cpts, like, i);
        BytesMove(cpts, padding, i, paddr);
      }
    } else {
      SpotIsMissed(like, padding, i, paddr);
    }
  }

  /** Addresses of different checkpoints never meet. */
  lemma FramesDoNotOverlap(cpts: seq<Checkpoint>, i: nat, p: nat, j: nat, q: nat)
    requires i < j < |cpts| && p < 4096 * cpts[i].pages
    ensures Moved(cpts, i, p) < Moved(cpts, j, q)
  {
    ImageGrows(cpts, i + 1, j);
  }

  /** A memory file shorter than its page count shifts everything behind it. */
  lemma ShortFileShifts()
    ensures var cpts := [Checkpoint(1, []), Checkpoint(1, seq(4096, k => 7))];
      !Complete(cpts[0]) && |Image(cpts, 2)| <= Moved(cpts, 1, 0)
  {
    var cpts := [Checkpoint(1, []), Checkpoint(1, seq(4096, k => 7))];
    assert Pages(cpts[0].memory, 1) == [];
    assert |Pages(cpts[1].memory, 1)| == 4096;
    assert PagesBefore(cpts, 1) == 1;
    assert |Image(cpts, 1)| == 0;
  }
}
