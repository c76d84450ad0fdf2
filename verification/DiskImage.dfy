/**
  The disk image generator: partitions are allocated one behind the other, each start but the
  first rounded up to a mebibyte, and every partition image is copied in blocks of 4 KiB.
 */
module DiskImage {
  type byte = bv8

  datatype Platform = Sunxi | Rockchip | Broadcom

  /** The 256th sector, or the 64th. */
  function PartStart(platform: Platform): nat {
    if platform == Rockchip then 64 * 512 else 256 * 512
  }

  /** A partition by its number, name, and first and last sector. */
  datatype Partition = Partition(number: nat, name: string, first: nat, last: int)

  datatype Image = Image(name: string, content: seq<byte>)

  datatype State = State(ptr: nat, pn: nat, table: seq<Partition>, disk: nat -> byte)

  /** What dd copies: as many whole blocks as the file has. */
  function CopiedLength(size: nat): nat {
    size / 4096 * 4096
  }

  function Overwrite(disk: nat -> byte, at: nat, content: seq<byte>, length: nat): nat -> byte
    requires length <= |content|
  {
    (k: nat) => if at <= k < at + length then content[k - at] else disk(k)
  }

  function RoundUp(end: nat): (r: nat)
    ensures r % 1048576 == 0 && end <= r < end + 1048576
  {
    (end + 1048576 - 1) / 1048576 * 1048576
  }

  /** The image being generated, and the two globals of the script. */
  class Generator {
    const platform: Platform
    var ptr: nat
    var pn: nat
    var table: seq<Partition>
    var disk: nat -> byte

    ghost function View(): State
      reads this
    {
      State(ptr, pn, table, disk)
    }

    constructor (platform: Platform, disk: nat -> byte)
      ensures this.platform == platform && View() == State(PartStart(platform), 1, [], disk)
    {
      this.platform := platform;
      ptr, pn, table := PartStart(platform), 1, [];
      this.disk := disk;
    }

    /** add_part. The script ends when sgdisk refuses the partition. */
    method AddPart(image: Image, granted: bool) returns (goesOn: bool)
      modifies this
      ensures goesOn <==> granted
      ensures View() == if granted then Added(old(View()), image) else old(View())
    {
      var size := |image.content|;
      var first, last := ptr / 512, (ptr + size - 1) / 512;
      if !granted {
        return false;
      }
      table := table + [Partition(pn, image.name, first, last)];
      var count, seek := size / 4096, ptr / 4096;
      disk := Overwrite(disk, seek * 4096, image.content, count * 4096);
      ptr := (ptr + size + 1048576 - 1) / 1048576 * 1048576;
      pn := pn + 1;
      return true;
    }
  }

  // ----- The whole layout -----

  function Added(s: State, image: Image): State {
    var size := |image.content|;
    State(
      RoundUp(s.ptr + size), s.pn + 1,
      s.table + [Partition(s.pn, image.name, s.ptr / 512, (s.ptr + size - 1) / 512)],
      Overwrite(s.disk, s.ptr / 4096 * 4096, image.content, CopiedLength(size)))
  }

  /** The state after the first n images. */
  function Layout(platform: Platform, disk: nat -> byte, images: seq<Image>, n: nat): State
    requires n <= |images|
  {
    if n == 0 then State(PartStart(platform), 1, [], disk)
    else Added(Layout(platform, disk, images, n - 1), images[n - 1])
  }

  /** The byte at which image i starts. */
  function Start(platform: Platform, images: seq<Image>, i: nat): nat
    requires i <= |images|
  {
    if i == 0 then PartStart(platform) else RoundUp(Start(platform, images, i - 1) + |images[i - 1].content|)
  }

  function End(platform: Platform, images: seq<Image>, i: nat): nat
    requires i < |images|
  {
    Start(platform, images, i) + |images[i].content|
  }

  lemma {:induction false} Aligned(platform: Platform, images: seq<Image>, i: nat)
    requires i <= |images|
    ensures Start(platform, images, i) % 4096 == 0 && Start(platform, images, i) % 512 == 0
    ensures i > 0 ==>
              && Start(platform, images, i) % 1048576 == 0
              && 0 <= Start(platform, images, i) - End(platform, images, i - 1) < 1048576
  {
    hide RoundUp;
    MebibyteIsAligned(Start(platform, images, i));
  }

  lemma MebibyteIsAligned(n: nat)
    ensures n % 1048576 == 0 ==> n % 4096 == 0
    ensures n % 4096 == 0 ==> n % 512 == 0
  {
    if n % 1048576 == 0 {
      Multiple4096(n / 1048576 * 256);
    }
    if n % 4096 == 0 {
      Multiple512(n / 4096 * 8);
    }
  }

  lemma Multiple4096(q: nat)
    ensures q * 4096 % 4096 == 0
  {}

  lemma Multiple512(q: nat)
    ensures q * 512 % 512 == 0
  {}

  lemma {:induction false} StartsAscend(platform: Platform, images: seq<Image>, i: nat, j: nat)
    requires i < j <= |images|
    ensures End(platform, images, i) <= Start(platform, images, j)
    decreases j - i
  {
    hide RoundUp;
    if i < j - 1 {
      StartsAscend(platform, images, i, j - 1);
    }
  }

  lemma {:induction false} GlobalsOf(platform: Platform, disk: nat -> byte, images: seq<Image>, n: nat)
    requires n <= |images|
    ensures var s := Layout(platform, disk, images, n);
            s.ptr == Start(platform, images, n) && s.pn == n + 1 && |s.table| == n
  {
    hide RoundUp, PartStart, Overwrite, CopiedLength;
    if n > 0 {
      GlobalsOf(platform, disk, images, n - 1);
    }
  }

  /** The table after n images: one partition each, numbered from 1. */
  lemma {:induction false} TableOf(platform: Platform, disk: nat -> byte, images: seq<Image>, n: nat, i: nat)
    requires i < n <= |images|
    ensures var t := Layout(platform, disk, images, n).table;
            && |t| == n
            && t[i] == Partition(i + 1, images[i].name, Start(platform, images, i) / 512,
                                 (End(platform, images, i) - 1) / 512)
  {
    hide RoundUp, PartStart, Overwrite, CopiedLength;
    GlobalsOf(platform, disk, images, n - 1);
    if i < n - 1 {
      TableOf(platform, disk, images, n - 1, i);
    }
  }

  /**
    The allocated sector ranges are ascending and disjoint, each starts at its image and holds
    it, and each start but the first is on a mebibyte and wastes less than one.
   */
  lemma {:induction false} PartitionsAreDisjoint(platform: Platform, disk: nat -> byte, images: seq<Image>,
                                                       i: nat, j: nat)
    requires i < j < |images| && images[i].content != [] && images[j].content != []
    ensures var t := Layout(platform, disk, images, |images|).table;
            && |t| == |images|
            && t[i].first <= t[i].last < t[j].first <= t[j].last
            && t[i].first * 512 == Start(platform, images, i) && (t[i].last + 1) * 512 >= End(platform, images, i)
            && t[j].first * 512 == Start(platform, images, j) && (t[j].last + 1) * 512 >= End(platform, images, j)
            && t[j].first % 2048 == 0
            && (j == i + 1 ==> t[j].first * 512 < End(platform, images, i) + 1048576)
  {
    TableOf(platform, disk, images, |images|, i);
    TableOf(platform, disk, images, |images|, j);
    StartsAscend(platform, images, i, j);
    Aligned(platform, images, i);
    Aligned(platform, images, j);
    hide Start, Layout;
    SectorsOf(Start(platform, images, i), |images[i].content|);
    SectorsOf(Start(platform, images, j), |images[j].content|);
    SectorsApart(End(platform, images, i), Start(platform, images, j));
  }

  lemma SectorsOf(start: nat, size: nat)
    requires start % 512 == 0 && size > 0
    ensures start / 512 * 512 == start && start / 512 <= (start + size - 1) / 512
    ensures start + size <= ((start + size - 1) / 512 + 1) * 512
  {}

  lemma SectorsApart(end: nat, next: nat)
    requires next % 1048576 == 0 && 0 < end <= next
    ensures (end - 1) / 512 < next / 512 && next / 512 % 2048 == 0
  {
    var q := next / 1048576;
    assert next == q * 2048 * 512;
    assert next / 512 == q * 2048;
  }

  /** Byte k of the disk is one that the copy of image i writes. */
  predicate Covers(platform: Platform, images: seq<Image>, i: nat, k: nat)
    requires i < |images|
  {
    Start(platform, images, i) <= k < Start(platform, images, i) + CopiedLength(|images[i].content|)
  }

  /** Every copy starts exactly at its partition and stays inside it, and no two overlap. */
  lemma {:induction false} CopiesStayInside(platform: Platform, images: seq<Image>, i: nat, j: nat, k: nat)
    requires i < |images| && j < |images| && Covers(platform, images, i, k)
    ensures Start(platform, images, i) <= k < End(platform, images, i)
    ensures i != j ==> !(Start(platform, images, j) <= k < End(platform, images, j))
  {
    hide Start;
    if i < j {
      StartsAscend(platform, images, i, j);
    } else if j < i {
      StartsAscend(platform, images, j, i);
    }
  }

  /** What adding image n does to byte k. */
  lemma {:induction false} DiskStep(platform: Platform, disk: nat -> byte, images: seq<Image>, n: nat, k: nat)
    requires n < |images|
    ensures Layout(platform, disk, images, n + 1).disk(k) ==
            if Covers(platform, images, n, k) then images[n].content[k - Start(platform, images, n)]
            else Layout(platform, disk, images, n).disk(k)
  {
    GlobalsOf(platform, disk, images, n);
    Aligned(platform, images, n);
    hide Start, RoundUp;
  }

  lemma {:induction false} CoveredHolds(platform: Platform, disk: nat -> byte, images: seq<Image>,
                                              n: nat, i: nat, k: nat)
    requires i < n <= |images| && Covers(platform, images, i, k)
    ensures Layout(platform, disk, images, n).disk(k) == images[i].content[k - Start(platform, images, i)]
  {
    hide Start, Layout;
    DiskStep(platform, disk, images, n - 1, k);
    if i < n - 1 {
      CopiesStayInside(platform, images, i, n - 1, k);
      CoveredHolds(platform, disk, images, n - 1, i, k);
    }
  }

  lemma {:induction false} UncoveredKeeps(platform: Platform, disk: nat -> byte, images: seq<Image>, n: nat, k: nat)
    requires n <= |images| && forall i | 0 <= i < n :: !Covers(platform, images, i, k)
    ensures Layout(platform, disk, images, n).disk(k) == disk(k)
  {
    hide Covers;
    if n > 0 {
      DiskStep(platform, disk, images, n - 1, k);
      UncoveredKeeps(platform, disk, images, n - 1, k);
    }
  }

  /**
    In the finished image every partition holds its file up to the last whole block, and the
    rest of the file, its last size mod 4096 bytes, is missing: those bytes are what they were.
   */
  lemma {:induction false} OnlyTheTailIsMissing(platform: Platform, disk: nat -> byte, images: seq<Image>,
                                                      i: nat, k: nat)
    requires i < |images| && k < |images[i].content|
    ensures var at := Start(platform, images, i) + k;
            var whole := |images[i].content| - |images[i].content| % 4096;
            Layout(platform, disk, images, |images|).disk(at) ==
            if k < whole then images[i].content[k] else disk(at)
  {
    hide Start, Layout;
    var at := Start(platform, images, i) + k;
    if Covers(platform, images, i, at) {
      CoveredHolds(platform, disk, images, |images|, i, at);
    } else {
      forall j | 0 <= j < |images| ensures !Covers(platform, images, j, at) {
        if Covers(platform, images, j, at) && j != i {
          CopiesStayInside(platform, images, j, i, at);
        }
      }
      UncoveredKeeps(platform, disk, images, |images|, at);
    }
  }

  /** The finished image holds a file exactly when the disk already held the part that is not copied. */
  lemma {:induction false} FileIsHeldIff(platform: Platform, disk: nat -> byte, images: seq<Image>, i: nat)
    requires i < |images|
    ensures var start, content := Start(platform, images, i), images[i].content;
            (forall k | 0 <= k < |content| :: Layout(platform, disk, images, |images|).disk(start + k) == content[k])
            <==> (forall k | |content| - |content| % 4096 <= k < |content| :: disk(start + k) == content[k])
  {
    hide *;
    var content := images[i].content;
    forall k | 0 <= k < |content|
      ensures Layout(platform, disk, images, |images|).disk(Start(platform, images, i) + k) ==
              if k < |content| - |content| % 4096 then content[k] else disk(Start(platform, images, i) + k)
    {
      OnlyTheTailIsMissing(platform, disk, images, i, k);
    }
  }

  /** A file of whole blocks is always held. */
  lemma {:induction false} WholeBlocksAreHeld(platform: Platform, disk: nat -> byte, images: seq<Image>, i: nat)
    requires i < |images| && |images[i].content| % 4096 == 0
    ensures var start, content := Start(platform, images, i), images[i].content;
            forall k | 0 <= k < |content| :: Layout(platform, disk, images, |images|).disk(start + k) == content[k]
  {
    hide *;
    FileIsHeldIff(platform, disk, images, i);
  }

  /** The only byte of a one-byte image is not copied. */
  lemma {:induction false} OneByteIsLost(platform: Platform)
    ensures var images := [Image("env.img", [1])];
            Layout(platform, (k: nat) => 0, images, 1).disk(Start(platform, images, 0)) == 0
  {
    OnlyTheTailIsMissing(platform, (k: nat) => 0, [Image("env.img", [1])], 0, 0);
  }

  /** The first partition starts at sector 64 on Rockchip boards and at sector 256 on all others. */
  lemma {:induction false} FirstSector(platform: Platform, disk: nat -> byte, images: seq<Image>)
    requires images != []
    ensures var t := Layout(platform, disk, images, |images|).table;
            t != [] && t[0].first == if platform == Rockchip then 64 else 256
  {
    TableOf(platform, disk, images, |images|, 0);
    assert Start(platform, images, 0) == PartStart(platform);
  }
}
