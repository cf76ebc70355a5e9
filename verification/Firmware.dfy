/** Firmware images: page geometry (elan_get_fwinfo), the size and signature checks, the
    flashing loop with its 16-bit checksum, and how each transport frames a page. */
module Firmware {
  import opened Policy
  import opened Bits

  type u16 = x: int | 0 <= x < 0x1_0000

  const U16 := 0x1_0000
  const FW_PAGE_SIZE := 64
  const SIGNATURE_SIZE := 6
  const IAP_START_ADDR := 0x0083
  const SIGNATURE: seq<byte> := [0xAA, 0x55, 0xCC, 0x33, 0xFF, 0xFF]

  const ENXIO := -6
  const EINVAL := -22
  const EIO := -5
  const EBADF := -9

  // ---------- page geometry ----------

  /** Pages of 64 bytes in the firmware of a controller type; 0 when the type is unknown. */
  function PagesOf64(icType: nat): nat {
    if icType in {0x00, 0x06, 0x08} then 512
    else if icType in {0x03, 0x07, 0x09, 0x0A, 0x0B, 0x0C} then 768
    else if icType == 0x0D then 896
    else if icType == 0x0E then 640
    else if icType == 0x10 then 1024
    else if icType == 0x11 then 1280
    else if icType == 0x13 then 2048
    else if icType == 0x14 || icType == 0x15 then 1024
    else if icType == 0x19 then 2032
    else 0
  }

  function PageSize(icType: nat, iapVersion: nat): u16 {
    if (icType == 0x14 || icType == 0x15) && iapVersion >= 2 then 512
    else if icType >= 0x0D && iapVersion >= 1 then 128
    else FW_PAGE_SIZE
  }

  /** The firmware in KiB, and which controllers take larger pages, by number. */
  lemma FirmwareKiB(icType: nat, iapVersion: nat)
    ensures PagesOf64(icType) * 64 == 1024 * (
      if icType in {0, 6, 8} then 32 else if icType == 14 then 40
      else if icType in {3, 7, 9, 10, 11, 12} then 48 else if icType == 13 then 56
      else if icType in {16, 20, 21} then 64 else if icType == 17 then 80
      else if icType == 25 then 127 else if icType == 19 then 128 else 0)
    ensures PageSize(icType, iapVersion) in {64, 128, 512}
    ensures PageSize(icType, iapVersion) == 512 <==> icType in {20, 21} && iapVersion > 1
    ensures PageSize(icType, iapVersion) == 64 <==> icType <= 12 || iapVersion == 0
  {
  }

  datatype Geometry = Geometry(status: int, pages: u16, signature: nat, pageSize: u16)

  method GetFwInfo(icType: nat, iapVersion: nat) returns (g: Geometry)
    ensures g.status == if PagesOf64(icType) == 0 then ENXIO else 0
    ensures g.status != 0 ==> g == Geometry(ENXIO, 0, 0, 0)
    ensures g.status == 0 ==> WellFormed(g) && g.pages * g.pageSize == PagesOf64(icType) * FW_PAGE_SIZE
    ensures g.status == 0 ==> g.pageSize == PageSize(icType, iapVersion)
  {
    var pages: u16 := 0;
    match icType {
      case 0x00 | 0x06 | 0x08 => pages := 512;
      case 0x03 | 0x07 | 0x09 | 0x0A | 0x0B | 0x0C => pages := 768;
      case 0x0D => pages := 896;
      case 0x0E => pages := 640;
      case 0x10 => pages := 1024;
      case 0x11 => pages := 1280;
      case 0x13 => pages := 2048;
      case 0x14 | 0x15 => pages := 1024;
      case 0x19 => pages := 2032;
      case _ => return Geometry(ENXIO, 0, 0, 0);
    }
    var signature := pages * FW_PAGE_SIZE - SIGNATURE_SIZE;
    var pageSize: u16 := FW_PAGE_SIZE;
    if (icType == 0x14 || icType == 0x15) && iapVersion >= 2 {
      pages, pageSize := pages / 8, 512;
    } else if icType >= 0x0D && iapVersion >= 1 {
      pages, pageSize := pages / 2, 128;
    }
    g := Geometry(0, pages, signature, pageSize);
  }

  /** Whole pages end with the signature, and the page size is a transport's. */
  predicate WellFormed(g: Geometry) {
    && g.status == 0 && g.pageSize in {64, 128, 512} && 512 * 64 <= g.pages * g.pageSize
    && g.signature + SIGNATURE_SIZE == g.pages * g.pageSize
  }

  // ---------- checksums ----------

  function LittleEndian(low: byte, high: byte): u16 {
    high * 256 + low
  }

  /** u16 addition */
  function AddU16(a: u16, b: u16): u16 {
    (a + b) % U16
  }

  /** The sum of the little-endian words of an even number of bytes. */
  function WordTotal(data: seq<byte>): nat
    requires |data| % 2 == 0
  {
    if data == [] then 0
    else WordTotal(data[..|data| - 2]) + LittleEndian(data[|data| - 2], data[|data| - 1])
  }

  function WordSum(data: seq<byte>): u16
    requires |data| % 2 == 0
  {
    WordTotal(data) % U16
  }

  lemma {:induction false} WordTotalAppend(a: seq<byte>, b: seq<byte>)
    requires |a| % 2 == 0 && |b| % 2 == 0
    ensures |a + b| % 2 == 0 && WordTotal(a + b) == WordTotal(a) + WordTotal(b)
    decreases |b|
  {
    if b == [] {
      assert a + b == a;
    } else {
      assert (a + b)[..|a + b| - 2] == a + b[..|b| - 2];
      WordTotalAppend(a, b[..|b| - 2]);
    }
  }

  /** The sum of the first n little-endian words, each written out. */
  function PairSum(data: seq<byte>, n: nat): nat
    requires 2 * n <= |data|
  {
    if n == 0 then 0 else
    var low: int, high: int := data[2 * n - 2], data[2 * n - 1];
    PairSum(data, n - 1) + low + 256 * high
  }

  lemma {:induction false} PairSumPrefix(a: seq<byte>, b: seq<byte>, n: nat)
    requires 2 * n <= |a| && 2 * n <= |b| && a[..2 * n] == b[..2 * n]
    ensures PairSum(a, n) == PairSum(b, n)
  {
    if n > 0 {
      assert a[2 * n - 2] == a[..2 * n][2 * n - 2] && a[2 * n - 1] == a[..2 * n][2 * n - 1];
      assert a[..2 * (n - 1)] == a[..2 * n][..2 * (n - 1)] && b[..2 * (n - 1)] == b[..2 * n][..2 * (n - 1)];
      PairSumPrefix(a, b, n - 1);
    }
  }

  lemma {:induction false} WordTotalIsPairSum(data: seq<byte>)
    requires |data| % 2 == 0
    ensures WordTotal(data) == PairSum(data, |data| / 2)
    decreases |data|
  {
    if data != [] {
      var front := data[..|data| - 2];
      WordTotalIsPairSum(front);
      PairSumPrefix(front, data, |front| / 2);
    }
  }

  lemma ModAdd(x: nat, y: nat)
    ensures (x % U16 + y) % U16 == (x + y) % U16
    ensures (x % U16 + y % U16) % U16 == (x + y) % U16
  {}

  lemma WordSumAppend(a: seq<byte>, b: seq<byte>)
    requires |a| % 2 == 0 && |b| % 2 == 0
    ensures |a + b| % 2 == 0 && WordSum(a + b) == AddU16(WordSum(a), WordSum(b))
  {
    WordTotalAppend(a, b);
    ModAdd(WordTotal(a), WordTotal(b));
  }

  // ---------- flashing ----------

  /** The controller's flash as the transport fills it: the pages it acknowledged, in order. */
  class Flash {
    const answers: nat -> int
    var calls: nat
    var written: seq<(nat, seq<byte>)>

    constructor (answers: nat -> int)
      ensures this.answers == answers && written == [] && calls == 0
    {
      this.answers := answers;
      calls, written := 0, [];
    }

    /** ops->write_fw_block: a page is in flash exactly when the transport answers 0. */
    method WriteBlock(page: seq<byte>, checksum: u16, idx: nat) returns (status: int)
      requires |page| % 2 == 0 && checksum == WordSum(page)
      modifies this
      ensures status == answers(old(calls)) && calls == old(calls) + 1
      ensures written == if status == 0 then old(written) + [(idx, page)] else old(written)
    {
      status := answers(calls);
      calls := calls + 1;
      if status == 0 { written := written + [(idx, page)]; }
    }
  }

  /** One of the next `tries` answers is 0. */
  ghost predicate Acked(answers: nat -> int, from: nat, tries: nat) {
    exists i :: from <= i < from + tries && answers(i) == 0
  }

  /** The call after the last try. */
  function AfterTries(answers: nat -> int, from: nat, tries: nat): (next: nat)
    requires tries >= 1
    ensures from < next <= from + tries
    decreases tries, from
  {
    if answers(from) == 0 || tries == 1 then from + 1 else AfterTries(answers, from + 1, tries - 1)
  }

  lemma {:induction false} AfterTriesIs(answers: nat -> int, from: nat, tries: nat, next: nat)
    requires from < next <= from + tries && (answers(next - 1) == 0 || next == from + tries)
    requires forall i :: from <= i < next - 1 ==> answers(i) != 0
    ensures AfterTries(answers, from, tries) == next
    ensures answers(next - 1) == 0 <==> Acked(answers, from, tries)
    decreases tries
  {
    if next > from + 1 { AfterTriesIs(answers, from + 1, tries - 1, next); }
  }

  /** elan_write_fw_block: it tries until the first 0, at most three times; the page is
      acknowledged once if one of the answers is 0, and not at all otherwise. */
  method WriteWithRetry(flash: Flash, page: seq<byte>, checksum: u16, idx: nat) returns (status: int)
    requires |page| % 2 == 0 && checksum == WordSum(page)
    modifies flash
    ensures flash.calls == AfterTries(flash.answers, old(flash.calls), RETRY_COUNT)
    ensures status == flash.answers(flash.calls - 1)
    ensures status == 0 <==> Acked(flash.answers, old(flash.calls), RETRY_COUNT)
    ensures flash.written == if status == 0 then old(flash.written) + [(idx, page)] else old(flash.written)
  {
    var retry := RETRY_COUNT;
    status := flash.WriteBlock(page, checksum, idx);
    while status != 0 && retry > 1
      invariant 1 <= retry <= RETRY_COUNT && flash.calls == old(flash.calls) + RETRY_COUNT - retry + 1
      invariant status == flash.answers(flash.calls - 1)
      invariant forall i :: old(flash.calls) <= i < flash.calls - 1 ==> flash.answers(i) != 0
      invariant flash.written == if status == 0 then old(flash.written) + [(idx, page)] else old(flash.written)
      decreases retry
    {
      retry := retry - 1;
      status := flash.WriteBlock(page, checksum, idx);
    }
    AfterTriesIs(flash.answers, old(flash.calls), RETRY_COUNT, flash.calls);
  }

  /** The call with which the n-th page starts. */
  function PageStart(answers: nat -> int, from: nat, n: nat): nat {
    if n == 0 then from else AfterTries(answers, PageStart(answers, from, n - 1), RETRY_COUNT)
  }

  /** The transport acknowledges each of n pages within its tries. */
  ghost predicate AllAcked(answers: nat -> int, from: nat, n: nat) {
    forall k :: 0 <= k < n ==> Acked(answers, PageStart(answers, from, k), RETRY_COUNT)
  }

  /** Where page `i` starts. */
  function Offset(i: nat, pageSize: nat): nat {
    if i == 0 then 0 else Offset(i - 1, pageSize) + pageSize
  }

  lemma {:induction false} OffsetIs(i: nat, pageSize: nat)
    ensures Offset(i, pageSize) == i * pageSize
  {
    if i > 0 { OffsetIs(i - 1, pageSize); }
  }

  lemma {:induction false} OffsetGrows(i: nat, j: nat, pageSize: nat)
    requires i <= j
    ensures Offset(i, pageSize) <= Offset(j, pageSize)
    decreases j
  {
    if i < j { OffsetGrows(i, j - 1, pageSize); }
  }

  lemma WordTotalNext(page: seq<byte>, j: nat)
    requires j % 2 == 0 && j + 2 <= |page|
    ensures WordTotal(page[..j + 2]) == WordTotal(page[..j]) + LittleEndian(page[j], page[j + 1])
  {
    var more := page[..j + 2];
    assert more[..|more| - 2] == page[..j];
    assert more[|more| - 2] == page[j] && more[|more| - 1] == page[j + 1];
  }

  lemma AddToTotal(total: nat, word: u16)
    ensures AddU16(total % U16, word) == (total + word) % U16
  {
    ModAdd(total, word);
  }

  lemma WordSumNext(page: seq<byte>, j: nat)
    requires j % 2 == 0 && j + 2 <= |page|
    ensures WordSum(page[..j + 2]) == AddU16(WordSum(page[..j]), LittleEndian(page[j], page[j + 1]))
  {
    WordTotalNext(page, j);
    AddToTotal(WordTotal(page[..j]), LittleEndian(page[j], page[j + 1]));
  }

  method PageChecksum(page: seq<byte>) returns (checksum: u16)
    requires |page| % 2 == 0
    ensures checksum == WordSum(page) == PairSum(page, |page| / 2) % 0x1_0000
  {
    checksum := 0;
    var j := 0;
    while j < |page|
      invariant 0 <= j <= |page| && j % 2 == 0
      invariant checksum == WordSum(page[..j])
    {
      WordSumNext(page, j);
      checksum := AddU16(checksum, LittleEndian(page[j], page[j + 1]));
      j := j + 2;
    }
    assert page[..|page|] == page;
    WordTotalIsPairSum(page);
  }

  /** The bytes of the acknowledged pages, in the order they went out. */
  function Sent(written: seq<(nat, seq<byte>)>): seq<byte> {
    if written == [] then [] else Sent(written[..|written| - 1]) + written[|written| - 1].1
  }

  /** Pages `from` to `upto` of an image, each under its own index. */
  function PagesOf(image: seq<byte>, pageSize: nat, from: nat, upto: nat): seq<(nat, seq<byte>)>
    requires from < upto ==> Offset(upto, pageSize) <= |image|
  {
    if upto <= from then [] else
    PagesOf(image, pageSize, from, upto - 1) + [(upto - 1, image[Offset(upto - 1, pageSize)..Offset(upto, pageSize)])]
  }

  /** They cover their range of the image without gap or overlap. */
  lemma {:induction false} PagesAreContiguous(image: seq<byte>, pageSize: nat, from: nat, upto: nat)
    requires from <= upto && Offset(upto, pageSize) <= |image|
    ensures Offset(from, pageSize) <= Offset(upto, pageSize)
    ensures Sent(PagesOf(image, pageSize, from, upto)) == image[Offset(from, pageSize)..Offset(upto, pageSize)]
    decreases upto
  {
    if from < upto {
      PagesAreContiguous(image, pageSize, from, upto - 1);
      var before := PagesOf(image, pageSize, from, upto - 1);
      var all := PagesOf(image, pageSize, from, upto);
      assert all[..|all| - 1] == before;
    }
  }

  /** Page k of them goes out under its own number, with its own bytes. */
  lemma {:induction false} PagesAreNumbered(image: seq<byte>, pageSize: nat, from: nat, upto: nat, k: nat)
    requires from + k < upto && Offset(upto, pageSize) <= |image|
    ensures |PagesOf(image, pageSize, from, upto)| == upto - from
    ensures (from + k) * pageSize <= (from + k + 1) * pageSize <= |image|
    ensures PagesOf(image, pageSize, from, upto)[k]
         == (from + k, image[(from + k) * pageSize..(from + k + 1) * pageSize])
    decreases upto
  {
    OffsetIs(from + k, pageSize);
    OffsetIs(from + k + 1, pageSize);
    OffsetGrows(from + k, from + k + 1, pageSize);
    OffsetGrows(from + k + 1, upto, pageSize);
    if from + k + 1 < upto {
      PagesAreNumbered(image, pageSize, from, upto - 1, k);
    } else {
      PagesCount(image, pageSize, from, upto - 1);
    }
  }

  lemma {:induction false} PagesCount(image: seq<byte>, pageSize: nat, from: nat, upto: nat)
    requires from <= upto && Offset(upto, pageSize) <= |image|
    ensures |PagesOf(image, pageSize, from, upto)| == upto - from
    decreases upto
  {
    if from < upto {
      PagesCount(image, pageSize, from, upto - 1);
    }
  }

  /** Where the first page to flash starts: the boot pages in front are kept. */
  function BootPages(image: seq<byte>, pageSize: nat): nat
    requires 2 * IAP_START_ADDR + 2 <= |image| && pageSize > 0
  {
    LittleEndian(image[2 * IAP_START_ADDR], image[2 * IAP_START_ADDR + 1]) * 2 / pageSize
  }

  /** k pages are acknowledged, and call `next` is the first of the page after them. */
  ghost predicate Reached(answers: nat -> int, from: nat, k: nat, next: nat) {
    from <= next == PageStart(answers, from, k) && AllAcked(answers, from, k)
  }

  lemma PagesGoOn(answers: nat -> int, from: nat, k: nat, n: nat)
    requires AllAcked(answers, from, k) && k < n
    ensures Acked(answers, PageStart(answers, from, k), RETRY_COUNT)
        ==> Reached(answers, from, k + 1, AfterTries(answers, PageStart(answers, from, k), RETRY_COUNT))
    ensures !Acked(answers, PageStart(answers, from, k), RETRY_COUNT) ==> !AllAcked(answers, from, n)
  {
    PageStartGrows(answers, from, k + 1);
  }

  lemma {:induction false} PageStartGrows(answers: nat -> int, from: nat, k: nat)
    ensures from <= PageStart(answers, from, k)
  {
    if k > 0 { PageStartGrows(answers, from, k - 1); }
  }

  /** How many pages the loop sends. */
  function PageCount(image: seq<byte>, g: Geometry): nat
    requires WellFormed(g) && g.signature + SIGNATURE_SIZE <= |image|
  {
    var boot := BootPages(image, g.pageSize);
    if boot <= g.pages then g.pages - boot else 0
  }

  /** The part of the image that goes to flash: from the first page after the boot pages to the
      end of the signature; nothing when the boot pages reach past it. */
  function Payload(image: seq<byte>, g: Geometry): seq<byte>
    requires WellFormed(g) && g.signature + SIGNATURE_SIZE <= |image|
  {
    var start := BootPages(image, g.pageSize) * g.pageSize;
    var end := g.signature + SIGNATURE_SIZE;
    if start <= end then image[start..end] else []
  }

  /** The pages before `i` are in flash and summed. */
  ghost predicate FlashedUpTo(image: seq<byte>, pageSize: nat, boot: nat, i: nat,
                              written: seq<(nat, seq<byte>)>, sum: u16)
  {
    && (boot < i ==> Offset(i, pageSize) <= |image|)
    && written == PagesOf(image, pageSize, boot, i)
    && |Sent(written)| % 2 == 0 && sum == WordSum(Sent(written))
  }

  lemma NextPage(image: seq<byte>, pageSize: nat, boot: nat, i: nat, written: seq<(nat, seq<byte>)>, sum: u16)
    requires boot <= i && pageSize % 2 == 0 && Offset(i + 1, pageSize) <= |image|
    requires FlashedUpTo(image, pageSize, boot, i, written, sum)
    ensures var page := image[Offset(i, pageSize)..Offset(i + 1, pageSize)];
      && |page| % 2 == 0
      && FlashedUpTo(image, pageSize, boot, i + 1, written + [(i, page)], AddU16(sum, WordSum(page)))
  {
    var page := image[Offset(i, pageSize)..Offset(i + 1, pageSize)];
    SentGrows(written, i, page);
  }

  /** One turn of the page loop. */
  method FlashPage(flash: Flash, image: seq<byte>, pageSize: nat, ghost boot: nat, i: nat, sum: u16,
                   ghost from: nat, ghost count: nat)
    returns (status: int, total: u16)
    requires boot <= i < boot + count && pageSize % 2 == 0 && Offset(i + 1, pageSize) <= |image|
    requires FlashedUpTo(image, pageSize, boot, i, flash.written, sum)
    requires Reached(flash.answers, from, i - boot, flash.calls)
    modifies flash
    ensures status == 0 ==> Reached(flash.answers, from, i + 1 - boot, flash.calls)
    ensures status == 0 ==> FlashedUpTo(image, pageSize, boot, i + 1, flash.written, total)
    ensures status != 0 ==> !AllAcked(flash.answers, from, count)
    ensures status != 0 ==> flash.calls > from && status == flash.answers(flash.calls - 1)
    ensures status != 0 ==> flash.written == old(flash.written) && total == sum
  {
    ghost var before := flash.written;
    PagesGoOn(flash.answers, from, i - boot, count);
    NextPage(image, pageSize, boot, i, before, sum);
    var page := image[Offset(i, pageSize)..Offset(i + 1, pageSize)];
    var checksum := PageChecksum(page);
    status := WriteWithRetry(flash, page, checksum, i);
    total := sum;
    if status == 0 {
      total := AddU16(sum, checksum);
      assert flash.written == before + [(i, page)];
    }
  }

  /** The pages from `boot` to `pages`, until one fails; `done` is where it stopped. */
  method FlashRange(flash: Flash, image: seq<byte>, pageSize: nat, boot: nat, pages: nat)
    returns (status: int, sum: u16, ghost done: nat)
    requires pageSize % 2 == 0 && Offset(pages, pageSize) <= |image| && flash.written == []
    modifies flash
    ensures FlashedUpTo(image, pageSize, boot, done, flash.written, sum) && done >= boot
    ensures if status == 0 then done == Max(boot, pages) else done < pages
    ensures boot <= pages ==> (status == 0 <==> AllAcked(flash.answers, old(flash.calls), pages - boot))
    ensures status != 0 ==> flash.calls > old(flash.calls) && status == flash.answers(flash.calls - 1)
  {
    ghost var from := flash.calls;
    sum, status, done := 0, 0, boot;
    var i := boot;
    while i < pages
      invariant boot <= i == done <= Max(boot, pages)
      invariant Reached(flash.answers, from, i - boot, flash.calls)
      invariant FlashedUpTo(image, pageSize, boot, i, flash.written, sum)
    {
      OffsetGrows(i + 1, pages, pageSize);
      status, sum := FlashPage(flash, image, pageSize, boot, i, sum, from, pages - boot);
      if status != 0 { return; }
      i, done := i + 1, i + 1;
    }
    status := 0;
  }

  /** The page loop of __elan_update_firmware: the pages sent are those from the boot pages on, all
      of them exactly when every one is acknowledged, and the sum covers exactly what was sent. */
  method FlashPages(flash: Flash, image: seq<byte>, g: Geometry) returns (status: int, sum: u16)
    requires WellFormed(g) && g.signature + SIGNATURE_SIZE <= |image| && flash.written == []
    modifies flash
    ensures Offset(g.pages, g.pageSize) == g.signature + SIGNATURE_SIZE
    ensures status == 0 <==> AllAcked(flash.answers, old(flash.calls), PageCount(image, g))
    ensures status != 0 ==> flash.calls > old(flash.calls) && status == flash.answers(flash.calls - 1)
    ensures var boot := BootPages(image, g.pageSize);
      && (status == 0 ==> FlashedUpTo(image, g.pageSize, boot, g.pages, flash.written, sum))
      && (status != 0 ==> exists n :: boot <= n < g.pages
                            && FlashedUpTo(image, g.pageSize, boot, n, flash.written, sum))
  {
    OffsetIs(g.pages, g.pageSize);
    ghost var done;
    status, sum, done := FlashRange(flash, image, g.pageSize, BootPages(image, g.pageSize), g.pages);
  }

  lemma SentGrows(written: seq<(nat, seq<byte>)>, idx: nat, page: seq<byte>)
    requires |Sent(written)| % 2 == 0 && |page| % 2 == 0
    ensures Sent(written + [(idx, page)]) == Sent(written) + page
    ensures |Sent(written) + page| % 2 == 0
    ensures WordSum(Sent(written) + page) == AddU16(WordSum(Sent(written)), WordSum(page))
  {
    assert (written + [(idx, page)])[..|written|] == written;
    WordSumAppend(Sent(written), page);
  }

  lemma EvenSpan(a: nat, b: nat, size: nat)
    requires size % 2 == 0
    ensures (b * size - a * size) % 2 == 0
  {
    var half := size / 2;
    assert b * size - a * size == 2 * (b * half - a * half);
  }

  lemma PayloadIsWhole(image: seq<byte>, g: Geometry)
    requires WellFormed(g) && g.signature + SIGNATURE_SIZE <= |image|
    ensures var boot := BootPages(image, g.pageSize);
      && Offset(boot, g.pageSize) == boot * g.pageSize && Offset(g.pages, g.pageSize) == g.signature + SIGNATURE_SIZE
      && (boot <= g.pages <==> boot * g.pageSize <= g.signature + SIGNATURE_SIZE)
      && |Payload(image, g)| % 2 == 0
  {
    var boot := BootPages(image, g.pageSize);
    OffsetIs(boot, g.pageSize);
    OffsetIs(g.pages, g.pageSize);
    if boot <= g.pages {
      OffsetGrows(boot, g.pages, g.pageSize);
    } else {
      OffsetGrows(g.pages + 1, boot, g.pageSize);
    }
    EvenSpan(boot, g.pages, g.pageSize);
  }

  /** The page boundary at or before byte `at`. */
  ghost predicate PageOf(start: nat, at: nat, pageSize: nat)
    requires pageSize > 0
  {
    start % pageSize == 0 && start <= at < start + pageSize
  }

  /** Twice the little-endian address at byte 0x106: where the firmware behind the boot pages begins. */
  function FirstByte(image: seq<byte>): nat
    requires 0x108 <= |image|
  {
    var low: int, high: int := image[0x106], image[0x107];
    2 * (low + 256 * high)
  }

  /** What an update is to send: the image from the page of its first byte to the end of the signature. */
  ghost predicate Wanted(sent: seq<byte>, image: seq<byte>, g: Geometry) {
    0x108 <= |image| && g.signature + 6 <= |image| && g.pageSize > 0 &&
    forall start: nat :: PageOf(start, FirstByte(image), g.pageSize) ==>
      sent == if start < g.signature + 6 then image[start..g.signature + 6] else []
  }

  lemma Quotient64(q: nat, at: nat)
    requires 64 * q <= at < 64 * q + 64
    ensures at / 64 == q
  {}

  lemma Quotient128(q: nat, at: nat)
    requires 128 * q <= at < 128 * q + 128
    ensures at / 128 == q
  {}

  lemma Quotient512(q: nat, at: nat)
    requires 512 * q <= at < 512 * q + 512
    ensures at / 512 == q
  {}

  lemma Quotient(q: nat, at: nat, pageSize: nat)
    requires pageSize in {64, 128, 512} && q * pageSize <= at < q * pageSize + pageSize
    ensures at / pageSize == q
  {
    if pageSize == 64 {
      Quotient64(q, at);
    } else if pageSize == 128 {
      Quotient128(q, at);
    } else {
      Quotient512(q, at);
    }
  }

  lemma Multiple64(q: nat)
    ensures 64 * q % 64 == 0
  {}

  lemma Multiple128(q: nat)
    ensures 128 * q % 128 == 0
  {}

  lemma Multiple512(q: nat)
    ensures 512 * q % 512 == 0
  {}

  lemma Multiple(q: nat, pageSize: nat)
    requires pageSize in {64, 128, 512}
    ensures q * pageSize % pageSize == 0
  {
    if pageSize == 64 {
      Multiple64(q);
    } else if pageSize == 128 {
      Multiple128(q);
    } else {
      Multiple512(q);
    }
  }

  lemma Divides(n: nat, pageSize: nat)
    requires pageSize in {64, 128, 512}
    ensures n == n / pageSize * pageSize + n % pageSize
  {
    if pageSize == 64 {
    } else if pageSize == 128 {
    } else {
    }
  }

  lemma PageIs(start: nat, at: nat, pageSize: nat)
    requires pageSize in {64, 128, 512}
    ensures PageOf(at / pageSize * pageSize, at, pageSize)
    ensures PageOf(start, at, pageSize) ==> start == at / pageSize * pageSize
  {
    Divides(at, pageSize);
    Multiple(at / pageSize, pageSize);
    if PageOf(start, at, pageSize) {
      Divides(start, pageSize);
      Quotient(start / pageSize, at, pageSize);
    }
  }

  lemma BootIs(image: seq<byte>, pageSize: nat)
    requires 0x108 <= |image| && pageSize > 0
    ensures BootPages(image, pageSize) == FirstByte(image) / pageSize
  {
    assert LittleEndian(image[0x106], image[0x107]) * 2 == FirstByte(image);
  }

  /** The payload is that, whatever the words at the start address. */
  lemma PayloadIsWanted(image: seq<byte>, g: Geometry)
    requires WellFormed(g) && g.signature + SIGNATURE_SIZE <= |image|
    ensures Wanted(Payload(image, g), image, g)
    ensures exists start: nat :: PageOf(start, FirstByte(image), g.pageSize)
    ensures forall start: nat :: PageOf(start, FirstByte(image), g.pageSize) ==>
      (Payload(image, g) == [] <==> start >= g.signature + 6)
  {
    assert 0x108 <= |image| && g.pageSize in {64, 128, 512};
    var at := FirstByte(image);
    BootIs(image, g.pageSize);
    var here := BootPages(image, g.pageSize) * g.pageSize;
    assert Payload(image, g) == if here <= g.signature + 6 then image[here..g.signature + 6] else [];
    PageIs(here, at, g.pageSize);
    hide WellFormed, BootPages, FirstByte, PageOf, Payload;
    forall start: nat | PageOf(start, at, g.pageSize) ensures start == here {
      PageIs(start, at, g.pageSize);
    }
  }

  /** What the loop sent is, byte for byte, the payload. */
  lemma FlashedImage(image: seq<byte>, g: Geometry, written: seq<(nat, seq<byte>)>, sum: u16)
    requires WellFormed(g) && g.signature + SIGNATURE_SIZE <= |image|
    requires FlashedUpTo(image, g.pageSize, BootPages(image, g.pageSize), g.pages, written, sum)
    ensures Sent(written) == Payload(image, g)
  {
    var boot := BootPages(image, g.pageSize);
    PayloadIsWhole(image, g);
    if boot <= g.pages {
      PagesAreContiguous(image, g.pageSize, boot, g.pages);
    }
  }

  // ---------- the update ----------

  /** What the controller answers around the page loop. */
  datatype Controller = Controller(prepare: int, finish: int, checksumStatus: int, checksum: u16)

  /** When an update succeeds: every stage answers 0, every page is acknowledged, and the
      controller's checksum is the payload's word sum. */
  ghost predicate Succeeds(answers: nat -> int, from: nat, image: seq<byte>, g: Geometry, c: Controller)
    requires WellFormed(g) && g.signature + SIGNATURE_SIZE <= |image|
  {
    && c.prepare == 0 && AllAcked(answers, from, PageCount(image, g)) && c.finish == 0 && c.checksumStatus == 0
    && |Payload(image, g)| % 2 == 0 && c.checksum == WordSum(Payload(image, g))
  }

  /** The sent bytes and the controller's checksum, in terms of the image's bytes alone. */
  ghost predicate Installed(sent: seq<byte>, image: seq<byte>, g: Geometry, c: Controller) {
    Wanted(sent, image, g) && |sent| % 2 == 0 && c.checksum == PairSum(sent, |sent| / 2) % 0x1_0000
  }

  lemma SentIsInstalled(image: seq<byte>, g: Geometry, c: Controller)
    requires WellFormed(g) && g.signature + SIGNATURE_SIZE <= |image|
    requires |Payload(image, g)| % 2 == 0 && c.checksum == WordSum(Payload(image, g))
    ensures Installed(Payload(image, g), image, g, c)
  {
    PayloadIsWanted(image, g);
    WordTotalIsPairSum(Payload(image, g));
  }

  /** __elan_update_firmware: 0 exactly when everything succeeds, and then exactly the payload is in
      flash; otherwise the status of the first stage that failed. */
  method Update(flash: Flash, image: seq<byte>, g: Geometry, c: Controller) returns (status: int)
    requires WellFormed(g) && g.signature + SIGNATURE_SIZE <= |image| && flash.written == []
    modifies flash
    ensures status == 0 <==> Succeeds(flash.answers, old(flash.calls), image, g, c)
    ensures status == 0 ==> Sent(flash.written) == Payload(image, g) && Installed(Sent(flash.written), image, g, c)
    ensures c.prepare != 0 ==> status == c.prepare && flash.written == [] && flash.calls == old(flash.calls)
    ensures c.prepare == 0 && AllAcked(flash.answers, old(flash.calls), PageCount(image, g)) ==>
      status == if c.finish != 0 then c.finish else if c.checksumStatus != 0 then c.checksumStatus
                else if |Payload(image, g)| % 2 == 0 && c.checksum == WordSum(Payload(image, g)) then 0 else EIO
    ensures c.prepare == 0 && !AllAcked(flash.answers, old(flash.calls), PageCount(image, g)) ==>
      flash.calls > old(flash.calls) && status == flash.answers(flash.calls - 1)
  {
    if c.prepare != 0 { return c.prepare; }
    var sum;
    status, sum := FlashPages(flash, image, g);
    if status != 0 { return; }
    FlashedImage(image, g, flash.written, sum);
    if c.finish != 0 { return c.finish; }
    if c.checksumStatus != 0 { return c.checksumStatus; }
    if sum != c.checksum { return EIO; }
    SentIsInstalled(image, g, c);
    status := 0;
  }

  predicate GoodImage(image: seq<byte>, g: Geometry) {
    g.signature + SIGNATURE_SIZE <= |image| && image[g.signature..g.signature + SIGNATURE_SIZE] == SIGNATURE
  }

  /** elan_sysfs_update_fw, for the geometry of an identified controller: an image that is too
      short or carries no signature changes nothing; success means exactly that the image is good
      and its update succeeds, with its payload in flash. */
  method SysfsUpdate(flash: Flash, image: seq<byte>, g: Geometry, c: Controller) returns (status: int)
    requires g == Geometry(ENXIO, 0, 0, 0) || WellFormed(g)
    requires flash.written == []
    modifies flash
    ensures g.pages == 0 ==> status == -22
    ensures g.pages != 0 && !GoodImage(image, g) ==> status == -9
    ensures status == 0 ==> image[g.signature..g.signature + 6] == [0xAA, 0x55, 0xCC, 0x33, 0xFF, 0xFF]
    ensures g.pages == 0 || !GoodImage(image, g) ==> flash.written == [] && flash.calls == old(flash.calls)
    ensures status == 0 <==>
      g.pages != 0 && GoodImage(image, g) && Succeeds(flash.answers, old(flash.calls), image, g, c)
    ensures status == 0 ==> Installed(Sent(flash.written), image, g, c)
  {
    if g.pages == 0 { return EINVAL; }
    if |image| < g.signature + SIGNATURE_SIZE { return EBADF; }
    if image[g.signature..g.signature + SIGNATURE_SIZE] != SIGNATURE { return EBADF; }
    status := Update(flash, image, g, c);
  }

  /** The payload is empty exactly when the boot pages reach the end; then no page has to be
      acknowledged. */
  lemma EmptyPayload(image: seq<byte>, g: Geometry, answers: nat -> int, from: nat)
    requires WellFormed(g) && g.signature + SIGNATURE_SIZE <= |image|
    ensures Payload(image, g) == [] <==> BootPages(image, g.pageSize) >= g.pages
    ensures BootPages(image, g.pageSize) >= g.pages ==> AllAcked(answers, from, PageCount(image, g))
  {
    PayloadIsWhole(image, g);
  }

  lemma PastTheEnd(pages: nat, pageSize: nat)
    requires pageSize in {64, 128, 512} && pages * pageSize <= 2032 * FW_PAGE_SIZE
    ensures 0x1_FFFE / pageSize >= pages
  {
    if pageSize == 64 {
    } else if pageSize == 128 {
    } else {
    }
  }

  /** A signed image whose start address word is 0xFFFF. */
  function Unprogrammed(g: Geometry): (image: seq<byte>)
    requires WellFormed(g)
  {
    seq(g.signature, _ => 0xFF) + SIGNATURE
  }

  /** Such an image passes for an update whatever the transport would answer to pages, if the
      controller, flashed with nothing, reports the checksum 0.  Only the controller with 2048
      pages is too large for that. */
  lemma NothingToFlash(g: Geometry, answers: nat -> int, from: nat)
    requires WellFormed(g) && g.pages * g.pageSize <= 2032 * FW_PAGE_SIZE
    ensures var image := Unprogrammed(g);
      GoodImage(image, g) && Payload(image, g) == [] && Succeeds(answers, from, image, g, Controller(0, 0, 0, 0))
  {
    var image := Unprogrammed(g);
    assert BootPages(image, g.pageSize) == 0x1_FFFE / g.pageSize;
    PastTheEnd(g.pages, g.pageSize);
    EmptyPayload(image, g, answers, from);
    assert WordTotal(Payload(image, g)) == 0;
  }

  // ---------- framing ----------

  const IAP_REG_L: byte := 0x01
  const IAP_REG_H: byte := 0x06

  /** What the controller reads from a frame: the page and the checksum behind it. */
  function Unframe(frame: seq<byte>): (seq<byte>, u16)
    requires |frame| >= 4
  {
    (frame[2..|frame| - 2], LittleEndian(frame[|frame| - 2], frame[|frame| - 1]))
  }

  /** elan_i2c_write_fw_block: the page register, and what the controller reads back as the page
      and its checksum. */
  method I2cFrame(page: seq<byte>, checksum: u16) returns (store: array<byte>)
    ensures fresh(store) && store.Length == |page| + 4 && store[0] == IAP_REG_L && store[1] == IAP_REG_H
    ensures Unframe(store[..]) == (page, checksum)
  {
    store := new byte[|page| + 4](_ => 0);
    store[0], store[1] := IAP_REG_L, IAP_REG_H;
    for i := 0 to |page|
      invariant store[0] == IAP_REG_L && store[1] == IAP_REG_H
      invariant forall k :: 0 <= k < i ==> store[k + 2] == page[k]
    {
      store[i + 2] := page[i];
    }
    store[|page| + 2], store[|page| + 3] := checksum % 256, checksum / 256;
    forall k | 0 <= k < |page| ensures store[..][2..|page| + 2][k] == page[k] {
      assert store[k + 2] == page[k];
    }
    assert store[..][2..|page| + 2] == page;
  }
}
