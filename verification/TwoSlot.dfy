/** Two-slot control publication: publication n overwrites slot n % 2 of one file with its
    padded payload, by positional writes the device may cut short as it likes.
 */
module TwoSlot {
  type Byte = x: int | 0 <= x < 256

  const MARKER := 8

  function Pow256(k: nat): nat { if k == 0 then 1 else 256 * Pow256(k - 1) }

  /** The first publication number that no longer fits the marker. */
  const TOO_LATE: nat := 0x1_0000_0000_0000_0000

  function LittleEndian(n: nat, k: nat): (r: seq<Byte>)
    ensures |r| == k
  {
    if k == 0 then [] else [n % 256] + LittleEndian(n / 256, k - 1)
  }

  function FromLittleEndian(bytes: seq<Byte>): nat {
    if bytes == [] then 0 else bytes[0] + 256 * FromLittleEndian(bytes[1..])
  }

  function BodyByte(iteration: nat, index: nat): Byte { (iteration * 17 + index) % 251 }

  function Body(iteration: nat, n: nat): (r: seq<Byte>)
    ensures |r| == n
    ensures forall i :: 0 <= i < n ==> r[i] == BodyByte(iteration, i)
  {
    if n == 0 then [] else Body(iteration, n - 1) + [BodyByte(iteration, n - 1)]
  }

  /** The marker, then a recognisable body; a size below the marker's leaves the marker alone. */
  function Payload(iteration: nat, size: nat): (r: seq<Byte>)
    ensures |r| == if size > MARKER then size else MARKER
  {
    LittleEndian(iteration, MARKER) + Body(iteration, if size > MARKER then size - MARKER else 0)
  }

  function Zeros(n: nat): (r: seq<Byte>)
    ensures |r| == n
  {
    if n == 0 then [] else [0] + Zeros(n - 1)
  }

  predicate Fits(size: nat, slotSize: nat) { size <= slotSize && MARKER <= slotSize }

  /** What a slot holds once publication `iteration` is complete. */
  function Padded(iteration: nat, size: nat, slotSize: nat): (r: seq<Byte>)
    requires Fits(size, slotSize)
    ensures |r| == slotSize
  {
    var payload := Payload(iteration, size);
    payload + Zeros(slotSize - |payload|)
  }

  // ----- The write loop

  /** The file after `w` bytes of the payload have arrived at `offset`. */
  function Partial(file: seq<Byte>, payload: seq<Byte>, offset: nat, w: nat): (r: seq<Byte>)
    requires offset + |payload| <= |file| && w <= |payload|
    ensures |r| == |file|
  {
    file[..offset] + payload[..w] + file[offset + w..]
  }

  /** Byte `k` after `bytes` went to `offset`. */
  function ByteAfter(before: seq<Byte>, bytes: seq<Byte>, offset: nat, k: nat): Byte
    requires k < |before|
  {
    if offset <= k < offset + |bytes| then bytes[k - offset] else before[k]
  }

  ghost predicate WroteAt(after: seq<Byte>, before: seq<Byte>, bytes: seq<Byte>, offset: nat, k: nat)
    requires k < |before| == |after|
  {
    after[k] == ByteAfter(before, bytes, offset, k)
  }

  ghost predicate Wrote(after: seq<Byte>, before: seq<Byte>, bytes: seq<Byte>, offset: nat) {
    |after| == |before| && forall k: nat :: k < |before| ==> WroteAt(after, before, bytes, offset, k)
  }

  lemma {:induction false} PartialGrows(file: seq<Byte>, payload: seq<Byte>, offset: nat, w: nat, count: nat, next: seq<Byte>)
    requires offset + |payload| <= |file| && w + count <= |payload|
    requires Wrote(next, Partial(file, payload, offset, w), payload[w..w + count], offset + w)
    ensures next == Partial(file, payload, offset, w + count)
  {
    var state, goal := Partial(file, payload, offset, w), Partial(file, payload, offset, w + count);
    forall k: nat | k < |file|
      ensures next[k] == goal[k]
    {
      assert WroteAt(next, state, payload[w..w + count], offset + w, k);
    }
  }

  /** One positional write that accepts all of its bytes. */
  method Pwrite(file: array<Byte>, bytes: seq<Byte>, offset: nat)
    requires offset + |bytes| <= file.Length
    modifies file
    ensures Wrote(file[..], old(file[..]), bytes, offset)
  {
    forall i | 0 <= i < |bytes| {
      file[offset + i] := bytes[i];
    }
    ghost var before, after := old(file[..]), file[..];
    forall k: nat | k < |before|
      ensures WroteAt(after, before, bytes, offset, k)
    {
      if offset <= k < offset + |bytes| {
        assert file[offset + (k - offset)] == bytes[k - offset];
      }
    }
  }

  /** The next `count` bytes of the payload go out. */
  method WriteMore(file: array<Byte>, ghost before: seq<Byte>, payload: seq<Byte>, offset: nat, written: nat, count: nat)
    requires offset + |payload| <= |before| && written + count <= |payload|
    requires file[..] == Partial(before, payload, offset, written)
    modifies file
    ensures file[..] == Partial(before, payload, offset, written + count)
  {
    Pwrite(file, payload[written..written + count], offset + written);
    PartialGrows(before, payload, offset, written, count, file[..]);
  }

  /** The bytes of `total` that are out after `calls` writes, when `accept(i)` is the count the
      i-th write returns. */
  function Out(accept: nat -> int, total: nat, calls: nat): (r: nat)
    ensures r <= total
  {
    if calls == 0 then 0
    else
      var out, count := Out(accept, total, calls - 1), accept(calls - 1);
      if count <= 0 then out else if out + count < total then out + count else total
  }

  lemma {:induction false} OutGrows(accept: nat -> int, total: nat, i: nat, j: nat)
    requires i <= j
    ensures Out(accept, total, i) <= Out(accept, total, j)
    decreases j
  {
    if i < j {
      OutGrows(accept, total, i, j - 1);
    }
  }

  predicate StallsAt(accept: nat -> int, total: nat, i: nat) { Out(accept, total, i) < total && accept(i) <= 0 }

  /** Some write that still has bytes to put out makes no progress. */
  ghost predicate Stalls(accept: nat -> int, total: nat) { exists i: nat :: StallsAt(accept, total, i) }

  predicate MovesAt(accept: nat -> int, total: nat, i: nat) { Out(accept, total, i) < total && accept(i) > 0 }

  /** State i is the payload over `before` cut where i writes leave it, and the write after it,
      if another state follows, had bytes to put out and put some out. */
  ghost predicate StateAt(trace: seq<seq<Byte>>, before: seq<Byte>, payload: seq<Byte>, offset: nat,
                          accept: nat -> int, i: nat)
    requires offset + |payload| <= |before| && i < |trace|
  {
    && trace[i] == Partial(before, payload, offset, Out(accept, |payload|, i))
    && (i + 1 < |trace| ==> MovesAt(accept, |payload|, i))
  }

  ghost predicate Traced(trace: seq<seq<Byte>>, before: seq<Byte>, payload: seq<Byte>, offset: nat, accept: nat -> int)
    requires offset + |payload| <= |before|
  {
    trace != [] && forall i: nat :: i < |trace| ==> StateAt(trace, before, payload, offset, accept, i)
  }

  /** Each of the first `calls` writes had bytes to put out and put some out. */
  ghost predicate Progressed(accept: nat -> int, total: nat, calls: nat) {
    forall i: nat :: i < calls ==> MovesAt(accept, total, i)
  }

  /** The states from `before` on, one per write. */
  function States(before: seq<Byte>, payload: seq<Byte>, offset: nat, accept: nat -> int, calls: nat): (r: seq<seq<Byte>>)
    requires offset + |payload| <= |before|
    ensures |r| == calls + 1
  {
    if calls == 0 then [before]
    else States(before, payload, offset, accept, calls - 1)
         + [Partial(before, payload, offset, Out(accept, |payload|, calls))]
  }

  lemma {:induction false} StateOf(before: seq<Byte>, payload: seq<Byte>, offset: nat, accept: nat -> int, calls: nat, i: nat)
    requires offset + |payload| <= |before| && i <= calls
    ensures States(before, payload, offset, accept, calls)[i] == Partial(before, payload, offset, Out(accept, |payload|, i))
    decreases calls
  {
    if calls == 0 {
      NothingOut(before, payload, offset);
    } else if i < calls {
      StateOf(before, payload, offset, accept, calls - 1, i);
    }
  }

  lemma {:induction false} StatesTraced(before: seq<Byte>, payload: seq<Byte>, offset: nat, accept: nat -> int, calls: nat)
    requires offset + |payload| <= |before| && Progressed(accept, |payload|, calls)
    ensures var trace := States(before, payload, offset, accept, calls);
            && Traced(trace, before, payload, offset, accept) && trace[0] == before
            && trace[calls] == Partial(before, payload, offset, Out(accept, |payload|, calls))
    ensures Out(accept, |payload|, calls) == |payload| ==> !Stalls(accept, |payload|)
  {
    var trace := States(before, payload, offset, accept, calls);
    forall i: nat | i < |trace|
      ensures StateAt(trace, before, payload, offset, accept, i)
    {
      StateOf(before, payload, offset, accept, calls, i);
      assert i < calls ==> MovesAt(accept, |payload|, i);
    }
    StateOf(before, payload, offset, accept, calls, 0);
    NothingOut(before, payload, offset);
    StateOf(before, payload, offset, accept, calls, calls);
    if Out(accept, |payload|, calls) == |payload| {
      DoneNeverStalls(accept, |payload|, calls);
    }
  }

  lemma {:induction false} DoneNeverStalls(accept: nat -> int, total: nat, calls: nat)
    requires Progressed(accept, total, calls) && Out(accept, total, calls) == total
    ensures !Stalls(accept, total)
  {
    forall i: nat
      ensures !StallsAt(accept, total, i)
    {
      if i < calls {
        assert MovesAt(accept, total, i);
      } else {
        OutGrows(accept, total, calls, i);
      }
    }
  }

  /** `_write_at`: writes until every byte is out, or fails when a write makes no progress.
      `accept(i)` is the count the i-th positional write returns. */
  method WriteAt(file: array<Byte>, payload: seq<Byte>, offset: nat, accept: nat -> int)
    returns (ok: bool, ghost trace: seq<seq<Byte>>)
    requires offset + |payload| <= file.Length
    modifies file
    ensures ok <==> !Stalls(accept, |payload|)
    ensures ok ==> file[..] == Partial(old(file[..]), payload, offset, |payload|)
    ensures Traced(trace, old(file[..]), payload, offset, accept)
    ensures trace[0] == old(file[..]) && trace[|trace| - 1] == file[..]
    ensures !ok ==> StallsAt(accept, |payload|, |trace| - 1)
  {
    var written, calls := 0, 0;
    ghost var before := file[..];
    trace := [before];
    NothingOut(before, payload, offset);
    while written < |payload|
      invariant written == Out(accept, |payload|, calls) && Progressed(accept, |payload|, calls)
      invariant file[..] == Partial(before, payload, offset, written)
      invariant trace == States(before, payload, offset, accept, calls)
      decreases |payload| - written
    {
      var asked := accept(calls);
      var count := if asked < |payload| - written then asked else |payload| - written;
      if count <= 0 {
        assert StallsAt(accept, |payload|, calls);
        StatesTraced(before, payload, offset, accept, calls);
        return false, trace;
      }
      assert MovesAt(accept, |payload|, calls);
      WriteMore(file, before, payload, offset, written, count);
      written, calls, trace := written + count, calls + 1, trace + [file[..]];
    }
    StatesTraced(before, payload, offset, accept, calls);
    ok := true;
  }

  lemma {:induction false} NothingOut(before: seq<Byte>, payload: seq<Byte>, offset: nat)
    requires offset + |payload| <= |before|
    ensures before == Partial(before, payload, offset, 0)
  {
    assert payload[..0] == [];
    assert before[..offset] + [] == before[..offset];
    assert before[..offset] + before[offset..] == before;
  }

  // ----- The publication loop

  function Slot(file: seq<Byte>, slot: nat, slotSize: nat): seq<Byte>
    requires slot < 2 && |file| == 2 * slotSize
  {
    if slot == 0 then file[..slotSize] else file[slotSize..]
  }

  function Offset(slot: nat, slotSize: nat): nat { if slot == 0 then 0 else slotSize }

  lemma {:induction false} PartialFirst(file: seq<Byte>, payload: seq<Byte>, slotSize: nat, w: nat)
    requires |file| == 2 * slotSize && |payload| == slotSize && w <= slotSize
    ensures var state := Partial(file, payload, 0, w);
            state[slotSize..] == file[slotSize..] && state[..slotSize] == payload[..w] + file[..slotSize][w..]
  {
    assert Partial(file, payload, 0, w) == payload[..w] + file[w..];
  }

  lemma {:induction false} PartialSecond(file: seq<Byte>, payload: seq<Byte>, slotSize: nat, w: nat)
    requires |file| == 2 * slotSize && |payload| == slotSize && w <= slotSize
    ensures var state := Partial(file, payload, slotSize, w);
            state[..slotSize] == file[..slotSize] && state[slotSize..] == payload[..w] + file[slotSize..][w..]
  {
    assert file[slotSize + w..] == file[slotSize..][w..];
  }

  lemma {:induction false} PartialSlots(file: seq<Byte>, payload: seq<Byte>, slot: nat, slotSize: nat, w: nat)
    requires slot < 2 && |file| == 2 * slotSize && |payload| == slotSize && w <= slotSize
    ensures var state := Partial(file, payload, Offset(slot, slotSize), w);
            && Slot(state, 1 - slot, slotSize) == Slot(file, 1 - slot, slotSize)
            && Slot(state, slot, slotSize) == payload[..w] + Slot(file, slot, slotSize)[w..]
  {
    if slot == 0 {
      PartialFirst(file, payload, slotSize, w);
    } else {
      PartialSecond(file, payload, slotSize, w);
    }
  }

  /** What a slot holds after `n` complete publications: the newest that went to it, or
      untouched zeros where nothing was published yet. */
  function Newest(slot: nat, n: nat, size: nat, slotSize: nat): (r: seq<Byte>)
    requires Fits(size, slotSize)
    ensures |r| == slotSize
  {
    var last := if n % 2 == slot then n - 2 else n - 1;
    if last >= 0 then Padded(last, size, slotSize) else Zeros(slotSize)
  }

  ghost predicate SlotHolds(file: seq<Byte>, slot: nat, n: nat, size: nat, slotSize: nat)
    requires Fits(size, slotSize) && slot < 2 && |file| == 2 * slotSize
  {
    Slot(file, slot, slotSize) == Newest(slot, n, size, slotSize)
  }

  /** What the file holds after `n` complete publications. */
  ghost predicate Published(file: seq<Byte>, n: nat, size: nat, slotSize: nat)
    requires Fits(size, slotSize) && |file| == 2 * slotSize
  {
    forall slot: nat :: slot < 2 ==> SlotHolds(file, slot, n, size, slotSize)
  }

  /** A file image seen while publication `n` is being written. */
  datatype Image = Image(n: nat, bytes: seq<Byte>)

  /** The image is publication n cut short after some number of bytes, over a file that held
      the two publications before it. */
  ghost predicate Reachable(image: Image, size: nat, slotSize: nat)
    requires Fits(size, slotSize)
  {
    exists file: seq<Byte>, w: nat ::
      && |file| == 2 * slotSize && Published(file, image.n, size, slotSize) && w <= slotSize
      && image.bytes == Partial(file, Padded(image.n, size, slotSize), Offset(image.n % 2, slotSize), w)
  }

  lemma {:induction false} Parity(n: nat)
    ensures (n + 1) % 2 == 1 - n % 2
    ensures n >= 1 ==> (n - 1) % 2 == 1 - n % 2
  {
  }

  lemma {:induction false} PublishedOver(file: seq<Byte>, state: seq<Byte>, n: nat, size: nat, slotSize: nat)
    requires Fits(size, slotSize) && |file| == |state| == 2 * slotSize && Published(file, n, size, slotSize)
    requires Slot(state, n % 2, slotSize) == Padded(n, size, slotSize)
    requires Slot(state, 1 - n % 2, slotSize) == Slot(file, 1 - n % 2, slotSize)
    ensures Published(state, n + 1, size, slotSize)
  {
    Parity(n);
    assert SlotHolds(file, 1 - n % 2, n, size, slotSize);
    var next := n + 1;
    forall slot: nat | slot < 2
      ensures SlotHolds(state, slot, next, size, slotSize)
    {
    }
  }

  lemma {:induction false} PublishedNext(file: seq<Byte>, n: nat, size: nat, slotSize: nat)
    requires Fits(size, slotSize) && |file| == 2 * slotSize && Published(file, n, size, slotSize)
    ensures Published(Partial(file, Padded(n, size, slotSize), Offset(n % 2, slotSize), slotSize), n + 1, size, slotSize)
  {
    var padded := Padded(n, size, slotSize);
    PartialSlots(file, padded, n % 2, slotSize, slotSize);
    WholePayload(padded, Slot(file, n % 2, slotSize));
    PublishedOver(file, Partial(file, padded, Offset(n % 2, slotSize), slotSize), n, size, slotSize);
  }

  lemma {:induction false} WholePayload(payload: seq<Byte>, was: seq<Byte>)
    requires |payload| == |was|
    ensures payload[..|payload|] + was[|payload|..] == payload
  {
  }

  ghost predicate AllReachable(images: seq<Image>, size: nat, slotSize: nat)
    requires Fits(size, slotSize)
  {
    forall i: nat :: i < |images| ==> ReachableAt(images, i, size, slotSize)
  }

  ghost predicate ReachableAt(images: seq<Image>, i: nat, size: nat, slotSize: nat)
    requires Fits(size, slotSize) && i < |images|
  {
    Reachable(images[i], size, slotSize)
  }

  lemma {:induction false} ReachableJoined(a: seq<Image>, b: seq<Image>, size: nat, slotSize: nat)
    requires Fits(size, slotSize) && AllReachable(a, size, slotSize) && AllReachable(b, size, slotSize)
    ensures AllReachable(a + b, size, slotSize)
  {
    var all := a + b;
    forall i: nat | i < |all|
      ensures ReachableAt(all, i, size, slotSize)
    {
      assert if i < |a| then ReachableAt(a, i, size, slotSize) else ReachableAt(b, i - |a|, size, slotSize);
    }
  }

  /** Publication n over `file` after `calls` of its writes. */
  function Written(file: seq<Byte>, n: nat, size: nat, slotSize: nat, accept: nat -> int, calls: nat): (r: Image)
    requires Fits(size, slotSize) && |file| == 2 * slotSize
    ensures |r.bytes| == 2 * slotSize
  {
    Image(n, Partial(file, Padded(n, size, slotSize), Offset(n % 2, slotSize), Out(accept, slotSize, calls)))
  }

  ghost predicate WrittenAt(images: seq<Image>, i: nat, file: seq<Byte>, n: nat, size: nat, slotSize: nat, accept: nat -> int)
    requires Fits(size, slotSize) && |file| == 2 * slotSize && i < |images|
  {
    && images[i] == Written(file, n, size, slotSize, accept, i)
    && (i + 1 < |images| ==> MovesAt(accept, slotSize, i))
  }

  /** The images of one publication: one per write, each of which put something out. */
  ghost predicate Writes(images: seq<Image>, file: seq<Byte>, n: nat, size: nat, slotSize: nat, accept: nat -> int)
    requires Fits(size, slotSize) && |file| == 2 * slotSize
  {
    images != [] && forall i: nat :: i < |images| ==> WrittenAt(images, i, file, n, size, slotSize, accept)
  }

  /** One publication into its slot. */
  method PublishOne(file: array<Byte>, n: nat, size: nat, slotSize: nat, accept: nat -> int)
    returns (ok: bool, ghost images: seq<Image>)
    requires Fits(size, slotSize) && file.Length == 2 * slotSize
    requires Published(file[..], n, size, slotSize)
    modifies file
    ensures ok <==> !Stalls(accept, slotSize)
    ensures ok ==> Published(file[..], n + 1, size, slotSize)
    ensures Writes(images, old(file[..]), n, size, slotSize, accept)
    ensures images[0].bytes == old(file[..]) && images[|images| - 1].bytes == file[..]
    ensures !ok ==> StallsAt(accept, slotSize, |images| - 1)
    ensures AllReachable(images, size, slotSize)
  {
    ghost var before := file[..];
    ghost var trace;
    ok, trace := WriteAt(file, Padded(n, size, slotSize), Offset(n % 2, slotSize), accept);
    images := ImagesOf(n, trace);
    ImagesAreWrites(before, n, size, slotSize, trace, accept);
    WritesReachable(images, before, n, size, slotSize, accept);
    PublishedNext(before, n, size, slotSize);
  }

  /** The image after `a`: one more write of the same publication that put something out, or the
      start of the next publication over the completed one. */
  ghost predicate Follows(a: Image, b: Image, size: nat, slotSize: nat, accept: nat -> nat -> int)
    requires Fits(size, slotSize) && |a.bytes| == |b.bytes| == 2 * slotSize
  {
    if b.n == a.n then OneMoreWrite(a, b, size, slotSize, accept(a.n))
    else b.n == a.n + 1 && b.bytes == a.bytes && Published(b.bytes, b.n, size, slotSize)
  }

  ghost predicate OneMoreWrite(a: Image, b: Image, size: nat, slotSize: nat, accept: nat -> int)
    requires Fits(size, slotSize)
  {
    exists file: seq<Byte>, calls: nat ::
      && |file| == 2 * slotSize && Published(file, a.n, size, slotSize)
      && a == Written(file, a.n, size, slotSize, accept, calls)
      && b == Written(file, a.n, size, slotSize, accept, calls + 1)
      && Out(accept, slotSize, calls) < Out(accept, slotSize, calls + 1)
  }

  ghost predicate FollowsAt(images: seq<Image>, i: nat, size: nat, slotSize: nat, accept: nat -> nat -> int)
    requires Fits(size, slotSize) && i + 1 < |images|
  {
    |images[i].bytes| == |images[i + 1].bytes| == 2 * slotSize && Follows(images[i], images[i + 1], size, slotSize, accept)
  }

  /** From `first` on, each image follows the one before it. */
  ghost predicate Chained(images: seq<Image>, first: seq<Byte>, size: nat, slotSize: nat, accept: nat -> nat -> int)
    requires Fits(size, slotSize)
  {
    && (images != [] ==> images[0] == Image(0, first))
    && forall i: nat :: i + 1 < |images| ==> FollowsAt(images, i, size, slotSize, accept)
  }

  /** No publication before `n` stalls. */
  ghost predicate Untroubled(n: nat, slotSize: nat, accept: nat -> nat -> int) {
    forall k: nat :: k < n ==> !Stalls(accept(k), slotSize)
  }

  datatype Facet = Reached | InOrder | AtEnd | Calm

  ghost predicate Holds(f: Facet, images: seq<Image>, start: seq<Byte>, now: seq<Byte>, n: nat, size: nat, slotSize: nat,
                        accept: nat -> nat -> int)
    requires Fits(size, slotSize)
  {
    match f
    case Reached => AllReachable(images, size, slotSize)
    case InOrder => Chained(images, start, size, slotSize, accept)
    case AtEnd => if n == 0 then images == [] && now == start else images != [] && images[|images| - 1] == Image(n - 1, now)
    case Calm => n <= TOO_LATE && Untroubled(n, slotSize, accept)
  }

  /** Where the loop stands after `n` publications, with the file at `now`. */
  ghost predicate Underway(images: seq<Image>, start: seq<Byte>, now: seq<Byte>, n: nat, size: nat, slotSize: nat,
                           accept: nat -> nat -> int)
    requires Fits(size, slotSize)
  {
    forall f: Facet :: Holds(f, images, start, now, n, size, slotSize, accept)
  }

  /** The images lead from `start` to `now`, one accepted write or one new publication at a time. */
  ghost predicate Exposed(images: seq<Image>, start: seq<Byte>, now: seq<Byte>, size: nat, slotSize: nat,
                          accept: nat -> nat -> int)
    requires Fits(size, slotSize)
  {
    && AllReachable(images, size, slotSize)
    && Chained(images, start, size, slotSize, accept)
    && (if images == [] then now == start else images[|images| - 1].bytes == now)
  }

  /** Publication n is the first that stalls, or the last whose number the marker can hold. */
  ghost predicate FailedAt(n: nat, now: seq<Byte>, size: nat, slotSize: nat, accept: nat -> nat -> int)
    requires Fits(size, slotSize) && |now| == 2 * slotSize
  {
    && Untroubled(n, slotSize, accept)
    && (Stalls(accept(n), slotSize) || (n + 1 == TOO_LATE && Published(now, n + 1, size, slotSize)))
  }

  /** The two-slot loop: every image it ever exposes is a cut-short publication over the two
      before it, and the final readback finds both slots as last published. It fails at the first
      publication that stalls or whose number the marker's eight bytes cannot hold. */
  method Publish(file: array<Byte>, iterations: nat, size: nat, slotSize: nat, accept: nat -> nat -> int)
    returns (ok: bool, ghost images: seq<Image>)
    requires Fits(size, slotSize) && file.Length == 2 * slotSize
    requires file[..] == Zeros(2 * slotSize)
    modifies file
    ensures ok <==> iterations <= TOO_LATE && Untroubled(iterations, slotSize, accept)
    ensures ok ==> Published(file[..], iterations, size, slotSize)
    ensures Exposed(images, old(file[..]), file[..], size, slotSize, accept)
    ensures images == [] <==> iterations == 0
    ensures ok && iterations > 0 ==> images[|images| - 1].n == iterations - 1
    ensures !ok ==> images[|images| - 1].n < iterations && FailedAt(images[|images| - 1].n, file[..], size, slotSize, accept)
  {
    images := [];
    ghost var start := file[..];
    NothingPublished(start, size, slotSize, accept);
    for n := 0 to iterations
      invariant Published(file[..], n, size, slotSize)
      invariant Underway(images, start, file[..], n, size, slotSize, accept)
    {
      if n >= TOO_LATE {
        // The marker's eight bytes cannot hold the number: the conversion refuses.
        MarkerExhausted(images, start, file[..], n, iterations, size, slotSize, accept);
        return false, images;
      }
      ghost var before, seen := file[..], [];
      ok, seen := PublishOne(file, n, size, slotSize, accept(n));
      if !ok {
        PublicationStalls(images, seen, start, before, file[..], n, iterations, size, slotSize, accept);
        return false, images + seen;
      }
      PublicationDone(images, seen, start, before, file[..], n, size, slotSize, accept);
      images := images + seen;
    }
    AllPublished(images, start, file[..], iterations, size, slotSize, accept);
    ok := true;
  }

  lemma {:induction false} NothingPublished(start: seq<Byte>, size: nat, slotSize: nat, accept: nat -> nat -> int)
    requires Fits(size, slotSize) && start == Zeros(2 * slotSize)
    ensures Published(start, 0, size, slotSize) && Underway([], start, start, 0, size, slotSize, accept)
  {
    ZeroSlots(slotSize);
    forall slot: nat | slot < 2
      ensures SlotHolds(start, slot, 0, size, slotSize)
    {
    }
    forall f: Facet
      ensures Holds(f, [], start, start, 0, size, slotSize, accept)
    {
    }
  }

  lemma {:induction false} AllPublished(images: seq<Image>, start: seq<Byte>, now: seq<Byte>, n: nat, size: nat,
                                        slotSize: nat, accept: nat -> nat -> int)
    requires Fits(size, slotSize) && Underway(images, start, now, n, size, slotSize, accept)
    ensures n <= TOO_LATE && Untroubled(n, slotSize, accept)
    ensures Exposed(images, start, now, size, slotSize, accept)
    ensures if n == 0 then images == [] else images != [] && images[|images| - 1].n == n - 1
  {
    assert Holds(Reached, images, start, now, n, size, slotSize, accept);
    assert Holds(InOrder, images, start, now, n, size, slotSize, accept);
    assert Holds(AtEnd, images, start, now, n, size, slotSize, accept);
    assert Holds(Calm, images, start, now, n, size, slotSize, accept);
  }

  lemma {:induction false} MarkerExhausted(images: seq<Image>, start: seq<Byte>, now: seq<Byte>, n: nat, iterations: nat,
                                           size: nat, slotSize: nat, accept: nat -> nat -> int)
    requires Fits(size, slotSize) && Underway(images, start, now, n, size, slotSize, accept)
    requires |now| == 2 * slotSize && Published(now, n, size, slotSize) && TOO_LATE <= n < iterations
    ensures Exposed(images, start, now, size, slotSize, accept)
    ensures iterations > TOO_LATE && images != [] && images[|images| - 1].n < iterations
    ensures FailedAt(images[|images| - 1].n, now, size, slotSize, accept)
  {
    AllPublished(images, start, now, n, size, slotSize, accept);
  }

  lemma {:induction false} Growing(images: seq<Image>, seen: seq<Image>, start: seq<Byte>, before: seq<Byte>,
                                   now: seq<Byte>, n: nat, size: nat, slotSize: nat, accept: nat -> nat -> int)
    requires Fits(size, slotSize) && |before| == 2 * slotSize && Published(before, n, size, slotSize)
    requires Underway(images, start, before, n, size, slotSize, accept)
    requires Writes(seen, before, n, size, slotSize, accept(n)) && AllReachable(seen, size, slotSize)
    requires seen[0].bytes == before && seen[|seen| - 1].bytes == now
    ensures AllReachable(images + seen, size, slotSize)
    ensures Chained(images + seen, start, size, slotSize, accept)
    ensures (images + seen)[|images + seen| - 1] == Image(n, now)
  {
    AllPublished(images, start, before, n, size, slotSize, accept);
    assert Holds(AtEnd, images, start, before, n, size, slotSize, accept);
    WritesNumbered(seen, 0, before, n, size, slotSize, accept(n));
    WritesNumbered(seen, |seen| - 1, before, n, size, slotSize, accept(n));
    ChainGrows(images, seen, start, before, n, size, slotSize, accept);
    ReachableJoined(images, seen, size, slotSize);
  }

  lemma {:induction false} PublicationDone(images: seq<Image>, seen: seq<Image>, start: seq<Byte>, before: seq<Byte>,
                                           now: seq<Byte>, n: nat, size: nat, slotSize: nat, accept: nat -> nat -> int)
    requires Fits(size, slotSize) && |before| == 2 * slotSize && Published(before, n, size, slotSize)
    requires Underway(images, start, before, n, size, slotSize, accept)
    requires Writes(seen, before, n, size, slotSize, accept(n)) && AllReachable(seen, size, slotSize)
    requires seen[0].bytes == before && seen[|seen| - 1].bytes == now
    requires n < TOO_LATE && !Stalls(accept(n), slotSize)
    ensures Underway(images + seen, start, now, n + 1, size, slotSize, accept)
  {
    Growing(images, seen, start, before, now, n, size, slotSize, accept);
    AllPublished(images, start, before, n, size, slotSize, accept);
    var all, next := images + seen, n + 1;
    forall f: Facet
      ensures Holds(f, all, start, now, next, size, slotSize, accept)
    {
    }
  }

  lemma {:induction false} PublicationStalls(images: seq<Image>, seen: seq<Image>, start: seq<Byte>, before: seq<Byte>,
                                             now: seq<Byte>, n: nat, iterations: nat, size: nat, slotSize: nat,
                                             accept: nat -> nat -> int)
    requires Fits(size, slotSize) && |before| == |now| == 2 * slotSize && Published(before, n, size, slotSize)
    requires Underway(images, start, before, n, size, slotSize, accept)
    requires Writes(seen, before, n, size, slotSize, accept(n)) && AllReachable(seen, size, slotSize)
    requires seen[0].bytes == before && seen[|seen| - 1].bytes == now
    requires n < iterations && Stalls(accept(n), slotSize)
    ensures Exposed(images + seen, start, now, size, slotSize, accept)
    ensures !Untroubled(iterations, slotSize, accept)
    ensures (images + seen)[|images + seen| - 1].n == n && FailedAt(n, now, size, slotSize, accept)
  {
    Growing(images, seen, start, before, now, n, size, slotSize, accept);
    AllPublished(images, start, before, n, size, slotSize, accept);
  }

  lemma {:induction false} ImagesAreWrites(before: seq<Byte>, n: nat, size: nat, slotSize: nat, trace: seq<seq<Byte>>,
                                           accept: nat -> int)
    requires Fits(size, slotSize) && |before| == 2 * slotSize
    requires Traced(trace, before, Padded(n, size, slotSize), Offset(n % 2, slotSize), accept)
    ensures Writes(ImagesOf(n, trace), before, n, size, slotSize, accept)
  {
    var images, padded := ImagesOf(n, trace), Padded(n, size, slotSize);
    forall i: nat | i < |images|
      ensures WrittenAt(images, i, before, n, size, slotSize, accept)
    {
      assert StateAt(trace, before, padded, Offset(n % 2, slotSize), accept, i);
    }
  }

  lemma {:induction false} WritesReachable(images: seq<Image>, before: seq<Byte>, n: nat, size: nat, slotSize: nat,
                                           accept: nat -> int)
    requires Fits(size, slotSize) && |before| == 2 * slotSize && Published(before, n, size, slotSize)
    requires Writes(images, before, n, size, slotSize, accept)
    ensures AllReachable(images, size, slotSize)
  {
    forall i: nat | i < |images|
      ensures ReachableAt(images, i, size, slotSize)
    {
      assert WrittenAt(images, i, before, n, size, slotSize, accept);
      var w := Out(accept, slotSize, i);
      assert images[i].bytes == Partial(before, Padded(n, size, slotSize), Offset(n % 2, slotSize), w);
    }
  }

  lemma {:induction false} WritesNumbered(images: seq<Image>, i: nat, before: seq<Byte>, n: nat, size: nat, slotSize: nat,
                                          accept: nat -> int)
    requires Fits(size, slotSize) && |before| == 2 * slotSize
    requires Writes(images, before, n, size, slotSize, accept) && i < |images|
    ensures images[i].n == n
  {
    assert WrittenAt(images, i, before, n, size, slotSize, accept);
  }

  lemma {:induction false} WritesFollow(images: seq<Image>, i: nat, before: seq<Byte>, n: nat, size: nat, slotSize: nat,
                                        accept: nat -> nat -> int)
    requires Fits(size, slotSize) && |before| == 2 * slotSize && Published(before, n, size, slotSize)
    requires Writes(images, before, n, size, slotSize, accept(n)) && i + 1 < |images|
    ensures FollowsAt(images, i, size, slotSize, accept)
  {
    var a, b := images[i], images[i + 1];
    assert WrittenAt(images, i, before, n, size, slotSize, accept(n));
    assert WrittenAt(images, i + 1, before, n, size, slotSize, accept(n));
    assert OneMoreWrite(a, b, size, slotSize, accept(n));
  }

  /** The first image of a publication follows the last of the one before it. */
  lemma {:induction false} NextFollows(images: seq<Image>, seen: seq<Image>, before: seq<Byte>, n: nat, size: nat,
                                       slotSize: nat, accept: nat -> nat -> int)
    requires Fits(size, slotSize) && |before| == 2 * slotSize && Published(before, n, size, slotSize)
    requires n >= 1 && images != [] && images[|images| - 1] == Image(n - 1, before)
    requires seen != [] && seen[0] == Image(n, before)
    ensures FollowsAt(images + seen, |images| - 1, size, slotSize, accept)
  {
    var all := images + seen;
    assert all[|images| - 1] == Image(n - 1, before) && all[|images|] == Image(n, before);
  }

  lemma {:induction false} FollowsShifted(images: seq<Image>, seen: seq<Image>, i: nat, size: nat, slotSize: nat,
                                          accept: nat -> nat -> int)
    requires Fits(size, slotSize) && i + 1 < |images + seen|
    requires if i + 1 < |images| then FollowsAt(images, i, size, slotSize, accept)
             else i >= |images| && FollowsAt(seen, i - |images|, size, slotSize, accept)
    ensures FollowsAt(images + seen, i, size, slotSize, accept)
  {
  }

  lemma {:induction false} ChainGrows(images: seq<Image>, seen: seq<Image>, start: seq<Byte>, before: seq<Byte>, n: nat,
                                      size: nat, slotSize: nat, accept: nat -> nat -> int)
    requires Fits(size, slotSize) && |before| == 2 * slotSize && Published(before, n, size, slotSize)
    requires Chained(images, start, size, slotSize, accept)
    requires if n == 0 then images == [] && before == start else images != [] && images[|images| - 1] == Image(n - 1, before)
    requires Writes(seen, before, n, size, slotSize, accept(n)) && seen[0] == Image(n, before)
    ensures Chained(images + seen, start, size, slotSize, accept)
  {
    var all := images + seen;
    forall i: nat | i + 1 < |all|
      ensures FollowsAt(all, i, size, slotSize, accept)
    {
      if i + 1 == |images| {
        NextFollows(images, seen, before, n, size, slotSize, accept);
      } else {
        if i + 1 > |images| {
          WritesFollow(seen, i - |images|, before, n, size, slotSize, accept);
        }
        FollowsShifted(images, seen, i, size, slotSize, accept);
      }
    }
  }

  ghost function ImagesOf(n: nat, trace: seq<seq<Byte>>): (r: seq<Image>)
    ensures |r| == |trace| && forall i :: 0 <= i < |r| ==> r[i] == Image(n, trace[i])
  {
    if trace == [] then [] else ImagesOf(n, trace[..|trace| - 1]) + [Image(n, trace[|trace| - 1])]
  }

  lemma {:induction false} ZerosAt(n: nat)
    ensures forall i :: 0 <= i < n ==> Zeros(n)[i] == 0
    decreases n
  {
    if n > 0 {
      ZerosAt(n - 1);
    }
  }

  lemma {:induction false} ZeroSlots(slotSize: nat)
    ensures var file := Zeros(2 * slotSize);
            file[..slotSize] == Zeros(slotSize) && file[slotSize..] == Zeros(slotSize)
  {
    ZerosAt(2 * slotSize);
    ZerosAt(slotSize);
  }

  lemma {:induction false} CutKeepsOther(file: seq<Byte>, n: nat, w: nat, size: nat, slotSize: nat)
    requires Fits(size, slotSize) && n >= 1 && |file| == 2 * slotSize && w <= slotSize
    requires Published(file, n, size, slotSize)
    ensures var state := Partial(file, Padded(n, size, slotSize), Offset(n % 2, slotSize), w);
            Slot(state, (n - 1) % 2, slotSize) == Slot(file, (n - 1) % 2, slotSize) == Padded(n - 1, size, slotSize)
  {
    Parity(n);
    assert SlotHolds(file, (n - 1) % 2, n, size, slotSize);
    PartialSlots(file, Padded(n, size, slotSize), n % 2, slotSize, w);
  }

  /** While publication n >= 1 is being written, however its writes are cut, the other slot
      holds publication n - 1 complete. */
  lemma {:induction false} OtherSlotSurvives(image: Image, size: nat, slotSize: nat)
    requires Fits(size, slotSize) && image.n >= 1 && Reachable(image, size, slotSize)
    ensures |image.bytes| == 2 * slotSize
    ensures Slot(image.bytes, (image.n - 1) % 2, slotSize) == Padded(image.n - 1, size, slotSize)
  {
    var file: seq<Byte>, w: nat :|
      && |file| == 2 * slotSize && Published(file, image.n, size, slotSize) && w <= slotSize
      && image.bytes == Partial(file, Padded(image.n, size, slotSize), Offset(image.n % 2, slotSize), w);
    CutKeepsOther(file, image.n, w, size, slotSize);
  }

  /** A crash may leave any mixture of the synced bytes and the bytes in flight. */
  ghost predicate Mixture(state: seq<Byte>, synced: seq<Byte>, current: seq<Byte>) {
    |state| == |synced| == |current| && forall i: nat :: i < |state| ==> MixedAt(state, synced, current, i)
  }

  predicate MixedAt(state: seq<Byte>, synced: seq<Byte>, current: seq<Byte>, i: nat)
    requires i < |state| == |synced| == |current|
  {
    state[i] == synced[i] || state[i] == current[i]
  }

  /** Even then the other slot is intact, because it was synced before and is not written. */
  lemma {:induction false} OtherSlotSurvivesCrash(file: seq<Byte>, n: nat, w: nat, size: nat, slotSize: nat, state: seq<Byte>)
    requires Fits(size, slotSize) && n >= 1 && |file| == 2 * slotSize && w <= slotSize
    requires Published(file, n, size, slotSize)
    requires Mixture(state, file, Partial(file, Padded(n, size, slotSize), Offset(n % 2, slotSize), w))
    ensures Slot(state, (n - 1) % 2, slotSize) == Padded(n - 1, size, slotSize)
  {
    var current := Partial(file, Padded(n, size, slotSize), Offset(n % 2, slotSize), w);
    CutKeepsOther(file, n, w, size, slotSize);
    MixtureKeepsSlot(state, file, current, (n - 1) % 2, slotSize);
  }

  lemma {:induction false} MixtureKeepsSlot(state: seq<Byte>, synced: seq<Byte>, current: seq<Byte>, slot: nat, slotSize: nat)
    requires slot < 2 && |synced| == 2 * slotSize && Mixture(state, synced, current)
    requires Slot(current, slot, slotSize) == Slot(synced, slot, slotSize)
    ensures Slot(state, slot, slotSize) == Slot(synced, slot, slotSize)
  {
    var a, b, c := Slot(state, slot, slotSize), Slot(synced, slot, slotSize), Slot(current, slot, slotSize);
    forall i | 0 <= i < slotSize
      ensures a[i] == b[i]
    {
      var j := Offset(slot, slotSize) + i;
      assert a[i] == state[j] && b[i] == synced[j] && c[i] == current[j];
      assert MixedAt(state, synced, current, j);
    }
  }

  // ----- Identifying what survived

  lemma {:induction false} MarkerRoundTrip(n: nat, k: nat)
    requires n < Pow256(k)
    ensures FromLittleEndian(LittleEndian(n, k)) == n
    decreases k
  {
    if k > 0 {
      MarkerRoundTrip(n / 256, k - 1);
    }
  }

  lemma {:induction false} MarkerRange()
    ensures Pow256(MARKER) == TOO_LATE
  {
    assert Pow256(1) == 256;
    assert Pow256(2) == 0x1_0000;
    assert Pow256(3) == 0x100_0000;
    assert Pow256(4) == 0x1_0000_0000;
    assert Pow256(5) == 0x100_0000_0000;
    assert Pow256(6) == 0x1_0000_0000_0000;
    assert Pow256(7) == 0x100_0000_0000_0000;
  }

  /** The publication a slot's marker claims. */
  function Claimed(slot: seq<Byte>): nat
    requires |slot| >= MARKER
  {
    FromLittleEndian(slot[..MARKER])
  }

  /** The slot holds the complete publication its marker claims. */
  predicate Complete(slot: seq<Byte>, size: nat)
    requires Fits(size, |slot|)
  {
    slot == Padded(Claimed(slot), size, |slot|)
  }

  lemma {:induction false} CompleteIsIdentified(n: nat, size: nat, slotSize: nat)
    requires Fits(size, slotSize) && n < TOO_LATE
    ensures Claimed(Padded(n, size, slotSize)) == n && Complete(Padded(n, size, slotSize), size)
  {
    MarkerRange();
    MarkerRoundTrip(n, MARKER);
    assert Padded(n, size, slotSize)[..MARKER] == LittleEndian(n, MARKER);
  }

  /** The marker with `w` bytes of n's over the rest of p's. */
  function MixedMarker(n: nat, p: nat, w: nat, k: nat): nat
    requires w <= k
  {
    if w == 0 then FromLittleEndian(LittleEndian(p, k))
    else n % 256 + 256 * MixedMarker(n / 256, p / 256, w - 1, k - 1)
  }

  lemma {:induction false} MixedMarkerIsRead(n: nat, p: nat, w: nat, k: nat)
    requires w <= k
    ensures FromLittleEndian(LittleEndian(n, k)[..w] + LittleEndian(p, k)[w..]) == MixedMarker(n, p, w, k)
    decreases w
  {
    var mix := LittleEndian(n, k)[..w] + LittleEndian(p, k)[w..];
    if w == 0 {
      assert mix == LittleEndian(p, k);
    } else {
      assert mix[1..] == LittleEndian(n / 256, k - 1)[..w - 1] + LittleEndian(p / 256, k - 1)[w - 1..];
      MixedMarkerIsRead(n / 256, p / 256, w - 1, k - 1);
    }
  }

  /** Cutting the marker of p + 1 over p's reads as p + 1, or as p + 1 less a carry. */
  lemma {:induction false} MixedSuccessor(p: nat, w: nat, k: nat)
    requires w <= k && p + 1 < Pow256(k)
    ensures MixedMarker(p + 1, p, w, k) == p + 1 || MixedMarker(p + 1, p, w, k) == p + 1 - Pow256(w)
    decreases w
  {
    if w == 0 {
      MarkerRoundTrip(p, k);
    } else if p % 256 == 255 {
      assert (p + 1) / 256 == p / 256 + 1 && (p + 1) % 256 == 0;
      MixedSuccessor(p / 256, w - 1, k - 1);
    } else {
      assert (p + 1) / 256 == p / 256;
      MixedSame(p / 256, w - 1, k - 1);
    }
  }

  lemma {:induction false} MixedSame(p: nat, w: nat, k: nat)
    requires w <= k && p < Pow256(k)
    ensures MixedMarker(p, p, w, k) == p
    decreases w
  {
    if w == 0 {
      MarkerRoundTrip(p, k);
    } else {
      MixedSame(p / 256, w - 1, k - 1);
    }
  }

  /** Cutting the marker of p + 2 over p's after at least one byte: p + 2, or less a carry. */
  lemma {:induction false} MixedSecondSuccessor(p: nat, w: nat, k: nat)
    requires 1 <= w <= k && p + 2 < Pow256(k)
    ensures MixedMarker(p + 2, p, w, k) == p + 2 || MixedMarker(p + 2, p, w, k) == p + 2 - Pow256(w)
  {
    if p % 256 >= 254 {
      assert (p + 2) / 256 == p / 256 + 1 && (p + 2) % 256 == p % 256 - 254;
      MixedSuccessor(p / 256, w - 1, k - 1);
    } else {
      assert (p + 2) / 256 == p / 256;
      MixedSame(p / 256, w - 1, k - 1);
    }
  }

  lemma {:induction false} SameRemainder(x: int, y: int)
    requires x % 251 == y % 251
    ensures x - y == 251 * (x / 251 - y / 251)
  {
  }

  /** 17 is invertible modulo 251, since 192 * 17 == 13 * 251 + 1. */
  lemma {:induction false} Invertible(d: int, q: int)
    requires 17 * d == 251 * q
    ensures d == 251 * (192 * q - 13 * d)
  {
  }

  /** Two publications whose bodies start alike are a multiple of 251 apart. */
  lemma {:induction false} BodiesDiffer(a: int, b: int)
    requires (a * 17) % 251 == (b * 17) % 251
    ensures (a - b) % 251 == 0
  {
    SameRemainder(a * 17, b * 17);
    var q := (a * 17) / 251 - (b * 17) / 251;
    Invertible(a - b, q);
    var k := 192 * q - 13 * (a - b);
    assert a - b == 251 * k;
  }

  /** No carry makes the cut marker land a multiple of 251 away. */
  lemma {:induction false} CarryNotMultiple(w: nat)
    requires 1 <= w < MARKER
    ensures (2 - Pow256(w)) % 251 != 0
  {
    assert Pow256(1) == 256;
    assert Pow256(2) == 0x1_0000;
    assert Pow256(3) == 0x100_0000;
    assert Pow256(4) == 0x1_0000_0000;
    assert Pow256(5) == 0x100_0000_0000;
    assert Pow256(6) == 0x1_0000_0000_0000;
    assert Pow256(7) == 0x100_0000_0000_0000;
  }

  /** What the slot of publication n held before it: publication n - 2, or nothing yet. */
  function Older(n: nat, size: nat, slotSize: nat): (r: seq<Byte>)
    requires Fits(size, slotSize)
    ensures |r| == slotSize
  {
    if n >= 2 then Padded(n - 2, size, slotSize) else Zeros(slotSize)
  }

  /** The slot of publication n cut after `w` bytes over what it held before. */
  function Torn(n: nat, size: nat, slotSize: nat, w: nat): (r: seq<Byte>)
    requires Fits(size, slotSize) && w <= slotSize
    ensures |r| == slotSize
  {
    Padded(n, size, slotSize)[..w] + Older(n, size, slotSize)[w..]
  }

  /** The slot reads as a complete publication other than the one being written and the one
      being replaced. */
  predicate Misread(slot: seq<Byte>, n: nat, size: nat)
    requires Fits(size, |slot|)
  {
    Complete(slot, size) && Claimed(slot) != n && !(n >= 2 && Claimed(slot) == n - 2)
  }

  lemma {:induction false} PaddedMarker(n: nat, size: nat, slotSize: nat)
    requires Fits(size, slotSize)
    ensures Padded(n, size, slotSize)[..MARKER] == LittleEndian(n, MARKER)
    ensures size > MARKER ==> Padded(n, size, slotSize)[MARKER] == (n * 17) % 251
  {
  }

  /** The publications no cut of which is misread: the first always; the second when its body
      is more than one byte; a later one when it has a body or its number has not just passed
      a multiple of 256. */
  predicate CutSafe(n: nat, size: nat) {
    || n == 0
    || (n == 1 && size > MARKER + 1)
    || (n >= 2 && (size > MARKER || n % 256 >= 2))
  }

  lemma {:induction false} TornSlotNotMisread(n: nat, size: nat, slotSize: nat, w: nat)
    requires Fits(size, slotSize) && n < TOO_LATE && w <= slotSize && CutSafe(n, size)
    ensures !Misread(Torn(n, size, slotSize, w), n, size)
  {
    if n < 2 {
      TornFirst(n, size, slotSize, w);
    } else if 1 <= w < MARKER && size > MARKER {
      TornMarkerRefuted(n, size, slotSize, w);
    } else {
      TornClaimsEither(n, size, slotSize, w);
    }
  }

  lemma {:induction false} TornClaimsEither(n: nat, size: nat, slotSize: nat, w: nat)
    requires Fits(size, slotSize) && 2 <= n < TOO_LATE && w <= slotSize
    requires w == 0 || w >= MARKER || n % 256 >= 2
    ensures Claimed(Torn(n, size, slotSize, w)) == n || Claimed(Torn(n, size, slotSize, w)) == n - 2
  {
    if w == 0 {
      assert Torn(n, size, slotSize, w) == Padded(n - 2, size, slotSize);
      CompleteIsIdentified(n - 2, size, slotSize);
    } else if w >= MARKER {
      TornLateClaim(n, size, slotSize, w);
    } else {
      TornBareClaim(n, size, slotSize, w);
    }
  }

  lemma {:induction false} TornFirst(n: nat, size: nat, slotSize: nat, w: nat)
    requires Fits(size, slotSize) && n < 2 && w <= slotSize && CutSafe(n, size)
    ensures !Misread(Torn(n, size, slotSize, w), n, size)
  {
    var torn := Torn(n, size, slotSize, w);
    TornIsMixture(n, size, slotSize, w);
    EarlyMixture(torn, n, size, slotSize);
  }

  /** Without a carry the two markers differ in their first byte only. */
  lemma {:induction false} TornBareClaim(n: nat, size: nat, slotSize: nat, w: nat)
    requires Fits(size, slotSize) && 2 <= n < TOO_LATE && 1 <= w < MARKER && n % 256 >= 2
    ensures Claimed(Torn(n, size, slotSize, w)) == n
  {
    TornMarker(n, size, slotSize, w);
    MarkerRange();
    assert (n - 2) / 256 == n / 256;
    MixedSame(n / 256, w - 1, MARKER - 1);
  }

  lemma {:induction false} TornLateClaim(n: nat, size: nat, slotSize: nat, w: nat)
    requires Fits(size, slotSize) && n < TOO_LATE && MARKER <= w <= slotSize
    ensures Claimed(Torn(n, size, slotSize, w)) == n
  {
    PaddedMarker(n, size, slotSize);
    MarkerRange();
    assert Torn(n, size, slotSize, w)[..MARKER] == Padded(n, size, slotSize)[..MARKER];
    MarkerRoundTrip(n, MARKER);
  }

  lemma {:induction false} TornMarker(n: nat, size: nat, slotSize: nat, w: nat)
    requires Fits(size, slotSize) && n >= 2 && 1 <= w < MARKER
    ensures Claimed(Torn(n, size, slotSize, w)) == MixedMarker(n, n - 2, w, MARKER)
  {
    PaddedMarker(n, size, slotSize);
    PaddedMarker(n - 2, size, slotSize);
    CutPrefix(Padded(n, size, slotSize), Padded(n - 2, size, slotSize), w, MARKER);
    MixedMarkerIsRead(n, n - 2, w, MARKER);
  }

  lemma {:induction false} CutPrefix(a: seq<Byte>, b: seq<Byte>, w: nat, k: nat)
    requires w <= k <= |a| == |b|
    ensures (a[..w] + b[w..])[..k] == a[..k][..w] + b[..k][w..]
  {
  }

  lemma {:induction false} TornClaim(n: nat, size: nat, slotSize: nat, w: nat)
    requires Fits(size, slotSize) && 2 <= n < TOO_LATE && 1 <= w < MARKER
    ensures var m := Claimed(Torn(n, size, slotSize, w)); m == n || m == n - Pow256(w)
  {
    TornMarker(n, size, slotSize, w);
    MarkerRange();
    MixedSecondSuccessor(n - 2, w, MARKER);
  }

  lemma {:induction false} TornClaimContradictsBody(m: nat, n: nat, w: nat)
    requires n >= 2 && 1 <= w < MARKER && (m == n || m == n - Pow256(w))
    ensures (m * 17) % 251 != ((n - 2) * 17) % 251
  {
    CarryNotMultiple(w);
    assert (m - (n - 2)) % 251 != 0 by {
      assert m - (n - 2) == 2 || m - (n - 2) == 2 - Pow256(w);
    }
    if (m * 17) % 251 == ((n - 2) * 17) % 251 {
      BodiesDiffer(m, n - 2);
    }
  }

  lemma {:induction false} TornMarkerRefuted(n: nat, size: nat, slotSize: nat, w: nat)
    requires Fits(size, slotSize) && 2 <= n < TOO_LATE && 1 <= w < MARKER && size > MARKER
    ensures !Complete(Torn(n, size, slotSize, w), size)
  {
    var torn := Torn(n, size, slotSize, w);
    var m := Claimed(torn);
    TornClaim(n, size, slotSize, w);
    TornClaimContradictsBody(m, n, w);
    PaddedMarker(n - 2, size, slotSize);
    PaddedMarker(m, size, slotSize);
    assert torn[MARKER] == Padded(n - 2, size, slotSize)[MARKER];
  }

  /** All but the first byte of a slot that holds a bare marker. */
  function BareRest(n: nat, slotSize: nat): seq<Byte>
    requires MARKER <= slotSize
  {
    LittleEndian(n / 256, MARKER - 1) + Zeros(slotSize - MARKER)
  }

  lemma {:induction false} BarePadded(n: nat, size: nat, slotSize: nat)
    requires Fits(size, slotSize) && size <= MARKER
    ensures Padded(n, size, slotSize) == [n % 256] + BareRest(n, slotSize)
  {
    var marker, rest, zeros := LittleEndian(n, MARKER), LittleEndian(n / 256, MARKER - 1), Zeros(slotSize - MARKER);
    assert Payload(n, size) == marker + Body(n, 0) == marker;
    assert marker == [n % 256] + rest;
    assert ([n % 256] + rest) + zeros == [n % 256] + (rest + zeros);
  }

  lemma {:induction false} CutAfterOne(x: seq<Byte>, y: seq<Byte>, a: Byte, s: seq<Byte>, b: Byte, t: seq<Byte>)
    requires x == [a] + s && y == [b] + t
    ensures x[..1] + y[1..] == [a] + t
  {
    assert x[..1] == [a] && y[1..] == t;
  }

  /** A bare marker cut after one byte keeps the rest of the older one. */
  lemma {:induction false} BareTorn(n: nat, size: nat, slotSize: nat)
    requires Fits(size, slotSize) && size <= MARKER && n >= 2
    ensures Torn(n, size, slotSize, 1) == [n % 256] + BareRest(n - 2, slotSize)
  {
    BarePadded(n, size, slotSize);
    BarePadded(n - 2, size, slotSize);
    CutAfterOne(Padded(n, size, slotSize), Padded(n - 2, size, slotSize), n % 256, BareRest(n, slotSize),
                (n - 2) % 256, BareRest(n - 2, slotSize));
  }

  lemma {:induction false} BareTornIsOlder(n: nat, size: nat, slotSize: nat)
    requires Fits(size, slotSize) && size <= MARKER && n >= 2 && n % 256 < 2
    ensures n >= 256 && Torn(n, size, slotSize, 1) == Padded(n - 256, size, slotSize)
  {
    JustPassed(n);
    BareTorn(n, size, slotSize);
    BarePadded(n - 256, size, slotSize);
  }

  lemma {:induction false} JustPassed(n: nat)
    requires n >= 2 && n % 256 < 2
    ensures n >= 256 && n % 256 == (n - 256) % 256 && (n - 2) / 256 == (n - 256) / 256
  {
  }

  /** A bare marker whose number has just passed a multiple of 256, cut after one byte, is the
      complete marker of the publication 256 before it. */
  lemma {:induction false} BareMarkerMisreads(n: nat, size: nat, slotSize: nat)
    requires Fits(size, slotSize) && size <= MARKER && 2 <= n < TOO_LATE && n % 256 < 2
    ensures Claimed(Torn(n, size, slotSize, 1)) == n - 256
    ensures Misread(Torn(n, size, slotSize, 1), n, size)
  {
    BareTornIsOlder(n, size, slotSize);
    CompleteIsIdentified(n - 256, size, slotSize);
  }

  /** With at most one byte of body an untouched slot is the complete publication 0. */
  lemma {:induction false} UntouchedSlotMisreads(size: nat, slotSize: nat)
    requires Fits(size, slotSize) && size <= MARKER + 1
    ensures Torn(1, size, slotSize, 0) == Zeros(slotSize) == Padded(0, size, slotSize)
    ensures Misread(Zeros(slotSize), 1, size)
  {
    FirstIsZeros(size, slotSize);
    assert Torn(1, size, slotSize, 0) == Zeros(slotSize);
    CompleteIsIdentified(0, size, slotSize);
  }

  lemma {:induction false} ZeroMarker(k: nat)
    ensures LittleEndian(0, k) == Zeros(k)
    decreases k
  {
    if k > 0 {
      ZeroMarker(k - 1);
    }
  }

  lemma {:induction false} FirstIsZeros(size: nat, slotSize: nat)
    requires Fits(size, slotSize) && size <= MARKER + 1
    ensures Padded(0, size, slotSize) == Zeros(slotSize)
  {
    var padded := Padded(0, size, slotSize);
    ZeroMarker(MARKER);
    ZerosAt(MARKER);
    ZerosAt(slotSize);
    ZerosAt(slotSize - |Payload(0, size)|);
    forall i | 0 <= i < slotSize
      ensures padded[i] == 0
    {
    }
  }

  ghost predicate NoCutMisread(n: nat, size: nat, slotSize: nat)
    requires Fits(size, slotSize)
  {
    forall w: nat :: w <= slotSize ==> !Misread(Torn(n, size, slotSize, w), n, size)
  }

  /** For every publication and every size: no cut is misread exactly under `CutSafe`. */
  lemma {:induction false} NeverMisreadIff(n: nat, size: nat, slotSize: nat)
    requires Fits(size, slotSize) && n < TOO_LATE
    ensures NoCutMisread(n, size, slotSize) <==> CutSafe(n, size)
  {
    if CutSafe(n, size) {
      forall w: nat | w <= slotSize
        ensures !Misread(Torn(n, size, slotSize, w), n, size)
      {
        TornSlotNotMisread(n, size, slotSize, w);
      }
    } else if n == 1 {
      UntouchedSlotMisreads(size, slotSize);
      assert Misread(Torn(n, size, slotSize, 0), n, size);
    } else {
      BareMarkerMisreads(n, size, slotSize);
    }
  }

  /** A whole run: no cut of any of its publications is misread exactly when there is but one
      or the payload is at least two bytes longer than its marker. */
  lemma {:induction false} RunNeverMisreadIff(iterations: nat, size: nat, slotSize: nat)
    requires Fits(size, slotSize) && iterations <= TOO_LATE
    ensures (forall n: nat :: n < iterations ==> NoCutMisread(n, size, slotSize))
            <==> iterations <= 1 || size > MARKER + 1
  {
    forall n: nat | n < iterations
      ensures NoCutMisread(n, size, slotSize) <==> CutSafe(n, size)
    {
      NeverMisreadIff(n, size, slotSize);
    }
    if iterations > 1 {
      assert NoCutMisread(1, size, slotSize) <==> CutSafe(1, size);
    }
  }

  // ----- Slots a crash leaves as an arbitrary mixture of bytes

  const WRAP: nat := 0x1_0000_0000

  lemma {:induction false} SplitMarker(low: nat, high: nat, k: nat, j: nat)
    requires low < Pow256(k)
    ensures LittleEndian(low + Pow256(k) * high, k + j) == LittleEndian(low, k) + LittleEndian(high, j)
    decreases k
  {
    if k == 0 {
      assert LittleEndian(low, 0) + LittleEndian(high, j) == LittleEndian(high, j);
    } else {
      var n := low + Pow256(k) * high;
      SplitStep(low, high, Pow256(k - 1));
      SplitMarker(low / 256, high, k - 1, j);
      assert LittleEndian(n, k + j) == [n % 256] + LittleEndian(n / 256, k - 1 + j);
      assert [low % 256] + (LittleEndian(low / 256, k - 1) + LittleEndian(high, j))
          == ([low % 256] + LittleEndian(low / 256, k - 1)) + LittleEndian(high, j);
    }
  }

  lemma {:induction false} SplitStep(low: nat, high: nat, unit: nat)
    requires low < 256 * unit
    ensures (low + 256 * unit * high) % 256 == low % 256
    ensures (low + 256 * unit * high) / 256 == low / 256 + unit * high
    ensures low / 256 < unit
  {
    var rest := unit * high;
    assert 256 * unit * high == 256 * rest;
  }

  lemma {:induction false} ReadSplit(a: seq<Byte>, b: seq<Byte>)
    ensures FromLittleEndian(a + b) == FromLittleEndian(a) + Pow256(|a|) * FromLittleEndian(b)
    decreases |a|
  {
    if a == [] {
      assert a + b == b;
    } else {
      ReadSplit(a[1..], b);
      assert (a + b)[0] == a[0] && (a + b)[1..] == a[1..] + b;
      var rest := FromLittleEndian(b);
      assert 256 * (Pow256(|a| - 1) * rest) == Pow256(|a|) * rest;
    }
  }

  lemma {:induction false} FourBytes(n: nat)
    requires n < WRAP
    ensures LittleEndian(n, 4) == [n % 256, n / 256 % 256, n / 0x1_0000 % 256, n / 0x100_0000]
  {
    var a, b, c := n / 256, n / 256 / 256, n / 256 / 256 / 256;
    assert b == n / 0x1_0000 && c == n / 0x100_0000;
    assert LittleEndian(c, 1) == [c % 256] + LittleEndian(c / 256, 0);
    assert LittleEndian(b, 2) == [b % 256] + LittleEndian(c, 1);
    assert LittleEndian(a, 3) == [a % 256] + LittleEndian(b, 2);
  }

  lemma {:induction false} ReadFour(bytes: seq<Byte>)
    requires |bytes| == 4
    ensures FromLittleEndian(bytes) == Number(bytes[0], bytes[1], bytes[2], bytes[3])
  {
    var a, b, c := bytes[1..], bytes[2..], bytes[3..];
    assert a[1..] == b && b[1..] == c && c[1..] == [];
    var b1: int, b2: int, b3: int := bytes[1], bytes[2], bytes[3];
    assert FromLittleEndian(c) == b3;
    assert FromLittleEndian(b) == b2 + 256 * b3;
    assert FromLittleEndian(a) == b1 + 256 * (b2 + 256 * b3);
  }

  function Number(b0: int, b1: int, b2: int, b3: int): int { b0 + 256 * b1 + 0x1_0000 * b2 + 0x100_0000 * b3 }

  lemma {:induction false} WrapIsPower()
    ensures Pow256(4) == WRAP
  {
    assert Pow256(1) == 256;
    assert Pow256(2) == 0x1_0000;
    assert Pow256(3) == 0x100_0000;
  }

  lemma {:induction false} NumberOf(u: nat)
    requires u < WRAP
    ensures u == Number(u % 256, u / 256 % 256, u / 0x1_0000 % 256, u / 0x100_0000)
  {
    assert u / 256 / 256 == u / 0x1_0000 && u / 0x1_0000 / 256 == u / 0x100_0000;
  }

  /** The four low marker bytes of `u` and `u + 2` mixed: the number is one of the two, or
      its body differs from both. */
  lemma {:induction false} MixedLowBytes(u: nat, c0: int, c1: int, c2: int, c3: int)
    requires u + 2 < WRAP
    requires c0 == u % 256 || c0 == (u + 2) % 256
    requires c1 == u / 256 % 256 || c1 == (u + 2) / 256 % 256
    requires c2 == u / 0x1_0000 % 256 || c2 == (u + 2) / 0x1_0000 % 256
    requires c3 == u / 0x100_0000 || c3 == (u + 2) / 0x100_0000
    requires var x := Number(c0, c1, c2, c3); (x - u) % 251 == 0 || (x - (u + 2)) % 251 == 0
    ensures Number(c0, c1, c2, c3) == u || Number(c0, c1, c2, c3) == u + 2
  {
    var u0, u1, u2, u3 := u % 256, u / 256 % 256, u / 0x1_0000 % 256, u / 0x100_0000;
    NumberOf(u);
    var x := Number(c0, c1, c2, c3);
    if u0 < 254 {
      NoCarry(u);
      MixedBytes(x - u, if c0 == u0 then 0 else 1, 0, 0, 0, 2, 0, 0, 0);
    } else if u1 < 255 {
      CarryOne(u, u0, u1);
      MixedBytes(x - u, if c0 == u0 then 0 else 1, if c1 == u1 then 0 else 1, 0, 0, -254, 256, 0, 0);
    } else if u2 < 255 {
      CarryTwo(u, u0, u2);
      MixedBytes(x - u, if c0 == u0 then 0 else 1, if c1 == u1 then 0 else 1, if c2 == u2 then 0 else 1, 0,
                 -254, -65280, 65536, 0);
    } else {
      CarryThree(u, u0, u3);
      MixedBytes(x - u, if c0 == u0 then 0 else 1, if c1 == u1 then 0 else 1, if c2 == u2 then 0 else 1,
                 if c3 == u3 then 0 else 1, -254, -65280, -16711680, 16777216);
    }
  }

  /** The four ways in which adding 2 can carry. */
  predicate CarryPattern(p0: int, p1: int, p2: int, p3: int) {
    || (p0 == 2 && p1 == 0 && p2 == 0 && p3 == 0)
    || (p0 == -254 && p1 == 256 && p2 == 0 && p3 == 0)
    || (p0 == -254 && p1 == -65280 && p2 == 65536 && p3 == 0)
    || (p0 == -254 && p1 == -65280 && p2 == -16711680 && p3 == 16777216)
  }

  /** Taking only some of the changed bytes never lands a multiple of 251 from either number. */
  lemma {:induction false} MixedBytes(d: int, a: int, b: int, c: int, e: int, p0: int, p1: int, p2: int, p3: int)
    requires 0 <= a <= 1 && 0 <= b <= 1 && 0 <= c <= 1 && 0 <= e <= 1 && CarryPattern(p0, p1, p2, p3)
    requires d == (if a == 1 then p0 else 0) + (if b == 1 then p1 else 0) + (if c == 1 then p2 else 0) + (if e == 1 then p3 else 0)
    requires d % 251 == 0 || (d - 2) % 251 == 0
    ensures d == 0 || d == 2
  {
  }

  lemma {:induction false} NoCarry(u: nat)
    requires u % 256 < 254
    ensures (u + 2) % 256 == u % 256 + 2
    ensures (u + 2) / 256 == u / 256 && (u + 2) / 0x1_0000 == u / 0x1_0000 && (u + 2) / 0x100_0000 == u / 0x100_0000
  {
    assert (u + 2) / 256 == u / 256;
    NextByte(u);
    NextByte(u + 2);
  }

  lemma {:induction false} NextByte(u: nat)
    ensures u / 0x1_0000 == u / 256 / 256 && u / 0x100_0000 == u / 256 / 256 / 256
  {
  }

  lemma {:induction false} CarryOne(u: nat, u0: nat, u1: nat)
    requires u0 == u % 256 >= 254 && u1 == u / 256 % 256 < 255
    ensures (u + 2) % 256 == u0 - 254 && (u + 2) / 256 % 256 == u1 + 1
    ensures (u + 2) / 0x1_0000 == u / 0x1_0000 && (u + 2) / 0x100_0000 == u / 0x100_0000
  {
    var h := u / 256;
    assert (u + 2) / 256 == h + 1;
    assert (h + 1) / 256 == h / 256;
    NextByte(u);
    NextByte(u + 2);
  }

  lemma {:induction false} CarryTwo(u: nat, u0: nat, u2: nat)
    requires u0 == u % 256 >= 254 && u / 256 % 256 == 255 && u2 == u / 0x1_0000 % 256 < 255
    ensures (u + 2) % 256 == u0 - 254 && (u + 2) / 256 % 256 == 0
    ensures (u + 2) / 0x1_0000 % 256 == u2 + 1 && (u + 2) / 0x100_0000 == u / 0x100_0000
  {
    var h, k := u / 256, u / 256 / 256;
    NextByte(u);
    NextByte(u + 2);
    assert (u + 2) / 256 == h + 1;
    assert (h + 1) / 256 == k + 1;
    assert (k + 1) / 256 == k / 256;
  }

  lemma {:induction false} CarryThree(u: nat, u0: nat, u3: nat)
    requires u0 == u % 256 >= 254 && u / 256 % 256 == 255 && u / 0x1_0000 % 256 == 255 && u3 == u / 0x100_0000
    ensures (u + 2) % 256 == u0 - 254 && (u + 2) / 256 % 256 == 0
    ensures (u + 2) / 0x1_0000 % 256 == 0 && (u + 2) / 0x100_0000 == u3 + 1
  {
    var h, k := u / 256, u / 256 / 256;
    NextByte(u);
    NextByte(u + 2);
    assert (u + 2) / 256 == h + 1;
    assert (h + 1) / 256 == k + 1;
    assert (k + 1) / 256 == k / 256 + 1;
  }

  /** The bytes a crash can leave in the slot of publication n over what it held before. */
  ghost predicate MixedSlot(state: seq<Byte>, n: nat, size: nat, slotSize: nat)
    requires Fits(size, slotSize)
  {
    Mixture(state, Older(n, size, slotSize), Padded(n, size, slotSize))
  }

  /** A cut is one of the mixtures. */
  lemma {:induction false} TornIsMixture(n: nat, size: nat, slotSize: nat, w: nat)
    requires Fits(size, slotSize) && w <= slotSize
    ensures MixedSlot(Torn(n, size, slotSize, w), n, size, slotSize)
  {
    CutIsMixture(Older(n, size, slotSize), Padded(n, size, slotSize), w);
  }

  lemma {:induction false} CutIsMixture(a: seq<Byte>, b: seq<Byte>, w: nat)
    requires w <= |a| == |b|
    ensures Mixture(b[..w] + a[w..], a, b)
  {
    var cut := b[..w] + a[w..];
    forall i: nat | i < |cut|
      ensures MixedAt(cut, a, b, i)
    {
    }
  }

  lemma {:induction false} MixedBody(state: seq<Byte>, m: nat, n: nat, p: nat, size: nat, slotSize: nat)
    requires Fits(size, slotSize) && size > MARKER && state == Padded(m, size, slotSize)
    requires Mixture(state, Padded(p, size, slotSize), Padded(n, size, slotSize))
    ensures (m - n) % 251 == 0 || (m - p) % 251 == 0
  {
    FirstBodyByte(m, size, slotSize);
    FirstBodyByte(n, size, slotSize);
    FirstBodyByte(p, size, slotSize);
    assert MixedAt(state, Padded(p, size, slotSize), Padded(n, size, slotSize), MARKER);
    SameBodyByte(m, n, p, state[MARKER]);
  }

  lemma {:induction false} FirstBodyByte(n: nat, size: nat, slotSize: nat)
    requires Fits(size, slotSize) && size > MARKER
    ensures Padded(n, size, slotSize)[MARKER] == (n * 17) % 251
  {
    PaddedMarker(n, size, slotSize);
  }

  lemma {:induction false} SameBodyByte(m: nat, n: nat, p: nat, b: Byte)
    requires b == (m * 17) % 251 && (b == (n * 17) % 251 || b == (p * 17) % 251)
    ensures (m - n) % 251 == 0 || (m - p) % 251 == 0
  {
    if b == (n * 17) % 251 {
      BodiesDiffer(m, n);
    } else {
      BodiesDiffer(m, p);
    }
  }

  lemma {:induction false} MarkerOf(low: nat, high: nat)
    requires low < WRAP
    ensures LittleEndian(low + WRAP * high, MARKER) == LittleEndian(low, 4) + LittleEndian(high, 4)
  {
    WrapIsPower();
    SplitMarker(low, high, 4, 4);
  }

  lemma {:induction false} MixedMarkerBytes(state: seq<Byte>, n: nat, size: nat, slotSize: nat)
    requires Fits(size, slotSize) && n >= 2 && MixedSlot(state, n, size, slotSize)
    ensures Mixture(state[..MARKER], LittleEndian(n - 2, MARKER), LittleEndian(n, MARKER))
  {
    PaddedMarker(n, size, slotSize);
    PaddedMarker(n - 2, size, slotSize);
    MixturePrefix(state, Padded(n - 2, size, slotSize), Padded(n, size, slotSize), MARKER);
  }

  lemma {:induction false} MixturePrefix(state: seq<Byte>, a: seq<Byte>, b: seq<Byte>, k: nat)
    requires Mixture(state, a, b) && k <= |state|
    ensures Mixture(state[..k], a[..k], b[..k])
  {
    var s, x, y := state[..k], a[..k], b[..k];
    forall i: nat | i < k
      ensures MixedAt(s, x, y, i)
    {
      assert MixedAt(state, a, b, i);
    }
  }

  /** Bytes mixed from two sequences with the same end have that end, and a mixed front. */
  lemma {:induction false} MixtureSplits(x: seq<Byte>, a: seq<Byte>, b: seq<Byte>, end: seq<Byte>)
    requires |a| == |b| && Mixture(x, a + end, b + end)
    ensures Mixture(x[..|a|], a, b) && x == x[..|a|] + end
  {
    var front := x[..|a|];
    forall i: nat | i < |x|
      ensures if i < |a| then MixedAt(front, a, b, i) else x[i] == end[i - |a|]
    {
      assert MixedAt(x, a + end, b + end, i);
    }
  }

  /** Both markers end alike; the mixed one reads as its four low bytes before that end. */
  lemma {:induction false} MixedClaim(state: seq<Byte>, u: nat, q: nat, size: nat, slotSize: nat)
    requires Fits(size, slotSize) && u + 2 < WRAP
    requires MixedSlot(state, u + WRAP * q + 2, size, slotSize)
    ensures Mixture(state[..MARKER][..4], LittleEndian(u, 4), LittleEndian(u + 2, 4))
    ensures Claimed(state) == FromLittleEndian(state[..MARKER][..4]) + WRAP * FromLittleEndian(LittleEndian(q, 4))
  {
    MixedMarkerBytes(state, u + WRAP * q + 2, size, slotSize);
    MixedMarkerParts(state[..MARKER], u, q);
  }

  lemma {:induction false} MixedMarkerParts(marker: seq<Byte>, u: nat, q: nat)
    requires u + 2 < WRAP && Mixture(marker, LittleEndian(u + WRAP * q, MARKER), LittleEndian(u + 2 + WRAP * q, MARKER))
    ensures Mixture(marker[..4], LittleEndian(u, 4), LittleEndian(u + 2, 4))
    ensures FromLittleEndian(marker) == FromLittleEndian(marker[..4]) + WRAP * FromLittleEndian(LittleEndian(q, 4))
  {
    MarkerOf(u, q);
    MarkerOf(u + 2, q);
    MixtureSplits(marker, LittleEndian(u, 4), LittleEndian(u + 2, 4), LittleEndian(q, 4));
    ReadSplit(marker[..4], LittleEndian(q, 4));
    WrapIsPower();
  }

  lemma {:induction false} FourReadBack(q: nat)
    requires q < WRAP
    ensures FromLittleEndian(LittleEndian(q, 4)) == q
  {
    WrapIsPower();
    MarkerRoundTrip(q, 4);
  }

  lemma {:induction false} FourMixed(low: seq<Byte>, u: nat)
    requires u + 2 < WRAP && Mixture(low, LittleEndian(u, 4), LittleEndian(u + 2, 4))
    ensures low[0] == u % 256 || low[0] == (u + 2) % 256
    ensures low[1] == u / 256 % 256 || low[1] == (u + 2) / 256 % 256
    ensures low[2] == u / 0x1_0000 % 256 || low[2] == (u + 2) / 0x1_0000 % 256
    ensures low[3] == u / 0x100_0000 || low[3] == (u + 2) / 0x100_0000
  {
    FourBytes(u);
    FourBytes(u + 2);
    var a, b := LittleEndian(u, 4), LittleEndian(u + 2, 4);
    assert MixedAt(low, a, b, 0) && MixedAt(low, a, b, 1) && MixedAt(low, a, b, 2) && MixedAt(low, a, b, 3);
  }

  /** With a body, unless the publication number has just passed a multiple of 2^32. */
  lemma {:induction false} LateMixture(state: seq<Byte>, n: nat, size: nat, slotSize: nat)
    requires Fits(size, slotSize) && 2 <= n < TOO_LATE && size > MARKER && n % WRAP >= 2
    requires MixedSlot(state, n, size, slotSize) && Complete(state, size)
    ensures Claimed(state) == n || Claimed(state) == n - 2
  {
    SplitNumber(n);
    LateClaim(state, n, n % WRAP - 2, n / WRAP, size, slotSize);
  }

  lemma {:induction false} SplitNumber(n: nat)
    requires n < TOO_LATE && n % WRAP >= 2
    ensures n == (n % WRAP - 2) + WRAP * (n / WRAP) + 2 && n / WRAP < WRAP
  {
  }

  lemma {:induction false} LateClaim(state: seq<Byte>, n: nat, u: nat, q: nat, size: nat, slotSize: nat)
    requires Fits(size, slotSize) && size > MARKER && n == u + WRAP * q + 2 && u + 2 < WRAP && q < WRAP
    requires MixedSlot(state, n, size, slotSize) && Complete(state, size)
    ensures Claimed(state) == n || Claimed(state) == n - 2
  {
    MixedClaim(state, u, q, size, slotSize);
    FourReadBack(q);
    MixedBody(state, Claimed(state), n, n - 2, size, slotSize);
    LowBytesDecide(state[..MARKER][..4], Claimed(state), n, u, q);
  }

  lemma {:induction false} LowBytesDecide(low: seq<Byte>, m: nat, n: nat, u: nat, q: nat)
    requires u + 2 < WRAP && Mixture(low, LittleEndian(u, 4), LittleEndian(u + 2, 4))
    requires n == u + WRAP * q + 2 && m == FromLittleEndian(low) + WRAP * q
    requires (m - n) % 251 == 0 || (m - (n - 2)) % 251 == 0
    ensures m == n || m == n - 2
  {
    var x := FromLittleEndian(low);
    assert m - n == x - (u + 2) && m - (n - 2) == x - u;
    ReadFour(low);
    FourMixed(low, u);
    MixedLowBytes(u, low[0], low[1], low[2], low[3]);
  }

  /** Without a carry a mixed bare marker is one of the two it was mixed from. */
  lemma {:induction false} BareMixture(state: seq<Byte>, n: nat, size: nat, slotSize: nat)
    requires Fits(size, slotSize) && 2 <= n < TOO_LATE && n % 256 >= 2
    requires MixedSlot(state, n, size, slotSize)
    ensures Claimed(state) == n || Claimed(state) == n - 2
  {
    var marker := state[..MARKER];
    MixedMarkerBytes(state, n, size, slotSize);
    assert (n - 2) / 256 == n / 256;
    OneByteMixed(marker, n % 256, (n - 2) % 256, LittleEndian(n / 256, MARKER - 1));
    MarkerRange();
    MarkerRoundTrip(n, MARKER);
    MarkerRoundTrip(n - 2, MARKER);
  }

  lemma {:induction false} OneByteMixed(x: seq<Byte>, a: Byte, b: Byte, end: seq<Byte>)
    requires Mixture(x, [b] + end, [a] + end)
    ensures x == [a] + end || x == [b] + end
  {
    MixtureSplits(x, [b], [a], end);
    assert MixedAt(x[..1], [b], [a], 0);
    assert x[..1] == [x[0]];
  }

  /** Over an untouched slot only the first marker byte can differ, so the claim is 0 or n, and
      a body of two bytes tells that publication 0 is not there. */
  lemma {:induction false} EarlyMixture(state: seq<Byte>, n: nat, size: nat, slotSize: nat)
    requires Fits(size, slotSize) && n < 2 && MixedSlot(state, n, size, slotSize)
    requires n == 0 || size > MARKER + 1
    ensures !Misread(state, n, size)
  {
    EarlyClaim(state, n, size, slotSize);
    if n == 1 && Claimed(state) == 0 {
      EarlyBody(state, n, Claimed(state), size, slotSize);
    }
  }

  lemma {:induction false} EarlyClaim(state: seq<Byte>, n: nat, size: nat, slotSize: nat)
    requires Fits(size, slotSize) && n < 2 && MixedSlot(state, n, size, slotSize)
    ensures Claimed(state) == 0 || Claimed(state) == n
  {
    ZerosPrefix(slotSize, MARKER);
    PaddedMarker(n, size, slotSize);
    MixturePrefix(state, Zeros(slotSize), Padded(n, size, slotSize), MARKER);
    EarlyMarker(state[..MARKER], n);
  }

  lemma {:induction false} ZerosPrefix(n: nat, k: nat)
    requires k <= n
    ensures Zeros(n)[..k] == Zeros(k)
  {
    ZerosAt(n);
    ZerosAt(k);
  }

  lemma {:induction false} EarlyMarker(marker: seq<Byte>, n: nat)
    requires n < 2 && Mixture(marker, Zeros(MARKER), LittleEndian(n, MARKER))
    ensures FromLittleEndian(marker) == 0 || FromLittleEndian(marker) == n
  {
    var end := Zeros(MARKER - 1);
    ZeroMarker(MARKER - 1);
    ZeroMarker(MARKER);
    assert Zeros(MARKER) == [0] + end;
    assert LittleEndian(n, MARKER) == [n] + end;
    OneByteMixed(marker, n, 0, end);
    MarkerRange();
    MarkerRoundTrip(n, MARKER);
    MarkerRoundTrip(0, MARKER);
  }

  lemma {:induction false} EarlyBody(state: seq<Byte>, n: nat, m: nat, size: nat, slotSize: nat)
    requires Fits(size, slotSize) && size > MARKER + 1
    requires (m * 17 + 1) % 251 != 0 && (m * 17 + 1) % 251 != (n * 17 + 1) % 251
    requires Mixture(state, Zeros(slotSize), Padded(n, size, slotSize))
    ensures state != Padded(m, size, slotSize)
  {
    ZeroAt(slotSize, MARKER + 1);
    SecondBodyByte(n, size, slotSize);
    SecondBodyByte(m, size, slotSize);
    NotThird(state, Zeros(slotSize), Padded(n, size, slotSize), Padded(m, size, slotSize), MARKER + 1);
  }

  lemma {:induction false} ZeroAt(n: nat, i: nat)
    requires i < n
    ensures Zeros(n)[i] == 0
  {
    ZerosAt(n);
  }

  lemma {:induction false} NotThird(state: seq<Byte>, a: seq<Byte>, b: seq<Byte>, c: seq<Byte>, i: nat)
    requires Mixture(state, a, b) && i < |state| == |c| && a[i] != c[i] && b[i] != c[i]
    ensures state != c
  {
    assert MixedAt(state, a, b, i);
  }

  lemma {:induction false} SecondBodyByte(n: nat, size: nat, slotSize: nat)
    requires Fits(size, slotSize) && size > MARKER + 1
    ensures Padded(n, size, slotSize)[MARKER + 1] == (n * 17 + 1) % 251
  {
    assert Padded(n, size, slotSize)[MARKER + 1] == Payload(n, size)[MARKER + 1];
    assert Payload(n, size)[MARKER + 1] == Body(n, size - MARKER)[1];
  }

  /** The publications no mixture of which is misread: as `CutSafe`, but a body only helps
      while the number has not just passed a multiple of 2^32. */
  predicate MixSafe(n: nat, size: nat) {
    || n == 0
    || (n == 1 && size > MARKER + 1)
    || (n >= 2 && n % (if size > MARKER then WRAP else 256) >= 2)
  }

  lemma {:induction false} MixtureNotMisread(state: seq<Byte>, n: nat, size: nat, slotSize: nat)
    requires Fits(size, slotSize) && n < TOO_LATE && MixSafe(n, size)
    requires MixedSlot(state, n, size, slotSize)
    ensures !Misread(state, n, size)
  {
    if n < 2 {
      EarlyMixture(state, n, size, slotSize);
    } else if size <= MARKER {
      BareMixture(state, n, size, slotSize);
    } else if Complete(state, size) {
      LateMixture(state, n, size, slotSize);
    }
  }

  /** The number whose marker is that of n - 2 with the fourth byte of n's, just past q * 2^32. */
  function Lookalike(q: nat, e: nat): nat { 0x00FF_FFFE + e + WRAP * q }

  /** The slot with that marker and the new publication's body. */
  function LookalikeSlot(q: nat, e: nat, size: nat, slotSize: nat): seq<Byte>
    requires Fits(size, slotSize)
  {
    Padded(Lookalike(q, e), size, slotSize)
  }

  /** The marker of the look-alike takes every byte from one of the two markers. */
  lemma {:induction false} LookalikeMarker(q: nat, e: nat)
    requires e < 2
    ensures Mixture(LittleEndian(Lookalike(q, e), MARKER), LittleEndian(WRAP - 2 + e + WRAP * q, MARKER),
                    LittleEndian(e + WRAP * (q + 1), MARKER))
  {
    LookalikeJoined(q, e, 0x00FF_FFFE + e, WRAP - 2 + e);
  }

  lemma {:induction false} LookalikeJoined(q: nat, e: nat, m: nat, p: nat)
    requires e < 2 && m == 0x00FF_FFFE + e && p == WRAP - 2 + e
    ensures Mixture(LittleEndian(m + WRAP * q, MARKER), LittleEndian(p + WRAP * q, MARKER),
                    LittleEndian(e + WRAP * (q + 1), MARKER))
  {
    MarkerOf(m, q);
    MarkerOf(p, q);
    MarkerOf(e, q + 1);
    LookalikeLow(e, m, p);
    MixJoined(LittleEndian(m, 4), LittleEndian(e, 4), LittleEndian(p, 4), LittleEndian(q, 4), LittleEndian(q + 1, 4));
    MixtureSwaps(LittleEndian(m, 4) + LittleEndian(q, 4), LittleEndian(e, 4) + LittleEndian(q + 1, 4),
                 LittleEndian(p, 4) + LittleEndian(q, 4));
  }

  lemma {:induction false} MixtureSwaps(x: seq<Byte>, a: seq<Byte>, b: seq<Byte>)
    requires Mixture(x, a, b)
    ensures Mixture(x, b, a)
  {
    forall i: nat | i < |x|
      ensures MixedAt(x, b, a, i)
    {
      assert MixedAt(x, a, b, i);
    }
  }

  lemma {:induction false} LowBytes(n: nat, b0: Byte, b1: Byte, b2: Byte, b3: Byte)
    requires n == Number(b0, b1, b2, b3)
    ensures n < WRAP && LittleEndian(n, 4) == [b0, b1, b2, b3]
  {
    var rest := b1 + 256 * b2 + 0x1_0000 * b3;
    Shifted(n, b0, rest);
    Shifted(rest, b1, b2 + 256 * b3);
    Shifted(b2 + 256 * b3, b2, b3);
    NextByte(n);
    FourBytes(n);
  }

  lemma {:induction false} Shifted(n: nat, low: nat, rest: nat)
    requires n == low + 256 * rest && low < 256
    ensures n / 256 == rest && n % 256 == low
  {
  }

  lemma {:induction false} LookalikeLow(e: nat, m: nat, p: nat)
    requires e < 2 && m == 0x00FF_FFFE + e && p == WRAP - 2 + e
    ensures Mixture(LittleEndian(m, 4), LittleEndian(e, 4), LittleEndian(p, 4))
  {
    LowBytes(m, 254 + e, 255, 255, 0);
    LowBytes(p, 254 + e, 255, 255, 255);
    LowBytes(e, e, 0, 0, 0);
    var x, a, b := LittleEndian(m, 4), LittleEndian(e, 4), LittleEndian(p, 4);
    forall i: nat | i < 4
      ensures MixedAt(x, a, b, i)
    {
    }
  }

  lemma {:induction false} SameRest(x: nat, y: nat, k: nat)
    requires y == x + 251 * k
    ensures x % 251 == y % 251
  {
  }

  lemma {:induction false} SameBody(m: nat, n: nat, k: nat, len: nat)
    requires n == m + 251 * k
    ensures Body(m, len) == Body(n, len)
  {
    forall i | 0 <= i < len
      ensures BodyByte(m, i) == BodyByte(n, i)
    {
      SameRest(m * 17 + i, n * 17 + i, 17 * k);
    }
  }

  /** Just past a multiple of 2^32 a mixture reads as a third publication, complete. */
  lemma {:induction false} MixtureMisreads(n: nat, q: nat, e: nat, size: nat, slotSize: nat)
    requires Fits(size, slotSize) && e < 2 && size > MARKER && n == e + WRAP * (q + 1) < TOO_LATE
    ensures var state := LookalikeSlot(q, e, size, slotSize);
            MixedSlot(state, n, size, slotSize) && Misread(state, n, size)
  {
    var m, p := Lookalike(q, e), n - 2;
    assert p == WRAP - 2 + e + WRAP * q;
    CompleteIsIdentified(m, size, slotSize);
    assert n == m + 251 * 17044582;
    SameBody(m, n, 17044582, size - MARKER);
    LookalikeMarker(q, e);
    MixPadded(m, p, n, size, slotSize);
  }

  /** Mixed markers before one body make a mixed slot. */
  lemma {:induction false} MixPadded(m: nat, p: nat, n: nat, size: nat, slotSize: nat)
    requires Fits(size, slotSize) && size > MARKER && Body(m, size - MARKER) == Body(n, size - MARKER)
    requires Mixture(LittleEndian(m, MARKER), LittleEndian(p, MARKER), LittleEndian(n, MARKER))
    ensures Mixture(Padded(m, size, slotSize), Padded(p, size, slotSize), Padded(n, size, slotSize))
  {
    var x, y, z := LittleEndian(m, MARKER), LittleEndian(p, MARKER), LittleEndian(n, MARKER);
    var tail, other := Body(n, size - MARKER) + Zeros(slotSize - size), Body(p, size - MARKER) + Zeros(slotSize - size);
    PaddedParts(m, size, slotSize);
    PaddedParts(p, size, slotSize);
    PaddedParts(n, size, slotSize);
    MixJoined(x, y, z, tail, other);
  }

  lemma {:induction false} PaddedParts(n: nat, size: nat, slotSize: nat)
    requires Fits(size, slotSize) && size > MARKER
    ensures Padded(n, size, slotSize)
         == LittleEndian(n, MARKER) + (Body(n, size - MARKER) + Zeros(slotSize - size))
  {
    assert (LittleEndian(n, MARKER) + Body(n, size - MARKER)) + Zeros(slotSize - size)
        == LittleEndian(n, MARKER) + (Body(n, size - MARKER) + Zeros(slotSize - size));
  }

  lemma {:induction false} MixJoined(x: seq<Byte>, y: seq<Byte>, z: seq<Byte>, tail: seq<Byte>, other: seq<Byte>)
    requires Mixture(x, y, z) && |tail| == |other|
    ensures Mixture(x + tail, y + other, z + tail)
  {
    var a, b, c := x + tail, y + other, z + tail;
    forall i: nat | i < |a|
      ensures MixedAt(a, b, c, i)
    {
      assert i < |x| ==> MixedAt(x, y, z, i);
    }
  }

  ghost predicate NoMixtureMisread(n: nat, size: nat, slotSize: nat)
    requires Fits(size, slotSize)
  {
    forall state :: MixedSlot(state, n, size, slotSize) ==> !Misread(state, n, size)
  }

  /** The mixture that is misread, where there is one. */
  function MisreadSlot(n: nat, size: nat, slotSize: nat): (r: seq<Byte>)
    requires Fits(size, slotSize)
    ensures |r| == slotSize
  {
    if n == 1 then Zeros(slotSize)
    else if size <= MARKER then Torn(n, size, slotSize, 1)
    else if n >= WRAP then LookalikeSlot(n / WRAP - 1, n % WRAP, size, slotSize)
    else Padded(n, size, slotSize)
  }

  lemma {:induction false} UnsafeIsMisread(n: nat, size: nat, slotSize: nat)
    requires Fits(size, slotSize) && n < TOO_LATE && !MixSafe(n, size)
    ensures MixedSlot(MisreadSlot(n, size, slotSize), n, size, slotSize)
    ensures Misread(MisreadSlot(n, size, slotSize), n, size)
  {
    if n == 1 {
      UntouchedSlotMisreads(size, slotSize);
      TornIsMixture(n, size, slotSize, 0);
    } else if size <= MARKER {
      BareMarkerMisreads(n, size, slotSize);
      TornIsMixture(n, size, slotSize, 1);
    } else {
      WrappedMisreads(n, size, slotSize);
    }
  }

  lemma {:induction false} WrappedMisreads(n: nat, size: nat, slotSize: nat)
    requires Fits(size, slotSize) && 2 <= n < TOO_LATE && size > MARKER && n % WRAP < 2
    ensures n >= WRAP
    ensures var state := LookalikeSlot(n / WRAP - 1, n % WRAP, size, slotSize);
            MixedSlot(state, n, size, slotSize) && Misread(state, n, size)
  {
    Wrapped(n);
    MixtureMisreads(n, n / WRAP - 1, n % WRAP, size, slotSize);
  }

  lemma {:induction false} Wrapped(n: nat)
    requires n >= 2 && n % WRAP < 2
    ensures n >= WRAP && n / WRAP >= 1 && n == n % WRAP + WRAP * (n / WRAP - 1 + 1)
  {
  }

  /** For every publication and every size: no byte mixture a crash can leave is misread exactly
      under `MixSafe`. */
  lemma {:induction false} MixtureNeverMisreadIff(n: nat, size: nat, slotSize: nat)
    requires Fits(size, slotSize) && n < TOO_LATE
    ensures NoMixtureMisread(n, size, slotSize) <==> MixSafe(n, size)
  {
    if MixSafe(n, size) {
      forall state | MixedSlot(state, n, size, slotSize)
        ensures !Misread(state, n, size)
      {
        MixtureNotMisread(state, n, size, slotSize);
      }
    } else {
      UnsafeIsMisread(n, size, slotSize);
    }
  }

  /** A whole run: no mixture of any of its publications is misread exactly when there is but
      one, or the payload is at least two bytes longer than its marker and there are at most
      2^32 publications. */
  lemma {:induction false} RunMixturesNeverMisreadIff(iterations: nat, size: nat, slotSize: nat)
    requires Fits(size, slotSize) && iterations <= TOO_LATE
    ensures (forall n: nat :: n < iterations ==> NoMixtureMisread(n, size, slotSize))
            <==> iterations <= 1 || (size > MARKER + 1 && iterations <= WRAP)
  {
    forall n: nat | n < iterations
      ensures NoMixtureMisread(n, size, slotSize) <==> MixSafe(n, size)
    {
      MixtureNeverMisreadIff(n, size, slotSize);
    }
    if iterations <= 1 || (size > MARKER + 1 && iterations <= WRAP) {
      forall n: nat | n < iterations
        ensures MixSafe(n, size)
      {
        EarlyIsSafe(n, size);
      }
    } else {
      var n := if size <= MARKER + 1 then 1 else WRAP;
      LateIsUnsafe(size);
      assert n < iterations && !NoMixtureMisread(n, size, slotSize);
    }
  }

  lemma {:induction false} EarlyIsSafe(n: nat, size: nat)
    requires n == 0 || (size > MARKER + 1 && n < WRAP)
    ensures MixSafe(n, size)
  {
  }

  lemma {:induction false} LateIsUnsafe(size: nat)
    ensures !MixSafe(if size <= MARKER + 1 then 1 else WRAP, size)
  {
  }
}
