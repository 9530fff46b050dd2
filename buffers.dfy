/** A GPU buffer kept coherent with the guest memory it mirrors (gpu/buffer.h, gpu/buffer.cpp).
    The guest-visible bytes live in `mirror`, the host GPU's copy in `backing`; `dirtyState`
    records which of the two holds the newer data, and a ghost trap mode stands for the
    page protection the emulator installs over the guest range. */
module Buffers {
  import opened Common

  /** Which side holds data the other has not seen yet. */
  datatype DirtyState =
    | Clean     // the guest mirror and the host backing agree
    | CpuDirty  // the guest wrote the mirror; the backing is stale
    | GpuDirty  // the host GPU wrote the backing; the mirror is stale

  /** The protection over the guest range: none (host-only buffer), faults on guest
      writes only, or faults on guest reads and writes. */
  datatype TrapMode = NoTrap | WriteTrap | ReadWriteTrap

  /** The dirty state after `SynchronizeHost(rwTrap)`. */
  function DirtyAfterSynchronizeHost(s: DirtyState, hasGuest: bool, rwTrap: bool): DirtyState
  {
    if s != CpuDirty || !hasGuest then s
    else if rwTrap then GpuDirty
    else Clean
  }

  /** The dirty state after `SynchronizeGuest`, whatever `skipTrap` is. */
  function DirtyAfterSynchronizeGuest(s: DirtyState, hasGuest: bool): DirtyState
  {
    if s != GpuDirty || !hasGuest then s else Clean
  }

  /** The dirty state after `MarkGpuDirty`. */
  function DirtyAfterMarkGpuDirty(s: DirtyState): DirtyState
  {
    GpuDirty
  }

  /** A guest write fault: the mirror is first refreshed if the GPU was ahead, then the
      guest is assumed to have dirtied it. */
  function DirtyAfterWriteTrap(s: DirtyState): DirtyState
  {
    CpuDirty
  }

  /** A guest read fault brings the mirror up to date. */
  function DirtyAfterReadTrap(s: DirtyState, hasGuest: bool): DirtyState
  {
    DirtyAfterSynchronizeGuest(s, hasGuest)
  }

  /** Synchronisation in either direction is idempotent: a second call finds nothing to copy. */
  lemma SynchronizeIdempotent(s: DirtyState, hasGuest: bool, rwTrap: bool)
    ensures DirtyAfterSynchronizeHost(DirtyAfterSynchronizeHost(s, hasGuest, rwTrap), hasGuest, rwTrap)
         == DirtyAfterSynchronizeHost(s, hasGuest, rwTrap)
    ensures DirtyAfterSynchronizeGuest(DirtyAfterSynchronizeGuest(s, hasGuest), hasGuest)
         == DirtyAfterSynchronizeGuest(s, hasGuest)
    ensures DirtyAfterMarkGpuDirty(DirtyAfterMarkGpuDirty(s)) == DirtyAfterMarkGpuDirty(s)
  {
  }

  /** A full round of the state machine: after the guest dirties a buffer, uploading it
      and letting the GPU write it, reading it back leaves the buffer clean. */
  lemma GuestHostGuestCycle(s: DirtyState, rwTrap: bool)
    ensures DirtyAfterSynchronizeGuest(
              DirtyAfterMarkGpuDirty(DirtyAfterSynchronizeHost(DirtyAfterWriteTrap(s), true, rwTrap)), true) == Clean
  {
  }

  /** One entry of a buffer's view cache: a typed sub-range of the buffer. */
  datatype BufferViewStorage = BufferViewStorage(offset: u64, size: u64, format: nat)

  /** No storage occurs twice in the view cache. */
  ghost predicate NoDuplicates<T>(s: seq<T>)
  {
    forall i, j :: 0 <= i < j < |s| ==> s[i] != s[j]
  }

  /** `s` with `data` written over it at `offset`. */
  function Splice(s: seq<bv8>, offset: nat, data: seq<bv8>): (r: seq<bv8>)
    requires offset + |data| <= |s|
    ensures |r| == |s|
    ensures r[offset..offset + |data|] == data
    ensures forall i :: 0 <= i < |s| && !(offset <= i < offset + |data|) ==> r[i] == s[i]
  {
    s[..offset] + data + s[offset + |data|..]
  }

  /** An opaque usage callback registered on a view. */
  type UsageCallback = nat

  class Buffer {
    /** The guest mapping of the buffer, empty for a host-only buffer. */
    var mirror: array<bv8>
    /** The host GPU buffer. */
    var backing: array<bv8>
    /** Whether a guest buffer backs this one (`guest` is set). */
    const hasGuest: bool
    var dirtyState: DirtyState
    ghost var trap: TrapMode
    /** The view cache, in insertion order. */
    var views: seq<BufferViewStorage>
    /** The delegates currently referring to this buffer. */
    var delegates: seq<BufferDelegate>

    ghost predicate Valid()
      reads this
    {
      && mirror != backing
      && (hasGuest ==> mirror.Length == backing.Length && trap != NoTrap)
      && (!hasGuest ==> mirror.Length == 0 && dirtyState == Clean && trap == NoTrap)
      && (dirtyState == GpuDirty ==> trap == ReadWriteTrap)
      && NoDuplicates(views)
      && NoDuplicates(delegates)
    }

    /** The mirror and the backing hold the same bytes. */
    ghost predicate Coherent()
      reads this, mirror, backing
      requires Valid()
    {
      mirror[..] == backing[..mirror.Length]
    }

    /** The bytes a reader of the buffer sees: the mirror unless the GPU is ahead. */
    ghost function Visible(): seq<bv8>
      reads this, mirror, backing
    {
      if dirtyState == GpuDirty then backing[..] else mirror[..]
    }

    /** A buffer mirroring `guest`; it starts CpuDirty under a write trap, so its first
        use uploads the guest data. The backing is freshly allocated (contents unspecified). */
    constructor (guest: seq<bv8>)
      ensures Valid() && fresh(mirror) && fresh(backing)
      ensures hasGuest && mirror[..] == guest && backing.Length == |guest|
      ensures dirtyState == CpuDirty && trap == WriteTrap
      ensures views == [] && delegates == []
    {
      mirror := new bv8[|guest|](i requires 0 <= i < |guest| => guest[i]);
      backing := new bv8[|guest|];
      hasGuest := true;
      dirtyState := CpuDirty;
      trap := WriteTrap;
      views := [];
      delegates := [];
    }

    /** A host-only buffer of `size` bytes: no mirror, no trap, always Clean. */
    constructor HostOnly(size: nat)
      ensures Valid() && fresh(mirror) && fresh(backing)
      ensures !hasGuest && mirror.Length == 0 && backing.Length == size
      ensures dirtyState == Clean && trap == NoTrap
      ensures views == [] && delegates == []
    {
      mirror := new bv8[0];
      backing := new bv8[size];
      hasGuest := false;
      dirtyState := Clean;
      trap := NoTrap;
      views := [];
      delegates := [];
    }

    /** Records that GPU work wrote the backing; the guest range is then trapped for
        reads and writes so the guest cannot see the stale mirror. */
    method MarkGpuDirty()
      requires Valid()
      requires hasGuest
      modifies this`dirtyState, this`trap
      ensures Valid()
      ensures dirtyState == DirtyAfterMarkGpuDirty(old(dirtyState)) && trap == ReadWriteTrap
      ensures old(dirtyState) == GpuDirty ==> trap == old(trap)
    {
      if dirtyState == GpuDirty {
        return;
      }
      trap := ReadWriteTrap;
      dirtyState := GpuDirty;
    }

    /** Uploads the mirror into the backing if the guest dirtied it. */
    method SynchronizeHost(rwTrap: bool)
      requires Valid()
      modifies this`dirtyState, this`trap, backing
      ensures Valid()
      ensures dirtyState == DirtyAfterSynchronizeHost(old(dirtyState), hasGuest, rwTrap)
      ensures old(dirtyState) != CpuDirty || !hasGuest ==>
        trap == old(trap) && backing[..] == old(backing[..])
      ensures old(dirtyState) == CpuDirty && hasGuest ==>
        && backing[..] == mirror[..]
        && Coherent()
        && trap == (if rwTrap then ReadWriteTrap else WriteTrap)
      ensures mirror[..] == old(mirror[..])
    {
      if dirtyState != CpuDirty || !hasGuest {
        return;
      }
      CopyInto(mirror, backing);
      if rwTrap {
        trap := ReadWriteTrap;
        dirtyState := GpuDirty;
      } else {
        trap := WriteTrap;
        dirtyState := Clean;
      }
    }

    /** The same upload, but skipping the fence wait when the given cycle already owns
        the buffer; fence cycles are not part of this model, so its effect is SynchronizeHost's. */
    method SynchronizeHostWithCycle(rwTrap: bool)
      requires Valid()
      modifies this`dirtyState, this`trap, backing
      ensures Valid()
      ensures dirtyState == DirtyAfterSynchronizeHost(old(dirtyState), hasGuest, rwTrap)
      ensures old(dirtyState) != CpuDirty || !hasGuest ==>
        trap == old(trap) && backing[..] == old(backing[..])
      ensures old(dirtyState) == CpuDirty && hasGuest ==>
        && backing[..] == mirror[..]
        && trap == (if rwTrap then ReadWriteTrap else WriteTrap)
      ensures mirror[..] == old(mirror[..])
    {
      SynchronizeHost(rwTrap);
    }

    /** Downloads the backing into the mirror if the GPU wrote it. The state becomes
        Clean even when `skipTrap` leaves the protection as it was. */
    method SynchronizeGuest(skipTrap: bool, skipFence: bool)
      requires Valid()
      modifies this`dirtyState, this`trap, mirror
      ensures Valid()
      ensures dirtyState == DirtyAfterSynchronizeGuest(old(dirtyState), hasGuest)
      ensures old(dirtyState) != GpuDirty || !hasGuest ==>
        trap == old(trap) && mirror[..] == old(mirror[..])
      ensures old(dirtyState) == GpuDirty && hasGuest ==>
        && mirror[..] == old(backing[..])
        && Coherent()
        && trap == (if skipTrap then old(trap) else WriteTrap)
      ensures backing[..] == old(backing[..])
    {
      if dirtyState != GpuDirty || !hasGuest {
        return;
      }
      CopyInto(backing, mirror);
      if !skipTrap {
        trap := WriteTrap;
      }
      dirtyState := Clean;
    }

    /** The read-fault handler installed over the guest range. */
    method ReadTrapCallback()
      requires Valid()
      modifies this`dirtyState, this`trap, mirror
      ensures Valid()
      ensures dirtyState == DirtyAfterReadTrap(old(dirtyState), hasGuest)
      ensures old(dirtyState) == GpuDirty && hasGuest ==> mirror[..] == backing[..]
      ensures old(dirtyState) != GpuDirty ==> mirror[..] == old(mirror[..])
      ensures trap == old(trap) && backing[..] == old(backing[..])
    {
      SynchronizeGuest(true, false);
    }

    /** The write-fault handler: the mirror is refreshed first when the GPU was ahead
        (so the guest's partial write lands on current data), then the buffer is CpuDirty. */
    method WriteTrapCallback()
      requires Valid()
      requires hasGuest
      modifies this`dirtyState, this`trap, mirror
      ensures Valid()
      ensures dirtyState == DirtyAfterWriteTrap(old(dirtyState))
      ensures old(dirtyState) == GpuDirty ==> mirror[..] == backing[..]
      ensures old(dirtyState) != GpuDirty ==> mirror[..] == old(mirror[..])
      ensures trap == old(trap) && backing[..] == old(backing[..])
    {
      SynchronizeGuest(true, false);
      dirtyState := CpuDirty;
    }

    /** Reads `count` bytes at `offset` from whichever side holds the current data. */
    method Read(count: nat, offset: nat) returns (data: seq<bv8>)
      requires Valid()
      requires offset + count <= |Visible()|
      ensures data == Visible()[offset..offset + count]
      ensures dirtyState != GpuDirty ==> data == mirror[offset..offset + count]
      ensures dirtyState == GpuDirty ==> data == backing[offset..offset + count]
    {
      if dirtyState == CpuDirty || dirtyState == Clean {
        data := mirror[offset..offset + count];
      } else {
        data := backing[offset..offset + count];
      }
    }

    /** Writes `data` at `offset`. The mirror is written unless the GPU is ahead; the backing
        is written when the GPU is ahead, or when the buffer is Clean and the caller did not
        ask to skip the host write. The dirty state never changes. */
    method Write(data: seq<bv8>, offset: nat, skipCleanHostWrite: bool)
      requires Valid()
      requires dirtyState != GpuDirty ==> offset + |data| <= mirror.Length
      requires dirtyState == GpuDirty || (dirtyState == Clean && !skipCleanHostWrite) ==>
        offset + |data| <= backing.Length
      modifies mirror, backing
      ensures Valid()
      ensures mirror[..] == if old(dirtyState) != GpuDirty
        then Splice(old(mirror[..]), offset, data) else old(mirror[..])
      ensures backing[..] == if old(dirtyState) == GpuDirty || (old(dirtyState) == Clean && !skipCleanHostWrite)
        then Splice(old(backing[..]), offset, data) else old(backing[..])
      ensures offset + |data| <= |Visible()| && Visible() == Splice(old(Visible()), offset, data)
      ensures dirtyState == Clean && !skipCleanHostWrite && old(Coherent()) ==> Coherent()
    {
      if dirtyState == CpuDirty || dirtyState == Clean {
        WriteAt(mirror, data, offset);
      }
      if (!skipCleanHostWrite && dirtyState == Clean) || dirtyState == GpuDirty {
        WriteAt(backing, data, offset);
      }
    }

    /** Finds the cached storage for `(offset, size, format)`, adding it when it is new,
        and returns a view on it through a new delegate. */
    method GetView(offset: u64, size: u64, format: nat) returns (view: BufferView)
      requires Valid()
      modifies this`views, this`delegates
      ensures Valid()
      ensures BufferViewStorage(offset, size, format) in views
      ensures BufferViewStorage(offset, size, format) in old(views) ==> views == old(views)
      ensures BufferViewStorage(offset, size, format) !in old(views) ==>
        views == old(views) + [BufferViewStorage(offset, size, format)]
      ensures view.bufferDelegate != null && fresh(view.bufferDelegate)
      ensures view.bufferDelegate.buffer == this
      ensures view.bufferDelegate.view == BufferViewStorage(offset, size, format)
      ensures view.bufferDelegate.usageCallbacks == []
      ensures delegates == old(delegates) + [view.bufferDelegate]
    {
      var wanted := BufferViewStorage(offset, size, format);
      var i := 0;
      while i < |views|
        invariant 0 <= i <= |views|
        invariant views == old(views)
        invariant wanted !in views[..i]
      {
        if views[i] == wanted {
          var d := new BufferDelegate(this, views[i]);
          return BufferView(d);
        }
        i := i + 1;
      }
      views := views + [wanted];
      var d := new BufferDelegate(this, wanted);
      view := BufferView(d);
    }
  }

  /** Copies all of `src` over the start of `dst` (a `memcpy` of `src.Length` bytes). */
  method CopyInto(src: array<bv8>, dst: array<bv8>)
    requires src != dst && src.Length <= dst.Length
    modifies dst
    ensures dst[..src.Length] == src[..]
    ensures dst[src.Length..] == old(dst[src.Length..])
  {
    forall i | 0 <= i < src.Length {
      dst[i] := src[i];
    }
  }

  /** Copies `data` into `dst` at `offset` (a `memcpy` into the middle of an array). */
  method WriteAt(dst: array<bv8>, data: seq<bv8>, offset: nat)
    requires offset + |data| <= dst.Length
    modifies dst
    ensures dst[..] == Splice(old(dst[..]), offset, data)
  {
    forall i | 0 <= i < |data| {
      dst[offset + i] := data[i];
    }
    assert dst[..] == Splice(old(dst[..]), offset, data);
  }

  /** A strong reference from a view to a buffer, listed in that buffer's delegates. */
  class BufferDelegate {
    var buffer: Buffer
    /** The storage entry of `buffer.views` this delegate exposes. */
    const view: BufferViewStorage
    /** The registered usage callbacks, in the order the combined callback runs them. */
    var usageCallbacks: seq<UsageCallback>

    constructor (buffer: Buffer, view: BufferViewStorage)
      requires buffer.Valid()
      modifies buffer`delegates
      ensures this.buffer == buffer && this.view == view && usageCallbacks == []
      ensures buffer.delegates == old(buffer.delegates) + [this]
      ensures buffer.Valid()
    {
      this.buffer := buffer;
      this.view := view;
      usageCallbacks := [];
      new;
      buffer.delegates := buffer.delegates + [this];
    }

    /** The delegate's destructor: it unlinks itself from its buffer's list. */
    method Release()
      requires buffer.Valid() && this in buffer.delegates
      modifies buffer`delegates
      ensures buffer.Valid()
      ensures this !in buffer.delegates
      ensures forall d :: d in buffer.delegates <==> d in old(buffer.delegates) && d != this
      ensures exists i :: (0 <= i < |old(buffer.delegates)| && old(buffer.delegates)[i] == this
                           && buffer.delegates == old(buffer.delegates)[..i] + old(buffer.delegates)[i + 1..])
      ensures |buffer.delegates| == |old(buffer.delegates)| - 1
    {
      var i :| 0 <= i < |buffer.delegates| && buffer.delegates[i] == this;
      var ds := buffer.delegates;
      RemoveAt(ds, i);
      buffer.delegates := ds[..i] + ds[i + 1..];
    }
  }

  /** Removing one entry of a sequence without duplicates removes exactly that value. */
  lemma RemoveAt<T>(s: seq<T>, i: nat)
    requires i < |s| && NoDuplicates(s)
    ensures NoDuplicates(s[..i] + s[i + 1..])
    ensures forall x :: x in s[..i] + s[i + 1..] <==> x in s && x != s[i]
    ensures |s[..i] + s[i + 1..]| == |s| - 1
  {
    var r := s[..i] + s[i + 1..];
    assert forall k :: 0 <= k < |r| ==> r[k] == (if k < i then s[k] else s[k + 1]);
    forall x | x in s && x != s[i]
      ensures x in r
    {
      var k :| 0 <= k < |s| && s[k] == x;
      if k < i {
        assert r[k] == x;
      } else {
        assert r[k - 1] == x;
      }
    }
  }

  /** A usage callback invoked on a view's storage and buffer. */
  datatype UsageCall = UsageCall(callback: UsageCallback, view: BufferViewStorage, buffer: Buffer)

  /** `BufferView`: a shared pointer to a delegate, which may be null. */
  datatype BufferView = BufferView(bufferDelegate: BufferDelegate?)
  {
    /** The conversion to `bool`. */
    predicate IsSome()
    {
      bufferDelegate != null
    }

    /** The delegate's buffer, valid and large enough for the storage range. */
    ghost predicate Usable()
      reads bufferDelegate, if bufferDelegate == null then {} else {bufferDelegate.buffer}
    {
      bufferDelegate != null && bufferDelegate.buffer.Valid()
    }

    /** Reads through the view: the offset is relative to the view's storage offset. */
    method Read(count: nat, offset: nat) returns (data: seq<bv8>)
      requires Usable()
      requires bufferDelegate.view.offset + offset + count <= |bufferDelegate.buffer.Visible()|
      ensures data == bufferDelegate.buffer.Visible()[bufferDelegate.view.offset + offset..][..count]
    {
      data := bufferDelegate.buffer.Read(count, offset + bufferDelegate.view.offset);
    }

    /** Writes through the view at the view's storage offset plus `offset`. */
    method Write(data: seq<bv8>, offset: nat, skipCleanHostWrite: bool)
      requires Usable()
      requires bufferDelegate.buffer.dirtyState != GpuDirty ==>
        bufferDelegate.view.offset + offset + |data| <= bufferDelegate.buffer.mirror.Length
      requires (bufferDelegate.buffer.dirtyState == GpuDirty
                || (bufferDelegate.buffer.dirtyState == Clean && !skipCleanHostWrite)) ==>
        bufferDelegate.view.offset + offset + |data| <= bufferDelegate.buffer.backing.Length
      modifies bufferDelegate.buffer.mirror, bufferDelegate.buffer.backing
      ensures Usable()
      ensures bufferDelegate.view.offset + offset + |data| <= |bufferDelegate.buffer.Visible()|
      ensures bufferDelegate.buffer.Visible()
        == Splice(old(bufferDelegate.buffer.Visible()), bufferDelegate.view.offset + offset, data)
    {
      bufferDelegate.buffer.Write(data, offset + bufferDelegate.view.offset, skipCleanHostWrite);
    }

    /** Runs `callback` on the view right away and chains it after the callbacks already
        registered, so later backing changes run them all in registration order. */
    method RegisterUsage(callback: UsageCallback) returns (call: UsageCall)
      requires bufferDelegate != null
      modifies bufferDelegate`usageCallbacks
      ensures call == UsageCall(callback, bufferDelegate.view, bufferDelegate.buffer)
      ensures bufferDelegate.usageCallbacks == old(bufferDelegate.usageCallbacks) + [callback]
    {
      call := UsageCall(callback, bufferDelegate.view, bufferDelegate.buffer);
      bufferDelegate.usageCallbacks := bufferDelegate.usageCallbacks + [callback];
    }
  }

  /** A default-constructed view holds no delegate. */
  const NullView: BufferView := BufferView(null)

  /** The round trip of the data between guest and host: a guest write followed by an
      upload, a GPU write of `gpuData` into the backing and a read-back leaves the
      mirror holding exactly the GPU's data, and the buffer Clean and coherent. */
  method GuestHostRoundTrip(b: Buffer, guestData: seq<bv8>, gpuData: seq<bv8>)
    requires b.Valid() && b.hasGuest
    requires |guestData| == b.mirror.Length && |gpuData| == b.backing.Length
    modifies b`dirtyState, b`trap, b.mirror, b.backing
    ensures b.Valid()
    ensures b.dirtyState == Clean && b.Coherent()
    ensures b.mirror[..] == gpuData
  {
    b.WriteTrapCallback();
    b.Write(guestData, 0, false);
    assert b.mirror[..] == guestData;
    b.SynchronizeHost(false);
    assert b.backing[..] == guestData;
    b.MarkGpuDirty();
    b.Write(gpuData, 0, false);
    assert b.backing[..] == gpuData;
    b.SynchronizeGuest(false, false);
  }
}
