/** The command executor (gpu/interconnect/command_executor.h, .cpp): an append-only list
    of command nodes grouped into render passes and subpasses, the sets of textures and
    buffers a batch must synchronise, and the walk that records the nodes into a command
    buffer with a running subpass index. */
module Executor {
  import opened Common
  import opened Textures
  import opened Buffers

  /** A Vulkan render area: an offset and an extent. */
  datatype Rect2D = Rect2D(x: int, y: int, width: u32, height: u32)

  /** `r` covers every pixel of an attachment with dimensions `d`. */
  predicate Covers(r: Rect2D, d: Dimensions)
  {
    r.x <= 0 && r.y <= 0 && r.x + r.width >= d.width && r.y + r.height >= d.height
  }

  /** `inner` lies inside `outer`. */
  predicate Within(inner: Rect2D, outer: Rect2D)
  {
    && outer.x <= inner.x && outer.y <= inner.y
    && inner.x + inner.width <= outer.x + outer.width
    && inner.y + inner.height <= outer.y + outer.height
  }

  /** The render area a clear of a whole attachment opens its pass on: the smallest
      rectangle that covers the attachment. */
  function FullArea(d: Dimensions): (r: Rect2D)
    ensures Covers(r, d)
    ensures forall c :: Covers(c, d) ==> Within(r, c)
  {
    Rect2D(0, 0, d.width, d.height)
  }

  /** Two attachments share a full area, and so can share a render pass, exactly when
      their width and height agree; the depth plays no part. */
  lemma FullAreaSharedByEqualExtents(a: Dimensions, b: Dimensions)
    ensures FullArea(a) == FullArea(b) <==> a.width == b.width && a.height == b.height
  {
    if FullArea(a) == FullArea(b) {
      assert FullArea(a).width == FullArea(b).width;
      assert FullArea(a).height == FullArea(b).height;
    }
  }

  /** A clear value, kept opaque. */
  type ClearValue = nat

  /** A texture, identified by an opaque id. */
  type TextureId = nat

  /** The view of a texture used as an attachment. */
  datatype AttachmentView = AttachmentView(texture: TextureId, dimensions: Dimensions, format: FormatBase)

  /** The work a function node performs when it is run. */
  datatype Work =
    | Recorded(id: nat)  // a function handed in by the caller
    | ClearColor(area: Rect2D, color: ClearValue)
    | ClearDepthStencil(aspect: bv32, area: Rect2D, depthStencil: ClearValue)

  datatype Node =
    | RenderPassNode(renderArea: Rect2D)
    | SubpassFunctionNode(work: Work)       // runs in the current subpass
    | NextSubpassFunctionNode(work: Work)   // moves to the next subpass, then runs
    | NextSubpassNode                       // moves to the next subpass
    | FunctionNode(work: Work)              // runs outside any render pass
    | RenderPassEndNode

  /** The subpass index `Execute` holds after visiting `node` with index `index`. */
  function StepIndex(index: nat, node: Node): nat
  {
    match node
    case RenderPassNode(_) => 0
    case NextSubpassNode => index + 1
    case NextSubpassFunctionNode(_) => index + 1
    case _ => index
  }

  /** The subpass index after `Execute` walks `nodes` (the index starts at 0). */
  function IndexAfter(nodes: seq<Node>): nat
  {
    if nodes == [] then 0 else StepIndex(IndexAfter(nodes[..|nodes| - 1]), nodes[|nodes| - 1])
  }

  /** The render area of the render pass still open at the end of `nodes`, if any. */
  function OpenPass(nodes: seq<Node>): Option<Rect2D>
  {
    if nodes == [] then None
    else match nodes[|nodes| - 1]
      case RenderPassNode(area) => Some(area)
      case RenderPassEndNode => None
      case _ => OpenPass(nodes[..|nodes| - 1])
  }

  /** Every prefix of `nodes` leaves the subpass index below `max`. */
  ghost predicate IndicesBelow(nodes: seq<Node>, max: nat)
  {
    nodes == [] || (IndicesBelow(nodes[..|nodes| - 1], max) && IndexAfter(nodes) < max)
  }

  lemma {:induction false} IndicesBelowPrefixes(nodes: seq<Node>, max: nat)
    requires IndicesBelow(nodes, max)
    requires max > 0
    ensures forall k :: 0 <= k <= |nodes| ==> IndexAfter(nodes[..k]) < max
    decreases |nodes|
  {
    if nodes != [] {
      var init := nodes[..|nodes| - 1];
      IndicesBelowPrefixes(init, max);
      forall k | 0 <= k <= |nodes|
        ensures IndexAfter(nodes[..k]) < max
      {
        if k < |nodes| {
          assert nodes[..k] == init[..k];
        } else {
          assert nodes[..k] == nodes;
        }
      }
    }
  }

  /** One node invocation made while recording: the node and the subpass index it sees. */
  datatype Call = Call(node: Node, subpassIndex: nat)

  /** The node walk of `Execute`: every node is invoked once, in order; a render pass
      node resets the subpass index to 0, the two "next subpass" nodes advance it by one
      before running, and every other node sees it unchanged. */
  method RecordNodes(nodes: seq<Node>) returns (calls: seq<Call>)
    ensures |calls| == |nodes|
    ensures forall k :: 0 <= k < |nodes| ==> calls[k] == Call(nodes[k], IndexAfter(nodes[..k + 1]))
  {
    calls := [];
    var subpassIndex := 0;
    var i := 0;
    while i < |nodes|
      invariant 0 <= i <= |nodes|
      invariant |calls| == i
      invariant subpassIndex == IndexAfter(nodes[..i])
      invariant forall k :: 0 <= k < i ==> calls[k] == Call(nodes[k], IndexAfter(nodes[..k + 1]))
    {
      assert nodes[..i + 1][..i] == nodes[..i];
      match nodes[i] {
        case RenderPassNode(_) =>
          subpassIndex := 0;
        case NextSubpassNode =>
          subpassIndex := subpassIndex + 1;
        case SubpassFunctionNode(_) =>
        case NextSubpassFunctionNode(_) =>
          subpassIndex := subpassIndex + 1;
        case FunctionNode(_) =>
        case RenderPassEndNode =>
      }
      calls := calls + [Call(nodes[i], subpassIndex)];
      i := i + 1;
    }
  }

  /** A node list whose subpass indices stay below `max` is recorded with every subpass
      function seeing an index below `max`: no subpass beyond the limit is ever used. */
  lemma RecordedIndicesBelow(nodes: seq<Node>, calls: seq<Call>, max: nat)
    requires max > 0 && IndicesBelow(nodes, max)
    requires |calls| == |nodes|
    requires forall k :: 0 <= k < |nodes| ==> calls[k] == Call(nodes[k], IndexAfter(nodes[..k + 1]))
    ensures forall k :: 0 <= k < |calls| ==> calls[k].subpassIndex < max
  {
    IndicesBelowPrefixes(nodes, max);
    forall k | 0 <= k < |calls|
      ensures calls[k].subpassIndex < max
    {
      assert calls[k].subpassIndex == IndexAfter(nodes[..k + 1]);
    }
  }

  /** The rule `CreateRenderPass` uses to close the open pass before adding a subpass:
      the area differs, or one more subpass would exceed `maxSubpassCount` subpasses
      (`subpassCount` is the index of the pass's last subpass, one less than their number). */
  predicate MustClose(open: Rect2D, area: Rect2D, subpassCount: nat, maxSubpassCount: nat)
  {
    open != area || subpassCount + 1 >= maxSubpassCount
  }

  /** Whether `CreateRenderPass(area)` keeps the open pass: it is open on `area` and the
      closing rule does not fire. */
  predicate ReusesPass(open: Option<Rect2D>, area: Rect2D, subpassCount: nat, maxSubpassCount: nat)
  {
    open == Some(area) && !MustClose(area, area, subpassCount, maxSubpassCount)
  }

  /** The nodes a clear subpass appends: the end of the previous pass and a new pass node
      unless the pass is reused, then either nothing or a bare move to the next subpass when
      the load operation does the clear, or the clear itself in the first or next subpass. */
  function ClearNodes(wasOpen: bool, reused: bool, area: Rect2D, clear: Work, loadOpClear: bool): seq<Node>
  {
    (if wasOpen && !reused then [RenderPassEndNode] else [])
    + (if reused then [] else [RenderPassNode(area)])
    + (if loadOpClear && reused then [NextSubpassNode]
       else if loadOpClear then []
       else if reused then [NextSubpassFunctionNode(clear)]
       else [SubpassFunctionNode(clear)])
  }

  /** The rule as written in the source: the count is compared with `>`. */
  predicate MustCloseAsWritten(open: Rect2D, area: Rect2D, subpassCount: nat, maxSubpassCount: nat)
  {
    open != area || subpassCount > maxSubpassCount
  }

  /** `subpassCount` after a render pass was opened on `area` and `n` more subpasses on the
      same area were requested, or None if one of them closed the pass. */
  function CountAfterAsWritten(area: Rect2D, n: nat, maxSubpassCount: nat): Option<nat>
  {
    if n == 0 then Some(0)
    else match CountAfterAsWritten(area, n - 1, maxSubpassCount)
      case None => None
      case Some(c) => if MustCloseAsWritten(area, area, c, maxSubpassCount) then None else Some(c + 1)
  }

  lemma {:induction false} CountAfterAsWrittenGrows(area: Rect2D, n: nat, maxSubpassCount: nat)
    requires n <= maxSubpassCount + 1
    ensures CountAfterAsWritten(area, n, maxSubpassCount) == Some(n)
  {
    if n > 0 {
      CountAfterAsWrittenGrows(area, n - 1, maxSubpassCount);
    }
  }

  /** With the rule as written one render pass takes `maxSubpassCount + 2` subpasses
      (last index `maxSubpassCount + 1`) before it is closed. */
  lemma AsWrittenPassExceedsLimit(area: Rect2D, maxSubpassCount: nat)
    ensures CountAfterAsWritten(area, maxSubpassCount + 1, maxSubpassCount) == Some(maxSubpassCount + 1)
  {
    CountAfterAsWrittenGrows(area, maxSubpassCount + 1, maxSubpassCount);
  }

  /** No item occurs twice. */
  ghost predicate Distinct<T>(s: seq<T>)
  {
    forall i, j :: 0 <= i < j < |s| ==> s[i] != s[j]
  }

  /** The set of the items of `s`. */
  ghost function Elements<T>(s: seq<T>): set<T>
  {
    set i | 0 <= i < |s| :: s[i]
  }

  lemma ElementsAppend<T>(s: seq<T>, x: T)
    ensures Elements(s + [x]) == Elements(s) + {x}
    ensures x !in Elements(s) ==> forall i :: 0 <= i < |s| ==> s[i] != x
  {
    var t := s + [x];
    assert t[|s|] == x;
    forall y | y in Elements(s)
      ensures y in Elements(t)
    {
      var i :| 0 <= i < |s| && s[i] == y;
      assert t[i] == y;
    }
  }

  class CommandExecutor {
    var nodes: seq<Node>
    /** The render area of the open render pass (the pass the source points at). */
    var renderPass: Option<Rect2D>
    /** The index of the open pass's last subpass: the number of its subpasses minus one. */
    var subpassCount: nat
    /** The driver's limit on subpasses within one render pass. */
    const maxSubpassCount: u32
    var syncTextures: set<TextureId>
    var syncBuffers: set<BufferDelegate>
    /** The textures and delegates whose fence wait and cycle assignment ran in this batch. */
    ghost var textureWaits: seq<TextureId>
    ghost var bufferAttachments: seq<BufferDelegate>

    /** The executor's invariant, with `pending` subpasses requested but not yet recorded. */
    ghost predicate Inv(pending: nat)
      reads this
    {
      && maxSubpassCount >= 1
      && IndicesBelow(nodes, maxSubpassCount)
      && OpenPass(nodes) == renderPass
      && (renderPass.None? ==> subpassCount == 0 && pending == 0)
      && (renderPass.Some? ==> subpassCount < maxSubpassCount && IndexAfter(nodes) + pending == subpassCount)
      && Distinct(textureWaits) && Elements(textureWaits) == syncTextures
      && Distinct(bufferAttachments) && Elements(bufferAttachments) == syncBuffers
    }

    ghost predicate Valid()
      reads this
    {
      Inv(0)
    }

    constructor (maxSubpassCount: u32)
      requires maxSubpassCount >= 1
      ensures Valid()
      ensures this.maxSubpassCount == maxSubpassCount
      ensures nodes == [] && renderPass == None && subpassCount == 0
      ensures syncTextures == {} && syncBuffers == {}
    {
      this.maxSubpassCount := maxSubpassCount;
      nodes := [];
      renderPass := None;
      subpassCount := 0;
      syncTextures := {};
      syncBuffers := {};
      textureWaits := [];
      bufferAttachments := [];
    }

    /** Appends `node` to the list; the subpass index it leaves must stay below the limit. */
    method Append(node: Node)
      requires IndicesBelow(nodes, maxSubpassCount)
      requires IndexAfter(nodes + [node]) < maxSubpassCount
      modifies this`nodes
      ensures nodes == old(nodes) + [node]
      ensures IndicesBelow(nodes, maxSubpassCount)
      ensures IndexAfter(nodes) == StepIndex(IndexAfter(old(nodes)), node)
      ensures OpenPass(nodes) == match node
        case RenderPassNode(area) => Some(area)
        case RenderPassEndNode => None
        case _ => OpenPass(old(nodes))
    {
      nodes := nodes + [node];
      assert nodes[..|nodes| - 1] == old(nodes);
    }

    /** Ends the open render pass, if any. */
    method EndRenderPass()
      requires Inv(0)
      modifies this`nodes, this`renderPass, this`subpassCount
      ensures Inv(0)
      ensures nodes == old(nodes) + (if old(renderPass).Some? then [RenderPassEndNode] else [])
      ensures renderPass == None && subpassCount == 0
    {
      if renderPass.Some? {
        Append(RenderPassEndNode);
        renderPass := None;
        subpassCount := 0;
      }
    }

    /** Makes sure a render pass on `renderArea` is open for one more subpass, closing the
        current pass if its area differs or it is full; the result says whether a new pass
        was opened rather than the current one reused. */
    method CreateRenderPass(renderArea: Rect2D) returns (newRenderPass: bool)
      requires Valid()
      modifies this`nodes, this`renderPass, this`subpassCount
      ensures Inv(if newRenderPass then 0 else 1)
      ensures renderPass == Some(renderArea)
      ensures var closes := old(renderPass).Some? && MustClose(old(renderPass).value, renderArea, old(subpassCount), maxSubpassCount);
        && newRenderPass == (old(renderPass).None? || closes)
        && nodes == old(nodes) + (if closes then [RenderPassEndNode] else [])
                               + (if newRenderPass then [RenderPassNode(renderArea)] else [])
      ensures subpassCount == if newRenderPass then 0 else old(subpassCount) + 1
      ensures subpassCount < maxSubpassCount
    {
      if renderPass.Some? && MustClose(renderPass.value, renderArea, subpassCount, maxSubpassCount) {
        Append(RenderPassEndNode);
        renderPass := None;
        subpassCount := 0;
      }
      newRenderPass := renderPass.None?;
      if newRenderPass {
        Append(RenderPassNode(renderArea));
        renderPass := Some(renderArea);
      } else {
        subpassCount := subpassCount + 1;
      }
    }

    /** Records `node` as the subpass just requested: a subpass node if the pass is new,
        the "next subpass" form otherwise. */
    method AppendSubpassNode(newRenderPass: bool, node: Node)
      requires Inv(if newRenderPass then 0 else 1) && renderPass.Some?
      requires newRenderPass ==> node.SubpassFunctionNode?
      requires !newRenderPass ==> node.NextSubpassFunctionNode? || node.NextSubpassNode?
      modifies this`nodes
      ensures Valid()
      ensures nodes == old(nodes) + [node]
    {
      Append(node);
    }

    /** Adds `work` to run in a subpass on `renderArea`; its subpass index when recorded is
        the index of the subpass it was added in. */
    method AddSubpass(work: nat, renderArea: Rect2D)
      requires Valid()
      modifies this`nodes, this`renderPass, this`subpassCount
      ensures Valid()
      ensures renderPass == Some(renderArea)
      ensures var reused := old(renderPass) == Some(renderArea)
                && !MustClose(renderArea, renderArea, old(subpassCount), maxSubpassCount);
        && subpassCount == (if reused then old(subpassCount) + 1 else 0)
        && nodes == old(nodes)
             + (if old(renderPass).Some? && !reused then [RenderPassEndNode] else [])
             + (if reused then [NextSubpassFunctionNode(Recorded(work))]
                else [RenderPassNode(renderArea), SubpassFunctionNode(Recorded(work))])
      ensures IndexAfter(nodes) == subpassCount && subpassCount + 1 <= maxSubpassCount
    {
      var newRenderPass := CreateRenderPass(renderArea);
      if newRenderPass {
        AppendSubpassNode(newRenderPass, SubpassFunctionNode(Recorded(work)));
      } else {
        AppendSubpassNode(newRenderPass, NextSubpassFunctionNode(Recorded(work)));
      }
    }

    /** Adds `work` to run outside any render pass, ending the open one first. */
    method AddNonGraphicsPass(work: nat)
      requires Valid()
      modifies this`nodes, this`renderPass, this`subpassCount
      ensures Valid()
      ensures nodes == old(nodes) + (if old(renderPass).Some? then [RenderPassEndNode] else [])
                                  + [FunctionNode(Recorded(work))]
      ensures renderPass == None && subpassCount == 0
    {
      EndRenderPass();
      Append(FunctionNode(Recorded(work)));
    }

    /** Shared body of the two clear subpasses: `loadOpClear` says whether the render pass
        could fold the clear into its attachment load operation. */
    method AddClearSubpass(renderArea: Rect2D, clear: Work, loadOpClear: bool)
      requires Valid()
      modifies this`nodes, this`renderPass, this`subpassCount
      ensures Valid()
      ensures renderPass == Some(renderArea)
      ensures var reused := ReusesPass(old(renderPass), renderArea, old(subpassCount), maxSubpassCount);
        && subpassCount == (if reused then old(subpassCount) + 1 else 0)
        && nodes == old(nodes) + ClearNodes(old(renderPass).Some?, reused, renderArea, clear, loadOpClear)
      ensures IndexAfter(nodes) == subpassCount
    {
      var newRenderPass := CreateRenderPass(renderArea);
      if loadOpClear {
        if !newRenderPass {
          AppendSubpassNode(newRenderPass, NextSubpassNode);
        }
      } else if newRenderPass {
        AppendSubpassNode(newRenderPass, SubpassFunctionNode(clear));
      } else {
        AppendSubpassNode(newRenderPass, NextSubpassFunctionNode(clear));
      }
    }

    /** Clears the whole color attachment, in a subpass of a pass covering it. */
    method AddClearColorSubpass(attachment: AttachmentView, value: ClearValue, loadOpClear: bool)
      requires Valid()
      modifies this`nodes, this`renderPass, this`subpassCount
      ensures Valid()
      ensures var area := FullArea(attachment.dimensions);
        var reused := ReusesPass(old(renderPass), area, old(subpassCount), maxSubpassCount);
        && renderPass == Some(area)
        && subpassCount == (if reused then old(subpassCount) + 1 else 0)
        && nodes == old(nodes) + ClearNodes(old(renderPass).Some?, reused, area, ClearColor(area, value), loadOpClear)
      ensures IndexAfter(nodes) == subpassCount
    {
      var area := FullArea(attachment.dimensions);
      AddClearSubpass(area, ClearColor(area, value), loadOpClear);
    }

    /** Clears the whole depth/stencil attachment over the aspects of its format. */
    method AddClearDepthStencilSubpass(attachment: AttachmentView, value: ClearValue, loadOpClear: bool)
      requires Valid()
      modifies this`nodes, this`renderPass, this`subpassCount
      ensures Valid()
      ensures var area := FullArea(attachment.dimensions);
        var reused := ReusesPass(old(renderPass), area, old(subpassCount), maxSubpassCount);
        && renderPass == Some(area)
        && subpassCount == (if reused then old(subpassCount) + 1 else 0)
        && nodes == old(nodes) + ClearNodes(old(renderPass).Some?, reused, area,
                                            ClearDepthStencil(attachment.format.vkAspect, area, value), loadOpClear)
      ensures IndexAfter(nodes) == subpassCount
    {
      var area := FullArea(attachment.dimensions);
      AddClearSubpass(area, ClearDepthStencil(attachment.format.vkAspect, area, value), loadOpClear);
    }

    /** Attaches a texture to the batch; the fence wait and cycle assignment run only the
        first time a texture is attached in a batch. The caller holds the texture's lock. */
    method AttachTexture(texture: TextureId, locked: bool)
      requires Valid() && locked
      modifies this`syncTextures, this`textureWaits
      ensures Valid()
      ensures syncTextures == old(syncTextures) + {texture}
      ensures textureWaits == old(textureWaits) + (if texture in old(syncTextures) then [] else [texture])
    {
      if texture !in syncTextures {
        ElementsAppend(textureWaits, texture);
        textureWaits := textureWaits + [texture];
        syncTextures := syncTextures + {texture};
      }
    }

    /** Attaches a buffer view's delegate to the batch, once per batch. The caller holds
        the buffer's lock. */
    method AttachBuffer(view: BufferView, locked: bool)
      requires Valid() && locked && view.IsSome()
      modifies this`syncBuffers, this`bufferAttachments
      ensures Valid()
      ensures syncBuffers == old(syncBuffers) + {view.bufferDelegate}
      ensures bufferAttachments == old(bufferAttachments)
        + (if view.bufferDelegate in old(syncBuffers) then [] else [view.bufferDelegate])
    {
      if view.bufferDelegate !in syncBuffers {
        ElementsAppend(bufferAttachments, view.bufferDelegate);
        bufferAttachments := bufferAttachments + [view.bufferDelegate];
        syncBuffers := syncBuffers + {view.bufferDelegate};
      }
    }

    /** Records the batch: ends the open pass, uploads every attached buffer, drops the
        delegates' usage callbacks, walks the nodes and starts an empty batch. An empty
        node list makes it do nothing at all. */
    method Execute() returns (calls: seq<Call>)
      requires Valid()
      requires forall b :: b in BuffersOf(syncBuffers) ==> b.Valid()
      requires SeparateStorage(BuffersOf(syncBuffers))
      modifies this, syncBuffers, BuffersOf(syncBuffers), set b | b in BuffersOf(syncBuffers) :: b.backing
      ensures Valid()
      ensures old(nodes) == [] ==>
        calls == [] && unchanged(this) && unchanged(old(syncBuffers)) && unchanged(old(BuffersOf(syncBuffers)))
      ensures old(nodes) != [] ==>
        var recorded := old(nodes) + (if old(renderPass).Some? then [RenderPassEndNode] else []);
        && |calls| == |recorded|
        && (forall k :: 0 <= k < |recorded| ==> calls[k] == Call(recorded[k], IndexAfter(recorded[..k + 1])))
        && (forall k :: 0 <= k < |calls| ==> calls[k].subpassIndex < maxSubpassCount)
        && nodes == [] && renderPass == None && subpassCount == 0
        && syncTextures == {} && syncBuffers == {}
      ensures old(nodes) != [] ==>
        forall d :: d in old(syncBuffers) ==> d.usageCallbacks == [] && d.buffer == old(d.buffer)
      ensures old(nodes) != [] ==>
        forall b :: b in old(BuffersOf(syncBuffers)) ==>
          && b.Valid()
          && b.dirtyState == DirtyAfterSynchronizeHost(old(b.dirtyState), b.hasGuest, true)
          && (b.hasGuest ==> b.dirtyState != CpuDirty)
          && b.mirror[..] == old(b.mirror[..])
          && (old(b.dirtyState) == CpuDirty ==> b.Coherent())
          && (old(b.dirtyState) != CpuDirty ==> b.backing[..] == old(b.backing[..]))
    {
      if nodes == [] {
        return [];
      }
      EndRenderPass();
      UploadBatch(syncBuffers);
      calls := RecordBatch();
    }

    /** The node walk of `Execute` once the pass is closed, followed by the reset that
        starts an empty batch. */
    method RecordBatch() returns (calls: seq<Call>)
      requires Valid() && renderPass == None
      modifies this`nodes, this`syncTextures, this`syncBuffers, this`textureWaits, this`bufferAttachments
      ensures Valid()
      ensures |calls| == |old(nodes)|
      ensures forall k :: 0 <= k < |calls| ==> calls[k] == Call(old(nodes)[k], IndexAfter(old(nodes)[..k + 1]))
      ensures forall k :: 0 <= k < |calls| ==> calls[k].subpassIndex < maxSubpassCount
      ensures nodes == [] && renderPass == None && subpassCount == 0
      ensures syncTextures == {} && syncBuffers == {}
    {
      calls := RecordNodes(nodes);
      RecordedIndicesBelow(nodes, calls, maxSubpassCount);
      nodes := [];
      syncTextures := {};
      syncBuffers := {};
      textureWaits := [];
      bufferAttachments := [];
    }
  }

  /** The buffers behind a set of delegates. */
  function BuffersOf(delegates: set<BufferDelegate>): set<Buffer>
    reads delegates
  {
    set d | d in delegates :: d.buffer
  }

  /** The loop of `Execute` over the batch's delegates: each delegate's buffer is uploaded
      with a read/write trap and the delegate's usage callbacks are dropped. */
  method UploadBatch(delegates: set<BufferDelegate>)
    requires forall b :: b in BuffersOf(delegates) ==> b.Valid()
    requires SeparateStorage(BuffersOf(delegates))
    modifies delegates, BuffersOf(delegates), set b | b in BuffersOf(delegates) :: b.backing
    ensures forall d :: d in delegates ==> d.usageCallbacks == [] && d.buffer == old(d.buffer)
    ensures forall b :: b in old(BuffersOf(delegates)) ==>
      && b.Valid()
      && b.dirtyState == DirtyAfterSynchronizeHost(old(b.dirtyState), b.hasGuest, true)
      && (b.hasGuest ==> b.dirtyState != CpuDirty)
      && b.mirror[..] == old(b.mirror[..])
      && (old(b.dirtyState) == CpuDirty ==> b.Coherent())
      && (old(b.dirtyState) != CpuDirty ==> b.backing[..] == old(b.backing[..]))
  {
    var buffers := BuffersOf(delegates);
    SynchronizeBuffers(buffers);
    ClearUsageCallbacks(delegates);
  }

  /** No buffer's arrays are another buffer's: each guest buffer owns its mirror and its
      backing, as each is allocated for it. */
  ghost predicate SeparateStorage(buffers: set<Buffer>)
    reads buffers
  {
    forall b, c :: b in buffers && c in buffers && b != c ==>
      b.backing != c.backing && b.backing != c.mirror
  }

  /** Uploads every buffer of `buffers` with a read/write trap, as `Execute` does for the
      buffers behind the batch's delegates: a CPU-dirty buffer's backing receives its
      mirror, every other backing is untouched, and no mirror changes. */
  method SynchronizeBuffers(buffers: set<Buffer>)
    requires forall b :: b in buffers ==> b.Valid()
    requires SeparateStorage(buffers)
    modifies buffers, set b | b in buffers :: b.backing
    ensures forall b :: b in buffers ==>
      && b.Valid() && b.backing == old(b.backing) && b.mirror == old(b.mirror)
      && b.dirtyState == DirtyAfterSynchronizeHost(old(b.dirtyState), b.hasGuest, true)
      && b.mirror[..] == old(b.mirror[..])
      && (old(b.dirtyState) == CpuDirty ==> b.Coherent())
      && (old(b.dirtyState) != CpuDirty ==> b.backing[..] == old(b.backing[..]))
  {
    var pending := buffers;
    while pending != {}
      invariant pending <= buffers
      invariant forall b :: b in buffers ==>
        && b.Valid() && b.backing == old(b.backing) && b.mirror == old(b.mirror)
        && b.mirror[..] == old(b.mirror[..])
      invariant forall b :: b in pending ==>
        b.dirtyState == old(b.dirtyState) && b.backing[..] == old(b.backing[..])
      invariant forall b :: b in buffers && b !in pending ==>
        && b.dirtyState == DirtyAfterSynchronizeHost(old(b.dirtyState), b.hasGuest, true)
        && (old(b.dirtyState) == CpuDirty ==> b.Coherent())
        && (old(b.dirtyState) != CpuDirty ==> b.backing[..] == old(b.backing[..]))
      decreases pending
    {
      var b :| b in pending;
      b.SynchronizeHostWithCycle(true);
      pending := pending - {b};
    }
  }

  /** Drops the usage callbacks of every delegate of `delegates`. */
  method ClearUsageCallbacks(delegates: set<BufferDelegate>)
    modifies delegates
    ensures forall d :: d in delegates ==> d.usageCallbacks == [] && d.buffer == old(d.buffer)
  {
    var pending := delegates;
    while pending != {}
      invariant pending <= delegates
      invariant forall d :: d in delegates ==> d.buffer == old(d.buffer)
      invariant forall d :: d in delegates && d !in pending ==> d.usageCallbacks == []
      decreases pending
    {
      var d :| d in pending;
      d.usageCallbacks := [];
      pending := pending - {d};
    }
  }
}
