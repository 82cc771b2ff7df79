// From a crash inside an operation on heap blocks to a heap that works again.
module BlockRecovery {
  import opened BlockMap
  import opened Headers
  import opened BlockTheory
  import BlockHeap
  import NvmModel
  import UndoLog
  import P = Persistence

  ghost predicate Sound(bs: Blocks, heap: set<nat>) {
    Tiles(bs, heap) && UserSpace(heap) && 0 !in bs && Coalesced(bs, 0)
  }

  lemma SameRestored(img: NvmModel.Image, img': NvmModel.Image, n: nat)
    requires UndoLog.SameMeaning(img, img')
    ensures Restored(img', n) == Restored(img, n)
  {
  }

  // Recovery started from imgs[k] was interrupted after it had executed trs[k], and left imgs[k + 1].
  ghost predicate Interrupted(imgs: seq<NvmModel.Image>, trs: seq<seq<NvmModel.Op>>) {
    && |imgs| == |trs| + 1
    && forall k :: 0 <= k < |trs| ==>
         UndoLog.Attempt(imgs[k], trs[k]) && NvmModel.Survives(imgs[k], trs[k], imgs[k + 1])
  }

  // What the image that is left means.
  lemma CrashMeans(imgs: seq<NvmModel.Image>, trs: seq<seq<NvmModel.Op>>, init: NvmModel.Image, tr: seq<NvmModel.Op>,
                   start: nat, m: nat, n: nat, bs: Blocks, bs': Blocks)
    requires Interrupted(imgs, trs)
    requires CrashShows(init, tr, start, n, bs, bs') && start <= m <= |tr| && NvmModel.Survives(init, tr[..m], imgs[0])
    ensures UndoLog.Sane(imgs[|trs|]) && (Tells(Restored(imgs[|trs|], n), bs) || Tells(Restored(imgs[|trs|], n), bs'))
  {
    hide Tells;
    UndoLog.RecoveryRerun(imgs, trs);
    SameRestored(imgs[0], imgs[|trs|], n);
  }

  // An operation was to turn bs into bs'.  The machine crashed at moment m of it and left imgs[0];
  // recovery has been interrupted any number of times since and has left img.  Restarting from img
  // gives a new heap with the blocks from before or from after the operation.
  method RestartAfterCrash(img: NvmModel.Image, ghost imgs: seq<NvmModel.Image>, ghost trs: seq<seq<NvmModel.Op>>,
                           ghost init: NvmModel.Image, ghost tr: seq<NvmModel.Op>, ghost start: nat, ghost m: nat,
                           ghost n: nat,
                           ghost bs: Blocks, ghost heap: set<nat>, ghost bs': Blocks, ghost heap': set<nat>)
    returns (h: BlockHeap.Heap)
    requires Interrupted(imgs, trs) && imgs[|trs|] == img
    requires CrashShows(init, tr, start, n, bs, bs') && start <= m <= |tr| && NvmModel.Survives(init, tr[..m], imgs[0])
    requires Sound(bs, heap) && Sound(bs', heap')
    ensures h.AtRest() && |h.hs.tab.hd| == n && fresh(h.Repr())
    ensures (h.bs == bs && h.heap == heap) || (h.bs == bs' && h.heap == heap')
  {
    hide P.Nvm.Idle, Tells, UndoLog.Recovered, UndoLog.Sane, Restored, Sound, CrashShows, BlockHeap.Heap.AtRest;
    CrashMeans(imgs, trs, init, tr, start, m, n, bs, bs');
    var nvm := Reload(img);
    ghost var before := Tells(Restored(img, n), bs);
    h := Reopen(nvm, img, n, if before then bs else bs', if before then heap else heap');
  }

  method StoreFor(nvm: P.Nvm, ghost img: NvmModel.Image, ghost n: nat) returns (hs: HeaderStore)
    requires nvm.Idle(nvm.mem(NvmModel.Version))
    requires forall a: nat :: nvm.mem(NvmModel.Data(a)) == UndoLog.Recovered(img, a)
    ensures hs.Between() && hs.tab == Restored(img, n) && hs.nvm == nvm && fresh(hs)
  {
    hide P.Nvm.Idle, UndoLog.Recovered;
    hs := new HeaderStore(nvm, Restored(img, n));
  }

  // The memory after a restart and the recovery of its log.
  method Reload(img: NvmModel.Image) returns (nvm: P.Nvm)
    requires UndoLog.Sane(img)
    ensures nvm.Idle(nvm.mem(NvmModel.Version)) && fresh(nvm) && fresh(nvm.table)
    ensures forall a: nat :: nvm.mem(NvmModel.Data(a)) == UndoLog.Recovered(img, a)
  {
    nvm := new P.Nvm.Restart(img);
    nvm.Recover();
  }

  // The heap whose headers are in recovered memory.
  method Reopen(nvm: P.Nvm, ghost img: NvmModel.Image, ghost n: nat, ghost bs: Blocks, ghost heap: set<nat>)
    returns (h: BlockHeap.Heap)
    requires nvm.Idle(nvm.mem(NvmModel.Version))
    requires forall a: nat :: nvm.mem(NvmModel.Data(a)) == UndoLog.Recovered(img, a)
    requires Tells(Restored(img, n), bs) && Sound(bs, heap)
    ensures h.AtRest() && |h.hs.tab.hd| == n && h.bs == bs && h.heap == heap
    ensures h.hs.nvm == nvm && fresh(h.Repr() - {nvm, nvm.table})
  {
    hide P.Nvm.Idle, HeaderStore.Between, Tells, UndoLog.Recovered, Tiles, UserSpace, Coalesced, BlockHeap.Heap.AtRest;
    var hs := StoreFor(nvm, img, n);
    h := new BlockHeap.Heap.Rebuild(hs, bs, heap);
  }

  // The restarted heap works: a block that was in use all along can be freed.
  method RestartAndFree(img: NvmModel.Image, ghost imgs: seq<NvmModel.Image>, ghost trs: seq<seq<NvmModel.Op>>,
                        ghost init: NvmModel.Image, ghost tr: seq<NvmModel.Op>, ghost start: nat, ghost m: nat,
                        ghost n: nat,
                        ghost bs: Blocks, ghost heap: set<nat>, ghost bs': Blocks, ghost heap': set<nat>, p: nat)
    returns (h: BlockHeap.Heap)
    requires Interrupted(imgs, trs) && imgs[|trs|] == img
    requires CrashShows(init, tr, start, n, bs, bs') && start <= m <= |tr| && NvmModel.Survives(init, tr[..m], imgs[0])
    requires Sound(bs, heap) && Sound(bs', heap') && p in bs && bs[p].Used? && p in bs' && bs'[p].Used?
    ensures h.AtRest() && fresh(h.Repr())
    ensures (UsedOf(h.bs) == UsedOf(bs) - {p} && h.heap == heap) ||
            (UsedOf(h.bs) == UsedOf(bs') - {p} && h.heap == heap')
  {
    hide CrashShows, Sound, UsedOf;
    h := RestartAfterCrash(img, imgs, trs, init, tr, start, m, n, bs, heap, bs', heap');
    h.FreeHblk(p);
  }

  // Allocating a block and freeing it gives back the same blocks.
  lemma AllocFreeIsIdentity(bs: Blocks, bs1: Blocks, bs2: Blocks, heap: set<nat>, p: nat, b: Block)
    requires Sound(bs, heap) && Sound(bs2, heap)
    requires p !in UsedOf(bs) && UsedOf(bs1) == UsedOf(bs)[p := b] && UsedOf(bs2) == UsedOf(bs1) - {p}
    ensures bs2 == bs
  {
    assert UsedOf(bs2) == UsedOf(bs);
    CoalescedUnique(bs, bs2, heap);
  }
}
