/** Raising an exception in a thread: raiseAsync (rts/RaiseAsync.c). */
module RaiseAsync {
  import opened Options
  import opened Stacks
  import opened Freezing

  // ----- How far the unwinding goes -----

  /** The frames that end it. */
  predicate Halts(i: Info, exception: bool, stopAtAtomically: bool) {
    i == Stop || (exception && i == Catch) || (stopAtAtomically && i == Info.Atomically)
  }

  ghost predicate NoHalt(ws: seq<Word>, exception: bool, stopAtAtomically: bool)
    decreases |ws|
  {
    HeadFrame(ws) ==>
      !Halts(ws[0].info, exception, stopAtAtomically) && NoHalt(ws[SizeOf(ws[0].info)..], exception, stopAtAtomically)
  }

  /** Frames that end a transaction. */
  predicate IsStm(i: Info) { i == Info.Atomically || i == CatchStm || i == CatchRetry }

  ghost function Depth(ws: seq<Word>): nat
    decreases |ws|
  {
    if !HeadFrame(ws) then 0 else (if IsStm(ws[0].info) then 1 else 0) + Depth(ws[SizeOf(ws[0].info)..])
  }

  /** The thread's transactions match the frames on its stack, and `atomically` is not nested. */
  ghost predicate TrecOk(flat: seq<Word>, n: nat) {
    forall k: nat | FrameAt(flat, k) && IsStm(flat[k].info) ::
      Depth(flat[..k]) < n && (flat[k].info == Info.Atomically ==> Depth(flat[..k]) == n - 1)
  }

  lemma {:induction false} DepthSnoc(a: seq<Word>, b: seq<Word>)
    requires Frames(a) && OneFrame(b)
    ensures Depth(a + b) == Depth(a) + if IsStm(b[0].info) then 1 else 0
    decreases |a|
  {
    hide SizeOf, Frames;
    if a == [] {
      assert a + b == b && b[SizeOf(b[0].info)..] == [];
    } else {
      FramesStep(a);
      HeadOfAppend(a, b);
      DepthSnoc(a[SizeOf(a[0].info)..], b);
    }
  }

  lemma {:induction false} NoHaltSnoc(a: seq<Word>, b: seq<Word>, exception: bool, stopAtAtomically: bool)
    requires Frames(a) && OneFrame(b) && NoHalt(a, exception, stopAtAtomically)
             && !Halts(b[0].info, exception, stopAtAtomically)
    ensures NoHalt(a + b, exception, stopAtAtomically)
    decreases |a|
  {
    hide SizeOf, Frames, Halts;
    if a == [] {
      assert a + b == b && b[SizeOf(b[0].info)..] == [];
    } else {
      FramesStep(a);
      HeadOfAppend(a, b);
      NoHaltSnoc(a[SizeOf(a[0].info)..], b, exception, stopAtAtomically);
    }
  }

  // ----- What the handler runs with -----

  /** The words pushed to apply the handler, when the frames above the catch frame have left masking state `m`. */
  function HandlerWords(handler: Word, exception: Word, m: Masking): seq<Word> {
    [Ret(ENTER), handler, Ret(AP_PV), exception] + if m == Unmasked then [Ret(UnmaskRet)] else []
  }

  function HandlerMasking(m: Masking): Masking {
    if m == Uninterruptible then m else Interruptible
  }

  /** The handler runs masked, and returning from it restores the masking state of the catch frame. */
  lemma HandlerRunsMasked(handler: Word, exception: Word, m: Masking)
    ensures HandlerMasking(m) != Unmasked
    ensures ReturnThrough(HandlerWords(handler, exception, m), HandlerMasking(m)) == m
    ensures Frames(HandlerWords(handler, exception, m))
  {
    var ws := HandlerWords(handler, exception, m);
    assert ws[2..][2..] == if m == Unmasked then [Ret(UnmaskRet)] else [];
    assert ws[2..][0] == Ret(AP_PV) && [Ret(UnmaskRet)][1..] == [];
    assert ReturnThrough(ws[2..], HandlerMasking(m)) == ReturnThrough(ws[2..][2..], HandlerMasking(m));
  }

  // ----- What the resumed thread does -----

  /** stg_enter: the closure that the top frame enters, and the stack that it is entered with. */
  function EnterTop(ws: seq<Word>): Option<(Word, seq<Word>)> {
    if |ws| >= 2 && ws[0] == Ret(ENTER) then Some((ws[1], ws[2..])) else None
  }

  /** stg_ap_pv: the argument that a function returned to the top frame is applied to, and the stack of that call. */
  function ApplyTop(ws: seq<Word>): Option<(Word, seq<Word>)> {
    if |ws| >= 2 && ws[0] == Ret(AP_PV) then Some((ws[1], ws[2..])) else None
  }

  /** A thread that has reached a catch frame evaluates the handler of that frame and applies it to the exception, in
      a masked state and with nothing of what was above the frame; what was below the frame comes after, in the state
      in which it would have been returned to. */
  lemma HandlerApplied(heap: Heap, tso: StgTSO, e: Before, f: Freeze, exception: Option<Word>, s: Stm,
      condemned: seq<nat>)
    requires f.pos < |e.Flat()| && e.Flat()[f.pos] == Ret(Catch) && Ended(heap, tso, e, f, exception, s, condemned)
    ensures exception.Some? && f.pos + 2 <= |e.Flat()| && tso.blockex
    ensures var entered := EnterTop(Flat(tso.chunks));
            && entered.Some? && entered.value.0 == e.Flat()[f.pos + 1]
            && var applied := ApplyTop(entered.value.1);
               && applied.Some? && applied.value.0 == exception.value
               && (exists unmask :: unmask + e.Flat()[f.pos + 2..] == applied.value.1 && Frames(unmask)
                                    && ReturnThrough(unmask, tso.Masks()) == s.masks)
  {
    hide Ended, StgTSO.Valid, Flat, Frames, ReturnThrough;
    CatchEnded(heap, tso, e, f, exception, s, condemned);
    var ws, below := Flat(tso.chunks), e.Flat()[f.pos + 2..];
    var unmask := if s.masks == Unmasked then [Ret(UnmaskRet)] else [];
    assert ws[2..][2..] == unmask + below;
    UnmaskFrame(s.masks);
  }

  lemma CatchEnded(heap: Heap, tso: StgTSO, e: Before, f: Freeze, exception: Option<Word>, s: Stm,
      condemned: seq<nat>)
    requires f.pos < |e.Flat()| && e.Flat()[f.pos] == Ret(Catch) && Ended(heap, tso, e, f, exception, s, condemned)
    ensures exception.Some? && f.pos + 2 <= |e.Flat()|
    ensures Flat(tso.chunks) == [Ret(ENTER), e.Flat()[f.pos + 1], Ret(AP_PV), exception.value]
                                + (if s.masks == Unmasked then [Ret(UnmaskRet)] else []) + e.Flat()[f.pos + 2..]
    ensures tso.Masks() == if s.masks == Uninterruptible then Uninterruptible else Interruptible
  {
  }

  lemma UnmaskFrame(m: Masking)
    ensures var unmask := if m == Unmasked then [Ret(UnmaskRet)] else [];
            && Frames(unmask)
            && ReturnThrough(unmask, if m == Uninterruptible then Uninterruptible else Interruptible) == m
  {
    assert [Ret(UnmaskRet)][1..] == [];
  }

  // ----- The unwinding so far -----

  /** The masking state, the transactions and the aborted transactions after unwinding past `ws`. */
  datatype Stm = Stm(masks: Masking, trec: seq<nat>, aborted: seq<nat>)

  ghost predicate Unwound(ws: seq<Word>, exception: bool, stopAtAtomically: bool, s0: Stm, s: Stm) {
    && NoHalt(ws, exception, stopAtAtomically) && Depth(ws) <= |s0.trec|
    && s == Stm(ReturnThrough(ws, s0.masks), s0.trec[Depth(ws)..], s0.aborted + s0.trec[..Depth(ws)])
  }

  /** One frame further. */
  function Past(i: Info, s: Stm): Stm {
    if IsMaskFrame(i) then s.(masks := Restored(i))
    else if IsStm(i) && s.trec != [] then s.(trec := s.trec[1..], aborted := s.aborted + [s.trec[0]])
    else s
  }

  lemma UnwoundSnoc(ws: seq<Word>, b: seq<Word>, exception: bool, stopAtAtomically: bool, s0: Stm, s: Stm)
    requires Unwound(ws, exception, stopAtAtomically, s0, s) && Frames(ws) && OneFrame(b)
    requires !Halts(b[0].info, exception, stopAtAtomically) && (IsStm(b[0].info) ==> s.trec != [])
    ensures Unwound(ws + b, exception, stopAtAtomically, s0, Past(b[0].info, s))
  {
    hide NoHalt, Depth, ReturnThrough, Frames, Halts;
    NoHaltSnoc(ws, b, exception, stopAtAtomically);
    DepthSnoc(ws, b);
    ReturnThroughAppend(ws, b, s0.masks);
    ReturnThroughOne(b, s.masks);
    if IsStm(b[0].info) {
      assert s0.trec[..Depth(ws) + 1] == s0.trec[..Depth(ws)] + [s0.trec[Depth(ws)]];
    }
  }

  lemma ReturnThroughOne(b: seq<Word>, m: Masking)
    requires OneFrame(b)
    ensures ReturnThrough(b, m) == if IsMaskFrame(b[0].info) then Restored(b[0].info) else m
  {
    assert b[SizeOf(b[0].info)..] == [];
  }

  /** No frame that has been passed is one that ends the unwinding. */
  lemma {:induction false} NoHaltMeans(ws: seq<Word>, exception: bool, stopAtAtomically: bool, k: nat)
    requires Frames(ws) && NoHalt(ws, exception, stopAtAtomically) && FrameAt(ws, k)
    ensures ws[k].info != Stop && !(exception && ws[k].info == Catch)
            && !(stopAtAtomically && ws[k].info == Info.Atomically)
    decreases |ws|
  {
    if k > 0 {
      PastHead(ws, k);
      NoHaltMeans(ws[SizeOf(ws[0].info)..], exception, stopAtAtomically, k - SizeOf(ws[0].info));
    }
  }

  // ----- Where the unwinding is -----

  /** The stack as it was: its chunks, their words, where the freezing starts, and the heap. */
  datatype Before = Before(cs: seq<StgStack>, ls: seq<seq<Word>>, o: Origin, h: Closures) {
    ghost function Flat(): seq<Word> {
      Join(ls)
    }
  }

  /** Word `off` of chunk `ci` has been reached, at the start of a frame. */
  ghost predicate Reached(e: Before, ci: nat, off: nat, f: Freeze) {
    && ci < |e.cs| && Links(e.cs, e.ls) && off <= |e.ls[ci]| && ChunkOk(e.ls[ci][off..], After(e.cs, ci))
    && f.pos == |Bodies(e.ls, ci)| + off && Freezes(f, e.Flat(), e.o)
  }

  /** What has gone, and what is left, of the whole stack. */
  lemma ReachedJoin(e: Before, ci: nat, off: nat, f: Freeze)
    requires Reached(e, ci, off, f)
    ensures ci < |e.ls| == |e.cs| && off < |e.ls[ci]| && (ci + 1 < |e.ls| ==> off + 2 <= |e.ls[ci]|)
    ensures e.ls[ci][off..][0] == e.ls[ci][off] && e.ls[ci][off].Ret?
    ensures f.pos <= |e.Flat()| && e.Flat()[..f.pos] == Seen(e.ls, ci, off)
            && e.Flat()[f.pos..] == JoinFrom(e.ls, ci, off)
    ensures Frames(e.Flat()[..f.pos])
  {
    hide JoinFrom, Join, Bodies, Freezes, Links;
    ReachedFacts(e, ci, off, f);
    ChunkEnds(e.ls[ci][off..], After(e.cs, ci));
    SeenWhole(e.ls, ci, off);
  }

  lemma ReachedFacts(e: Before, ci: nat, off: nat, f: Freeze)
    requires Reached(e, ci, off, f)
    ensures |e.ls| == |e.cs| && f.pos <= |e.Flat()| && Frames(e.Flat()[..f.pos])
  {
  }

  /** An ordinary frame in its chunk and in the whole stack. */
  lemma ReachedFrame(e: Before, ci: nat, off: nat, f: Freeze)
    requires Reached(e, ci, off, f) && e.ls[ci][off..][0].info != Underflow
    ensures var n, flat := SizeOf(e.ls[ci][off..][0].info), e.Flat();
            && off < |e.ls[ci]| && e.ls[ci][off..][0] == e.ls[ci][off]
            && off + n <= |e.ls[ci]| && f.pos + n <= |flat| && flat[f.pos..f.pos + n] == e.ls[ci][off..off + n]
            && flat[f.pos] == e.ls[ci][off] && FrameAt(flat, f.pos)
            && flat[f.pos + n..] == JoinFrom(e.ls, ci, off + n)
  {
    hide JoinFrom, Join, Bodies, Freezes, Links, Seen, Frames;
    ReachedJoin(e, ci, off, f);
    var ws, flat := e.ls[ci][off..], e.Flat();
    var n := SizeOf(ws[0].info);
    if ws[0].info != Stop {
      Room(ws, After(e.cs, ci));
    }
    NextFrame(e.ls, ci, off, n);
    JoinedFrame(flat, f.pos, n, ws);
  }

  lemma JoinedFrame(flat: seq<Word>, pos: nat, n: nat, ws: seq<Word>)
    requires pos <= |flat| && n <= |flat[pos..]| && 0 < n <= |ws| && flat[pos..][..n] == ws[..n]
    ensures pos + n <= |flat| && flat[pos..pos + n] == ws[..n] && flat[pos] == flat[pos..][0] == ws[0]
            && flat[pos + n..] == flat[pos..][n..]
  {
    assert ws[..n][0] == ws[0];
  }

  // ----- The heap -----

  /** The closures, allocated upwards; and the transactions that stmAbortTransaction and stmCondemnTransaction got. */
  class Heap {
    var closures: Closures
    var limit: nat
    var aborted: seq<nat>
    var condemned: seq<nat>

    constructor ()
      ensures Valid() && closures == map[] && aborted == [] && condemned == []
    {
      closures, limit, aborted, condemned := map[], 0, [], [];
    }

    ghost predicate Valid()
      reads this`closures, this`limit
    {
      forall a | a in closures :: a < limit
    }

    method Allocate(c: Closure) returns (a: nat)
      requires Valid()
      modifies this`closures, this`limit
      ensures Valid() && a !in old(closures) && closures == old(closures)[a := c]
    {
      a := limit;
      closures := closures[a := c];
      limit := limit + 1;
    }

    /** updateThunk */
    method UpdateThunk(updatee: nat, target: Word)
      requires Valid() && updatee in closures
      modifies this`closures
      ensures Valid() && closures == old(closures)[updatee := Ind(target)]
    {
      closures := closures[updatee := Ind(target)];
    }
  }

  // ----- The state of the loop -----

  /** The words from `frame` on, and all chunks below, are as they were. */
  ghost predicate Chained(tso: StgTSO, frame: nat, e: Before, ci: nat, off: nat)
    reads tso`stackobj, tso`chunks, e.cs, Arrays(e.cs)
  {
    && ci < |e.cs| == |e.ls| && Separate(e.cs) && off <= |e.ls[ci]| && Below(e, ci)
    && tso.chunks == e.cs[ci..] && tso.stackobj == e.cs[ci] && e.cs[ci].sp <= e.cs[ci].words.Length
    && SPARE <= frame <= e.cs[ci].words.Length && e.cs[ci].words[frame..] == e.ls[ci][off..]
  }

  ghost predicate Below(e: Before, ci: nat)
    reads e.cs, Arrays(e.cs)
  {
    && |e.cs| == |e.ls|
    && forall i | ci < i < |e.cs| :: SPARE <= e.cs[i].sp <= e.cs[i].words.Length && Live(e.cs[i]) == e.ls[i]
  }

  /** The free words that raiseAsync relies on in each chunk; the runtime reserves RESERVED_STACK_WORDS, which is 21. */
  const SPARE := 3

  /** The current closure is at `sp`, with the words up to `frame` to be frozen with it. */
  ghost predicate Holding(words: array<Word>, sp: nat, frame: nat, f: Freeze)
    reads words
  {
    sp < frame <= words.Length && words[sp] == f.cur && words[sp + 1..frame] == f.acc
  }

  ghost predicate Heaped(heap: Heap, e: Before, f: Freeze)
    reads heap`closures, heap`limit
  {
    heap.Valid() && HeapIs(heap.closures, e.h, f, e.Flat(), e.o) && e.h.Keys <= heap.closures.Keys
        && UpdateesIn(e.Flat(), e.h)
  }

  ghost predicate At(heap: Heap, tso: StgTSO, sp: nat, frame: nat, e: Before, ci: nat, off: nat, f: Freeze)
    reads heap`closures, heap`limit, tso`stackobj, tso`chunks, e.cs, Arrays(e.cs)
  {
    Chained(tso, frame, e, ci, off) && Holding(e.cs[ci].words, sp, frame, f) && Reached(e, ci, off, f)
        && Heaped(heap, e, f)
  }

  method CopyWords(words: array<Word>, from: nat, n: nat) returns (payload: seq<Word>)
    requires from + n <= words.Length
    ensures payload == words[from..from + n]
  {
    payload := [];
    var i := 0;
    while i < n
      invariant 0 <= i <= n && payload == words[from..from + i]
    {
      payload := payload + [words[from + i]];
      i := i + 1;
    }
  }

  /** The words of the frame that has been reached. */
  lemma FrameWords(tso: StgTSO, frame: nat, e: Before, ci: nat, off: nat, n: nat)
    requires Chained(tso, frame, e, ci, off) && off + n <= |e.ls[ci]|
    ensures frame + n <= tso.stackobj.words.Length && tso.stackobj == e.cs[ci]
    ensures tso.stackobj.words[frame..frame + n] == e.ls[ci][off..off + n]
    ensures n > 0 ==> tso.stackobj.words[frame] == e.ls[ci][off]
    ensures n > 1 ==> tso.stackobj.words[frame + 1] == e.ls[ci][off + 1]
  {
    hide Below, Separate;
    var words, ls := tso.stackobj.words, e.ls[ci];
    assert words[frame..][..n] == words[frame..frame + n] && ls[off..][..n] == ls[off..off + n];
    assert n > 0 ==> words[frame..frame + n][0] == ls[off..off + n][0];
    assert n > 1 ==> words[frame..frame + n][1] == ls[off..off + n][1];
  }

  /** Stores the new current closure at `at`, just above the next frame, which is `n` words further. */
  method StoreCurrent(tso: StgTSO, at: nat, w: Word, ghost frame: nat, ghost e: Before, ghost ci: nat, ghost off: nat,
      ghost n: nat)
    requires Chained(tso, frame, e, ci, off) && off + n <= |e.ls[ci]| && at + 1 == frame + n
    modifies tso.stackobj.words
    ensures Chained(tso, frame + n, e, ci, off + n) && frame + n <= e.cs[ci].words.Length && e.cs[ci].words[at] == w
            && e.cs[ci].words[at + 1..frame + n] == []
  {
    hide Separate;
    FrameWords(tso, frame, e, ci, off, n);
    var words := tso.stackobj.words;
    assert words[frame + n..] == words[frame..][n..] && e.ls[ci][off + n..] == e.ls[ci][off..][n..];
    Others(e, ci);
    words[at] := w;
    assert words[frame + n..] == old(words[frame + n..]);
    forall i | ci < i < |e.cs| ensures SPARE <= e.cs[i].sp <= e.cs[i].words.Length && Live(e.cs[i]) == e.ls[i] {
      assert Live(e.cs[i]) == old(Live(e.cs[i]));
    }
  }

  lemma Others(e: Before, ci: nat)
    requires ci < |e.cs| && Separate(e.cs)
    ensures forall i | ci < i < |e.cs| :: e.cs[i].words != e.cs[ci].words && e.cs[i] != e.cs[ci]
  {
  }

  /** Allocates an AP_STACK for the current closure and the words above the next frame. */
  method NewApStack(heap: Heap, tso: StgTSO, sp: nat, frame: nat, update: bool, ghost e: Before, ghost ci: nat,
      ghost off: nat, ghost f: Freeze)
    returns (ap: nat)
    requires Chained(tso, frame, e, ci, off) && Holding(e.cs[ci].words, sp, frame, f) && heap.Valid()
    modifies heap`closures, heap`limit
    ensures Chained(tso, frame, e, ci, off) && Holding(e.cs[ci].words, sp, frame, f) && heap.Valid()
    ensures ap !in old(heap.closures)
    ensures heap.closures == old(heap.closures)[ap := if update then ApStack(f.cur, f.acc)
            else ApStackNoUpd(f.cur, f.acc)]
  {
    hide Separate;
    var words := tso.stackobj.words;
    var payload := CopyWords(words, sp + 1, frame - sp - 1);
    ap := heap.Allocate(if update then ApStack(words[sp], payload) else ApStackNoUpd(words[sp], payload));
  }

  /** updateThunk, unless the closure is the one that stop_here updates: that one keeps its black hole. */
  method UpdateOrKeep(heap: Heap, tso: StgTSO, frame: nat, ap: nat, updatee: Option<Word>, ghost e: Before,
      ghost ci: nat, ghost off: nat)
    returns (target: Word)
    requires Chained(tso, frame, e, ci, off) && heap.Valid() && off + 2 <= |e.ls[ci]|
    requires e.ls[ci][off + 1].Ptr? && e.ls[ci][off + 1].addr in heap.closures
    modifies heap`closures
    ensures Chained(tso, frame, e, ci, off) && heap.Valid()
    ensures if updatee == Some(e.ls[ci][off + 1]) then target == e.ls[ci][off + 1]
            && heap.closures == old(heap.closures)
            else target == Ptr(ap) && heap.closures == old(heap.closures)[e.ls[ci][off + 1].addr := Ind(Ptr(ap))]
  {
    hide Separate;
    FrameWords(tso, frame, e, ci, off, 2);
    var words := tso.stackobj.words;
    if Some(words[frame + 1]) == updatee {
      target := words[frame + 1];
    } else {
      target := Ptr(ap);
      heap.UpdateThunk(words[frame + 1].addr, target);
    }
  }

  /** UPDATE_FRAME */
  method FreezeUpdate(heap: Heap, tso: StgTSO, sp: nat, frame: nat, updatee: Option<Word>,
                      ghost e: Before, ghost ci: nat, ghost off: nat, ghost f: Freeze)
    returns (sp': nat, frame': nat, ghost f': Freeze)
    requires At(heap, tso, sp, frame, e, ci, off, f) && e.ls[ci][off..][0] == Ret(Update) && updatee == e.o.stop
    modifies heap`closures, heap`limit, tso.stackobj.words
    ensures off + 2 <= |e.ls[ci]| && frame' == frame + 2 && f'.pos == f.pos + 2
    ensures At(heap, tso, sp', frame', e, ci, off + 2, f')
    ensures f'.records != [] && f' == PastUpdate(f, e.ls[ci][off + 1], e.o, f'.records[|f'.records| - 1].ap)
  {
    hide Reached, HeapIs, UpdateesIn, Freezes, Links, Chained;
    ReachedUpdate(e, ci, off, f);
    HeapMade(heap, e, f);
    var ap := NewApStack(heap, tso, sp, frame, true, e, ci, off, f);
    var target := UpdateOrKeep(heap, tso, frame, ap, updatee, e, ci, off);
    HeapUpdates(old(heap.closures), e.h, f, e.Flat(), e.o, ap);
    sp' := frame + 1;
    StoreCurrent(tso, sp', target, frame, e, ci, off, 2);
    frame' := sp' + 1;
    f' := PastUpdate(f, e.ls[ci][off + 1], e.o, ap);
    PastUpdateReached(e, ci, off, f, ap);
  }

  lemma HeapMade(heap: Heap, e: Before, f: Freeze)
    requires Heaped(heap, e, f)
    ensures f.made.Keys <= heap.closures.Keys
  {
  }

  lemma ReachedUpdate(e: Before, ci: nat, off: nat, f: Freeze)
    requires Reached(e, ci, off, f) && e.ls[ci][off..][0] == Ret(Update)
    ensures ci < |e.ls| == |e.cs| && off + 2 <= |e.ls[ci]| && f.pos + 2 <= |e.Flat()| && e.Flat()[f.pos] == Ret(Update)
    ensures e.Flat()[f.pos + 1] == e.ls[ci][off + 1] && FrameAt(e.Flat(), f.pos)
    ensures UpdateesIn(e.Flat(), e.h) ==> e.ls[ci][off + 1].Ptr? && e.ls[ci][off + 1].addr in e.h
  {
    hide Reached, FrameAt;
    ReachedJoin(e, ci, off, f);
    ReachedFrame(e, ci, off, f);
    assert e.Flat()[f.pos + 1] == e.Flat()[f.pos..f.pos + 2][1];
  }

  lemma PastUpdateReached(e: Before, ci: nat, off: nat, f: Freeze, ap: nat)
    requires Reached(e, ci, off, f) && off + 2 <= |e.ls[ci]| && e.ls[ci][off..][0] == Ret(Update) && ap !in f.made
    ensures Reached(e, ci, off + 2, PastUpdate(f, e.ls[ci][off + 1], e.o, ap))
  {
    hide Freezes, StgTSO.Valid;
    ReachedUpdate(e, ci, off, f);
    FrameParts(e.cs, e.ls, ci, off, 2);
    PastUpdateFreezes(f, e.Flat(), e.o, ap);
  }

  /** UNDERFLOW_FRAME */
  method FreezeUnderflow(heap: Heap, tso: StgTSO, sp: nat, frame: nat, ghost e: Before, ghost ci: nat, ghost off: nat,
      ghost f: Freeze)
    returns (sp': nat, frame': nat, ghost f': Freeze)
    requires At(heap, tso, sp, frame, e, ci, off, f) && e.ls[ci][off..][0] == Ret(Underflow)
    modifies heap`closures, heap`limit, tso`stackobj, tso`totStackSize, tso`chunks, tso.stackobj`sp, Arrays(e.cs)
    ensures ci + 1 < |e.cs| && f'.pos == f.pos
    ensures At(heap, tso, sp', frame', e, ci + 1, 0, f') && f'.cur.Ptr? && f' == AcrossChunk(f, f'.cur.addr)
  {
    hide Reached, HeapIs, UpdateesIn, Freezes, Links, Chained;
    HeapMade(heap, e, f);
    UnderflowReached(e, ci, off, f);
    var ap := NewApStack(heap, tso, sp, frame, false, e, ci, off, f);
    f' := AcrossChunk(f, ap);
    HeapAllocates(old(heap.closures), e.h, f, f', e.Flat(), e.o, ap, ApStackNoUpd(f.cur, f.acc));
    AcrossChunkReached(e, ci, off, f, ap);
    PopChunk(tso, frame, e, ci, off);
    sp' := tso.stackobj.sp - 1;
    StoreCurrent(tso, sp', Ptr(ap), tso.stackobj.sp, e, ci + 1, 0, 0);
    frame' := sp' + 1;
  }

  lemma UnderflowReached(e: Before, ci: nat, off: nat, f: Freeze)
    requires Reached(e, ci, off, f) && e.ls[ci][off..][0] == Ret(Underflow)
    ensures |e.ls| == |e.cs| && ci + 1 < |e.cs| && off + 2 == |e.ls[ci]| && Links(e.cs, e.ls)
  {
  }

  lemma AcrossChunkReached(e: Before, ci: nat, off: nat, f: Freeze, ap: nat)
    requires Reached(e, ci, off, f) && e.ls[ci][off..][0] == Ret(Underflow) && ap !in f.made
    ensures ci + 1 < |e.cs| && Reached(e, ci + 1, 0, AcrossChunk(f, ap))
  {
    hide Freezes;
    UnderflowReached(e, ci, off, f);
    AcrossChunkFreezes(f, e.Flat(), e.o, ap);
    assert e.ls[ci + 1][0..] == e.ls[ci + 1] && |Body(e.ls[ci])| == off;
  }

  /** The top chunk has only its underflow frame left. */
  method PopChunk(tso: StgTSO, frame: nat, ghost e: Before, ghost ci: nat, ghost off: nat)
    requires Chained(tso, frame, e, ci, off) && Links(e.cs, e.ls) && ci + 1 < |e.cs| && off + 2 == |e.ls[ci]|
    modifies tso`stackobj, tso`totStackSize, tso`chunks, tso.stackobj`sp
    ensures tso.stackobj == e.cs[ci + 1] && tso.stackobj.sp >= SPARE && Chained(tso, tso.stackobj.sp, e, ci + 1, 0)
  {
    hide Links, ChunkOk, Separate, Lives, Arrays, Returned, Flat, Join;
    ghost var ls := [e.ls[ci][off..]] + e.ls[ci + 1..];
    LinksFrom(e.cs, e.ls, ci, off);
    Others(e, ci);
    tso.stackobj.sp := frame;
    assert Below(e, ci);
    LivesFrom(e, ci, e.ls[ci][off..]);
    assert tso.chunks[1..] == e.cs[ci + 1..] && ls[1..] == e.ls[ci + 1..];
    OnlyUnderflow(tso);
    var retvals := tso.ThreadStackUnderflow();
    LivesBack(e, ci + 1);
  }

  /** The live words of the chunks from `ci` on. */
  lemma LivesFrom(e: Before, ci: nat, top: seq<Word>)
    requires ci < |e.cs| && Separate(e.cs) && Below(e, ci) && e.cs[ci].sp <= e.cs[ci].words.Length
             && Live(e.cs[ci]) == top
    ensures Lives(e.cs[ci..]) == [top] + e.ls[ci + 1..] && InBounds(e.cs[ci..]) && Separate(e.cs[ci..])
  {
  }

  lemma LivesBack(e: Before, ci: nat)
    requires |e.ls| == |e.cs| && ci < |e.cs| && Lives(e.cs[ci..]) == e.ls[ci..]
    ensures forall i | ci <= i < |e.cs| :: Live(e.cs[i]) == e.ls[i]
    ensures e.ls[ci][0..] == e.ls[ci]
  {
    forall i | ci <= i < |e.cs| ensures Live(e.cs[i]) == e.ls[i] {
      assert Lives(e.cs[ci..])[i - ci] == Live(e.cs[i]) && e.ls[ci..][i - ci] == e.ls[i];
    }
  }

  lemma LinksFrom(cs: seq<StgStack>, ls: seq<seq<Word>>, ci: nat, off: nat)
    requires Links(cs, ls) && ci + 1 < |cs| && off + 2 == |ls[ci]|
    ensures Links(cs[ci..], [ls[ci][off..]] + ls[ci + 1..])
  {
    ChunkEnds(ls[ci], After(cs, ci));
    hide ChunkOk;
    assert forall i | 0 <= i < |cs| - ci :: After(cs[ci..], i) == After(cs, ci + i);
  }

  /** An interrupted transaction is replaced by a call that runs it again. */
  method FreezeAtomically(heap: Heap, tso: StgTSO, sp: nat, frame: nat, ghost e: Before, ghost ci: nat,
      ghost off: nat, ghost f: Freeze)
    returns (sp': nat, frame': nat, ghost f': Freeze)
    requires At(heap, tso, sp, frame, e, ci, off, f) && e.ls[ci][off..][0] == Ret(Info.Atomically)
    modifies heap`closures, heap`limit, tso.stackobj.words
    ensures off + 3 <= |e.ls[ci]| && frame' == frame + 3 && f'.pos == f.pos + 3
    ensures At(heap, tso, sp', frame', e, ci, off + 3, f')
    ensures f'.cur.Ptr? && f' == PastAtomically(f, e.ls[ci][off + 1], f'.cur.addr)
  {
    hide Reached, HeapIs, UpdateesIn, Freezes, Links, Chained;
    HeapMade(heap, e, f);
    AtomicallyReached(e, ci, off, f);
    var a := NewAtomically(heap, tso, frame, e, ci, off);
    f' := PastAtomically(f, e.ls[ci][off + 1], a);
    HeapAllocates(old(heap.closures), e.h, f, f', e.Flat(), e.o, a, AtomicallyThunk(e.ls[ci][off + 1]));
    PastAtomicallyReached(e, ci, off, f, a);
    frame' := frame + 3;
    sp' := frame' - 1;
    StoreCurrent(tso, sp', Ptr(a), frame, e, ci, off, 3);
  }

  method NewAtomically(heap: Heap, tso: StgTSO, frame: nat, ghost e: Before, ghost ci: nat,
      ghost off: nat) returns (a: nat)
    requires Chained(tso, frame, e, ci, off) && off + 3 <= |e.ls[ci]| && heap.Valid()
    modifies heap`closures, heap`limit
    ensures Chained(tso, frame, e, ci, off) && heap.Valid()
    ensures a !in old(heap.closures) && heap.closures == old(heap.closures)[a := AtomicallyThunk(e.ls[ci][off + 1])]
  {
    hide Separate;
    FrameWords(tso, frame, e, ci, off, 2);
    a := heap.Allocate(AtomicallyThunk(tso.stackobj.words[frame + 1]));
  }

  lemma AtomicallyReached(e: Before, ci: nat, off: nat, f: Freeze)
    requires Reached(e, ci, off, f) && e.ls[ci][off..][0] == Ret(Info.Atomically)
    ensures ci < |e.ls| == |e.cs| && off + 3 <= |e.ls[ci]| && f.pos + 3 <= |e.Flat()|
            && e.Flat()[f.pos] == Ret(Info.Atomically)
    ensures e.Flat()[f.pos + 1] == e.ls[ci][off + 1]
  {
    hide Reached, FrameAt;
    ReachedJoin(e, ci, off, f);
    ReachedFrame(e, ci, off, f);
    assert e.Flat()[f.pos + 1] == e.Flat()[f.pos..f.pos + 3][1];
  }

  lemma PastAtomicallyReached(e: Before, ci: nat, off: nat, f: Freeze, a: nat)
    requires Reached(e, ci, off, f) && e.ls[ci][off..][0] == Ret(Info.Atomically) && a !in f.made
    ensures ci < |e.ls| && off + 3 <= |e.ls[ci]| && Reached(e, ci, off + 3, PastAtomically(f, e.ls[ci][off + 1], a))
  {
    hide Freezes;
    AtomicallyReached(e, ci, off, f);
    FrameParts(e.cs, e.ls, ci, off, 3);
    PastAtomicallyFreezes(f, e.Flat(), e.o, a);
  }

  /** Any other frame stays with those above it. */
  lemma PassAt(heap: Heap, tso: StgTSO, sp: nat, frame: nat, e: Before, ci: nat, off: nat, f: Freeze, n: nat)
    requires At(heap, tso, sp, frame, e, ci, off, f) && n == SizeOf(e.ls[ci][off..][0].info)
    requires e.ls[ci][off..][0].info != Update && !Terminal(e.ls[ci][off..][0].info)
    ensures off + n <= |e.ls[ci]| && At(heap, tso, sp, frame + n, e, ci, off + n, Pass(f, e.ls[ci][off..off + n]))
  {
    hide Reached, HeapIs, UpdateesIn, Freezes, Links, Chained;
    ReachedJoin(e, ci, off, f);
    PassReached(e, ci, off, f, n);
    FrameWords(tso, frame, e, ci, off, n);
    PassChained(tso, frame, e, ci, off, n);
    var words := e.cs[ci].words;
    assert words[sp + 1..frame + n] == words[sp + 1..frame] + words[frame..frame + n];
    HeapPasses(heap, e, f, e.ls[ci][off..off + n]);
  }

  lemma HeapPasses(heap: Heap, e: Before, f: Freeze, b: seq<Word>)
    requires Heaped(heap, e, f)
    ensures Heaped(heap, e, Pass(f, b))
  {
  }

  lemma PassChained(tso: StgTSO, frame: nat, e: Before, ci: nat, off: nat, n: nat)
    requires Chained(tso, frame, e, ci, off) && off + n <= |e.ls[ci]|
    ensures Chained(tso, frame + n, e, ci, off + n)
  {
    hide Below, Separate;
    FrameWords(tso, frame, e, ci, off, n);
    var words := e.cs[ci].words;
    assert words[frame + n..] == words[frame..][n..] && e.ls[ci][off + n..] == e.ls[ci][off..][n..];
  }

  lemma IsFrameAt(e: Before, ci: nat, off: nat, f: Freeze, n: nat)
    requires Reached(e, ci, off, f) && n == SizeOf(e.ls[ci][off..][0].info) && !Terminal(e.ls[ci][off..][0].info)
    ensures f.pos + n <= |e.Flat()| && OneFrame(e.Flat()[f.pos..f.pos + n])
  {
    hide Reached, FrameAt;
    ReachedJoin(e, ci, off, f);
    ReachedFrame(e, ci, off, f);
    IsOneFrame(e.Flat(), f.pos, n);
  }

  lemma PassReached(e: Before, ci: nat, off: nat, f: Freeze, n: nat)
    requires Reached(e, ci, off, f) && n == SizeOf(e.ls[ci][off..][0].info)
    requires e.ls[ci][off..][0].info != Update && !Terminal(e.ls[ci][off..][0].info)
    ensures off + n <= |e.ls[ci]| && Reached(e, ci, off + n, Pass(f, e.ls[ci][off..off + n]))
  {
    hide Freezes, FrameAt, JoinFrom, OneFrame, Join;
    IsFrameAt(e, ci, off, f, n);
    ReachedFrame(e, ci, off, f);
    FrameParts(e.cs, e.ls, ci, off, n);
    PassFreezes(f, e.Flat(), e.o, n);
  }

  // ----- The end of the unwinding -----

  /** The words `pre` have been pushed on what is left of the stack. */
  lemma Pushed(tso: StgTSO, e: Before, ci: nat, off: nat, pre: seq<Word>)
    requires Links(e.cs, e.ls) && ci < |e.cs| && Separate(e.cs) && tso.chunks == e.cs[ci..] && tso.stackobj == e.cs[ci]
    requires Below(e, ci) && off <= |e.ls[ci]| && ChunkOk(e.ls[ci][off..], After(e.cs, ci)) && Frames(pre)
    requires tso.stackobj.sp <= tso.stackobj.words.Length && Live(tso.stackobj) == pre + e.ls[ci][off..]
    ensures tso.Valid() && Flat(tso.chunks) == pre + JoinFrom(e.ls, ci, off)
  {
    hide ChunkOk, Frames, Join, Body;
    var cs, ls := tso.chunks, [pre + e.ls[ci][off..]] + e.ls[ci + 1..];
    LivesFrom(e, ci, pre + e.ls[ci][off..]);
    PushedChunk(pre, e.ls[ci][off..], After(e.cs, ci));
    PushedLinks(e, ci, off, pre);
    assert ls[1..] == e.ls[ci + 1..];
    JoinPushed(ls);
    if ci + 1 < |e.cs| {
      ChunkEnds(e.ls[ci][off..], After(e.cs, ci));
      BodyOfAppend(pre, e.ls[ci][off..]);
      Assoc(pre, Body(e.ls[ci][off..]), Join(e.ls[ci + 1..]));
    }
  }

  lemma JoinPushed(ls: seq<seq<Word>>)
    requires ls != []
    ensures Join(ls) == if |ls| == 1 then ls[0] else Body(ls[0]) + Join(ls[1..])
  {
  }

  lemma PushedLinks(e: Before, ci: nat, off: nat, pre: seq<Word>)
    requires Links(e.cs, e.ls) && ci < |e.cs| && off <= |e.ls[ci]| && ChunkOk(pre + e.ls[ci][off..], After(e.cs, ci))
    ensures Links(e.cs[ci..], [pre + e.ls[ci][off..]] + e.ls[ci + 1..])
  {
    hide ChunkOk;
    assert forall i | 0 <= i < |e.cs| - ci :: After(e.cs[ci..], i) == After(e.cs, ci + i);
  }

  lemma BodyOfAppend(a: seq<Word>, b: seq<Word>)
    requires |b| >= 2
    ensures Body(a + b) == a + Body(b)
  {
  }

  lemma {:induction false} PushedChunk(pre: seq<Word>, ws: seq<Word>, next: Option<StgStack>)
    requires Frames(pre) && ChunkOk(ws, next)
    ensures ChunkOk(pre + ws, next)
    decreases |pre|
  {
    if pre == [] {
      assert pre + ws == ws;
    } else {
      HeadOfAppend(pre, ws);
      PushedChunk(pre[SizeOf(pre[0].info)..], ws, next);
    }
  }

  /** STOP_FRAME: nothing is left of the stack. */
  method Kill(tso: StgTSO, frame: nat, ghost e: Before, ghost ci: nat, ghost off: nat, ghost f: Freeze)
    requires Chained(tso, frame, e, ci, off) && Reached(e, ci, off, f) && e.ls[ci][off..][0] == Ret(Stop)
    modifies tso`whatNext, tso.stackobj`sp
    ensures tso.whatNext == Killed && tso.chunks == [tso.stackobj] && Live(tso.stackobj) == []
    ensures tso.stackobj.sp == tso.stackobj.words.Length
  {
    hide Freezes;
    tso.whatNext := Killed;
    tso.stackobj.sp := frame + 1;
    assert |e.ls[ci][off..]| == 1 && After(e.cs, ci) == None;
  }

  /** CATCH_FRAME, with an exception: the handler is applied to it. */
  method ApplyHandler(tso: StgTSO, frame: nat, exception: Word, ghost e: Before, ghost ci: nat, ghost off: nat,
      ghost f: Freeze)
    requires Chained(tso, frame, e, ci, off) && Reached(e, ci, off, f) && e.ls[ci][off..][0] == Ret(Catch)
    modifies tso`whatNext, tso`blockex, tso`interruptible, tso.stackobj`sp, tso.stackobj.words
    ensures tso.Valid() && tso.whatNext == RunGHC && tso.Masks() == HandlerMasking(old(tso.Masks()))
    ensures f.pos + 2 <= |e.Flat()|
    ensures Flat(tso.chunks) == HandlerWords(e.Flat()[f.pos + 1], exception, old(tso.Masks())) + e.Flat()[f.pos + 2..]
    ensures Flat(tso.chunks) == [Ret(ENTER), e.Flat()[f.pos + 1], Ret(AP_PV), exception]
                                + (if !old(tso.blockex) then [Ret(UnmaskRet)] else []) + e.Flat()[f.pos + 2..]
    ensures tso.blockex && tso.interruptible == (!old(tso.blockex) || old(tso.interruptible))
  {
    hide Chained, Reached, StgTSO.Valid, Flat, HandlerWords, HandlerMasking;
    ghost var m := tso.Masks();
    PushApplication(tso, frame, exception, e, ci, off, f);
    HandlerIs(e.Flat()[f.pos + 1], exception, m);
  }

  method PushApplication(tso: StgTSO, frame: nat, exception: Word, ghost e: Before, ghost ci: nat, ghost off: nat,
      ghost f: Freeze)
    requires Chained(tso, frame, e, ci, off) && Reached(e, ci, off, f) && e.ls[ci][off..][0] == Ret(Catch)
    modifies tso`whatNext, tso`blockex, tso`interruptible, tso.stackobj`sp, tso.stackobj.words
    ensures tso.Valid() && tso.whatNext == RunGHC && tso.Masks() == HandlerMasking(old(tso.Masks()))
    ensures f.pos + 2 <= |e.Flat()|
    ensures Flat(tso.chunks) == HandlerWords(e.Flat()[f.pos + 1], exception, old(tso.Masks())) + e.Flat()[f.pos + 2..]
  {
    hide Links, Separate, Freezes, ChunkOk, Join, Frames, JoinFrom, Bodies, HandlerWords, Reached, Lives, StgTSO.Valid;
    CatchReached(e, ci, off, f);
    FrameWords(tso, frame, e, ci, off, 2);
    PassChained(tso, frame, e, ci, off, 2);
    Others(e, ci);
    ghost var m := tso.Masks();
    var handler := tso.stackobj.words[frame + 1];
    HandlerRunsMasked(handler, exception, m);
    var sp := PushHandler(tso, frame + 2, handler, exception);
    tso.stackobj.sp := sp;
    tso.whatNext := RunGHC;
    assert Below(e, ci);
    Pushed(tso, e, ci, off + 2, HandlerWords(handler, exception, m));
  }

  lemma HandlerIs(handler: Word, exception: Word, m: Masking)
    ensures HandlerWords(handler, exception, m)
            == [Ret(ENTER), handler, Ret(AP_PV), exception] + if m == Unmasked then [Ret(UnmaskRet)] else []
    ensures HandlerMasking(m) == if m == Uninterruptible then Uninterruptible else Interruptible
  {
  }

  /** Pushes the application of the handler, and masks. */
  method PushHandler(tso: StgTSO, top: nat, handler: Word, exception: Word) returns (sp: nat)
    requires 5 <= top <= tso.stackobj.words.Length
    modifies tso`blockex, tso`interruptible, tso.stackobj.words
    ensures sp <= tso.stackobj.words.Length && tso.Masks() == HandlerMasking(old(tso.Masks()))
    ensures tso.stackobj.words[sp..]
            == HandlerWords(handler, exception, old(tso.Masks())) + old(tso.stackobj.words[top..])
  {
    var words := tso.stackobj.words;
    sp := top;
    if !tso.blockex {
      sp := sp - 1;
      words[sp] := Ret(UnmaskRet);
    }
    if !(tso.blockex && !tso.interruptible) {
      tso.blockex, tso.interruptible := true, true;
    }
    sp := sp - 4;
    words[sp], words[sp + 1], words[sp + 2], words[sp + 3] := Ret(ENTER), handler, Ret(AP_PV), exception;
    assert words[top..] == old(words[top..]);
    assert words[sp..top] == HandlerWords(handler, exception, old(tso.Masks()));
    assert words[sp..] == words[sp..top] + words[top..];
  }

  lemma CatchReached(e: Before, ci: nat, off: nat, f: Freeze)
    requires Reached(e, ci, off, f) && e.ls[ci][off..][0] == Ret(Catch)
    ensures ci < |e.ls| == |e.cs| && off + 2 <= |e.ls[ci]| && f.pos + 2 <= |e.Flat()| && Links(e.cs, e.ls)
    ensures e.Flat()[f.pos + 1] == e.ls[ci][off + 1] && e.Flat()[f.pos + 2..] == JoinFrom(e.ls, ci, off + 2)
    ensures ChunkOk(e.ls[ci][off + 2..], After(e.cs, ci))
  {
    hide Freezes, FrameAt, ChunkOk, Join, JoinFrom, Bodies;
    ReachedJoin(e, ci, off, f);
    ReachedFrame(e, ci, off, f);
    FrameParts(e.cs, e.ls, ci, off, 2);
    assert e.Flat()[f.pos + 1] == e.Flat()[f.pos..f.pos + 2][1];
  }

  /** ATOMICALLY_FRAME, when asked to stop there: the transaction is condemned and gets a dummy result. */
  method Condemn(heap: Heap, tso: StgTSO, frame: nat, ghost e: Before, ghost ci: nat, ghost off: nat, ghost f: Freeze)
    requires Chained(tso, frame, e, ci, off) && Reached(e, ci, off, f) && e.ls[ci][off..][0] == Ret(Info.Atomically)
             && tso.trec != []
    modifies heap`condemned, tso`whatNext, tso.stackobj`sp, tso.stackobj.words
    ensures tso.Valid() && tso.whatNext == RunGHC && heap.condemned == old(heap.condemned) + [tso.trec[0]]
    ensures f.pos <= |e.Flat()| && Flat(tso.chunks) == [Ret(RET_P), NO_TREC] + e.Flat()[f.pos..]
  {
    hide Links, Separate, Freezes, ChunkOk, Join, Frames, JoinFrom, Bodies;
    ReachedJoin(e, ci, off, f);
    Others(e, ci);
    heap.condemned := heap.condemned + [tso.trec[0]];
    var stack := tso.stackobj;
    var words := stack.words;
    assert words[frame..] == e.ls[ci][off..];
    stack.sp := frame - 2;
    words[stack.sp + 1] := NO_TREC;
    words[stack.sp] := Ret(RET_P);
    tso.whatNext := RunGHC;
    ghost var pre := [Ret(RET_P), NO_TREC];
    assert Frames(pre) by { DummyResult(); }
    assert words[stack.sp..] == pre + e.ls[ci][off..];
    assert Below(e, ci);
    Pushed(tso, e, ci, off, pre);
  }

  lemma DummyResult()
    ensures Frames([Ret(RET_P), NO_TREC])
  {
    assert [Ret(RET_P), NO_TREC][2..] == [];
  }

  // ----- Masking state and transactions -----

  ghost function StmNow(heap: Heap, tso: StgTSO): Stm
    reads heap`aborted, tso`trec, tso`blockex, tso`interruptible
  {
    Stm(tso.Masks(), tso.trec, heap.aborted)
  }

  ghost predicate UnwoundTo(e: Before, f: Freeze, exception: bool, stopAtAtomically: bool, s0: Stm, s: Stm) {
    f.pos <= |e.Flat()| && Unwound(e.Flat()[..f.pos], exception, stopAtAtomically, s0, s)
  }

  lemma UnwoundFrame(e: Before, ci: nat, off: nat, f: Freeze, f': Freeze, i: Info, exception: bool,
      stopAtAtomically: bool, s0: Stm, s: Stm)
    requires Reached(e, ci, off, f) && UnwoundTo(e, f, exception, stopAtAtomically, s0, s)
    requires e.ls[ci][off..][0] == Ret(i) && !Terminal(i) && !Halts(i, exception, stopAtAtomically)
             && (IsStm(i) ==> s.trec != [])
    requires f'.pos == f.pos + SizeOf(i)
    ensures UnwoundTo(e, f', exception, stopAtAtomically, s0, Past(i, s))
  {
    hide Reached, Unwound, FrameAt, Halts, Past;
    ReachedJoin(e, ci, off, f);
    ReachedFrame(e, ci, off, f);
    var flat, n := e.Flat(), SizeOf(i);
    OneMore(flat, f.pos, n);
    UnwoundSnoc(flat[..f.pos], flat[f.pos..f.pos + n], exception, stopAtAtomically, s0, s);
  }

  lemma OneMore(flat: seq<Word>, k: nat, n: nat)
    requires n > 0 && k + n <= |flat|
    ensures flat[..k + n] == flat[..k] + flat[k..k + n] && flat[k..k + n][0] == flat[k]
  {
  }

  lemma TransactionHere(e: Before, ci: nat, off: nat, f: Freeze, exception: bool, stopAtAtomically: bool, s0: Stm,
      s: Stm)
    requires Reached(e, ci, off, f) && UnwoundTo(e, f, exception, stopAtAtomically, s0, s)
             && TrecOk(e.Flat(), |s0.trec|)
    requires e.ls[ci][off..][0].info != Underflow && IsStm(e.ls[ci][off..][0].info)
    ensures s.trec != [] && (e.ls[ci][off..][0].info == Info.Atomically ==> |s.trec| == 1)
  {
    hide Reached, FrameAt;
    ReachedFrame(e, ci, off, f);
  }

  /** stmAbortTransaction, and the enclosing transaction becomes the current one. */
  method AbortTransaction(heap: Heap, tso: StgTSO)
    requires tso.trec != []
    modifies heap`aborted, tso`trec
    ensures StmNow(heap, tso) == Past(CatchStm, old(StmNow(heap, tso)))
  {
    heap.aborted := heap.aborted + [tso.trec[0]];
    tso.trec := tso.trec[1..];
  }

  method RestoreMasks(tso: StgTSO, i: Info)
    requires !IsStm(i)
    modifies tso`blockex, tso`interruptible
    ensures Stm(tso.Masks(), tso.trec, []) == Past(i, Stm(old(tso.Masks()), tso.trec, []))
    ensures tso.blockex == if i == UnmaskRet then false
                           else if i == MaskRet || i == MaskUninterruptibleRet then true else old(tso.blockex)
    ensures tso.interruptible == if i == UnmaskRet || i == MaskUninterruptibleRet then false
                                 else if i == MaskRet then true else old(tso.interruptible)
  {
    if i == UnmaskRet {
      tso.blockex, tso.interruptible := false, false;
    } else if i == MaskRet {
      tso.blockex, tso.interruptible := true, true;
    } else if i == MaskUninterruptibleRet {
      tso.blockex, tso.interruptible := true, false;
    }
  }

  // ----- raiseAsync -----

  /** stop_here is the update frame at word `at` of the top chunk. */
  ghost predicate StopOk(top: seq<Word>, sp: nat, stopHere: Option<nat>) {
    stopHere.Some? ==>
      sp <= stopHere.value && FrameAt(top, stopHere.value - sp) && top[stopHere.value - sp] == Ret(Update)
  }

  ghost function StopUpdatee(top: seq<Word>, sp: nat, stopHere: Option<nat>): Option<Word> {
    if stopHere.Some? && sp <= stopHere.value && stopHere.value - sp + 1 < |top|
        then Some(top[stopHere.value - sp + 1]) else None
  }

  /** The frame at stop_here has not been passed. */
  ghost predicate NotPast(e: Before, ci: nat, off: nat, sp0: nat, frame: nat, stopHere: Option<nat>) {
    stopHere.Some? ==>
      && ci == 0 && ci < |e.ls| && off <= |e.ls[0]| && frame == sp0 + off <= stopHere.value
      && FrameAt(e.ls[0][off..], stopHere.value - frame)
      && stopHere.value - sp0 < |e.ls[0]| && e.ls[0][stopHere.value - sp0] == Ret(Update)
  }

  lemma NotPastFrame(e: Before, off: nat, sp0: nat, frame: nat, stopHere: Option<nat>)
    requires NotPast(e, 0, off, sp0, frame, stopHere) && stopHere.Some? && frame < stopHere.value
    ensures off < |e.ls[0]| && HeadFrame(e.ls[0][off..]) && !Terminal(e.ls[0][off..][0].info)
    ensures var n := SizeOf(e.ls[0][off..][0].info);
             off + n <= |e.ls[0]| && NotPast(e, 0, off + n, sp0, frame + n, stopHere)
  {
    var ws := e.ls[0][off..];
    PastHead(ws, stopHere.value - frame);
    assert Frames(ws[..stopHere.value - frame]);
    var n := SizeOf(ws[0].info);
    assert ws[n..] == e.ls[0][off + n..];
  }

  /** The frame that the loop looks at. */
  lemma Look(heap: Heap, tso: StgTSO, sp: nat, frame: nat, e: Before, ci: nat, off: nat, f: Freeze)
    requires At(heap, tso, sp, frame, e, ci, off, f)
    ensures Freezes(f, e.Flat(), e.o) && HeapIs(heap.closures, e.h, f, e.Flat(), e.o)
    ensures ci < |e.ls| == |e.cs| && off < |e.ls[ci]| && tso.stackobj == e.cs[ci] && frame < tso.stackobj.words.Length
    ensures tso.stackobj.words[frame] == e.ls[ci][off..][0] && e.ls[ci][off..][0].Ret?
    ensures off + SizeOf(e.ls[ci][off..][0].info) <= |e.ls[ci]|
    ensures Chained(tso, frame, e, ci, off) && Reached(e, ci, off, f) && tso.stackobj in e.cs
            && tso.stackobj.words in Arrays(e.cs)
  {
    hide HeapIs, UpdateesIn, Freezes, Links, Separate, Below;
    FrameWords(tso, frame, e, ci, off, 0);
  }

  /** The closure on top of the stack, or a dummy if there is none. */
  method Start(heap: Heap, tso: StgTSO, ghost e: Before) returns (sp: nat, frame: nat)
    requires tso.Valid() && heap.Valid() && e.cs == tso.chunks && e.ls == Lives(tso.chunks) && e.h == heap.closures
    requires UpdateesIn(e.Flat(), e.h) && e.o == Top(e.ls[0], e.o.stop) && forall i | 0 <= i < |e.cs| ::
             e.cs[i].sp >= SPARE
    modifies tso.stackobj.words
    ensures At(heap, tso, sp, frame, e, 0, e.o.from, Begin(e.o)) && frame == tso.stackobj.sp + e.o.from
  {
    hide Links, UpdateesIn, Freezes, HeapIs, ChunkOk, Separate, Reached, Join;
    StartReached(e);
    Others(e, 0);
    HeapBegins(heap.closures, e.Flat(), e.o);
    var words := tso.stackobj.words;
    sp := tso.stackobj.sp;
    assert words[sp..] == e.ls[0] && words[sp] == e.ls[0][0];
    if words[sp] == Ret(ENTER) {
      sp := sp + 1;
      assert words[sp] == e.ls[0][1];
      assert words[sp + 1..] == e.ls[0][2..];
    } else {
      sp := sp - 1;
      words[sp] := DUMMY_RET;
      assert words[sp + 1..] == e.ls[0] && e.ls[0][0..] == e.ls[0];
    }
    frame := sp + 1;
    forall i | 0 < i < |e.cs| ensures SPARE <= e.cs[i].sp <= e.cs[i].words.Length && Live(e.cs[i]) == e.ls[i] {
      assert old(Live(e.cs[i])) == e.ls[i];
    }
  }

  lemma StartReached(e: Before)
    requires Links(e.cs, e.ls) && |e.cs| > 0 && e.o == Top(e.ls[0], e.o.stop)
    ensures Reached(e, 0, e.o.from, Begin(e.o)) && |e.ls[0]| > 0 && e.o.from <= |e.ls[0]|
    ensures e.ls[0][0] == Ret(ENTER) <==> e.o.from == 2
  {
    hide Freezes, Join;
    assert e.ls[0][0..] == e.ls[0];
    StartFrames(e);
    BeginFreezes(e.Flat(), e.o);
  }

  lemma StartFrames(e: Before)
    requires Links(e.cs, e.ls) && |e.cs| > 0 && e.o == Top(e.ls[0], e.o.stop)
    ensures e.o.from <= |e.Flat()|
    ensures var pre := e.Flat()[..e.o.from];
            Frames(pre) && Updates(pre, 0) == [] && Depth(pre) == 0 && forall m :: ReturnThrough(pre, m) == m
    ensures forall x, sa :: NoHalt(e.Flat()[..e.o.from], x, sa)
  {
    hide Join;
    if e.o.from == 2 {
      FrameParts(e.cs, e.ls, 0, 0, 2);
      ChunkEnds(e.ls[0], After(e.cs, 0));
      SeenWhole(e.ls, 0, 0);
      NextFrame(e.ls, 0, 0, 2);
      var pre := e.Flat()[..2];
      assert Seen(e.ls, 0, 0) == [] && pre == JoinFrom(e.ls, 0, 0)[..2] == e.ls[0][0..2];
      assert pre[2..] == [] && pre[0] == Ret(ENTER);
    } else {
      assert e.Flat()[..0] == [];
    }
  }

  /** Where and how the unwinding ended, `s` being the masking state and the transactions then. */
  ghost predicate Stopped(e: Before, f: Freeze, exception: bool, stopAtAtomically: bool, s0: Stm, s: Stm) {
    && f.pos < |e.Flat()| && FrameAt(e.Flat(), f.pos) && Halts(e.Flat()[f.pos].info, exception, stopAtAtomically)
    && UnwoundTo(e, f, exception, stopAtAtomically, s0, s)
  }

  lemma StoppedHere(e: Before, ci: nat, off: nat, f: Freeze, i: Info, exception: bool, stopAtAtomically: bool,
      s0: Stm, s: Stm)
    requires Reached(e, ci, off, f) && e.ls[ci][off..][0] == Ret(i) && i != Underflow
             && Halts(i, exception, stopAtAtomically)
    requires UnwoundTo(e, f, exception, stopAtAtomically, s0, s)
    ensures f.pos < |e.Flat()| && e.Flat()[f.pos] == Ret(i) && Stopped(e, f, exception, stopAtAtomically, s0, s)
  {
    hide Reached, FrameAt, UnwoundTo, Halts;
    ReachedFrame(e, ci, off, f);
  }

  /** What holds when the loop starts. */
  lemma Opened(tso: StgTSO, e: Before, stopHere: Option<nat>, exception: bool, stopAtAtomically: bool, s0: Stm)
    requires tso.Valid() && StopOk(Live(tso.stackobj), tso.stackobj.sp, stopHere)
    requires e.cs == tso.chunks && e.ls == Lives(tso.chunks) && e.o == Top(Live(tso.stackobj), e.o.stop)
    ensures |e.cs| == |e.ls| > 0 && e.ls[0] == Live(tso.stackobj) && e.o.from <= |e.ls[0]|
    ensures tso.stackobj in e.cs && tso.stackobj == e.cs[0] && tso.stackobj.words in Arrays(e.cs)
            && e.Flat() == Flat(tso.chunks)
    ensures UnwoundTo(e, Begin(e.o), exception, stopAtAtomically, s0, s0)
    ensures NotPast(e, 0, e.o.from, tso.stackobj.sp, tso.stackobj.sp + e.o.from, stopHere)
  {
    hide Links, Separate, Frames, StackOk, NoHalt, Depth, ReturnThrough, Updates, Join;
    LinksSize(e.cs, e.ls);
    StartFrames(e);
    assert NoHalt(e.Flat()[..e.o.from], exception, stopAtAtomically);
    StopAhead(e, tso.stackobj.sp, stopHere);
  }

  lemma StopAhead(e: Before, sp: nat, stopHere: Option<nat>)
    requires e.ls != [] && e.ls[0] != [] && e.o == Top(e.ls[0], e.o.stop) && StopOk(e.ls[0], sp, stopHere)
    ensures NotPast(e, 0, e.o.from, sp, sp + e.o.from, stopHere)
  {
    hide Frames;
    var ws := e.ls[0];
    assert ws[0..] == ws;
    if stopHere.Some? && e.o.from == 2 {
      PastHead(ws, stopHere.value - sp);
    }
  }

  lemma LinksSize(cs: seq<StgStack>, ls: seq<seq<Word>>)
    requires Links(cs, ls) && cs != []
    ensures |ls| == |cs| && ls[0] != []
  {
  }

  lemma StopFacts(tso: StgTSO, at: nat)
    requires tso.Valid() && StopOk(Live(tso.stackobj), tso.stackobj.sp, Some(at))
    ensures at + 1 < tso.stackobj.words.Length
    ensures StopUpdatee(Live(tso.stackobj), tso.stackobj.sp, Some(at)) == Some(tso.stackobj.words[at + 1])
    ensures at >= tso.stackobj.sp && at - tso.stackobj.sp <= |Live(tso.stackobj)|
    ensures tso.stackobj.words[at..] == Live(tso.stackobj)[at - tso.stackobj.sp..]
  {
    hide Links, ChunkOk, Separate, Frames;
    var top, k := Live(tso.stackobj), at - tso.stackobj.sp;
    assert HeadFrame(top[k..]) && top[k..][0] == top[k];
  }

  lemma StmFacts(heap: Heap, tso: StgTSO)
    ensures StmNow(heap, tso) == Stm(tso.Masks(), tso.trec, heap.aborted)
  {
  }

  /** A thread that is about to enter a closure is frozen as the entry of that closure with the words under it; any
      other is frozen as a return to its top frame. */
  lemma TopFacts(top: seq<Word>, stop: Option<Word>)
    ensures Top(top, stop).stop == stop
    ensures |top| >= 2 && top[0] == Ret(ENTER) ==> Top(top, stop).from == 2 && Top(top, stop).start == top[1]
    ensures |top| >= 2 && top[0] != Ret(ENTER) ==> Top(top, stop).from == 0 && Top(top, stop).start == DUMMY_RET
  {
  }

  lemma InfoFacts(i: Info, exception: bool, stopAtAtomically: bool, s: Stm)
    ensures (Terminal(i) <==> i == Underflow || i == Stop) && (i == Update ==> SizeOf(i) == 2)
            && (i == Info.Atomically ==> SizeOf(i) == 3)
    ensures Halts(i, exception, stopAtAtomically)
            <==> (i == Stop || (i == Catch && exception) || (i == Info.Atomically && stopAtAtomically))
    ensures IsStm(i) <==> i == Info.Atomically || i == CatchStm || i == CatchRetry
    ensures IsStm(i) ==> Past(i, s) == Past(CatchStm, s)
    ensures i == Update ==> Past(i, s) == s
  {
  }

  /** Only chunk boundaries are passed without words. */
  lemma SamePlace(e: Before, f: Freeze, f': Freeze, exception: bool, stopAtAtomically: bool, s0: Stm, s: Stm)
    requires UnwoundTo(e, f, exception, stopAtAtomically, s0, s) && f'.pos == f.pos
    ensures UnwoundTo(e, f', exception, stopAtAtomically, s0, s)
  {
  }

  lemma NoStop(e: Before, ci: nat, off: nat, sp0: nat, frame: nat)
    ensures NotPast(e, ci, off, sp0, frame, None)
  {
  }

  lemma AtTop(e: Before, ci: nat, off: nat, sp0: nat, frame: nat, stopHere: Option<nat>)
    requires NotPast(e, ci, off, sp0, frame, stopHere) && stopHere.Some?
    ensures ci == 0
  {
  }

  /** The loop has reached stop_here. */
  lemma AtStopHere(heap: Heap, tso: StgTSO, sp: nat, frame: nat, e: Before, ci: nat, off: nat, f: Freeze, sp0: nat,
      at: nat,
                   exception: bool, stopAtAtomically: bool, s0: Stm, s: Stm)
    requires At(heap, tso, sp, frame, e, ci, off, f) && NotPast(e, ci, off, sp0, frame, Some(at)) && frame >= at
    ensures Freezes(f, e.Flat(), e.o) && HeapIs(heap.closures, e.h, f, e.Flat(), e.o)
    ensures tso.chunks == e.cs && tso.stackobj == e.cs[0] && f.pos + sp0 == at && sp0 <= at
    ensures at <= tso.stackobj.words.Length && at - sp0 <= |e.ls[0]| && tso.stackobj.words[at..] == e.ls[0][at - sp0..]
    ensures !Stopped(e, f, exception, stopAtAtomically, s0, s)
  {
    hide HeapIs, UpdateesIn, Freezes, Links, Separate, Below, FrameAt, UnwoundTo;
    assert e.cs[0..] == e.cs;
    ReachedFrame(e, ci, off, f);
  }

  /** A frame that does not end the unwinding. */
  method Step(heap: Heap, tso: StgTSO, sp: nat, frame: nat, updatee: Option<Word>, info: Info, ghost e: Before,
      ghost ci: nat,
              ghost off: nat, ghost f: Freeze, ghost x: bool, ghost sa: bool, ghost s0: Stm, ghost sp0: nat,
                  ghost stopHere: Option<nat>)
    returns (sp': nat, frame': nat, ghost ci': nat, ghost off': nat, ghost f': Freeze)
    requires At(heap, tso, sp, frame, e, ci, off, f) && UnwoundTo(e, f, x, sa, s0, StmNow(heap, tso))
             && updatee == e.o.stop
    requires ci < |e.cs| == |e.ls| && off < |e.ls[ci]| && tso.stackobj in e.cs && tso.stackobj.words in Arrays(e.cs)
    requires e.ls[ci][off..][0] == Ret(info) && !Halts(info, x, sa) && TrecOk(e.Flat(), |s0.trec|)
    requires NotPast(e, ci, off, sp0, frame, stopHere) && (stopHere.None? || frame < stopHere.value)
    modifies heap`closures, heap`limit, heap`aborted, tso`stackobj, tso`totStackSize, tso`chunks, tso`blockex,
             tso`interruptible,
             tso`trec, tso.stackobj`sp, Arrays(e.cs)
    ensures At(heap, tso, sp', frame', e, ci', off', f') && UnwoundTo(e, f', x, sa, s0, StmNow(heap, tso))
    ensures if info == Underflow then ci' == ci + 1 && ci' < |e.cs|
            else ci' == ci && tso.stackobj == old(tso.stackobj) && tso.stackobj.sp == old(tso.stackobj.sp)
                 && off' == off + SizeOf(info) && frame' == frame + SizeOf(info) && off' <= |e.ls[ci]|
    ensures ci' < |e.cs| && off' < |e.ls[ci']| && tso.stackobj in e.cs && tso.stackobj.words in Arrays(e.cs)
    ensures NotPast(e, ci', off', sp0, frame', stopHere)
  {
    hide *;
    if stopHere.Some? {
      AtTop(e, ci, off, sp0, frame, stopHere);
      NotPastFrame(e, off, sp0, frame, stopHere);
    }
    Look(heap, tso, sp, frame, e, ci, off, f);
    ghost var s := StmNow(heap, tso);
    StmFacts(heap, tso);
    InfoFacts(info, x, sa, s);
    ci', off' := ci, off + SizeOf(info);
    if info == Update {
      sp', frame', f' := FreezeUpdate(heap, tso, sp, frame, updatee, e, ci, off, f);
      UnwoundFrame(e, ci, off, f, f', info, x, sa, s0, s);
    } else if info == Underflow {
      sp', frame', f' := FreezeUnderflow(heap, tso, sp, frame, e, ci, off, f);
      SamePlace(e, f, f', x, sa, s0, s);
      ci', off' := ci + 1, 0;
    } else if info == Info.Atomically {
      TransactionHere(e, ci, off, f, x, sa, s0, s);
      AbortAt(heap, tso, sp, frame, e, ci, off, f);
      sp', frame', f' := FreezeAtomically(heap, tso, sp, frame, e, ci, off, f);
      UnwoundFrame(e, ci, off, f, f', info, x, sa, s0, s);
    } else {
      if info == CatchStm || info == CatchRetry {
        TransactionHere(e, ci, off, f, x, sa, s0, s);
        AbortAt(heap, tso, sp, frame, e, ci, off, f);
      } else {
        RestoreAt(heap, tso, sp, frame, info, e, ci, off, f);
      }
      var n := SizeOf(info);
      PassAt(heap, tso, sp, frame, e, ci, off, f, n);
      sp', frame', f' := sp, frame + n, Pass(f, e.ls[ci][off..off + n]);
      PassPos(f, e.ls[ci][off..off + n]);
      UnwoundFrame(e, ci, off, f, f', info, x, sa, s0, s);
    }
    Look(heap, tso, sp', frame', e, ci', off', f');
    if stopHere.None? {
      NoStop(e, ci', off', sp0, frame');
    }
  }

  lemma PassPos(f: Freeze, b: seq<Word>)
    ensures Pass(f, b).pos == f.pos + |b|
  {
  }

  method AbortAt(heap: Heap, tso: StgTSO, sp: nat, frame: nat, ghost e: Before, ghost ci: nat, ghost off: nat,
      ghost f: Freeze)
    requires At(heap, tso, sp, frame, e, ci, off, f) && tso.trec != []
    modifies heap`aborted, tso`trec
    ensures At(heap, tso, sp, frame, e, ci, off, f) && StmNow(heap, tso) == Past(CatchStm, old(StmNow(heap, tso)))
  {
    hide Reached, HeapIs, UpdateesIn, Separate;
    AbortTransaction(heap, tso);
  }

  method RestoreAt(heap: Heap, tso: StgTSO, sp: nat, frame: nat, i: Info, ghost e: Before, ghost ci: nat,
      ghost off: nat, ghost f: Freeze)
    requires At(heap, tso, sp, frame, e, ci, off, f) && !IsStm(i)
    modifies tso`blockex, tso`interruptible
    ensures At(heap, tso, sp, frame, e, ci, off, f) && StmNow(heap, tso) == Past(i, old(StmNow(heap, tso)))
  {
    hide Reached, HeapIs, UpdateesIn, Separate;
    RestoreMasks(tso, i);
  }

  /** What each kind of frame that ends the unwinding leads to. */
  ghost predicate Ended(heap: Heap, tso: StgTSO, e: Before, f: Freeze, exception: Option<Word>, s: Stm,
      condemned: seq<nat>)
    requires f.pos < |e.Flat()| && e.Flat()[f.pos].Ret?
    reads heap`condemned, tso, tso.stackobj, tso.stackobj.words, tso.chunks, Arrays(tso.chunks)
  {
    match e.Flat()[f.pos].info
    case Stop => tso.whatNext == Killed && tso.chunks == [tso.stackobj] && Live(tso.stackobj) == []
        && tso.Masks() == s.masks
    case Catch =>
      && exception.Some? && f.pos + 2 <= |e.Flat()| && tso.Valid() && tso.whatNext == RunGHC
      && Flat(tso.chunks) == [Ret(ENTER), e.Flat()[f.pos + 1], Ret(AP_PV), exception.value]
                             + (if s.masks == Unmasked then [Ret(UnmaskRet)] else []) + e.Flat()[f.pos + 2..]
      && tso.Masks() == if s.masks == Uninterruptible then Uninterruptible else Interruptible
    case _ =>
      && tso.Valid() && tso.whatNext == RunGHC && Flat(tso.chunks) == [Ret(RET_P), NO_TREC] + e.Flat()[f.pos..]
      && |s.trec| == 1 && heap.condemned == condemned + s.trec && tso.Masks() == s.masks
  }

  /** A frame that ends the unwinding. */
  method Finish(heap: Heap, tso: StgTSO, sp: nat, frame: nat, info: Info, exception: Option<Word>,
      stopAtAtomically: bool, ghost e: Before,
                ghost ci: nat, ghost off: nat, ghost f: Freeze, ghost s0: Stm)
    requires At(heap, tso, sp, frame, e, ci, off, f) && tso.stackobj in e.cs && tso.stackobj.words in Arrays(e.cs)
    requires UnwoundTo(e, f, exception.Some?, stopAtAtomically, s0, StmNow(heap, tso)) && TrecOk(e.Flat(), |s0.trec|)
    requires ci < |e.ls| && off < |e.ls[ci]| && e.ls[ci][off..][0] == Ret(info)
             && Halts(info, exception.Some?, stopAtAtomically)
    requires f.pos < |e.Flat()| && e.Flat()[f.pos] == Ret(info)
    modifies heap`condemned, tso`whatNext, tso`blockex, tso`interruptible, tso.stackobj`sp, Arrays(e.cs)
    ensures Ended(heap, tso, e, f, exception, old(StmNow(heap, tso)), old(heap.condemned))
  {
    hide At, UnwoundTo, TrecOk, Chained, Reached, Live, Flat, StgTSO.Valid, HandlerWords, HandlerMasking, JoinFrom,
         Arrays, Ended;
    Look(heap, tso, sp, frame, e, ci, off, f);
    ghost var s := StmNow(heap, tso);
    if info == Stop {
      Kill(tso, frame, e, ci, off, f);
      EndedAtStop(heap, tso, e, f, exception, s, heap.condemned);
    } else if info == Catch {
      ApplyHandler(tso, frame, exception.value, e, ci, off, f);
      EndedAtCatch(heap, tso, e, f, exception, s, heap.condemned);
    } else {
      TransactionHere(e, ci, off, f, exception.Some?, stopAtAtomically, s0, StmNow(heap, tso));
      Condemn(heap, tso, frame, e, ci, off, f);
      EndedAtAtomically(heap, tso, e, f, exception, s, old(heap.condemned));
    }
  }

  lemma EndedAtStop(heap: Heap, tso: StgTSO, e: Before, f: Freeze, exception: Option<Word>, s: Stm,
      condemned: seq<nat>)
    requires f.pos < |e.Flat()| && e.Flat()[f.pos] == Ret(Stop) && tso.whatNext == Killed
    requires tso.chunks == [tso.stackobj] && Live(tso.stackobj) == [] && tso.Masks() == s.masks
    ensures Ended(heap, tso, e, f, exception, s, condemned)
  {
  }

  lemma EndedAtCatch(heap: Heap, tso: StgTSO, e: Before, f: Freeze, exception: Option<Word>, s: Stm,
      condemned: seq<nat>)
    requires f.pos + 2 <= |e.Flat()| && e.Flat()[f.pos] == Ret(Catch) && exception.Some?
    requires tso.Valid() && tso.whatNext == RunGHC && tso.Masks() == HandlerMasking(s.masks)
    requires Flat(tso.chunks) == HandlerWords(e.Flat()[f.pos + 1], exception.value, s.masks) + e.Flat()[f.pos + 2..]
    ensures Ended(heap, tso, e, f, exception, s, condemned)
  {
    HandlerIs(e.Flat()[f.pos + 1], exception.value, s.masks);
  }

  lemma EndedAtAtomically(heap: Heap, tso: StgTSO, e: Before, f: Freeze, exception: Option<Word>, s: Stm,
      condemned: seq<nat>)
    requires f.pos < |e.Flat()| && e.Flat()[f.pos] == Ret(Info.Atomically)
    requires tso.Valid() && tso.whatNext == RunGHC && Flat(tso.chunks) == [Ret(RET_P), NO_TREC] + e.Flat()[f.pos..]
    requires |s.trec| == 1 && heap.condemned == condemned + s.trec && tso.Masks() == s.masks
    ensures Ended(heap, tso, e, f, exception, s, condemned)
  {
  }

  /** stop_here->updatee */
  function UpdateeOf(words: array<Word>, stopHere: Option<nat>): Option<Word>
    reads words
  {
    if stopHere.Some? && stopHere.value + 1 < words.Length then Some(words[stopHere.value + 1]) else None
  }

  lemma StopHereFacts(tso: StgTSO, stopHere: Option<nat>)
    requires tso.Valid() && StopOk(Live(tso.stackobj), tso.stackobj.sp, stopHere)
    ensures UpdateeOf(tso.stackobj.words, stopHere) == StopUpdatee(Live(tso.stackobj), tso.stackobj.sp, stopHere)
    ensures stopHere.Some? ==>
              var at, live := stopHere.value, Live(tso.stackobj);
              && tso.stackobj.sp <= at <= tso.stackobj.words.Length && at - tso.stackobj.sp <= |live|
              && tso.stackobj.words[at..] == live[at - tso.stackobj.sp..]
  {
    hide StgTSO.Valid, StopOk, Live;
    if stopHere.Some? {
      StopFacts(tso, stopHere.value);
    }
  }

  method RaiseAsync(heap: Heap, tso: StgTSO, exception: Option<Word>, stopAtAtomically: bool, stopHere: Option<nat>)
    returns (ghost e: Before, ghost f: Freeze, ghost s: Stm)
    requires tso.Valid() && heap.Valid() && StopOk(Live(tso.stackobj), tso.stackobj.sp, stopHere)
    requires forall i | 0 <= i < |tso.chunks| :: tso.chunks[i].sp >= SPARE
    requires UpdateesIn(Flat(tso.chunks), heap.closures) && TrecOk(Flat(tso.chunks), |tso.trec|)
    modifies heap, tso`stackobj, tso`totStackSize, tso`chunks, tso`blockex, tso`interruptible, tso`trec, tso`whatNext,
             tso.chunks`sp, Arrays(tso.chunks)
    ensures e.cs == old(tso.chunks) && e.ls == old(Lives(tso.chunks)) && e.h == old(heap.closures)
    ensures e.o == Top(old(Live(tso.stackobj)), StopUpdatee(old(Live(tso.stackobj)), old(tso.stackobj.sp), stopHere))
    ensures Freezes(f, e.Flat(), e.o) && HeapIs(heap.closures, e.h, f, e.Flat(), e.o)
    ensures tso.trec == s.trec && heap.aborted == s.aborted
    ensures UnwoundTo(e, f, exception.Some?, stopAtAtomically, old(StmNow(heap, tso)), s)
    // up to stop_here
    ensures stopHere.Some? && !Stopped(e, f, exception.Some?, stopAtAtomically, old(StmNow(heap, tso)), s) ==>
              && f.pos == stopHere.value - old(tso.stackobj.sp) && tso.Masks() == s.masks
                  && tso.whatNext == old(tso.whatNext)
              && tso.chunks == old(tso.chunks) && tso.stackobj == old(tso.stackobj)
                  && tso.stackobj.sp == old(tso.stackobj.sp)
              && tso.stackobj.words[stopHere.value..] == old(tso.stackobj.words[stopHere.value..])
    // or until a frame ends the unwinding
    ensures stopHere.None? ==> Stopped(e, f, exception.Some?, stopAtAtomically, old(StmNow(heap, tso)), s)
    ensures Stopped(e, f, exception.Some?, stopAtAtomically, old(StmNow(heap, tso)), s) ==>
              Ended(heap, tso, e, f, exception, s, old(heap.condemned))
  {
    hide *;
    ghost var s0, x, sp0, cs, ls := StmNow(heap, tso), exception.Some?, tso.stackobj.sp, tso.chunks, Lives(tso.chunks);
    var updatee := UpdateeOf(tso.stackobj.words, stopHere);
    StopHereFacts(tso, stopHere);
    e := Before(tso.chunks, Lives(tso.chunks), Top(Live(tso.stackobj), updatee), heap.closures);
    TopFacts(Live(tso.stackobj), updatee);
    StmFacts(heap, tso);
    Opened(tso, e, stopHere, x, stopAtAtomically, s0);
    ghost var ci: nat, off: nat := 0, e.o.from;
    var sp: nat, frame: nat := Start(heap, tso, e);
    f := Begin(e.o);
    while stopHere.None? || frame < stopHere.value
      invariant ci < |e.cs| == |e.ls| && off <= |e.ls[ci]| && tso.stackobj in e.cs && tso.stackobj.words in Arrays(e.cs)
      invariant At(heap, tso, sp, frame, e, ci, off, f)
      invariant UnwoundTo(e, f, x, stopAtAtomically, s0, StmNow(heap, tso))
      invariant NotPast(e, ci, off, sp0, frame, stopHere)
      invariant ci == 0 ==> tso.stackobj.sp == sp0
      invariant tso.whatNext == old(tso.whatNext) && heap.condemned == old(heap.condemned)
      decreases |e.cs| - ci, |e.ls[ci]| - off
    {
      Look(heap, tso, sp, frame, e, ci, off, f);
      var info := tso.stackobj.words[frame].info;
      s := StmNow(heap, tso);
      StmFacts(heap, tso);
      InfoFacts(info, x, stopAtAtomically, s);
      if info == Stop || (info == Catch && exception.Some?) || (info == Info.Atomically && stopAtAtomically) {
        StoppedHere(e, ci, off, f, info, x, stopAtAtomically, s0, s);
        Finish(heap, tso, sp, frame, info, exception, stopAtAtomically, e, ci, off, f, s0);
        return;
      }
      sp, frame, ci, off, f := Step(heap, tso, sp, frame, updatee, info, e, ci, off, f, x, stopAtAtomically, s0, sp0,
          stopHere);
    }
    s := StmNow(heap, tso);
    StmFacts(heap, tso);
    AtTop(e, ci, off, sp0, frame, stopHere);
    AtStopHere(heap, tso, sp, frame, e, ci, off, f, sp0, stopHere.value, x, stopAtAtomically, s0, s);
  }
}
