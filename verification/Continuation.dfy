/** Capturing a delimited continuation (rts/Continuation.c), and resuming it (rts/ContinuationOps.cmm). */
module Continuation {
  import opened Options
  import opened Stacks

  // ----- What is captured -----

  /** Frames that may not be part of a continuation. */
  predicate Bails(i: Info) {
    i == Stop || i == Update || i == Atomically || i == CatchRetry || i == CatchStm
  }

  predicate IsPrompt(ws: seq<Word>, tag: Word) {
    HeadFrame(ws) && ws[0].info == Prompt && ws[1] == tag
  }

  /** Where the nearest matching prompt is, if no frame that may not be captured comes first. */
  ghost function Scan(ws: seq<Word>, tag: Word): Option<nat>
    decreases |ws|
  {
    if !HeadFrame(ws) then None
    else if IsPrompt(ws, tag) then Some(0)
    else if Bails(ws[0].info) || ws[0].info == Underflow then None
    else Shift(Scan(ws[SizeOf(ws[0].info)..], tag), SizeOf(ws[0].info))
  }

  ghost function Shift(o: Option<nat>, n: nat): Option<nat> {
    if o.None? then None else Some(o.value + n)
  }

  /** The outermost frame of `ws` that restores a masking state. */
  ghost function LastMask(ws: seq<Word>): Option<nat>
    decreases |ws|
  {
    if !HeadFrame(ws) then None
    else
      var n := SizeOf(ws[0].info);
      OrHere(LastMask(ws[n..]), n, IsMaskFrame(ws[0].info))
  }

  ghost function OrHere(later: Option<nat>, n: nat, here: bool): Option<nat> {
    if later.Some? then Some(later.value + n) else if here then Some(0) else None
  }

  // ----- What the scan means -----

  lemma {:induction false} ScanFinds(ws: seq<Word>, tag: Word)
    ensures var r := Scan(ws, tag);
            r.Some? ==> FrameAt(ws, r.value) && IsPrompt(ws[r.value..], tag)
    decreases |ws|
  {
    hide FrameAt, IsPrompt;
    if Scan(ws, tag).Some? {
      if IsPrompt(ws, tag) {
        FirstFrame(ws, tag);
      } else {
        var n := SizeOf(ws[0].info);
        ScanFinds(ws[n..], tag);
        PutBack(ws, Scan(ws[n..], tag).value);
      }
    }
  }

  lemma FirstFrame(ws: seq<Word>, tag: Word)
    requires IsPrompt(ws, tag)
    ensures HeadFrame(ws) && FrameAt(ws, 0) && ws[0..] == ws
  {
  }

  /** No frame before the one found is a matching prompt or may not be captured. */
  lemma {:induction false} ScanIsFirst(ws: seq<Word>, tag: Word, j: nat)
    requires FrameAt(ws, j) && Scan(ws, tag).Some? && j < Scan(ws, tag).value
    ensures !IsPrompt(ws[j..], tag) && !Bails(ws[j].info)
    decreases |ws|
  {
    var n := SizeOf(ws[0].info);
    if j > 0 {
      PastHead(ws, j);
      ScanIsFirst(ws[n..], tag, j - n);
      assert ws[n..][j - n..] == ws[j..] && ws[n..][j - n] == ws[j];
    } else {
      assert ws[0..] == ws;
    }
  }

  /** When nothing is found, a frame that may not be captured comes before every matching prompt. */
  lemma {:induction false} ScanMisses(ws: seq<Word>, tag: Word, j: nat) returns (b: nat)
    requires StackOk(ws) && Scan(ws, tag).None? && FrameAt(ws, j) && IsPrompt(ws[j..], tag)
    ensures b < j && FrameAt(ws, b) && Bails(ws[b].info)
    decreases |ws|
  {
    hide FrameAt, IsPrompt, Bails;
    b := 0;
    if j == 0 {
      AtStart(ws, tag);
    } else {
      PastHead(ws, j);
      HeadAt(ws);
      if !Bails(ws[0].info) {
        var n := SizeOf(ws[0].info);
        var b' := ScanMisses(ws[n..], tag, j - n);
        b := b' + n;
        PutBack(ws, b');
      }
    }
  }

  /** A scan that finds nothing does not start at a matching prompt. */
  lemma AtStart(ws: seq<Word>, tag: Word)
    requires Scan(ws, tag).None? && FrameAt(ws, 0)
    ensures !IsPrompt(ws[0..], tag)
  {
    assert ws[0..] == ws;
  }

  /** The frame at `j` is a prompt with this tag. */
  ghost predicate PromptAt(ws: seq<Word>, j: nat, tag: Word) {
    FrameAt(ws, j) && ws[j] == Ret(Prompt) && j + 1 < |ws| && ws[j + 1] == tag
  }

  /** What is found: a prompt with the tag, with no other one above it, nor the stop frame, an update frame or a frame
      of a transaction. */
  lemma Captures(ws: seq<Word>, tag: Word)
    requires Scan(ws, tag).Some?
    ensures var k := Scan(ws, tag).value;
            && PromptAt(ws, k, tag)
            && (forall j | 0 <= j < k && FrameAt(ws, j) ::
                  !PromptAt(ws, j, tag) && ws[j].info != Stop && ws[j].info != Update && ws[j].info != Atomically
                  && ws[j].info != CatchRetry && ws[j].info != CatchStm)
  {
    hide FrameAt, Scan;
    var k := Scan(ws, tag).value;
    ScanFinds(ws, tag);
    WordsAt(ws, k);
    forall j | 0 <= j < k && FrameAt(ws, j)
      ensures j < |ws| && ws[j].Ret? && !PromptAt(ws, j, tag) && !Bails(ws[j].info)
    {
      ScanIsFirst(ws, tag, j);
      WordsAt(ws, j);
    }
  }

  lemma WordsAt(ws: seq<Word>, k: nat)
    requires FrameAt(ws, k)
    ensures k < |ws| && HeadFrame(ws[k..]) && ws[k..][0] == ws[k] && (k + 1 < |ws| ==> ws[k..][1] == ws[k + 1])
    ensures k + SizeOf(ws[k].info) <= |ws|
  {
  }

  /** When nothing is found, the stop frame, an update frame or a frame of a transaction comes before every prompt with
      the tag. */
  lemma Refuses(ws: seq<Word>, tag: Word)
    requires StackOk(ws) && Scan(ws, tag).None?
    ensures exists b: nat :: FrameAt(ws, b)
              && (ws[b].info == Stop || ws[b].info == Update || ws[b].info == Atomically || ws[b].info == CatchRetry
                  || ws[b].info == CatchStm)
              && forall j | 0 <= j <= b :: !PromptAt(ws, j, tag)
  {
    hide FrameAt, Scan, StackOk;
    var b := FirstBail(ws, tag);
    forall j | 0 <= j <= b ensures !PromptAt(ws, j, tag) {
      if PromptAt(ws, j, tag) { WordsAt(ws, j); }
    }
  }

  lemma {:induction false} FirstBail(ws: seq<Word>, tag: Word) returns (b: nat)
    requires StackOk(ws) && Scan(ws, tag).None?
    ensures FrameAt(ws, b) && Bails(ws[b].info)
    ensures forall j | 0 <= j <= b && FrameAt(ws, j) :: !IsPrompt(ws[j..], tag)
    decreases |ws|
  {
    hide FrameAt, IsPrompt;
    b := 0;
    HeadAt(ws);
    AtStart(ws, tag);
    if !Bails(ws[0].info) {
      var n := SizeOf(ws[0].info);
      var b' := FirstBail(ws[n..], tag);
      b := b' + n;
      PutBack(ws, b');
      WordsAt(ws[n..], b');
      forall j | 0 <= j <= b && FrameAt(ws, j) ensures j <= |ws| && !IsPrompt(ws[j..], tag) {
        if j > 0 { PastHead(ws, j); }
        WordsAt(ws, j);
      }
    }
  }

  // ----- Masking frames -----

  lemma {:induction false} LastMaskSnoc(a: seq<Word>, b: seq<Word>)
    requires Frames(a) && HeadFrame(b) && |b| == SizeOf(b[0].info)
    ensures LastMask(a + b) == if IsMaskFrame(b[0].info) then Some(|a|) else LastMask(a)
    decreases |a|
  {
    hide LastMask, Frames, IsMaskFrame, SizeOf;
    if a == [] {
      LastMaskSingle(b);
      assert a + b == b;
    } else {
      FramesStep(a);
      HeadOfAppend(a, b);
      LastMaskStep(a);
      LastMaskStep(a + b);
      LastMaskSnoc(a[SizeOf(a[0].info)..], b);
    }
  }

  lemma LastMaskSingle(b: seq<Word>)
    requires HeadFrame(b) && |b| == SizeOf(b[0].info)
    ensures LastMask(b) == (if IsMaskFrame(b[0].info) then Some(0) else None) && LastMask([]) == None
  {
    assert b[SizeOf(b[0].info)..] == [];
  }

  lemma LastMaskStep(ws: seq<Word>)
    requires HeadFrame(ws)
    ensures var n := SizeOf(ws[0].info); LastMask(ws) == OrHere(LastMask(ws[n..]), n, IsMaskFrame(ws[0].info))
  {
  }

  /** The outermost mask frame alone decides the state after returning through all the frames. */
  lemma {:induction false} LastMaskDecides(ws: seq<Word>, m: Masking)
    requires Frames(ws)
    ensures var k := LastMask(ws);
            && (k.Some? ==> k.value < |ws| && ws[k.value].Ret? && IsMaskFrame(ws[k.value].info))
            && ReturnThrough(ws, m) == if k.Some? then Restored(ws[k.value].info) else m
    decreases |ws|
  {
    if ws != [] {
      var n := SizeOf(ws[0].info);
      LastMaskDecides(ws[n..], if IsMaskFrame(ws[0].info) then Restored(ws[0].info) else m);
    }
  }

  /** It is a mask frame, and no frame after it is one. */
  lemma {:induction false} LastMaskAt(ws: seq<Word>)
    requires Frames(ws) && LastMask(ws).Some?
    ensures FrameAt(ws, LastMask(ws).value) && IsMaskFrame(ws[LastMask(ws).value].info)
    decreases |ws|
  {
    hide FrameAt, IsMaskFrame;
    HeadAt(ws);
    var n := SizeOf(ws[0].info);
    if LastMask(ws[n..]).Some? {
      LastMaskAt(ws[n..]);
      PutBack(ws, LastMask(ws[n..]).value);
      WordsAt(ws[n..], LastMask(ws[n..]).value);
    }
  }

  lemma {:induction false} LastMaskIsLast(ws: seq<Word>, j: nat)
    requires Frames(ws) && FrameAt(ws, j) && IsMaskFrame(ws[j].info)
    ensures LastMask(ws).Some? && LastMask(ws).value >= j
    decreases |ws|
  {
    hide IsMaskFrame;
    if j > 0 {
      PastHead(ws, j);
      WordsAt(ws, j);
      LastMaskIsLast(ws[SizeOf(ws[0].info)..], j - SizeOf(ws[0].info));
    }
  }

  /** Replacing that frame replaces the state that the frames return to. */
  lemma {:induction false} LastMaskReplaced(ws: seq<Word>, m: Masking, m': Masking)
    requires Frames(ws) && LastMask(ws).Some?
    ensures var k := LastMask(ws).value; k < |ws| && ReturnThrough(ws[k := Ret(FrameFor(m'))], m) == m'
    decreases |ws|, 1
  {
    LastMaskDecides(ws, m);
    var k, n := LastMask(ws).value, SizeOf(ws[0].info);
    var ws' := ws[k := Ret(FrameFor(m'))];
    if LastMask(ws[n..]).Some? {
      ReplaceLater(ws, k, n, m, m');
    } else {
      ReplaceHead(ws, m, m');
    }
  }

  lemma ReplaceHead(ws: seq<Word>, m: Masking, m': Masking)
    requires Frames(ws) && ws != [] && IsMaskFrame(ws[0].info) && LastMask(ws[1..]).None?
    ensures ReturnThrough(ws[0 := Ret(FrameFor(m'))], m) == m'
  {
    hide LastMask;
    assert ws[0 := Ret(FrameFor(m'))][1..] == ws[1..];
    LastMaskDecides(ws[1..], m');
  }

  lemma ReplaceLater(ws: seq<Word>, k: nat, n: nat, m: Masking, m': Masking)
    requires Frames(ws) && ws != [] && n == SizeOf(ws[0].info) <= k < |ws| && LastMask(ws[n..]) == Some(k - n)
    ensures ReturnThrough(ws[k := Ret(FrameFor(m'))], m) == m'
    decreases |ws|, 0
  {
    hide LastMask;
    LastMaskReplaced(ws[n..], if IsMaskFrame(ws[0].info) then Restored(ws[0].info) else m, m');
    assert ws[k := Ret(FrameFor(m'))][n..] == ws[n..][k - n := Ret(FrameFor(m'))];
  }

  // ----- The continuation closure -----

  /** A CONTINUATION: the words, the frame that restores the masking state of the capture, and where the outermost
      captured mask frame is; no frame if the captured frames do not change the state. */
  datatype Captured = Captured(stack: seq<Word>, applyMaskFrame: Option<Info>, maskFrameOffset: nat)

  /** What captureContinuationAndAbort records for the words above the prompt, in masking state `m`. */
  ghost function Record(ws: seq<Word>, m: Masking): Captured {
    match LastMask(ws)
    case None => Captured(ws, None, 0)
    case Some(k) => Captured(ws, Some(FrameFor(m)), k)
  }

  /** What is recorded about masking: nothing if no captured frame restores a masking state, and otherwise where the
      outermost such frame is, and the frame that restores the state of the capture. */
  ghost predicate MaskRecorded(k: Captured, m: Masking) {
    match k.applyMaskFrame
    case None => forall j | 0 <= j && FrameAt(k.stack, j) ::
      k.stack[j].info != UnmaskRet && k.stack[j].info != MaskRet && k.stack[j].info != MaskUninterruptibleRet
    case Some(frame) =>
      && frame == (match m case Unmasked => UnmaskRet case Interruptible => MaskRet
                   case Uninterruptible => MaskUninterruptibleRet)
      && FrameAt(k.stack, k.maskFrameOffset)
      && (var i := k.stack[k.maskFrameOffset].info; i == UnmaskRet || i == MaskRet || i == MaskUninterruptibleRet)
      && forall j | k.maskFrameOffset < j && FrameAt(k.stack, j) ::
           k.stack[j].info != UnmaskRet && k.stack[j].info != MaskRet && k.stack[j].info != MaskUninterruptibleRet
  }

  lemma RecordsMask(ws: seq<Word>, m: Masking)
    requires Frames(ws)
    ensures MaskRecorded(Record(ws, m), m)
  {
    hide FrameAt, LastMask, Frames;
    if LastMask(ws).Some? { LastMaskAt(ws); }
    forall j | 0 <= j && FrameAt(ws, j) 
      ensures j < |ws| && ws[j].Ret? && (IsMaskFrame(ws[j].info) ==> LastMask(ws).Some? && j <= LastMask(ws).value)
    {
      WordsAt(ws, j);
      if IsMaskFrame(ws[j].info) { LastMaskIsLast(ws, j); }
    }
  }

  /** stg_control0zh: the masking state in which the argument of control0 runs after the abort. */
  function AbortState(k: Captured, m: Masking): Masking
    requires k.applyMaskFrame.Some? ==> k.maskFrameOffset < |k.stack| && k.stack[k.maskFrameOffset].Ret?
                                        && IsMaskFrame(k.stack[k.maskFrameOffset].info)
  {
    if k.applyMaskFrame.None? then m else Restored(k.stack[k.maskFrameOffset].info)
  }

  /** stg_CONTINUATION_apply in masking state `m`: the words it pushes, and the state in which the argument runs. */
  function Resumed(k: Captured, m: Masking): (seq<Word>, Masking)
    requires k.applyMaskFrame.Some? ==> k.maskFrameOffset < |k.stack| && IsMaskFrame(k.applyMaskFrame.value)
  {
    if k.applyMaskFrame.None? then (k.stack, m)
    else (k.stack[k.maskFrameOffset := Ret(FrameFor(m))], Restored(k.applyMaskFrame.value))
  }

  /** Aborting to the prompt restores the state that returning to the prompt would have restored. */
  lemma AbortRestoresPrompt(ws: seq<Word>, m: Masking)
    requires Frames(ws)
    ensures var k := Record(ws, m);
            && (k.applyMaskFrame.Some? ==>
                  k.maskFrameOffset < |ws| && ws[k.maskFrameOffset].Ret? && IsMaskFrame(ws[k.maskFrameOffset].info))
            && AbortState(k, m) == ReturnThrough(ws, m)
  {
    LastMaskDecides(ws, m);
  }

  /** Resuming re-establishes the state of the capture, if the captured frames changed it at all, and returning
      through the resumed frames restores the state of the resumer. */
  lemma ResumeRestoresBoth(ws: seq<Word>, m: Masking, resumer: Masking)
    requires Frames(ws)
    ensures var k := Record(ws, m);
            (k.applyMaskFrame.Some? ==> k.maskFrameOffset < |ws|)
            && var (pushed, state) := Resumed(k, resumer);
               && |pushed| == |ws| && (k.applyMaskFrame.None? ==> pushed == ws)
               && (forall i | 0 <= i < |ws| && i != k.maskFrameOffset :: pushed[i] == ws[i])
               && ReturnThrough(pushed, state) == resumer
               && (state == m <==> k.applyMaskFrame.Some? || m == resumer)
  {
    LastMaskDecides(ws, resumer);
    if LastMask(ws).Some? {
      LastMaskReplaced(ws, m, resumer);
    }
  }

  // ----- Phase 1: finding the prompt -----

  /** What phase 1 leaves for phase 2. */
  datatype Found = Found(totalWords: nat, inFirstChunk: bool, firstChunkWords: nat, lastChunkWords: nat,
      fullChunks: nat,
                         applyMaskFrame: Option<Info>, maskFrameOffset: nat)

  /** Phase 1 has walked to word `off` of chunk `ci` without finding a prompt or a frame that may not be captured. */
  ghost predicate Walked(cs: seq<StgStack>, ls: seq<seq<Word>>, ci: nat, off: nat, tag: Word, m: Masking,
                         total: nat, apply: Option<Info>, maskOffset: nat) {
    && ci < |cs| == |ls| && off <= |ls[ci]| && ChunkOk(ls[ci][off..], After(cs, ci))
    && total == |Bodies(ls, ci)|
    && Frames(Seen(ls, ci, off)) && Record(Seen(ls, ci, off), m) == Captured(Seen(ls, ci, off), apply, maskOffset)
    && Scan(Join(ls), tag) == Shift(Scan(JoinFrom(ls, ci, off), tag), |Seen(ls, ci, off)|)
  }

  lemma WalkedStart(cs: seq<StgStack>, ls: seq<seq<Word>>, tag: Word, m: Masking)
    requires |cs| == |ls| > 0 && ChunkOk(ls[0], After(cs, 0))
    ensures Walked(cs, ls, 0, 0, tag, m, 0, None, 0)
  {
    assert ls[0][0..] == ls[0] && Seen(ls, 0, 0) == [];
    if After(cs, 0).Some? { ChunkEnds(ls[0], After(cs, 0)); }
    SeenWhole(ls, 0, 0);
    assert JoinFrom(ls, 0, 0) == Join(ls);
  }

  lemma WalkedFrame(cs: seq<StgStack>, ls: seq<seq<Word>>, ci: nat, off: nat, tag: Word, m: Masking,
                    total: nat, apply: Option<Info>, maskOffset: nat, n: nat)
    requires Walked(cs, ls, ci, off, tag, m, total, apply, maskOffset)
    requires var ws := ls[ci][off..];
             !Terminal(ws[0].info) && !Bails(ws[0].info) && !IsPrompt(ws, tag) && n == SizeOf(ws[0].info)
    ensures off + n <= |ls[ci]|
    ensures var mask := IsMaskFrame(ls[ci][off].info);
            Walked(cs, ls, ci, off + n, tag, m, total, if mask then Some(FrameFor(m)) else apply,
                   if mask then total + off else maskOffset)
  {
    hide JoinFrom, Seen, Scan, LastMask, Bodies, Join, ChunkOk, Frames;
    var ws, seen, j := ls[ci][off..], Seen(ls, ci, off), JoinFrom(ls, ci, off);
    FrameParts(cs, ls, ci, off, n);
    var b, mask := ls[ci][off..off + n], IsMaskFrame(ls[ci][off].info);
    NextFrame(ls, ci, off, n);
    FramesSnoc(seen, b);
    LastMaskSnoc(seen, b);
    ScanStep(j, ws, n, tag);
    SeenLength(ls, ci, off);
    SeenLength(ls, ci, off + n);
    assert Record(seen + b, m) == Captured(seen + b, if mask then Some(FrameFor(m))
        else apply, if mask then total + off else maskOffset);
    ShiftTwice(Scan(j[n..], tag), n, |seen|);
  }

  lemma ShiftTwice(o: Option<nat>, a: nat, b: nat)
    ensures Shift(Shift(o, a), b) == Shift(o, b + a)
  {
  }

  lemma ScanStep(j: seq<Word>, ws: seq<Word>, n: nat, tag: Word)
    requires HeadFrame(ws) && n == SizeOf(ws[0].info) <= |j| && j[..n] == ws[..n]
    requires !IsPrompt(ws, tag) && !Bails(ws[0].info) && ws[0].info != Underflow
    ensures Scan(j, tag) == Shift(Scan(j[n..], tag), n)
  {
    assert j[0] == j[..n][0] == ws[0];
    if n > 1 { assert j[1] == j[..n][1] == ws[1]; }
  }

  lemma WalkedChunk(cs: seq<StgStack>, ls: seq<seq<Word>>, ci: nat, off: nat, tag: Word, m: Masking,
                    total: nat, apply: Option<Info>, maskOffset: nat)
    requires Walked(cs, ls, ci, off, tag, m, total, apply, maskOffset) && ls[ci][off..][0].info == Underflow
    requires forall k | 0 <= k < |cs| :: ChunkOk(ls[k], After(cs, k))
    ensures ci + 1 < |cs| && ls[ci][off..][1] == NextChunk(cs[ci + 1]) && off + 2 == |ls[ci]| && off == |Body(ls[ci])|
    ensures Walked(cs, ls, ci + 1, 0, tag, m, total + off, apply, maskOffset)
  {
    NextChunkSame(ls, ci, off);
    assert Body(ls[ci]) == ls[ci][..off] && ls[ci + 1][0..] == ls[ci + 1];
  }

  /** The walk has reached the prompt. */
  lemma WalkedToPrompt(cs: seq<StgStack>, ls: seq<seq<Word>>, ci: nat, off: nat, tag: Word, m: Masking,
                       total: nat, apply: Option<Info>, maskOffset: nat)
    requires Walked(cs, ls, ci, off, tag, m, total, apply, maskOffset) && IsPrompt(ls[ci][off..], tag)
    ensures Scan(Join(ls), tag) == Some(total + off) && total + off <= |Join(ls)|
    ensures Join(ls)[..total + off] == Seen(ls, ci, off)
    ensures off + 2 <= |ls[ci]| && total + off + 2 <= |Join(ls)|
    ensures Join(ls)[total + off + 2..] == JoinFrom(ls, ci, off + 2)
  {
    hide JoinFrom, Seen, Scan, Record, Frames;
    var ws, j, seen := ls[ci][off..], JoinFrom(ls, ci, off), Seen(ls, ci, off);
    Room(ws, After(cs, ci));
    NextFrame(ls, ci, off, 2);
    SeenWhole(ls, ci, off);
    SeenLength(ls, ci, off);
    PromptHead(j, ws, tag);
    AppendParts(seen, j);
  }

  lemma PromptHead(j: seq<Word>, ws: seq<Word>, tag: Word)
    requires IsPrompt(ws, tag) && 2 <= |j| && j[..2] == ws[..2]
    ensures Scan(j, tag) == Some(0)
  {
    assert j[0] == j[..2][0] == ws[0] && j[1] == j[..2][1] == ws[1];
  }

  lemma AppendParts(a: seq<Word>, b: seq<Word>)
    requires 2 <= |b|
    ensures (a + b)[..|a|] == a && (a + b)[|a| + 2..] == b[2..]
  {
  }

  /** The walk has reached a frame that may not be captured. */
  lemma WalkedToBail(cs: seq<StgStack>, ls: seq<seq<Word>>, ci: nat, off: nat, tag: Word, m: Masking,
                     total: nat, apply: Option<Info>, maskOffset: nat)
    requires Walked(cs, ls, ci, off, tag, m, total, apply, maskOffset)
    requires !IsPrompt(ls[ci][off..], tag) && Bails(ls[ci][off..][0].info)
    ensures Scan(Join(ls), tag) == None
  {
    var ws, j := ls[ci][off..], JoinFrom(ls, ci, off);
    if ws[0].info != Stop {
      Room(ws, After(cs, ci));
      NextFrame(ls, ci, off, SizeOf(ws[0].info));
      assert j[0] == j[..SizeOf(ws[0].info)][0] == ws[0];
    } else {
      assert After(cs, ci) == None && j == ws;
    }
  }

  /** The prompt is at word `off` of chunk `ci`, and `f` says so. */
  ghost predicate Located(cs: seq<StgStack>, ls: seq<seq<Word>>, ci: nat, off: nat, tag: Word, m: Masking, f: Found) {
    && off <= f.totalWords && ci < |ls| && off <= |ls[ci]|
    && Walked(cs, ls, ci, off, tag, m, f.totalWords - off, f.applyMaskFrame, f.maskFrameOffset)
    && IsPrompt(ls[ci][off..], tag)
    && f.inFirstChunk == (ci == 0)
    && f.firstChunkWords == (if ci == 0 then off else |Body(ls[0])|)
    && (ci > 0 ==> f.fullChunks == ci - 1 && f.lastChunkWords == off)
  }

  method FindPrompt(tso: StgTSO, tag: Word, ghost ls: seq<seq<Word>>) returns (r: Option<Found>, ghost ci: nat,
      ghost off: nat)
    requires tso.Valid() && ls == Lives(tso.chunks)
    ensures tso.Valid() && ls == Lives(tso.chunks)
    ensures r.None? ==> Scan(Join(ls), tag) == None
    ensures r.Some? ==> Located(tso.chunks, ls, ci, off, tag, tso.Masks(), r.value)
  {
    hide *;
    var stack := tso.stackobj;
    var frame := stack.sp;
    var total: nat, inFirst, first: nat, last: nat, full: nat := 0, true, 0, 0, 0;
    var apply: Option<Info> := None;
    var maskOffset: nat := 0;
    ci, off := 0, 0;
    TopChunk(tso, ls);
    WalkedStart(tso.chunks, ls, tag, tso.Masks());
    while true
      invariant tso.Valid() && ls == Lives(tso.chunks) && (ci == 0 ==> full == 0)
      invariant |tso.chunks| == |ls| && ci < |ls| && stack == tso.chunks[ci] && frame == stack.sp + off
      invariant Walked(tso.chunks, ls, ci, off, tag, tso.Masks(), total, apply, maskOffset) && off <= |ls[ci]|
      invariant inFirst == (ci == 0) && (ci > 0 ==> first == |Body(ls[0])| && full == ci - 1)
      decreases |ls| - ci, |ls[ci]| - off
    {
      AtFrame(tso, ls, ci, off, tag, total, apply, maskOffset);
      ApplyIs(tso.chunks, ls, ci, off, tag, tso.Masks(), total, apply, maskOffset);
      var info := stack.words[frame].info;
      var chunkWords := frame - stack.sp;
      if info == Prompt && stack.words[frame + 1] == tag {
        total := total + chunkWords;
        if inFirst { first := chunkWords; } else { last := chunkWords; }
        r := Some(Found(total, inFirst, first, last, full, apply, maskOffset));
        IsLocated(tso.chunks, ls, ci, off, tag, tso.Masks(), r.value);
        return;
      }
      if info == Underflow {
        WalkedChunk(tso.chunks, ls, ci, off, tag, tso.Masks(), total, apply, maskOffset);
        total := total + chunkWords;
        if inFirst { first := chunkWords; } else { full := full + 1; }
        stack := stack.words[frame + 1].stack;
        frame := stack.sp;
        inFirst := false;
        ci, off := ci + 1, 0;
        continue;
      }
      if Bails(info) {
        WalkedToBail(tso.chunks, ls, ci, off, tag, tso.Masks(), total, apply, maskOffset);
        return None, ci, off;
      }
      WalkedFrame(tso.chunks, ls, ci, off, tag, tso.Masks(), total, apply, maskOffset, SizeOf(info));
      if IsMaskFrame(info) {
        maskOffset := total + chunkWords;
        if apply == None {
          apply := Some(if !tso.blockex then UnmaskRet else if !tso.interruptible then MaskUninterruptibleRet
              else MaskRet);
          CurrentFrame(tso);
        }
      }
      frame := frame + SizeOf(info);
      off := off + SizeOf(info);
    }
  }

  lemma TopChunk(tso: StgTSO, ls: seq<seq<Word>>)
    requires tso.Valid() && ls == Lives(tso.chunks)
    ensures |tso.chunks| == |ls| > 0 && tso.stackobj == tso.chunks[0] && ChunkOk(ls[0], After(tso.chunks, 0))
    ensures forall k | 0 <= k < |ls| :: ChunkOk(ls[k], After(tso.chunks, k))
  {
  }

  lemma CurrentFrame(tso: StgTSO)
    ensures FrameFor(tso.Masks()) == if !tso.blockex then UnmaskRet
            else if !tso.interruptible then MaskUninterruptibleRet else MaskRet
  {
  }

  lemma IsLocated(cs: seq<StgStack>, ls: seq<seq<Word>>, ci: nat, off: nat, tag: Word, m: Masking, f: Found)
    requires off <= f.totalWords && Walked(cs, ls, ci, off, tag, m, f.totalWords - off, f.applyMaskFrame,
             f.maskFrameOffset)
    requires ci < |ls| && off <= |ls[ci]| && IsPrompt(ls[ci][off..], tag) && f.inFirstChunk == (ci == 0)
    requires f.firstChunkWords == (if ci == 0 then off else |Body(ls[0])|)
    requires ci > 0 ==> f.fullChunks == ci - 1 && f.lastChunkWords == off
    ensures Located(cs, ls, ci, off, tag, m, f)
  {
  }

  /** What the code reads where the walk has got to. */
  lemma AtFrame(tso: StgTSO, ls: seq<seq<Word>>, ci: nat, off: nat, tag: Word, total: nat, apply: Option<Info>,
      maskOffset: nat)
    requires tso.Valid() && ls == Lives(tso.chunks)
    requires Walked(tso.chunks, ls, ci, off, tag, tso.Masks(), total, apply, maskOffset)
    ensures var stack, ws := tso.chunks[ci], ls[ci][off..];
            var frame := stack.sp + off;
            && frame < stack.words.Length && stack.words[frame].Ret? && ws != []
                && ws[0] == stack.words[frame] == ls[ci][off]
            && frame + SizeOf(ws[0].info) <= stack.words.Length && off + SizeOf(ws[0].info) <= |ls[ci]|
            && SizeOf(ws[0].info) >= 1 && (ws[0].info == Prompt || ws[0].info == Underflow ==> SizeOf(ws[0].info) == 2)
            && (IsPrompt(ws, tag) <==> ws[0].info == Prompt && stack.words[frame + 1] == tag)
            && (ws[0].info == Underflow ==> |ws| == 2 && ws[1] == stack.words[frame + 1] && ws[1].NextChunk?)
            && (Bails(ws[0].info) || ws[0].info == Underflow || !Terminal(ws[0].info))
  {
    hide Seen, JoinFrom, Join, Bodies, Record, Scan, Frames, ChunkOk, IsPrompt, Bails, SizeOf, Terminal;
    var stack, ws := tso.chunks[ci], ls[ci][off..];
    assert ls[ci] == stack.words[stack.sp..];
    HeadFacts(ws, After(tso.chunks, ci), tag);
    assert |ws| >= 2 ==> ws[1] == stack.words[stack.sp + off + 1];
  }

  lemma ApplyIs(cs: seq<StgStack>, ls: seq<seq<Word>>, ci: nat, off: nat, tag: Word, m: Masking,
                total: nat, apply: Option<Info>, maskOffset: nat)
    requires Walked(cs, ls, ci, off, tag, m, total, apply, maskOffset)
    ensures apply.Some? ==> apply.value == FrameFor(m)
  {
  }

  lemma HeadFacts(ws: seq<Word>, next: Option<StgStack>, tag: Word)
    requires ChunkOk(ws, next)
    ensures ws != [] && ws[0].Ret? && SizeOf(ws[0].info) <= |ws|
    ensures ws[0].info == Prompt || ws[0].info == Underflow ==> SizeOf(ws[0].info) == 2 <= |ws|
    ensures IsPrompt(ws, tag) <==> ws[0].info == Prompt && ws[1] == tag
    ensures ws[0].info == Underflow ==> |ws| == 2 && ws[1].NextChunk?
    ensures Bails(ws[0].info) || ws[0].info == Underflow || !Terminal(ws[0].info)
  {
  }

  // ----- Phase 2: copying and unwinding -----

  class StgContinuation {
    const applyMaskFrame: Option<Info>
    const maskFrameOffset: nat
    const stack: array<Word>

    constructor (applyMaskFrame: Option<Info>, maskFrameOffset: nat, stack: array<Word>)
      ensures this.applyMaskFrame == applyMaskFrame && this.maskFrameOffset == maskFrameOffset && this.stack == stack
    {
      this.applyMaskFrame, this.maskFrameOffset, this.stack := applyMaskFrame, maskFrameOffset, stack;
    }

    ghost function Value(): Captured
      reads stack
    {
      Captured(stack[..], applyMaskFrame, maskFrameOffset)
    }
  }

  method Memcpy(dst: array<Word>, at: nat, src: array<Word>, from: nat, n: nat)
    requires at + n <= dst.Length && from + n <= src.Length && dst != src
    modifies dst
    ensures dst[..at + n] == old(dst[..at]) + src[from..from + n]
  {
    var i := 0;
    while i < n
      invariant 0 <= i <= n && dst[..at + i] == old(dst[..at]) + src[from..from + i]
    {
      dst[at + i] := src[from + i];
      i := i + 1;
      assert dst[..at + i] == dst[..at + i - 1] + [dst[at + i - 1]];
      assert src[from..from + i] == src[from..from + i - 1] + [src[from + i - 1]];
    }
  }

  /** Moves the stack pointer of the top chunk past `n` words of whole frames. */
  method AdvanceSp(tso: StgTSO, n: nat, ghost ls: seq<seq<Word>>)
    requires tso.Valid() && ls == Lives(tso.chunks) && ls != []
    requires n <= |ls[0]| && ChunkOk(ls[0][n..], After(tso.chunks, 0))
    modifies tso.stackobj`sp
    ensures tso.Valid() && Lives(tso.chunks) == ls[0 := ls[0][n..]]
  {
    hide ChunkOk, Links;
    ghost var cs := tso.chunks;
    assert ls[0] == Live(cs[0]);
    LinksTop(cs, ls, ls[0][n..]);
    tso.stackobj.sp := tso.stackobj.sp + n;
    assert Live(cs[0]) == ls[0][n..];
    assert Lives(cs) == ls[0 := ls[0][n..]];
  }

  /** pop_stack_chunk: what is left of the top chunk is given up. */
  method PopStackChunk(tso: StgTSO, ghost ls: seq<seq<Word>>)
    requires tso.Valid() && |tso.chunks| > 1 && ls == Lives(tso.chunks)
    modifies tso`stackobj, tso`totStackSize, tso`chunks, tso.stackobj`sp
    ensures tso.Valid() && tso.chunks == old(tso.chunks)[1..] && Lives(tso.chunks) == ls[1..]
  {
    hide ChunkOk, Links;
    var stack := tso.stackobj;
    TopEnds(tso, ls);
    AdvanceSp(tso, stack.words.Length - 2 - stack.sp, ls);
    OnlyUnderflow(tso);
    var retvals := tso.ThreadStackUnderflow();
    tso.NothingReturned();
  }

  lemma TopEnds(tso: StgTSO, ls: seq<seq<Word>>)
    requires tso.Valid() && |tso.chunks| > 1 && ls == Lives(tso.chunks)
    ensures |ls| > 1 && tso.stackobj.sp + 2 <= tso.stackobj.words.Length
    ensures |ls[0]| == tso.stackobj.words.Length - tso.stackobj.sp >= 2
            && ChunkOk(ls[0][|ls[0]| - 2..], After(tso.chunks, 0))
  {
    ChunkEnds(ls[0], After(tso.chunks, 0));
  }

  method CaptureContinuationAndAbort(tso: StgTSO, tag: Word) returns (cont: StgContinuation?)
    requires tso.Valid()
    modifies tso`stackobj, tso`totStackSize, tso`chunks, tso.chunks`sp
    ensures tso.Valid()
    ensures cont == null <==> Scan(old(Flat(tso.chunks)), tag) == None
    ensures cont == null ==> tso.chunks == old(tso.chunks) && forall c | c in tso.chunks :: c.sp == old(c.sp)
    ensures cont != null ==>
              var k := Scan(old(Flat(tso.chunks)), tag).value;
              && k + 2 <= |old(Flat(tso.chunks))|
              && cont.Value() == Record(old(Flat(tso.chunks))[..k], tso.Masks())
              && Flat(tso.chunks) == old(Flat(tso.chunks))[k + 2..]
    ensures cont != null ==>
              var flat, k := old(Flat(tso.chunks)), |cont.Value().stack|;
              && PromptAt(flat, k, tag) && k + 2 <= |flat| && cont.Value().stack == flat[..k]
              && Flat(tso.chunks) == flat[k + 2..]
              && (forall j | 0 <= j < k && FrameAt(flat, j) ::
                    !PromptAt(flat, j, tag) && flat[j].info != Stop && flat[j].info != Update
                    && flat[j].info != Atomically && flat[j].info != CatchRetry && flat[j].info != CatchStm)
    ensures cont != null ==> MaskRecorded(cont.Value(), tso.Masks())
    ensures cont == null ==>
              var flat := old(Flat(tso.chunks));
              exists b: nat :: FrameAt(flat, b)
                && (flat[b].info == Stop || flat[b].info == Update || flat[b].info == Atomically
                    || flat[b].info == CatchRetry || flat[b].info == CatchStm)
                && forall j | 0 <= j <= b :: !PromptAt(flat, j, tag)
  {
    hide StgTSO.Valid, Flat, Scan, Record, FrameAt, Frames, MaskRecorded, Arrays;
    ghost var flat := Flat(tso.chunks);
    Whole(tso);
    cont := Capture(tso, tag);
    CapturedWords(flat, tag, tso.Masks());
    if cont != null {
      Captures(flat, tag);
      FramesBefore(flat, Scan(flat, tag).value);
      RecordsMask(flat[..Scan(flat, tag).value], tso.Masks());
    } else {
      Refuses(flat, tag);
    }
  }

  lemma FramesBefore(ws: seq<Word>, k: nat)
    requires FrameAt(ws, k)
    ensures k < |ws| && Frames(ws[..k])
  {
  }

  lemma Whole(tso: StgTSO)
    requires tso.Valid()
    ensures StackOk(Flat(tso.chunks))
  {
    hide Chain, Flat;
    ChainStackOk(tso.chunks);
  }

  method Capture(tso: StgTSO, tag: Word) returns (cont: StgContinuation?)
    requires tso.Valid()
    modifies tso`stackobj, tso`totStackSize, tso`chunks, tso.chunks`sp
    ensures tso.Valid()
    ensures cont == null <==> Scan(old(Flat(tso.chunks)), tag) == None
    ensures cont == null ==> tso.chunks == old(tso.chunks) && forall c | c in tso.chunks :: c.sp == old(c.sp)
    ensures cont != null ==>
              var k := Scan(old(Flat(tso.chunks)), tag).value;
              && k + 2 <= |old(Flat(tso.chunks))|
              && cont.Value() == Record(old(Flat(tso.chunks))[..k], tso.Masks())
              && Flat(tso.chunks) == old(Flat(tso.chunks))[k + 2..]
  {
    hide Walked, Located, Record, StgTSO.Valid, JoinFrom, Seen, Lives, Apart, ChunkOk, Scan, Join, Bodies;
    ghost var ls := Lives(tso.chunks);
    var found;
    ghost var ci, off;
    found, ci, off := FindPrompt(tso, tag, ls);
    if found.None? {
      return null;
    }
    var f := found.value;
    LocatedFacts(tso.chunks, ls, ci, off, tag, tso.Masks(), f);
    var contStack := NewArray(tso, f.totalWords, ls);
    cont := NewContinuation(tso, f, contStack, ls);
    Unwind(tso, contStack, f, ls, ci, off);
  }

  lemma CapturedWords(flat: seq<Word>, tag: Word, m: Masking)
    ensures Scan(flat, tag).Some? && Scan(flat, tag).value <= |flat| ==>
              Record(flat[..Scan(flat, tag).value], m).stack == flat[..Scan(flat, tag).value]
  {
  }

  method NewContinuation(tso: StgTSO, f: Found, a: array<Word>,
      ghost ls: seq<seq<Word>>) returns (cont: StgContinuation)
    requires tso.Valid() && ls == Lives(tso.chunks) && Apart(a, tso.chunks)
    ensures cont.stack == a && cont.applyMaskFrame == f.applyMaskFrame && cont.maskFrameOffset == f.maskFrameOffset
    ensures tso.Valid() && ls == Lives(tso.chunks) && Apart(a, tso.chunks)
  {
    cont := new StgContinuation(f.applyMaskFrame, f.maskFrameOffset, a);
  }

  /** allocate */
  method NewArray(tso: StgTSO, n: nat, ghost ls: seq<seq<Word>>) returns (a: array<Word>)
    requires tso.Valid() && ls == Lives(tso.chunks)
    ensures fresh(a) && a.Length == n && Apart(a, tso.chunks) && tso.Valid() && ls == Lives(tso.chunks)
  {
    a := new Word[n](_ => Raw(0));
  }

  /** What phase 1 tells phase 2. */
  lemma LocatedFacts(cs: seq<StgStack>, ls: seq<seq<Word>>, ci: nat, off: nat, tag: Word, m: Masking, f: Found)
    requires Located(cs, ls, ci, off, tag, m, f)
    ensures ci < |ls| == |cs| && off + 2 <= |ls[ci]| && f.totalWords == |Bodies(ls, ci)| + off
    ensures ChunkOk(ls[ci][off..], After(cs, ci)) && ChunkOk(ls[ci][off + 2..], After(cs, ci))
    ensures Scan(Join(ls), tag) == Some(f.totalWords) && f.totalWords + 2 <= |Join(ls)|
    ensures Join(ls)[..f.totalWords] == Seen(ls, ci, off) && Join(ls)[f.totalWords + 2..] == JoinFrom(ls, ci, off + 2)
    ensures Record(Seen(ls, ci, off), m) == Captured(Seen(ls, ci, off), f.applyMaskFrame, f.maskFrameOffset)
    ensures f.inFirstChunk == (ci == 0) && f.firstChunkWords == (if ci == 0 then off else |Body(ls[0])|)
    ensures ci > 0 ==> f.fullChunks == ci - 1 && f.lastChunkWords == off
  {
    hide Walked, JoinFrom, Seen, Record, ChunkOk, Scan, IsPrompt, Join, Bodies, Body;
    var total: nat := f.totalWords - off;
    assert total + off == f.totalWords;
    WalkedFacts(cs, ls, ci, off, tag, m, total, f.applyMaskFrame, f.maskFrameOffset);
    WalkedToPrompt(cs, ls, ci, off, tag, m, total, f.applyMaskFrame, f.maskFrameOffset);
  }

  lemma WalkedFacts(cs: seq<StgStack>, ls: seq<seq<Word>>, ci: nat, off: nat, tag: Word, m: Masking,
                    total: nat, apply: Option<Info>, maskOffset: nat)
    requires Walked(cs, ls, ci, off, tag, m, total, apply, maskOffset) && off <= |ls[ci]|
             && IsPrompt(ls[ci][off..], tag)
    ensures ci < |ls| == |cs| && off + 2 <= |ls[ci]| && total == |Bodies(ls, ci)|
    ensures ChunkOk(ls[ci][off..], After(cs, ci)) && ChunkOk(ls[ci][off + 2..], After(cs, ci))
    ensures Record(Seen(ls, ci, off), m) == Captured(Seen(ls, ci, off), apply, maskOffset)
  {
    hide Record, Seen, JoinFrom;
    FrameParts(cs, ls, ci, off, 2);
  }

  ghost predicate Apart(a: array<Word>, cs: seq<StgStack>) {
    forall i | 0 <= i < |cs| :: cs[i].words != a
  }

  /** Copies the first `n` words of the top chunk behind what has been copied already. */
  method CopyTop(tso: StgTSO, a: array<Word>, p: nat, n: nat, ghost done: seq<Word>, ghost ls: seq<seq<Word>>)
    requires tso.Valid() && ls == Lives(tso.chunks) && Apart(a, tso.chunks)
    requires n <= |ls[0]| && p + n <= a.Length && a[..p] == done
    modifies a
    ensures tso.Valid() && Lives(tso.chunks) == ls && a[..p + n] == done + ls[0][..n]
  {
    hide ChunkOk, Links;
    var stack := tso.stackobj;
    assert Apart(a, tso.chunks) && ls[0] == Live(stack);
    Memcpy(a, p, stack.words, stack.sp, n);
    assert stack.words[stack.sp..stack.sp + n] == ls[0][..n];
    forall i | 0 <= i < |tso.chunks| ensures Live(tso.chunks[i]) == ls[i] {}
    assert Lives(tso.chunks) == ls;
  }

  /** The copying and the unwinding. */
  method Unwind(tso: StgTSO, contStack: array<Word>, f: Found, ghost ls: seq<seq<Word>>, ghost ci: nat, ghost off: nat)
    requires tso.Valid() && ls == Lives(tso.chunks) && ci < |ls| && off + 2 <= |ls[ci]|
    requires ChunkOk(ls[ci][off..], After(tso.chunks, ci)) && ChunkOk(ls[ci][off + 2..], After(tso.chunks, ci))
    requires contStack.Length == f.totalWords == |Bodies(ls, ci)| + off && Apart(contStack, tso.chunks)
    requires f.inFirstChunk == (ci == 0) && f.firstChunkWords == (if ci == 0 then off else |Body(ls[0])|)
    requires ci > 0 ==> f.fullChunks == ci - 1 && f.lastChunkWords == off
    modifies tso`stackobj, tso`totStackSize, tso`chunks, tso.chunks`sp, contStack
    ensures tso.Valid() && Join(Lives(tso.chunks)) == JoinFrom(ls, ci, off + 2)
    ensures contStack[..] == Seen(ls, ci, off)
  {
    hide StgTSO.Valid, Lives, ChunkOk, Apart, JoinFrom, Seen, Suffix, Tail, Body;
    ghost var cs := tso.chunks;
    TsoFacts(tso, ls);
    TailFacts(cs, ci);
    if f.inFirstChunk {
      UnwindFirst(tso, contStack, f.firstChunkWords, ls);
    } else {
      UnwindChunks(tso, contStack, f, ls, ci, off);
    }
    TsoFacts(tso, Suffix(ls, ci, off));
    DropPrompt(tso, ls, ci, off, cs);
    WholeArray(contStack);
  }

  /** The prompt is in the top chunk. */
  method UnwindFirst(tso: StgTSO, a: array<Word>, off: nat, ghost ls: seq<seq<Word>>)
    requires tso.Valid() && ls == Lives(tso.chunks) && ls != [] && off <= |ls[0]|
             && ChunkOk(ls[0][off..], After(tso.chunks, 0))
    requires a.Length == off && Apart(a, tso.chunks)
    modifies tso.stackobj`sp, a
    ensures tso.Valid() && Lives(tso.chunks) == Suffix(ls, 0, off) && a[..off] == Seen(ls, 0, off)
            && tso.chunks == Tail(tso.chunks, 0)
  {
    hide StgTSO.Valid, Lives, ChunkOk, Apart;
    TsoFacts(tso, ls);
    CopyTop(tso, a, 0, off, [], ls);
    AdvanceSp(tso, off, ls);
    assert tso.chunks[0..] == tso.chunks && ls[0 := ls[0][off..]] == [ls[0][off..]] + ls[1..];
  }

  /** The prompt frame itself goes last. */
  method DropPrompt(tso: StgTSO, ghost ls: seq<seq<Word>>, ghost ci: nat, ghost off: nat, ghost cs: seq<StgStack>)
    requires ci < |ls| == |cs| && off + 2 <= |ls[ci]| && tso.Valid() && Lives(tso.chunks) == Suffix(ls, ci, off)
    requires tso.chunks == Tail(cs, ci) && ChunkOk(ls[ci][off + 2..], After(cs, ci))
    modifies tso.stackobj`sp
    ensures tso.Valid() && Join(Lives(tso.chunks)) == JoinFrom(ls, ci, off + 2)
  {
    hide StgTSO.Valid, Lives, ChunkOk, JoinFrom, Suffix, Tail;
    TailFacts(cs, ci);
    SuffixFacts(ls, ci, off);
    SuffixFacts(ls, ci, off + 2);
    SuffixStep(ls, ci, off, 2);
    AdvanceSp(tso, 2, Suffix(ls, ci, off));
  }

  /** The first `i` chunks have been copied and given up. */
  ghost predicate Popped(tso: StgTSO, a: array<Word>, cs: seq<StgStack>, ls: seq<seq<Word>>, i: nat, ci: nat)
    reads tso`stackobj, tso`chunks, tso.chunks, Arrays(tso.chunks), a
  {
    && i <= ci < |ls| == |cs| && tso.Valid() && tso.chunks == Tail(cs, i) && Lives(tso.chunks) == Tail(ls, i)
    && Apart(a, cs) && |Bodies(ls, i)| <= |Bodies(ls, ci)| <= a.Length && a[..|Bodies(ls, i)|] == Bodies(ls, i)
  }

  method UnwindChunks(tso: StgTSO, contStack: array<Word>, f: Found, ghost ls: seq<seq<Word>>, ghost ci: nat,
      ghost off: nat)
    requires tso.Valid() && ls == Lives(tso.chunks) && 0 < ci < |ls| && off + 2 <= |ls[ci]|
    requires ChunkOk(ls[ci][off..], After(tso.chunks, ci))
    requires contStack.Length == f.totalWords == |Bodies(ls, ci)| + off && Apart(contStack, tso.chunks)
    requires f.firstChunkWords == |Body(ls[0])| && f.fullChunks == ci - 1 && f.lastChunkWords == off
    modifies tso`stackobj, tso`totStackSize, tso`chunks, tso.chunks`sp, contStack
    ensures tso.Valid() && tso.chunks == Tail(old(tso.chunks), ci) && Lives(tso.chunks) == Suffix(ls, ci, off)
    ensures contStack[..f.totalWords] == Seen(ls, ci, off)
  {
    hide StgTSO.Valid, Lives, ChunkOk, Suffix, Tail, Seen, Popped;
    ghost var cs := tso.chunks;
    PoppedNone(tso, contStack, cs, ls, ci);
    var p := CopyWholeChunks(tso, contStack, f, cs, ls, ci);
    SuffixFacts(ls, ci, off);
    PoppedAll(tso, contStack, cs, ls, ci);
    CopyLast(tso, contStack, p, f.lastChunkWords, ls, ci, cs);
    AdvanceSp(tso, f.lastChunkWords, Tail(ls, ci));
  }

  lemma PoppedNone(tso: StgTSO, a: array<Word>, cs: seq<StgStack>, ls: seq<seq<Word>>, ci: nat)
    requires tso.Valid() && cs == tso.chunks && ls == Lives(cs) && ci < |ls| && |Bodies(ls, ci)| <= a.Length
             && Apart(a, cs)
    ensures Popped(tso, a, cs, ls, 0, ci)
  {
    hide ChunkOk;
    TailFacts(cs, 0);
    TailFacts(ls, 0);
  }

  lemma PoppedAll(tso: StgTSO, a: array<Word>, cs: seq<StgStack>, ls: seq<seq<Word>>, ci: nat)
    requires Popped(tso, a, cs, ls, ci, ci)
    ensures |ls| == |cs| && ci < |ls| && tso.Valid() && tso.chunks == Tail(cs, ci)
            && Lives(tso.chunks) == Tail(ls, ci) && Apart(a, cs)
    ensures |Bodies(ls, ci)| <= a.Length && a[..|Bodies(ls, ci)|] == Bodies(ls, ci)
    ensures tso.stackobj == cs[ci] && After(tso.chunks, 0) == After(cs, ci)
  {
    hide ChunkOk, Tail;
    TailFacts(cs, ci);
  }

  lemma PoppedTop(tso: StgTSO, a: array<Word>, cs: seq<StgStack>, ls: seq<seq<Word>>, i: nat, ci: nat)
    requires Popped(tso, a, cs, ls, i, ci)
    ensures tso.stackobj in cs
  {
    hide ChunkOk, Tail;
    TailFacts(cs, i);
  }

  lemma BodiesNone(ls: seq<seq<Word>>)
    ensures Bodies(ls, 0) == []
  {
  }

  /** Phase 2 up to the chunk that holds the prompt. */
  method CopyWholeChunks(tso: StgTSO, contStack: array<Word>, f: Found, ghost cs: seq<StgStack>,
      ghost ls: seq<seq<Word>>, ghost ci: nat)
    returns (p: nat)
    requires 0 < ci < |ls| && Popped(tso, contStack, cs, ls, 0, ci)
    requires f.firstChunkWords == |Body(ls[0])| && f.fullChunks == ci - 1
    modifies tso`stackobj, tso`totStackSize, tso`chunks, cs`sp, contStack
    ensures p == |Bodies(ls, ci)| && Popped(tso, contStack, cs, ls, ci, ci)
  {
    hide Popped, Bodies, Body;
    assert |Bodies(ls, 0)| == 0 by { BodiesNone(ls); }
    PoppedTop(tso, contStack, cs, ls, 0, ci);
    p := CopyAndPop(tso, contStack, 0, f.firstChunkWords, ls, 0, cs, ci);
    var i := 0;
    while i < f.fullChunks
      invariant 0 <= i <= f.fullChunks && p == |Bodies(ls, i + 1)| && Popped(tso, contStack, cs, ls, i + 1, ci)
    {
      PoppedTop(tso, contStack, cs, ls, i + 1, ci);
      var chunkWords := ChunkWords(tso, contStack, ls, i + 1, cs, ci);
      p := CopyAndPop(tso, contStack, p, chunkWords, ls, i + 1, cs, ci);
      i := i + 1;
    }
  }

  method ChunkWords(tso: StgTSO, a: array<Word>, ghost ls: seq<seq<Word>>, ghost i: nat, ghost cs: seq<StgStack>,
      ghost ci: nat)
    returns (n: nat)
    requires i < ci && Popped(tso, a, cs, ls, i, ci)
    ensures i < |ls| && n == |Body(ls[i])| && Popped(tso, a, cs, ls, i, ci)
  {
    hide StgTSO.Valid, Lives, ChunkOk, Tail;
    TailFacts(cs, i);
    TailFacts(ls, i);
    TopEnds(tso, Tail(ls, i));
    n := tso.stackobj.words.Length - tso.stackobj.sp - 2;
  }

  method CopyAndPop(tso: StgTSO, a: array<Word>, p: nat, n: nat, ghost ls: seq<seq<Word>>, ghost i: nat,
      ghost cs: seq<StgStack>, ghost ci: nat)
    returns (r: nat)
    requires i < ci < |ls| && Popped(tso, a, cs, ls, i, ci) && p == |Bodies(ls, i)| && n == |Body(ls[i])|
    modifies tso`stackobj, tso`totStackSize, tso`chunks, tso.stackobj`sp, a
    ensures r == |Bodies(ls, i + 1)| && Popped(tso, a, cs, ls, i + 1, ci)
  {
    hide StgTSO.Valid, Lives, ChunkOk, Tail, Apart, Body, Arrays;
    TailFacts(cs, i);
    TailFacts(ls, i);
    BodiesGrow(ls, i + 1, ci);
    CopyBody(tso, a, p, n, ls, i, cs, ci);
    r := p + n;
    PopStackChunk(tso, Tail(ls, i));
  }

  method CopyLast(tso: StgTSO, a: array<Word>, p: nat, off: nat, ghost ls: seq<seq<Word>>, ghost ci: nat,
      ghost cs: seq<StgStack>)
    requires ci < |ls| == |cs| && tso.Valid() && tso.chunks == Tail(cs, ci) && Lives(tso.chunks) == Tail(ls, ci)
             && Apart(a, cs)
    requires p == |Bodies(ls, ci)| && p + off <= a.Length && a[..p] == Bodies(ls, ci) && off <= |ls[ci]|
    modifies a
    ensures tso.Valid() && Lives(tso.chunks) == Tail(ls, ci) && a[..p + off] == Seen(ls, ci, off)
  {
    hide StgTSO.Valid, Lives, ChunkOk;
    CopyTop(tso, a, p, off, Bodies(ls, ci), Tail(ls, ci));
  }

  /** Copies what chunk `i`, now on top, contributes to the stack. */
  method CopyBody(tso: StgTSO, a: array<Word>, p: nat, n: nat, ghost ls: seq<seq<Word>>, ghost i: nat,
      ghost cs: seq<StgStack>, ghost ci: nat)
    requires i < ci < |ls| == |cs| && tso.Valid() && tso.chunks == Tail(cs, i) && Lives(tso.chunks) == Tail(ls, i)
             && Apart(a, cs)
    requires p == |Bodies(ls, i)| && |Bodies(ls, ci)| <= a.Length && p <= a.Length && a[..p] == Bodies(ls, i)
    requires n == |Body(ls[i])|
    modifies a
    ensures tso.Valid() && Lives(tso.chunks) == Tail(ls, i)
    ensures p + n == |Bodies(ls, i + 1)| <= a.Length && a[..p + n] == Bodies(ls, i + 1)
  {
    hide StgTSO.Valid, Lives, ChunkOk;
    TopEnds(tso, Tail(ls, i));
    BodiesGrow(ls, i + 1, ci);
    CopyTop(tso, a, p, n, Bodies(ls, i), Tail(ls, i));
  }

  lemma {:induction false} BodiesGrow(ls: seq<seq<Word>>, i: nat, j: nat)
    requires i <= j <= |ls|
    ensures |Bodies(ls, i)| <= |Bodies(ls, j)|
    decreases j - i
  {
    if i < j {
      BodiesGrow(ls, i, j - 1);
    }
  }
}
